/** What every run of the trust plane keeps, whatever the interleaving of its three threads. */
module TrustPlaneSafety {
  import opened Bytes
  import opened ProposalQueue
  import opened Protocol
  import opened TrustPlane
  import Vault

  // --- Signatures, approvals, records ------------------------------------------------

  /** The signatures whose replies have been issued, in order. */
  function Released(replies: seq<Reply>): seq<Issue>
  {
    if replies == [] then []
    else
      var n := |replies| - 1;
      Released(replies[..n]) + if replies[n].Signed? then [replies[n].issue] else []
  }

  /** The signatures the ledger has an approve record of, in order. */
  function Recorded(ledger: seq<Event>): seq<Issue>
  {
    if ledger == [] then []
    else
      var n := |ledger| - 1;
      Recorded(ledger[..n]) + if ledger[n].ApproveLogged? then [ledger[n].issue] else []
  }

  function Ids(issues: seq<Issue>): (ids: seq<nat>)
    ensures |ids| == |issues| && forall k :: 0 <= k < |ids| ==> ids[k] == issues[k].id
  {
    seq(|issues|, k requires 0 <= k < |issues| => issues[k].id)
  }

  /** The signature is genuine, and over the bytes the queue holds for its proposal. */
  ghost predicate OverQueuedBytes(cfg: Config, items: seq<Proposal>, i: Issue)
  {
    Genuine(cfg, i) && Lookup(items, i.id).Some? && Lookup(items, i.id).value.payload == i.over
  }

  /** These signatures belong, one each, to exactly the approved proposals. */
  ghost predicate ApprovedExactly(cfg: Config, items: seq<Proposal>, issues: seq<Issue>)
  {
    Distinct(Ids(issues))
    && (forall id: nat :: id in Ids(issues) <==> IsApproved(items, id))
    && (forall k :: 0 <= k < |issues| ==> OverQueuedBytes(cfg, items, issues[k]))
  }

  /** Where the three counts stand at each point of the loop: between the verdict and its record,
      and between the record and the reply, they are one apart. */
  ghost predicate Agreement(cfg: Config, s: Plane)
  {
    var released, recorded := Released(s.replies), Recorded(s.ledger);
    match s.loop
    case ResolvedAs(i) => recorded == released && ApprovedExactly(cfg, s.items, released + [i])
    case Replying(Signed(i)) => recorded == released + [i] && ApprovedExactly(cfg, s.items, recorded)
    case _ => recorded == released && ApprovedExactly(cfg, s.items, released)
  }

  // --- What the loop knows while it works --------------------------------------------

  /** A proposal body reply shows the proposal as it is queued. */
  predicate Shows(items: seq<Proposal>, r: Reply)
  {
    r.Body? ==>
      var p := Lookup(items, r.id);
      p.Some? && p.value.provenance == r.provenance && p.value.payload == r.payload
  }

  ghost predicate LoopKnows(cfg: Config, s: Plane)
  {
    match s.loop
    case Fetched(id, w, payload) => IsPending(s.items, id) && Lookup(s.items, id).value.payload == payload
    case SignedOff(i) => IsPending(s.items, i.id) && OverQueuedBytes(cfg, s.items, i)
    case Listing(ids, done) => forall id :: id in ids ==> Lookup(s.items, id).Some?
    case Replying(r) => Shows(s.items, r)
    case _ => true
  }

  ghost predicate AllShown(s: Plane)
  {
    forall k :: 0 <= k < |s.replies| ==> Shows(s.items, s.replies[k])
  }

  // --- Requests and replies ----------------------------------------------------------

  /** The replies a request may get. */
  predicate Answers(q: Request, r: Reply)
  {
    r == Failure ||
    match q
    case Unlock(_) => r == Done
    case Lock => r == Done
    case Shutdown => r == Done
    case Deny(_) => r == Done
    case Status => r.StateIs?
    case Approve(id, _) => r.Signed? && r.issue.id == id
    case ListPending => r.PendingList?
    case Fetch(id) => r.Body? && r.id == id
    case Reveal(_) => r.RootSecret?
    case Address(_, _) => r.AddressIs?
    case _ => false
  }

  /** What the loop is doing is the request it read last. */
  predicate Serves(l: Loop, q: Request)
  {
    match l
    case AtRecv => true
    case Verifying(r, _) => r == q && (q.Unlock? || q.Approve? || q.Reveal?)
    case AtHolder(Commit(_)) => q.Unlock?
    case AtHolder(Drop) => q.Unlock?
    case AtHolder(LockNow) => q.Lock?
    case AtHolder(Report) => q.Status?
    case AtHolder(Tell(_)) => q.Address?
    case AtHolder(Stop) => q.Shutdown?
    case Replying(r) => Answers(q, r)
    case BadPassphrase(id) => q.Approve? && q.id == id
    case Verified(id, _) => q.Approve? && q.id == id
    case Fetched(id, _, _) => q.Approve? && q.id == id
    case SignRefused(id) => q.Approve? && q.id == id
    case SignedOff(i) => q.Approve? && q.id == i.id
    case ResolvedAs(i) => q.Approve? && q.id == i.id
    case DenyResolved(id) => q.Deny? && q.id == id
    case Listing(_, _) => q.ListPending?
    case Revealing(_) => q.Reveal?
    case RevealRefused => q.Reveal?
  }

  ghost predicate Paired(s: Plane)
  {
    |s.requests| == |s.replies| + (if s.loop.AtRecv? then 0 else 1)
    && (forall k :: 0 <= k < |s.replies| ==> Answers(s.requests[k], s.replies[k]))
    && (!s.loop.AtRecv? ==> Serves(s.loop, s.requests[|s.requests| - 1]))
  }

  // --- The passphrase meter ----------------------------------------------------------

  /** Failed verifications since the last success. */
  function BadRun(attempts: seq<Attempt>): nat
  {
    if attempts == [] || attempts[|attempts| - 1].success then 0
    else BadRun(attempts[..|attempts| - 1]) + 1
  }

  /** Seconds stalled by the failed verifications since the last success. */
  function StallOfRun(attempts: seq<Attempt>): nat
  {
    if attempts == [] || attempts[|attempts| - 1].success then 0
    else StallOfRun(attempts[..|attempts| - 1]) + attempts[|attempts| - 1].stall
  }

  ghost predicate Metered(s: Plane)
  {
    s.badPass == BadRun(s.attempts)
    && (forall k :: 0 <= k < |s.attempts| ==> s.attempts[k].stall == Delay(BadRun(s.attempts[..k])))
    && (s.loop.Verifying? ==> s.loop.stall == Delay(s.badPass))
    && (s.loop.Revealing? ==> s.badPass == 0)
  }

  // --- The invariant -----------------------------------------------------------------

  ghost predicate Inv(cfg: Config, s: Plane)
  {
    Numbered(s.items) && Agreement(cfg, s) && LoopKnows(cfg, s) && AllShown(s) && Paired(s) && Metered(s)
  }

  lemma ReleasedSnoc(replies: seq<Reply>, r: Reply)
    ensures Released(replies + [r]) == Released(replies) + if r.Signed? then [r.issue] else []
  {
    assert (replies + [r])[..|replies|] == replies;
  }

  lemma RecordedSnoc(ledger: seq<Event>, e: Event)
    ensures Recorded(ledger + [e]) == Recorded(ledger) + if e.ApproveLogged? then [e.issue] else []
  {
    assert (ledger + [e])[..|ledger|] == ledger;
  }

  // --- Steps that only let the queue evolve ------------------------------------------

  /** The queue grows, or a pending proposal is denied: approvals stay what they were. */
  ghost predicate NoApproval(a: seq<Proposal>, b: seq<Proposal>)
  {
    Evolves(a, b) && forall id: nat :: IsApproved(a, id) <==> IsApproved(b, id)
  }

  lemma ApprovedExactlyStays(cfg: Config, a: seq<Proposal>, b: seq<Proposal>, issues: seq<Issue>)
    requires ApprovedExactly(cfg, a, issues) && NoApproval(a, b)
    ensures ApprovedExactly(cfg, b, issues)
  {
    forall k | 0 <= k < |issues| ensures OverQueuedBytes(cfg, b, issues[k]) {
      assert OverQueuedBytes(cfg, a, issues[k]);
    }
  }

  lemma SubmitNoApproval(items: seq<Proposal>, payload: seq<byte>, provenance: Provenance)
    ensures NoApproval(items, Submitted(items, payload, provenance))
  {
    QueueStepsEvolve(items, 0, Denied, payload, provenance);
  }

  lemma DenyNoApproval(items: seq<Proposal>, id: nat)
    ensures NoApproval(items, Resolved(items, id, Denied))
  {
    QueueStepsEvolve(items, id, Denied, [], Ui);
  }

  /** The verdict on a pending proposal adds it, and only it, to the approved ones. */
  lemma ApproveAdds(cfg: Config, items: seq<Proposal>, issues: seq<Issue>, i: Issue)
    requires Numbered(items) && ApprovedExactly(cfg, items, issues)
    requires IsPending(items, i.id) && OverQueuedBytes(cfg, items, i)
    ensures ApprovedExactly(cfg, Resolved(items, i.id, Approved), issues + [i])
  {
    var after := Resolved(items, i.id, Approved);
    var ids, more := Ids(issues), Ids(issues + [i]);
    assert more == ids + [i.id];
    assert i.id !in ids by { assert !IsApproved(items, i.id); }
    forall id: nat ensures id in more <==> IsApproved(after, id) {
      assert id in ids <==> IsApproved(items, id);
    }
    forall k | 0 <= k < |issues + [i]| ensures OverQueuedBytes(cfg, after, (issues + [i])[k]) {
      if k < |issues| { assert OverQueuedBytes(cfg, items, issues[k]); }
    }
  }

  // --- The shapes a step can have ----------------------------------------------------

  predicate Signing(l: Loop) { l.ResolvedAs? || (l.Replying? && l.reply.Signed?) }

  /** As far as signatures go, a step resolves, records, replies, or does nothing. */
  ghost predicate AgreementShape(s: Plane, t: Plane)
  {
    || (NoApproval(s.items, t.items)
        && (t.ledger == s.ledger || exists e: Event :: !e.ApproveLogged? && t.ledger == s.ledger + [e])
        && (t.replies == s.replies || exists r: Reply :: !r.Signed? && t.replies == s.replies + [r])
        && (Signing(s.loop) || Signing(t.loop) ==> t.loop == s.loop))
    || (s.loop.SignedOff? && t.loop == ResolvedAs(s.loop.issue)
        && t.items == Resolved(s.items, s.loop.issue.id, Approved)
        && t.ledger == s.ledger && t.replies == s.replies)
    || (s.loop.ResolvedAs? && t.loop == Replying(Signed(s.loop.issue)) && t.items == s.items
        && t.ledger == s.ledger + [ApproveLogged(s.loop.issue)] && t.replies == s.replies)
    || (s.loop.Replying? && s.loop.reply.Signed? && t.loop.AtRecv? && t.items == s.items
        && t.ledger == s.ledger && t.replies == s.replies + [s.loop.reply])
  }

  /** As far as the queue goes, the loop takes from it what it shows. */
  ghost predicate KnowledgeShape(cfg: Config, s: Plane, t: Plane)
  {
    && (if t.loop == s.loop then s.items <= t.items
        else s.items == t.items || s.loop.AtRecv? || s.loop.SignedOff?)
    && (t.replies == s.replies
        || exists r: Reply :: t.replies == s.replies + [r] && (!r.Body? || s.loop == Replying(r)))
    && (t.loop == s.loop
        || (match t.loop
            case Fetched(id, w, payload) =>
              t.items == s.items && IsPending(s.items, id) && Lookup(s.items, id).value.payload == payload
            case SignedOff(i) =>
              t.items == s.items && s.loop == Fetched(i.id, i.wallet, i.over) && Genuine(cfg, i)
            case Listing(ids, done) =>
              t.items == s.items
              && (ids == PendingIds(s.items) || (s.loop.Listing? && s.loop.ids != [] && ids == s.loop.ids[1..]))
            case Replying(r) => t.items == s.items && (r.Body? ==> Shows(s.items, r))
            case _ => true))
  }

  ghost predicate PairingShape(s: Plane, t: Plane)
  {
    || (t.requests == s.requests && t.replies == s.replies && t.loop == s.loop)
    || (s.loop.AtRecv? && !t.loop.AtRecv? && t.replies == s.replies
        && exists q: Request :: t.requests == s.requests + [q] && Serves(t.loop, q))
    || (!s.loop.AtRecv? && !t.loop.AtRecv? && t.requests == s.requests && t.replies == s.replies
        && forall q: Request :: Serves(s.loop, q) ==> Serves(t.loop, q))
    || (!s.loop.AtRecv? && t.loop.AtRecv? && t.requests == s.requests
        && exists r: Reply :: t.replies == s.replies + [r] && forall q: Request :: Serves(s.loop, q) ==> Answers(q, r))
  }

  ghost predicate MeterShape(s: Plane, t: Plane)
  {
    || (t.attempts == s.attempts && t.badPass == s.badPass
        && (t.loop.Verifying? ==> t.loop == s.loop || t.loop.stall == Delay(s.badPass))
        && (t.loop.Revealing? ==> t.loop == s.loop))
    || (s.loop.Verifying? && !t.loop.Verifying?
        && exists ok: bool :: t.attempts == s.attempts + [Attempt(ok, s.loop.stall)]
             && t.badPass == (if ok then 0 else s.badPass + 1) && (t.loop.Revealing? ==> ok))
    || (s.loop.Revealing? && t.loop.RevealRefused?
        && t.attempts == s.attempts + [Attempt(false, 0)] && t.badPass == s.badPass + 1)
  }

  ghost predicate Shaped(cfg: Config, s: Plane, t: Plane)
  {
    Evolves(s.items, t.items) && (Numbered(s.items) ==> Numbered(t.items))
    && AgreementShape(s, t) && KnowledgeShape(cfg, s, t) && PairingShape(s, t) && MeterShape(s, t)
  }

  /** The other two threads leave the loop and its logs alone. */
  ghost predicate Quiet(s: Plane, t: Plane)
  {
    t.loop == s.loop && t.requests == s.requests && t.replies == s.replies
    && t.attempts == s.attempts && t.badPass == s.badPass
    && NoApproval(s.items, t.items) && s.items <= t.items && (Numbered(s.items) ==> Numbered(t.items))
    && (t.ledger == s.ledger || exists e: Event :: !e.ApproveLogged? && t.ledger == s.ledger + [e])
  }

  lemma PipeQuiet(cfg: Config, s: Plane, a: Action)
    requires PipeNext(cfg, s, a).Some?
    ensures Quiet(s, PipeNext(cfg, s, a).value)
  {
    if s.pipe.Waiting? && a.PipeMessage? {
      var r := DecodePipe(cfg.mac, a.msg);
      if r.Submission? { SubmitNoApproval(s.items, r.payload, r.provenance); }
    }
  }

  lemma WatcherQuiet(s: Plane, a: Action)
    requires WatcherNext(s, a).Some?
    ensures Quiet(s, WatcherNext(s, a).value)
  {}

  lemma QuietShaped(cfg: Config, s: Plane, t: Plane)
    requires Quiet(s, t)
    ensures Shaped(cfg, s, t)
  {}

  /** Only the loop's position has moved, and it is none of the signing ones. */
  ghost predicate Moved(s: Plane, t: Plane)
  {
    t.ledger == s.ledger && t.replies == s.replies && !Signing(s.loop) && !Signing(t.loop)
    && t.loop != s.loop && NoApproval(s.items, t.items) && (Numbered(s.items) ==> Numbered(t.items))
  }

  lemma DispatchMoves(s: Plane, q: Request)
    requires s.loop.AtRecv?
    ensures Moved(s, Dispatch(s, q))
  {
    if q.Deny? { DenyNoApproval(s.items, q.id); }
  }

  lemma DispatchPairs(s: Plane, q: Request)
    requires s.loop.AtRecv?
    ensures var t := Dispatch(s, q);
      t.requests == s.requests + [q] && Serves(t.loop, q) && !t.loop.AtRecv?
      && t.attempts == s.attempts && t.badPass == s.badPass
      && (t.loop.Verifying? ==> t.loop.stall == Delay(s.badPass)) && !t.loop.Revealing?
  {}

  /** A request that is answered from the queue at once shows what is queued. */
  ghost predicate StartsKnowing(s: Plane, t: Plane)
  {
    match t.loop
    case Fetched(_, _, _) => false
    case SignedOff(_) => false
    case Listing(ids, _) => t.items == s.items && ids == PendingIds(s.items)
    case Replying(r) => t.items == s.items && (r.Body? ==> Shows(s.items, r))
    case _ => true
  }

  lemma DispatchKnows(s: Plane, q: Request)
    requires s.loop.AtRecv?
    ensures StartsKnowing(s, Dispatch(s, q))
  {}

  lemma ReceiveShaped(cfg: Config, s: Plane, frame: Option<seq<byte>>)
    requires s.loop.AtRecv?
    ensures Shaped(cfg, s, Received(s, frame))
  {
    if frame.Some? && frame.value != [] {
      var q := DecodeRequest(frame.value);
      DispatchMoves(s, q);
      DispatchPairs(s, q);
      DispatchKnows(s, q);
      ShapedBy(cfg, s, Dispatch(s, q), q);
    }
  }

  lemma ShapedBy(cfg: Config, s: Plane, t: Plane, q: Request)
    requires s.loop.AtRecv? && Moved(s, t)
    requires t.requests == s.requests + [q] && Serves(t.loop, q) && !t.loop.AtRecv?
    requires t.attempts == s.attempts && t.badPass == s.badPass
    requires (t.loop.Verifying? ==> t.loop.stall == Delay(s.badPass)) && !t.loop.Revealing?
    requires StartsKnowing(s, t)
    ensures Shaped(cfg, s, t)
  {}

  lemma OpenShaped(cfg: Config, s: Plane, w: Option<Vault.Wallet>)
    requires s.loop.Verifying?
    ensures Shaped(cfg, s, Opened(s, s.loop.request, s.loop.stall, w))
  {
    var t := Opened(s, s.loop.request, s.loop.stall, w);
    assert t.attempts == s.attempts + [Attempt(w.Some?, s.loop.stall)];
    assert t.badPass == if w.Some? then 0 else s.badPass + 1;
  }

  lemma AnswerShaped(cfg: Config, s: Plane, r: Reply)
    requires !s.loop.AtRecv? && forall q: Request :: Serves(s.loop, q) ==> Answers(q, r)
    requires s.loop == Replying(r) || (!Signing(s.loop) && !r.Signed? && !r.Body?)
    ensures Shaped(cfg, s, Answer(s, r))
  {
    assert Answer(s, r).replies == s.replies + [r];
  }

  lemma HeldShaped(cfg: Config, s: Plane, address: Option<seq<byte>>)
    requires s.loop.AtHolder?
    ensures Shaped(cfg, s, Held(s, s.loop.op, address))
  {
    var r := HeldReply(s, s.loop.op, address);
    forall q: Request | Serves(s.loop, q) ensures Answers(q, r) {}
    AnswerShaped(cfg, s, r);
    SameLogsShaped(cfg, s, Answer(s, r), Held(s, s.loop.op, address));
  }

  /** The wallet, the pipe and the liveness flag play no part in the shapes. */
  lemma SameLogsShaped(cfg: Config, s: Plane, t: Plane, u: Plane)
    requires Shaped(cfg, s, t)
    requires u == t.(alive := u.alive, holder := u.holder, pipe := u.pipe, watcher := u.watcher,
                     torn := u.torn, pipeReplies := u.pipeReplies)
    ensures Shaped(cfg, s, u)
  {}

  /** A step inside one request: nothing is logged but perhaps one event that is no approval. */
  ghost predicate Inside(s: Plane, t: Plane)
  {
    t.items == s.items && t.requests == s.requests && t.replies == s.replies
    && !Signing(s.loop) && !Signing(t.loop) && !s.loop.AtRecv? && !t.loop.AtRecv?
    && (t.ledger == s.ledger || exists e: Event :: !e.ApproveLogged? && t.ledger == s.ledger + [e])
    && (forall q: Request :: Serves(s.loop, q) ==> Serves(t.loop, q))
  }

  lemma InsideShaped(cfg: Config, s: Plane, t: Plane)
    requires Inside(s, t) && KnowledgeShape(cfg, s, t) && MeterShape(s, t)
    ensures Shaped(cfg, s, t)
  {}

  lemma QueueReadShaped(cfg: Config, s: Plane)
    requires QueueRead(s).Some?
    ensures Shaped(cfg, s, QueueRead(s).value)
  {
    InsideShaped(cfg, s, QueueRead(s).value);
  }

  lemma SignedShaped(cfg: Config, s: Plane, salt: nat)
    requires s.loop.Fetched?
    ensures Shaped(cfg, s, SignedStep(cfg, s, s.loop.id, s.loop.wallet, s.loop.payload, salt))
  {
    InsideShaped(cfg, s, SignedStep(cfg, s, s.loop.id, s.loop.wallet, s.loop.payload, salt));
  }

  lemma ResolveShaped(cfg: Config, s: Plane)
    requires s.loop.SignedOff?
    ensures Shaped(cfg, s, s.(items := Resolved(s.items, s.loop.issue.id, Approved), loop := ResolvedAs(s.loop.issue)))
  {
    QueueStepsEvolve(s.items, s.loop.issue.id, Approved, [], Ui);
  }

  /** A record that is written and leads to a reply. */
  lemma RepliedShaped(cfg: Config, s: Plane, e: Event, reply: Reply)
    requires !s.loop.AtRecv? && !s.loop.Verifying? && !s.loop.SignedOff? && !s.loop.ResolvedAs? && !s.loop.Replying?
    requires !e.ApproveLogged? && !reply.Signed? && !reply.Body?
    requires forall q: Request :: Serves(s.loop, q) ==> Answers(q, reply)
    ensures Shaped(cfg, s, RecordThen(s, e, true, reply))
  {
    InsideShaped(cfg, s, RecordThen(s, e, true, reply));
  }

  lemma RevealShaped(cfg: Config, s: Plane, w: Vault.Wallet, ok: bool)
    requires s.loop == Revealing(w)
    ensures Shaped(cfg, s, RevealStep(s, w, ok))
  {
    InsideShaped(cfg, s, RevealStep(s, w, ok));
  }

  lemma ApprovalShaped(cfg: Config, s: Plane)
    requires s.loop.ResolvedAs?
    ensures Shaped(cfg, s, RecordThen(s, ApproveLogged(s.loop.issue), true, Signed(s.loop.issue)))
  {}

  /** A failed append ends the process and changes nothing the invariant speaks of. */
  lemma TornShaped(cfg: Config, s: Plane)
    ensures Shaped(cfg, s, s.(torn := true, alive := false))
  {}

  lemma RecordShaped(cfg: Config, s: Plane, ok: bool)
    requires RecordStep(s, ok).Some?
    ensures Shaped(cfg, s, RecordStep(s, ok).value)
  {
    if !ok { TornShaped(cfg, s); }
    match s.loop
    case BadPassphrase(id) => if ok { RepliedShaped(cfg, s, ApproveBadPass(id), Failure); }
    case SignRefused(id) => if ok { RepliedShaped(cfg, s, SignFailed(id), Failure); }
    case ResolvedAs(_) => if ok { ApprovalShaped(cfg, s); }
    case DenyResolved(id) => if ok { RepliedShaped(cfg, s, DenyLogged(id), Done); }
    case Revealing(w) => RevealShaped(cfg, s, w, ok);
    case RevealRefused => if ok { RepliedShaped(cfg, s, RevealBadPass, Failure); }
  }

  lemma LoopShaped(cfg: Config, s: Plane, a: Action)
    requires LoopNext(cfg, s, a).Some?
    ensures Shaped(cfg, s, LoopNext(cfg, s, a).value)
  {
    match a
    case Receive(frame) => ReceiveShaped(cfg, s, frame);
    case OpenVault(w) => OpenShaped(cfg, s, w);
    case TakeHolder(address) => HeldShaped(cfg, s, address);
    case ReadQueue => QueueReadShaped(cfg, s);
    case SignNow(salt) => SignedShaped(cfg, s, salt);
    case ResolveNow => ResolveShaped(cfg, s);
    case Record(ok) => RecordShaped(cfg, s, ok);
    case Send(fits) => if fits || !Bulky(s.loop.reply) { AnswerShaped(cfg, s, s.loop.reply); }
    case _ =>
  }

  lemma StepShaped(cfg: Config, s: Plane, a: Action)
    requires Next(cfg, s, a).Some?
    ensures Shaped(cfg, s, Next(cfg, s, a).value)
  {
    if a.PipeMessage? || a.PipeRecord? || a.PipeSend? {
      PipeQuiet(cfg, s, a);
      QuietShaped(cfg, s, PipeNext(cfg, s, a).value);
    } else if a.Fire? || a.FireRecord? {
      WatcherQuiet(s, a);
      QuietShaped(cfg, s, WatcherNext(s, a).value);
    } else {
      LoopShaped(cfg, s, a);
    }
  }

  // --- Every shape keeps the invariant -----------------------------------------------

  lemma AgreementKept(cfg: Config, s: Plane, t: Plane)
    requires Inv(cfg, s) && AgreementShape(s, t)
    ensures Agreement(cfg, t)
  {
    if s.loop.SignedOff? && t.loop == ResolvedAs(s.loop.issue) {
      ApproveAdds(cfg, s.items, Released(s.replies), s.loop.issue);
    } else if s.loop.ResolvedAs? && t.loop != s.loop {
      RecordedSnoc(s.ledger, ApproveLogged(s.loop.issue));
    } else if s.loop.Replying? && s.loop.reply.Signed? && t.loop != s.loop {
      ReleasedSnoc(s.replies, s.loop.reply);
    } else {
      ClaimStays(s, t);
      ApprovedExactlyStays(cfg, s.items, t.items, Claimed(s));
    }
  }

  /** A step that is none of the three leaves the logs of signatures alone. */
  lemma ClaimStays(s: Plane, t: Plane)
    requires t.ledger == s.ledger || exists e: Event :: !e.ApproveLogged? && t.ledger == s.ledger + [e]
    requires t.replies == s.replies || exists r: Reply :: !r.Signed? && t.replies == s.replies + [r]
    ensures Recorded(t.ledger) == Recorded(s.ledger) && Released(t.replies) == Released(s.replies)
  {
    var released, recorded := Released(s.replies), Recorded(s.ledger);
    assert released + [] == released && recorded + [] == recorded;
    if t.ledger != s.ledger { RecordedSnoc(s.ledger, t.ledger[|s.ledger|]); }
    if t.replies != s.replies { ReleasedSnoc(s.replies, t.replies[|s.replies|]); }
  }

  /** The signatures whose proposals are approved at this point. */
  function Claimed(s: Plane): seq<Issue>
  {
    match s.loop
    case ResolvedAs(i) => Released(s.replies) + [i]
    case _ => Recorded(s.ledger)
  }

  lemma ShowsStays(a: seq<Proposal>, b: seq<Proposal>, r: Reply)
    requires Evolves(a, b) && Shows(a, r)
    ensures Shows(b, r)
  {}

  lemma KnowledgeKept(cfg: Config, s: Plane, t: Plane)
    requires Inv(cfg, s) && Shaped(cfg, s, t)
    ensures LoopKnows(cfg, t)
  {
    match t.loop
    case Replying(r) => if t.loop == s.loop { ShowsStays(s.items, t.items, r); }
    case Listing(ids, _) => if t.loop != s.loop { PendingIdsExact(s.items); }
    case _ =>
  }

  lemma ShownKept(cfg: Config, s: Plane, t: Plane)
    requires Inv(cfg, s) && Shaped(cfg, s, t)
    ensures AllShown(t)
  {
    forall k | 0 <= k < |t.replies| ensures Shows(t.items, t.replies[k]) {
      if k < |s.replies| {
        assert t.replies[k] == s.replies[k];
        ShowsStays(s.items, t.items, s.replies[k]);
      } else if t.replies[k].Body? {
        ShowsStays(s.items, t.items, t.replies[k]);
      }
    }
  }

  lemma PairedKept(cfg: Config, s: Plane, t: Plane)
    requires Paired(s) && PairingShape(s, t)
    ensures Paired(t)
  {}

  lemma BadRunSnoc(attempts: seq<Attempt>, x: Attempt)
    ensures BadRun(attempts + [x]) == if x.success then 0 else BadRun(attempts) + 1
    ensures StallOfRun(attempts + [x]) == if x.success then 0 else StallOfRun(attempts) + x.stall
  {
    assert (attempts + [x])[..|attempts|] == attempts;
  }

  lemma MeteredKept(s: Plane, t: Plane)
    requires Metered(s) && MeterShape(s, t)
    ensures Metered(t)
  {
    if t.attempts != s.attempts {
      BadRunSnoc(s.attempts, t.attempts[|s.attempts|]);
      forall k | 0 <= k < |t.attempts| ensures t.attempts[k].stall == Delay(BadRun(t.attempts[..k])) {
        assert t.attempts[..k] == s.attempts[..k];
        if k == |s.attempts| { assert s.attempts[..k] == s.attempts; }
      }
    }
  }

  lemma InvKept(cfg: Config, s: Plane, a: Action)
    requires Inv(cfg, s) && Next(cfg, s, a).Some?
    ensures Inv(cfg, Next(cfg, s, a).value)
    ensures Evolves(s.items, Next(cfg, s, a).value.items)
  {
    var t := Next(cfg, s, a).value;
    StepShaped(cfg, s, a);
    AgreementKept(cfg, s, t);
    KnowledgeKept(cfg, s, t);
    ShownKept(cfg, s, t);
    PairedKept(cfg, s, t);
    MeteredKept(s, t);
  }

  lemma {:induction false} RunKeepsInv(cfg: Config, actions: seq<Action>)
    ensures Inv(cfg, Run(cfg, actions))
  {
    if actions != [] {
      var front, last := actions[..|actions| - 1], actions[|actions| - 1];
      RunKeepsInv(cfg, front);
      if Next(cfg, Run(cfg, front), last).Some? { InvKept(cfg, Run(cfg, front), last); }
    }
  }
}
