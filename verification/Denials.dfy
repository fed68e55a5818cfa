/** Denying and the ledger: whenever the password loop is back at recv, the denials it has confirmed,
    the deny records of the session and the denied proposals are the same, id by id. */
module Denials {
  import opened Bytes
  import opened ProposalQueue
  import opened Protocol
  import opened TrustPlane
  import opened TrustPlaneSafety
  import opened TrustPlaneTheorems
  import Passphrase
  import Vault

  /** The ids of the deny records, in order. */
  function DenyRecords(ledger: seq<Event>): seq<nat>
  {
    if ledger == [] then []
    else
      var n := |ledger| - 1;
      DenyRecords(ledger[..n]) + if ledger[n].DenyLogged? then [ledger[n].id] else []
  }

  /** The ids of the deny requests that were confirmed, in order. */
  function Confirmed(requests: seq<Request>, replies: seq<Reply>): seq<nat>
    requires |replies| <= |requests|
  {
    if replies == [] then []
    else
      var n := |replies| - 1;
      Confirmed(requests, replies[..n])
      + if requests[n].Deny? && replies[n] == Done then [requests[n].id] else []
  }

  predicate IsDenied(items: seq<Proposal>, id: nat)
  {
    Lookup(items, id).Some? && Lookup(items, id).value.state == Denied
  }

  ghost predicate DeniedExactly(items: seq<Proposal>, ids: seq<nat>)
  {
    Distinct(ids) && forall id: nat :: id in ids <==> IsDenied(items, id)
  }

  /** Between the verdict and its record, and between the record and the reply, they are one apart. */
  ghost predicate DenyInv(s: Plane)
  {
    |s.replies| <= |s.requests|
    && var recorded, confirmed := DenyRecords(s.ledger), Confirmed(s.requests, s.replies);
       match s.loop
       case DenyResolved(id) => confirmed == recorded && DeniedExactly(s.items, recorded + [id])
       case Replying(Done) =>
         s.requests != [] && s.requests[|s.requests| - 1].Deny?
         && recorded == confirmed + [s.requests[|s.requests| - 1].id] && DeniedExactly(s.items, recorded)
       case _ => confirmed == recorded && DeniedExactly(s.items, recorded)
  }

  predicate Neutral(l: Loop) { !l.DenyResolved? && l != Replying(Done) }

  lemma RecordsSnoc(ledger: seq<Event>, e: Event)
    ensures DenyRecords(ledger + [e]) == DenyRecords(ledger) + if e.DenyLogged? then [e.id] else []
  {
    assert (ledger + [e])[..|ledger|] == ledger;
  }

  lemma ConfirmedSnoc(requests: seq<Request>, replies: seq<Reply>, r: Reply)
    requires |replies| < |requests|
    ensures Confirmed(requests, replies + [r])
         == Confirmed(requests, replies)
            + if requests[|replies|].Deny? && r == Done then [requests[|replies|].id] else []
  {
    assert (replies + [r])[..|replies|] == replies;
  }

  lemma {:induction false} ConfirmedGrows(requests: seq<Request>, replies: seq<Reply>, more: seq<Request>)
    requires |replies| <= |requests| && requests <= more
    ensures Confirmed(more, replies) == Confirmed(requests, replies)
  {
    if replies != [] { ConfirmedGrows(requests, replies[..|replies| - 1], more); }
  }

  // --- Steps that deny nothing -------------------------------------------------------

  /** A proposal comes in or is approved. */
  lemma DeniedStay(items: seq<Proposal>, ids: seq<nat>, payload: seq<byte>, provenance: Provenance, id: nat)
    requires DeniedExactly(items, ids)
    ensures DeniedExactly(Submitted(items, payload, provenance), ids)
    ensures DeniedExactly(Resolved(items, id, Approved), ids)
  {
    var more, done := Submitted(items, payload, provenance), Resolved(items, id, Approved);
    forall k: nat ensures IsDenied(more, k) <==> IsDenied(items, k) {
      if 1 <= k <= |items| { assert more[k - 1] == items[k - 1]; }
    }
    forall k: nat ensures IsDenied(done, k) <==> IsDenied(items, k) {
      if 1 <= k <= |items| && k != id { assert done[k - 1] == items[k - 1]; }
    }
  }

  lemma DeniedMore(items: seq<Proposal>, ids: seq<nat>, id: nat)
    requires DeniedExactly(items, ids) && IsPending(items, id)
    ensures DeniedExactly(Resolved(items, id, Denied), ids + [id])
  {
    var after := Resolved(items, id, Denied);
    forall k: nat ensures k in ids + [id] <==> IsDenied(after, k) {
      if 1 <= k <= |items| && k != id { assert after[k - 1] == items[k - 1]; }
    }
    assert !IsDenied(items, id);
  }

  /** The queue as before, but for a submission or an approval. */
  ghost predicate NothingDenied(a: seq<Proposal>, b: seq<Proposal>)
  {
    forall ids :: DeniedExactly(a, ids) ==> DeniedExactly(b, ids)
  }

  /** The ledger as before, but for an event that is no denial. */
  ghost predicate NothingRecorded(a: seq<Event>, b: seq<Event>) { DenyRecords(a) == DenyRecords(b) }

  lemma OneMoreEvent(ledger: seq<Event>, e: Event)
    requires !e.DenyLogged?
    ensures NothingRecorded(ledger, ledger + [e])
  {
    RecordsSnoc(ledger, e);
  }

  /** What the pipe thread and the watcher may do. */
  ghost predicate FromOutside(s: Plane, t: Plane)
  {
    && t.loop == s.loop && t.requests == s.requests && t.replies == s.replies
    && (t.items == s.items
        || exists payload, provenance :: t.items == Submitted(s.items, payload, provenance))
    && (t.ledger == s.ledger || exists e: Event :: !e.DenyLogged? && t.ledger == s.ledger + [e])
  }

  lemma PipeFromOutside(cfg: Config, s: Plane, a: Action)
    requires PipeNext(cfg, s, a).Some?
    ensures FromOutside(s, PipeNext(cfg, s, a).value)
  {
    if a.PipeMessage? && DecodePipe(cfg.mac, a.msg).Submission? {
      var r := DecodePipe(cfg.mac, a.msg);
      assert PipeNext(cfg, s, a).value.items == Submitted(s.items, r.payload, r.provenance);
    }
  }

  lemma WatcherFromOutside(s: Plane, a: Action)
    requires WatcherNext(s, a).Some?
    ensures FromOutside(s, WatcherNext(s, a).value)
  {}

  lemma OutsideKeeps(s: Plane, t: Plane)
    requires DenyInv(s) && FromOutside(s, t)
    ensures DenyInv(t)
  {
    if t.items != s.items {
      var payload, provenance :| t.items == Submitted(s.items, payload, provenance);
      forall ids | DeniedExactly(s.items, ids) ensures DeniedExactly(t.items, ids) {
        DeniedStay(s.items, ids, payload, provenance, 0);
      }
    }
    if t.ledger != s.ledger {
      var e: Event :| !e.DenyLogged? && t.ledger == s.ledger + [e];
      OneMoreEvent(s.ledger, e);
    }
  }

  /** Steps of the loop inside a request. */
  lemma InsideKeeps(s: Plane, t: Plane)
    requires DenyInv(s) && Neutral(s.loop) && Neutral(t.loop)
    requires t.requests == s.requests && t.replies == s.replies
    requires NothingDenied(s.items, t.items) && NothingRecorded(s.ledger, t.ledger)
    ensures DenyInv(t)
  {}

  /** A reply that confirms no denial. */
  lemma ReplyKeeps(s: Plane, t: Plane, r: Reply)
    requires DenyInv(s) && Neutral(s.loop) && t.loop.AtRecv? && |s.requests| == |s.replies| + 1
    requires t.requests == s.requests && t.replies == s.replies + [r]
    requires t.items == s.items && t.ledger == s.ledger
    requires s.requests[|s.replies|].Deny? ==> r != Done
    ensures DenyInv(t)
  {
    ConfirmedSnoc(s.requests, s.replies, r);
  }

  lemma ConfirmKeeps(s: Plane, t: Plane)
    requires DenyInv(s) && s.loop == Replying(Done) && t.loop.AtRecv? && |s.requests| == |s.replies| + 1
    requires t.requests == s.requests && t.replies == s.replies + [Done]
    requires t.items == s.items && t.ledger == s.ledger
    ensures DenyInv(t)
  {
    ConfirmedSnoc(s.requests, s.replies, Done);
  }

  lemma ReadKeeps(s: Plane, q: Request)
    requires DenyInv(s) && s.loop.AtRecv? && |s.requests| == |s.replies|
    ensures DenyInv(Dispatch(s, q))
  {
    var t := Dispatch(s, q);
    Passphrase.DispatchReads(s, q);
    ConfirmedGrows(s.requests, s.replies, t.requests);
    DispatchDenies(s, q);
    if q.Deny? && IsPending(s.items, q.id) { DeniedMore(s.items, DenyRecords(s.ledger), q.id); }
  }

  lemma DispatchDenies(s: Plane, q: Request)
    ensures var t := Dispatch(s, q);
      && t.ledger == s.ledger
      && if q.Deny? && IsPending(s.items, q.id)
         then t.items == Resolved(s.items, q.id, Denied) && t.loop == DenyResolved(q.id)
         else t.items == s.items && Neutral(t.loop)
  {}

  lemma OtherRecordKeeps(s: Plane, e: Event, reply: Reply)
    requires DenyInv(s) && Neutral(s.loop) && !e.DenyLogged? && reply != Done
    ensures DenyInv(RecordThen(s, e, true, reply))
  {
    OneMoreEvent(s.ledger, e);
    InsideKeeps(s, RecordThen(s, e, true, reply));
  }

  lemma DenyRecordKeeps(s: Plane, id: nat)
    requires DenyInv(s) && Paired(s) && s.loop == DenyResolved(id)
    ensures DenyInv(RecordThen(s, DenyLogged(id), true, Done))
  {
    RecordsSnoc(s.ledger, DenyLogged(id));
  }

  lemma RevealKeeps(s: Plane, w: Vault.Wallet, ok: bool)
    requires DenyInv(s) && s.loop == Revealing(w)
    ensures DenyInv(RevealStep(s, w, ok))
  {
    if ok && (w.entropy != [] || w.imported != []) {
      OneMoreEvent(s.ledger, if w.entropy != [] then RevealSeed else RevealKey);
    }
    InsideKeeps(s, RevealStep(s, w, ok));
  }

  lemma TornKeeps(s: Plane)
    requires DenyInv(s)
    ensures DenyInv(s.(torn := true, alive := false))
  {}

  lemma RecordKeeps(s: Plane, ok: bool)
    requires DenyInv(s) && Paired(s) && RecordStep(s, ok).Some?
    ensures DenyInv(RecordStep(s, ok).value)
  {
    if !ok { TornKeeps(s); }
    match s.loop
    case BadPassphrase(id) => if ok { OtherRecordKeeps(s, ApproveBadPass(id), Failure); }
    case SignRefused(id) => if ok { OtherRecordKeeps(s, SignFailed(id), Failure); }
    case ResolvedAs(i) => if ok { OtherRecordKeeps(s, ApproveLogged(i), Signed(i)); }
    case DenyResolved(id) => if ok { DenyRecordKeeps(s, id); }
    case Revealing(w) => RevealKeeps(s, w, ok);
    case RevealRefused => if ok { OtherRecordKeeps(s, RevealBadPass, Failure); }
  }

  lemma SendKeeps(s: Plane)
    requires DenyInv(s) && Paired(s) && s.loop.Replying?
    ensures DenyInv(Answer(s, s.loop.reply))
  {
    if s.loop.reply == Done { ConfirmKeeps(s, Answer(s, Done)); }
    else { ReplyKeeps(s, Answer(s, s.loop.reply), s.loop.reply); }
  }

  lemma VerdictKeeps(cfg: Config, s: Plane)
    requires DenyInv(s) && s.loop.SignedOff?
    ensures var t := s.(items := Resolved(s.items, s.loop.issue.id, Approved), loop := ResolvedAs(s.loop.issue));
      DenyInv(t)
  {
    DeniedStay(s.items, DenyRecords(s.ledger), [], Ui, s.loop.issue.id);
  }

  lemma HeldKeeps(s: Plane, op: HolderOp, address: Option<seq<byte>>)
    requires DenyInv(s) && Paired(s) && s.loop == AtHolder(op)
    ensures DenyInv(Held(s, op, address))
  {
    ReplyKeeps(s, Held(s, op, address), HeldReply(s, op, address));
  }

  lemma OpenedKeeps(s: Plane, q: Request, stall: nat, w: Option<Vault.Wallet>)
    requires DenyInv(s) && s.loop.Verifying?
    ensures DenyInv(Opened(s, q, stall, w))
  {}

  lemma ReceiveKeeps(s: Plane, frame: Option<seq<byte>>)
    requires DenyInv(s) && Paired(s) && s.loop.AtRecv?
    ensures DenyInv(Received(s, frame))
  {
    if frame.Some? && frame.value != [] { ReadKeeps(s, DecodeRequest(frame.value)); }
  }

  lemma ReadQueueKeeps(s: Plane)
    requires DenyInv(s) && QueueRead(s).Some?
    ensures DenyInv(QueueRead(s).value)
  {
    InsideKeeps(s, QueueRead(s).value);
  }

  lemma SignKeeps(cfg: Config, s: Plane, salt: nat)
    requires DenyInv(s) && s.loop.Fetched?
    ensures DenyInv(SignedStep(cfg, s, s.loop.id, s.loop.wallet, s.loop.payload, salt))
  {
    InsideKeeps(s, SignedStep(cfg, s, s.loop.id, s.loop.wallet, s.loop.payload, salt));
  }

  lemma LoopKeeps(cfg: Config, s: Plane, a: Action)
    requires DenyInv(s) && Paired(s) && LoopNext(cfg, s, a).Some?
    ensures DenyInv(LoopNext(cfg, s, a).value)
  {
    match a
    case Receive(frame) => ReceiveKeeps(s, frame);
    case OpenVault(w) => OpenedKeeps(s, s.loop.request, s.loop.stall, w);
    case TakeHolder(address) => HeldKeeps(s, s.loop.op, address);
    case ReadQueue => ReadQueueKeeps(s);
    case SignNow(salt) => SignKeeps(cfg, s, salt);
    case ResolveNow => VerdictKeeps(cfg, s);
    case Record(ok) => RecordKeeps(s, ok);
    case Send(fits) => if fits || !Bulky(s.loop.reply) { SendKeeps(s); }
    case _ =>
  }

  lemma {:induction false} RunKeepsDenials(cfg: Config, actions: seq<Action>)
    ensures DenyInv(Run(cfg, actions))
  {
    if actions != [] {
      var front, a := actions[..|actions| - 1], actions[|actions| - 1];
      RunKeepsDenials(cfg, front);
      RunKeepsInv(cfg, front);
      var s := Run(cfg, front);
      if Next(cfg, s, a).Some? {
        var t := Next(cfg, s, a).value;
        if a.PipeMessage? || a.PipeRecord? || a.PipeSend? {
          PipeFromOutside(cfg, s, a);
          OutsideKeeps(s, t);
        } else if a.Fire? || a.FireRecord? {
          WatcherFromOutside(s, a);
          OutsideKeeps(s, t);
        } else {
          LoopKeeps(cfg, s, a);
        }
      }
    }
  }

  /** Deny, confirm, audit: whenever the loop is back at recv, the denials confirmed to the client and
      the deny records are the same ids in the same order, each once, and they are exactly the
      denied proposals. */
  lemma DenyConfirmAudit(cfg: Config, actions: seq<Action>)
    ensures var s := Run(cfg, actions);
      s.loop.AtRecv? ==>
        && |s.replies| <= |s.requests|
        && DenyRecords(s.ledger) == Confirmed(s.requests, s.replies)
        && Distinct(DenyRecords(s.ledger))
        && forall id: nat :: id in DenyRecords(s.ledger) <==> IsDenied(s.items, id)
  {
    RunKeepsDenials(cfg, actions);
  }
}
