/** The two ends of the password channel together: the frames a client sends, as the serve loop
    takes them off one wire, and the replies it issues, as the client takes them off the other;
    and the proposal pipe's promise. */
module Session {
  import opened Bytes
  import opened ProposalQueue
  import opened Protocol
  import opened TrustPlane
  import opened TrustPlaneSafety
  import opened TrustPlaneTheorems
  import opened DerivePath
  import opened Replies
  import C = SecretChannel

  /** The request frames the loop has taken in a run, empty ones left out. */
  function Taken(cfg: Config, actions: seq<Action>): (frames: seq<seq<byte>>)
    ensures forall f :: f in frames ==> f != []
  {
    if actions == [] then []
    else
      var front, a := actions[..|actions| - 1], actions[|actions| - 1];
      var s := Run(cfg, front);
      Taken(cfg, front)
      + if s.alive && s.loop.AtRecv? && a.Receive? && a.frame.Some? && a.frame.value != [] then [a.frame.value]
        else []
  }

  function Decoded(frames: seq<seq<byte>>): seq<Request>
    requires forall f :: f in frames ==> f != []
  {
    if frames == [] then []
    else
      var n := |frames| - 1;
      assert frames[n] in frames && forall f :: f in frames[..n] ==> f in frames;
      Decoded(frames[..n]) + [DecodeRequest(frames[n])]
  }

  lemma DecodedSnoc(frames: seq<seq<byte>>, f: seq<byte>)
    requires f != [] && forall g :: g in frames ==> g != []
    ensures forall g :: g in frames + [f] ==> g != []
    ensures Decoded(frames + [f]) == Decoded(frames) + [DecodeRequest(f)]
  {
    assert (frames + [f])[..|frames|] == frames;
  }

  lemma {:induction false} DecodedAt(frames: seq<seq<byte>>, k: nat)
    requires k < |frames| && forall f :: f in frames ==> f != []
    ensures frames[k] != []
    ensures |Decoded(frames)| == |frames| && Decoded(frames)[k] == DecodeRequest(frames[k])
  {
    var n := |frames| - 1;
    assert frames[k] in frames && forall f :: f in frames[..n] ==> f in frames;
    if k < n {
      DecodedAt(frames[..n], k);
    } else if n > 0 {
      DecodedAt(frames[..n], 0);
    }
  }

  /** Outside receive, the log of requests does not grow. */
  lemma RequestsStep(cfg: Config, s: Plane, a: Action)
    requires Next(cfg, s, a).Some?
    ensures Next(cfg, s, a).value.requests ==
      s.requests + if s.loop.AtRecv? && a.Receive? && a.frame.Some? && a.frame.value != []
                   then [DecodeRequest(a.frame.value)] else []
  {
    assert s.requests + [] == s.requests;
    StepShaped(cfg, s, a);
  }

  lemma {:induction false} RequestsAreTheFramesTaken(cfg: Config, actions: seq<Action>)
    ensures Run(cfg, actions).requests == Decoded(Taken(cfg, actions))
  {
    if actions != [] {
      var front, a := actions[..|actions| - 1], actions[|actions| - 1];
      RequestsAreTheFramesTaken(cfg, front);
      var s := Run(cfg, front);
      assert Taken(cfg, front) + [] == Taken(cfg, front) && s.requests + [] == s.requests;
      if Next(cfg, s, a).Some? {
        RequestsStep(cfg, s, a);
        if s.loop.AtRecv? && a.Receive? && a.frame.Some? && a.frame.value != [] {
          DecodedSnoc(Taken(cfg, front), a.frame.value);
        }
      }
    }
  }

  // --- Requests and replies over their wires -----------------------------------------

  /** A session seen from outside: per direction the stream, the other end's key and as much of
      the wire as has come through; what the client sent, and the reasons of the child's errors. */
  datatype Link = Link(
    up: C.Cipher, upAccept: C.Acceptor, sent: seq<seq<byte>>, upWire: seq<byte>,
    down: C.Cipher, downAccept: C.Acceptor, hardened: byte, texts: seq<seq<byte>>, downWire: seq<byte>)

  /** Everything the child sends: its hello, then its replies. */
  function Answered(l: Link, replies: seq<Reply>): (out: seq<seq<byte>>)
    requires |l.texts| == |replies|
    ensures |out| == |replies| + 1 && out[0] == Hello(l.hardened)
    ensures forall k :: 0 <= k < |replies| ==> out[k + 1] == EncodeReply(replies[k], l.texts[k])
  {
    [Hello(l.hardened)]
    + seq(|replies|, k requires 0 <= k < |replies| => EncodeReply(replies[k], l.texts[k]))
  }

  /** The loop takes its frames off the client's wire, and its replies go down the other. */
  ghost predicate Connected(l: Link, cfg: Config, actions: seq<Action>)
  {
    var replies := Run(cfg, actions).replies;
    && C.Shared(l.upAccept, l.up) && (forall f :: f in l.sent ==> C.Sendable(f) && f != [])
    && l.upWire <= C.Wire(l.up, l.sent)
    && Taken(cfg, actions) <= C.ReceiveStream(l.upAccept, l.upWire).0
    && C.Shared(l.downAccept, l.down) && |l.texts| == |replies|
    && (forall f :: f in Answered(l, replies) ==> C.Sendable(f))
    && l.downWire <= C.Wire(l.down, Answered(l, replies))
  }

  /** What the client has received: the hello, then one frame for each finished request. */
  function Received(l: Link): seq<seq<byte>> { C.ReceiveStream(l.downAccept, l.downWire).0 }

  /** The reply the client receives to the frame it sent as its k-th is the loop's k-th, and answers
      that frame, however much of either wire has come through and however its bytes were cut up. */
  lemma ReplyAnswersItsFrame(l: Link, cfg: Config, actions: seq<Action>, k: nat)
    requires Connected(l, cfg, actions) && k + 1 < |Received(l)|
    ensures Received(l)[0] == Hello(l.hardened)
    ensures var replies := Run(cfg, actions).replies;
      && k < |replies| && k < |l.sent| && l.sent[k] != []
      && Received(l)[k + 1] == EncodeReply(replies[k], l.texts[k])
      && Answers(DecodeRequest(l.sent[k]), replies[k])
  {
    DownDelivers(l, Run(cfg, actions).replies, k);
    RepliesAnswerRequests(cfg, actions);
    RequestsAreTheFramesTaken(cfg, actions);
    var taken := Taken(cfg, actions);
    if taken != [] { DecodedAt(taken, 0); }
    UpDelivers(l, taken, k);
    DecodedAt(taken, k);
  }

  lemma DownDelivers(l: Link, replies: seq<Reply>, k: nat)
    requires C.Shared(l.downAccept, l.down) && |l.texts| == |replies|
    requires (forall f :: f in Answered(l, replies) ==> C.Sendable(f))
    requires l.downWire <= C.Wire(l.down, Answered(l, replies)) && k + 1 < |Received(l)|
    ensures k < |replies| && Received(l)[0] == Hello(l.hardened)
    ensures Received(l)[k + 1] == EncodeReply(replies[k], l.texts[k])
  {
    C.PrefixDelivers(l.downAccept, l.down, Answered(l, replies), l.downWire);
    assert Received(l) <= Answered(l, replies);
  }

  lemma UpDelivers(l: Link, taken: seq<seq<byte>>, k: nat)
    requires C.Shared(l.upAccept, l.up) && (forall f :: f in l.sent ==> C.Sendable(f) && f != [])
    requires l.upWire <= C.Wire(l.up, l.sent) && taken <= C.ReceiveStream(l.upAccept, l.upWire).0
    requires k < |taken|
    ensures k < |l.sent| && l.sent[k] == taken[k] && l.sent[k] != []
  {
    C.PrefixDelivers(l.upAccept, l.up, l.sent, l.upWire);
    assert l.sent[k] in l.sent;
  }

  lemma {:induction false} ReleasedHas(replies: seq<Reply>, k: nat)
    requires k < |replies| && replies[k].Signed?
    ensures replies[k].issue in Released(replies)
  {
    if k < |replies| - 1 { ReleasedHas(replies[..|replies| - 1], k); }
  }

  /** What the client was shown under an id is what the signature it gets for that id is over: if
      its j-th request fetched the id and its k-th approved it, the bytes that came back are a
      signature of the fetched payload, by a wallet the vault opened to. */
  lemma FetchedIsWhatComesBackSigned(l: Link, cfg: Config, actions: seq<Action>,
                                     j: nat, k: nat, id: u64, pass: seq<byte>, family: Family)
    returns (i: Issue)
    requires Connected(l, cfg, actions) && j + 1 < |Received(l)| && k + 1 < |Received(l)|
    requires j < |l.sent| && l.sent[j] == FetchFrame(id) && ReadBody(Received(l)[j + 1]).Some?
    requires k < |l.sent| && l.sent[k] == ApproveFrame(id, pass) && ReadSigned(family, Received(l)[k + 1]).Some?
    ensures i.id == id && i.over == ReadBody(Received(l)[j + 1]).value.1
    ensures ReadSigned(family, Received(l)[k + 1]) == Some(i.signature.bytes)
    ensures SignProposal(cfg, i.wallet, i.over, i.salt) == Some(i.signature)
    ensures family == SignedFamily(i.over)
  {
    var s := Run(cfg, actions);
    ReplyAnswersItsFrame(l, cfg, actions, j);
    ReplyAnswersItsFrame(l, cfg, actions, k);
    RequestsAreUnderstood(id, pass, 0, 0);
    RepliesAreUnderstood(s.replies[j], l.texts[j]);
    RepliesAreUnderstood(s.replies[k], l.texts[k]);
    i := s.replies[k].issue;
    ReleasedHas(s.replies, k);
    NeverAheadOfTheLedger(cfg, actions);
    var m: nat :| m < |Released(s.replies)| && Released(s.replies)[m] == i;
    FetchedIsWhatIsSigned(cfg, actions, j, m);
    RecordedIsGenuine(cfg, actions, m);
  }

  lemma RecordedIsGenuine(cfg: Config, actions: seq<Action>, m: nat)
    requires m < |Recorded(Run(cfg, actions).ledger)|
    ensures OverQueuedBytes(cfg, Run(cfg, actions).items, Recorded(Run(cfg, actions).ledger)[m])
  {
    var s := Run(cfg, actions);
    RunKeepsInv(cfg, actions);
    assert Recorded(s.ledger) <= Claimed(s);
    assert OverQueuedBytes(cfg, s.items, Claimed(s)[m]);
  }

  // --- The proposal pipe -------------------------------------------------------------

  /** The ledger has a submit record for the proposal, with its provenance and size. */
  ghost predicate Logged(s: Plane, id: nat)
  {
    var p := Lookup(s.items, id);
    p.Some? && SubmitLogged(id, p.value.provenance, |p.value.payload|) in s.ledger
  }

  ghost predicate PipeInv(s: Plane)
  {
    (forall k :: 0 <= k < |s.pipeReplies| && s.pipeReplies[k].Accepted? ==> Logged(s, s.pipeReplies[k].id))
    && match s.pipe
       case Queued(id, prov, size) =>
         var p := Lookup(s.items, id);
         p.Some? && p.value.provenance == prov && |p.value.payload| == size
       case Answering(Accepted(id)) => Logged(s, id)
       case _ => true
  }

  /** The step is none of the pipe thread's; it may only add to the ledger. */
  predicate LeavesPipe(s: Plane, t: Plane)
  {
    t.pipe == s.pipe && t.pipeReplies == s.pipeReplies && s.ledger <= t.ledger
  }

  lemma RecordLeavesPipe(s: Plane, ok: bool)
    requires RecordStep(s, ok).Some?
    ensures LeavesPipe(s, RecordStep(s, ok).value)
  {}

  lemma DispatchLeavesPipe(s: Plane, q: Request)
    ensures LeavesPipe(s, Dispatch(s, q))
  {}

  lemma LoopLeavesPipe(cfg: Config, s: Plane, a: Action)
    requires LoopNext(cfg, s, a).Some?
    ensures LeavesPipe(s, LoopNext(cfg, s, a).value)
  {
    match a
    case Receive(frame) => if frame.Some? && frame.value != [] { DispatchLeavesPipe(s, DecodeRequest(frame.value)); }
    case Record(ok) => RecordLeavesPipe(s, ok);
    case _ =>
  }

  lemma LoggedStays(s: Plane, t: Plane, id: nat)
    requires Logged(s, id) && Evolves(s.items, t.items) && s.ledger <= t.ledger
    ensures Logged(t, id)
  {
    assert t.items[id - 1] == s.items[id - 1].(state := t.items[id - 1].state);
  }

  lemma PipeInvStays(s: Plane, t: Plane)
    requires PipeInv(s) && LeavesPipe(s, t) && Evolves(s.items, t.items)
    ensures PipeInv(t)
  {
    forall k | 0 <= k < |t.pipeReplies| && t.pipeReplies[k].Accepted? ensures Logged(t, t.pipeReplies[k].id) {
      LoggedStays(s, t, t.pipeReplies[k].id);
    }
    if s.pipe.Answering? && s.pipe.reply.Accepted? { LoggedStays(s, t, s.pipe.reply.id); }
  }

  lemma PipeStepKeeps(cfg: Config, s: Plane, a: Action)
    requires PipeInv(s) && PipeNext(cfg, s, a).Some?
    requires Evolves(s.items, PipeNext(cfg, s, a).value.items)
    ensures PipeInv(PipeNext(cfg, s, a).value)
  {
    var t := PipeNext(cfg, s, a).value;
    assert s.ledger <= t.ledger;
    forall k | 0 <= k < |s.pipeReplies| && s.pipeReplies[k].Accepted? ensures Logged(t, s.pipeReplies[k].id) {
      LoggedStays(s, t, s.pipeReplies[k].id);
    }
  }

  lemma PipeInvKept(cfg: Config, s: Plane, a: Action)
    requires Inv(cfg, s) && PipeInv(s) && Next(cfg, s, a).Some?
    ensures PipeInv(Next(cfg, s, a).value)
  {
    InvKept(cfg, s, a);
    if a.PipeMessage? || a.PipeRecord? || a.PipeSend? {
      PipeStepKeeps(cfg, s, a);
    } else {
      if !a.Fire? && !a.FireRecord? { LoopLeavesPipe(cfg, s, a); }
      PipeInvStays(s, Next(cfg, s, a).value);
    }
  }

  /** An id is only ever handed out for a proposal that is queued and whose submission is in the
      ledger, provenance and size as queued. */
  lemma {:induction false} AcceptedIsLogged(cfg: Config, actions: seq<Action>)
    ensures PipeInv(Run(cfg, actions))
  {
    if actions != [] {
      var front, last := actions[..|actions| - 1], actions[|actions| - 1];
      AcceptedIsLogged(cfg, front);
      RunKeepsInv(cfg, front);
      if Next(cfg, Run(cfg, front), last).Some? { PipeInvKept(cfg, Run(cfg, front), last); }
    }
  }

  // --- What the pipe answers ---------------------------------------------------------

  /** The state the queue has for an id. */
  function StateIn(items: seq<Proposal>, id: nat): State
  {
    if 1 <= id <= |items| then items[id - 1].state else Unknown
  }

  /** The answer a message gets, over the queue as the message found it. */
  ghost predicate PipeAnswer(mac: Mac, msg: seq<byte>, items: seq<Proposal>, r: PipeReply)
  {
    match r
    case QueryIs(state) => exists id: u64 :: Asks(msg, id) && state == StateIn(items, id)
    case Accepted(id) => id == |items| + 1 && exists payload, provenance :: Submits(mac, msg, payload, provenance)
    case Refused =>
      (forall id: u64 :: !Asks(msg, id)) && (forall payload, provenance :: !Submits(mac, msg, payload, provenance))
  }

  /** The n-th action of the run is the message that gets the k-th answer of the pipe. */
  ghost predicate Takes(cfg: Config, actions: seq<Action>, n: nat, k: nat)
  {
    n < |actions| && actions[n].PipeMessage?
    && var s := Run(cfg, actions[..n]);
       s.alive && s.pipe.Waiting? && |s.pipeReplies| == k
  }

  ghost predicate AnsweredBy(cfg: Config, actions: seq<Action>, k: nat, r: PipeReply)
  {
    exists n: nat :: Takes(cfg, actions, n, k) && PipeAnswer(cfg.mac, actions[n].msg, Run(cfg, actions[..n]).items, r)
  }

  /** The answer the pipe thread is on the way to. */
  function Coming(p: PipeLoop): PipeReply
    requires !p.Waiting?
  {
    match p
    case MacRefused => Refused
    case Queued(id, _, _) => Accepted(id)
    case Answering(r) => r
  }

  ghost predicate PipeAnswers(cfg: Config, actions: seq<Action>, s: Plane)
  {
    (forall k: nat :: k < |s.pipeReplies| ==> AnsweredBy(cfg, actions, k, s.pipeReplies[k]))
    && (!s.pipe.Waiting? ==> AnsweredBy(cfg, actions, |s.pipeReplies|, Coming(s.pipe)))
  }

  lemma AnsweredStays(cfg: Config, front: seq<Action>, a: Action, k: nat, r: PipeReply)
    requires AnsweredBy(cfg, front, k, r)
    ensures AnsweredBy(cfg, front + [a], k, r)
  {
    var n: nat :| Takes(cfg, front, n, k) && PipeAnswer(cfg.mac, front[n].msg, Run(cfg, front[..n]).items, r);
    assert (front + [a])[..n] == front[..n] && (front + [a])[n] == front[n];
  }

  lemma MessageIsAnswered(cfg: Config, s: Plane, msg: seq<byte>)
    requires (forall p :: |cfg.mac(p)| == 32) && s.pipe.Waiting?
    ensures var t := PipeReceived(cfg, s, msg);
      && t.pipeReplies == s.pipeReplies
      && (!t.pipe.Waiting? ==> PipeAnswer(cfg.mac, msg, s.items, Coming(t.pipe)))
  {
    match DecodePipe(cfg.mac, msg)
    case Ignored =>
    case Submission(prov, payload) => PipeMessagesExact(cfg.mac, msg, payload, prov, 0);
    case Query(id) => PipeMessagesExact(cfg.mac, msg, [], Ui, id);
    case _ => NothingAsked(cfg.mac, msg);
  }

  lemma NothingAsked(mac: Mac, msg: seq<byte>)
    requires (forall p :: |mac(p)| == 32) && (DecodePipe(mac, msg).Rejected? || DecodePipe(mac, msg).BadMac?)
    ensures forall id: u64 :: !Asks(msg, id)
    ensures forall payload, provenance :: !Submits(mac, msg, payload, provenance)
  {
    forall id: u64 ensures !Asks(msg, id) { PipeMessagesExact(mac, msg, [], Ui, id); }
    forall payload, provenance ensures !Submits(mac, msg, payload, provenance) {
      PipeMessagesExact(mac, msg, payload, provenance, 0);
    }
  }

  lemma PipeComes(cfg: Config, s: Plane, a: Action)
    requires PipeNext(cfg, s, a).Some? && !a.PipeMessage?
    ensures var t := PipeNext(cfg, s, a).value;
      || (t.pipeReplies == s.pipeReplies && !s.pipe.Waiting? && !t.pipe.Waiting? && Coming(t.pipe) == Coming(s.pipe))
      || (!s.pipe.Waiting? && t.pipe.Waiting? && t.pipeReplies == s.pipeReplies + [Coming(s.pipe)])
  {}

  lemma PipeAnswersKept(cfg: Config, front: seq<Action>, a: Action, s: Plane)
    requires (forall p :: |cfg.mac(p)| == 32) && s == Run(cfg, front) && s.alive
    requires PipeAnswers(cfg, front, s) && PipeNext(cfg, s, a).Some?
    ensures PipeAnswers(cfg, front + [a], PipeNext(cfg, s, a).value)
  {
    var t := PipeNext(cfg, s, a).value;
    forall k: nat | k < |s.pipeReplies| ensures AnsweredBy(cfg, front + [a], k, s.pipeReplies[k]) {
      AnsweredStays(cfg, front, a, k, s.pipeReplies[k]);
    }
    if a.PipeMessage? {
      MessageIsAnswered(cfg, s, a.msg);
      assert (front + [a])[..|front|] == front;
      assert Takes(cfg, front + [a], |front|, |s.pipeReplies|);
    } else {
      PipeComes(cfg, s, a);
      AnsweredStays(cfg, front, a, |s.pipeReplies|, Coming(s.pipe));
    }
  }

  lemma PipeAnswersStay(cfg: Config, front: seq<Action>, a: Action, s: Plane, t: Plane)
    requires PipeAnswers(cfg, front, s) && t.pipe == s.pipe && t.pipeReplies == s.pipeReplies
    ensures PipeAnswers(cfg, front + [a], t)
  {
    forall k: nat | k < |s.pipeReplies| ensures AnsweredBy(cfg, front + [a], k, s.pipeReplies[k]) {
      AnsweredStays(cfg, front, a, k, s.pipeReplies[k]);
    }
    if !s.pipe.Waiting? { AnsweredStays(cfg, front, a, |s.pipeReplies|, Coming(s.pipe)); }
  }

  /** Every answer of the proposal pipe is the one its message calls for, over the queue as the message
      found it: a query is told the state of its id, a submission the next id, all else is refused. */
  lemma {:induction false} PipeAnswersItsMessages(cfg: Config, actions: seq<Action>)
    requires forall p :: |cfg.mac(p)| == 32
    ensures PipeAnswers(cfg, actions, Run(cfg, actions))
  {
    if actions != [] {
      var front, a := actions[..|actions| - 1], actions[|actions| - 1];
      assert actions == front + [a];
      PipeAnswersItsMessages(cfg, front);
      var s := Run(cfg, front);
      if Next(cfg, s, a).None? {
        PipeAnswersStay(cfg, front, a, s, s);
      } else if a.PipeMessage? || a.PipeRecord? || a.PipeSend? {
        PipeAnswersKept(cfg, front, a, s);
      } else {
        if !a.Fire? && !a.FireRecord? { LoopLeavesPipe(cfg, s, a); }
        PipeAnswersStay(cfg, front, a, s, Next(cfg, s, a).value);
      }
    }
  }
}
