/** A run of page and plane in which one review is signed twice: the reply to its first submission is
    lost, the page submits again, and both proposals are approved. So the count of lost replies in
    EndToEnd.OneSignaturePerReview cannot be dropped. */
module LostReply {
  import opened Bytes
  import opened ProposalQueue
  import opened Protocol
  import opened EndToEnd
  import F = SendFlow
  import FS = SendFlowSafety
  import P = TrustPlane
  import PS = TrustPlaneSafety
  import D = DerivePath
  import Vault

  // --- One step more -----------------------------------------------------------------

  lemma Joined(w: F.World, cfg: P.Config, steps: seq<Step>, a: Step) returns (more: seq<Step>)
    requires Next(w, cfg, Run(w, cfg, steps), a).Some?
    ensures Run(w, cfg, more) == Next(w, cfg, Run(w, cfg, steps), a).value
  {
    more := steps + [a];
    assert more[..|steps|] == steps;
  }

  lemma PageAlone(w: F.World, cfg: P.Config, steps: seq<Step>, a: F.Action) returns (more: seq<Step>)
    requires var s := Run(w, cfg, steps);
      s.page.items == s.plane.items
      && F.Next(w, s.page, a).Some? && F.Next(w, s.page, a).value.items == s.page.items
    ensures Run(w, cfg, more) == Run(w, cfg, steps).(page := F.Next(w, Run(w, cfg, steps).page, a).value)
  {
    more := Joined(w, cfg, steps, Step(Some(a), None));
  }

  lemma PlaneAlone(w: F.World, cfg: P.Config, steps: seq<Step>, a: P.Action) returns (more: seq<Step>)
    requires var s := Run(w, cfg, steps);
      s.page.items == s.plane.items
      && P.Next(cfg, s.plane, a).Some? && P.Next(cfg, s.plane, a).value.items == s.plane.items
    ensures Run(w, cfg, more) == Run(w, cfg, steps).(plane := P.Next(cfg, Run(w, cfg, steps).plane, a).value)
  {
    more := Joined(w, cfg, steps, Step(None, Some(a)));
  }

  // --- Submitting and approving ------------------------------------------------------

  /** A step of the plane that moves neither the queue nor the replies nor the pipe thread. */
  predicate Inward(s: P.Plane, t: P.Plane, loop: P.Loop)
  {
    t.items == s.items && t.alive && t.pipe == s.pipe && t.replies == s.replies && t.loop == loop
  }

  lemma PlaneSubmits(cfg: P.Config, s: P.Plane, payload: seq<byte>)
    requires (forall p :: |cfg.mac(p)| == MAC_BYTES) && payload != [] && s.alive && s.pipe.Waiting?
    ensures P.Next(cfg, s, P.PipeMessage(UiFrame(cfg.mac, payload)))
         == Some(s.(items := Submitted(s.items, payload, Ui), pipe := P.Queued(|s.items| + 1, Ui, |payload|)))
  {
    UiProvenanceIsEarned(cfg.mac, UiFrame(cfg.mac, payload), payload);
  }

  lemma PlaneAcknowledges(cfg: P.Config, s: P.Plane)
    requires s.alive && s.pipe.Queued?
    ensures var t := P.Next(cfg, s, P.PipeRecord(true));
      t.Some? && t.value.items == s.items && t.value.alive && t.value.pipe.Answering?
      && t.value.loop == s.loop && t.value.replies == s.replies
  {}

  lemma PlaneAnswersPipe(cfg: P.Config, s: P.Plane)
    requires s.alive && s.pipe.Answering?
    ensures var t := P.Next(cfg, s, P.PipeSend);
      t.Some? && t.value.items == s.items && t.value.alive && t.value.pipe.Waiting?
      && t.value.loop == s.loop && t.value.replies == s.replies
  {}

  /** The pipe thread takes a submission from the page and finishes with it. */
  lemma SubmitRound(w: F.World, cfg: P.Config, steps: seq<Step>, payload: seq<byte>, b: F.Action)
    returns (more: seq<Step>)
    requires (forall p :: |cfg.mac(p)| == MAC_BYTES) && payload != []
    requires var s := Run(w, cfg, steps);
      s.page.items == s.plane.items && s.plane.alive && s.plane.pipe.Waiting?
      && F.Next(w, s.page, b).Some? && F.Next(w, s.page, b).value.items == Submitted(s.page.items, payload, Ui)
    ensures var s, t := Run(w, cfg, steps), Run(w, cfg, more);
      && t.page == F.Next(w, s.page, b).value
      && t.plane.items == t.page.items && t.plane.alive && t.plane.pipe.Waiting?
      && t.plane.loop == s.plane.loop && t.plane.replies == s.plane.replies
  {
    PlaneSubmits(cfg, Run(w, cfg, steps).plane, payload);
    more := Joined(w, cfg, steps, Step(Some(b), Some(P.PipeMessage(UiFrame(cfg.mac, payload)))));
    PlaneAcknowledges(cfg, Run(w, cfg, more).plane);
    more := PlaneAlone(w, cfg, more, P.PipeRecord(true));
    PlaneAnswersPipe(cfg, Run(w, cfg, more).plane);
    more := PlaneAlone(w, cfg, more, P.PipeSend);
  }

  lemma ApproveIsUnderstood(id: u64, pass: seq<byte>)
    ensures ApproveFrame(id, pass) != [] && DecodeRequest(ApproveFrame(id, pass)) == Approve(id, pass)
  {
    RequestsAreUnderstood(id, pass, 0, 0);
  }

  lemma PlaneReads(cfg: P.Config, s: P.Plane, id: u64, pass: seq<byte>)
    requires s.alive && s.loop.AtRecv?
    ensures var t := P.Next(cfg, s, P.Receive(Some(ApproveFrame(id, pass))));
      t.Some? && Inward(s, t.value, P.Verifying(Approve(id, pass), P.Delay(s.badPass)))
  {
    ApproveIsUnderstood(id, pass);
  }

  lemma PlaneOpens(cfg: P.Config, s: P.Plane, id: u64, pass: seq<byte>, wallet: Vault.Wallet)
    requires s.alive && s.loop.Verifying? && s.loop.request == Approve(id, pass)
    ensures var t := P.Next(cfg, s, P.OpenVault(Some(wallet)));
      t.Some? && Inward(s, t.value, P.Verified(id, wallet))
  {}

  lemma PlaneLooksUp(cfg: P.Config, s: P.Plane, id: nat, wallet: Vault.Wallet)
    requires s.alive && s.loop == P.Verified(id, wallet) && IsPending(s.items, id)
    ensures var t := P.Next(cfg, s, P.ReadQueue);
      t.Some? && Inward(s, t.value, P.Fetched(id, wallet, Lookup(s.items, id).value.payload))
  {}

  lemma PlaneSigns(cfg: P.Config, s: P.Plane, i: P.Issue)
    requires s.alive && s.loop == P.Fetched(i.id, i.wallet, i.over) && P.Genuine(cfg, i)
    ensures var t := P.Next(cfg, s, P.SignNow(i.salt));
      t.Some? && Inward(s, t.value, P.SignedOff(i))
  {}

  lemma PlaneResolves(cfg: P.Config, s: P.Plane, i: P.Issue)
    requires s.alive && s.loop == P.SignedOff(i)
    ensures P.Next(cfg, s, P.ResolveNow)
         == Some(s.(items := Resolved(s.items, i.id, Approved), loop := P.ResolvedAs(i)))
  {}

  lemma PlaneRecords(cfg: P.Config, s: P.Plane, i: P.Issue)
    requires s.alive && s.loop == P.ResolvedAs(i)
    ensures var t := P.Next(cfg, s, P.Record(true));
      t.Some? && Inward(s, t.value, P.Replying(P.Signed(i)))
  {}

  lemma PlaneReplies(cfg: P.Config, s: P.Plane, i: P.Issue)
    requires s.alive && s.loop == P.Replying(P.Signed(i))
    ensures var t := P.Next(cfg, s, P.Send(true));
      t.Some? && t.value.items == s.items && t.value.alive && t.value.pipe == s.pipe
      && t.value.loop.AtRecv? && t.value.replies == s.replies + [P.Signed(i)]
  {}

  /** Page and plane agree on the queue, and the plane's loop waits for a request. */
  predicate Ready(s: Both) { s.page.items == s.plane.items && s.plane.alive && s.plane.loop.AtRecv? }

  /** The signature the plane would make for this proposal. */
  ghost predicate Signable(cfg: P.Config, items: seq<Proposal>, i: P.Issue)
  {
    IsPending(items, i.id) && Lookup(items, i.id).value.payload == i.over && P.Genuine(cfg, i)
  }

  lemma UpToSigned(w: F.World, cfg: P.Config, steps: seq<Step>, id: u64, pass: seq<byte>, i: P.Issue)
    returns (more: seq<Step>)
    requires Ready(Run(w, cfg, steps)) && Signable(cfg, Run(w, cfg, steps).plane.items, i) && i.id == id
    ensures var s, t := Run(w, cfg, steps), Run(w, cfg, more);
      t.page == s.page && Inward(s.plane, t.plane, P.SignedOff(i))
  {
    PlaneReads(cfg, Run(w, cfg, steps).plane, id, pass);
    more := PlaneAlone(w, cfg, steps, P.Receive(Some(ApproveFrame(id, pass))));
    PlaneOpens(cfg, Run(w, cfg, more).plane, id, pass, i.wallet);
    more := PlaneAlone(w, cfg, more, P.OpenVault(Some(i.wallet)));
    PlaneLooksUp(cfg, Run(w, cfg, more).plane, id, i.wallet);
    more := PlaneAlone(w, cfg, more, P.ReadQueue);
    PlaneSigns(cfg, Run(w, cfg, more).plane, i);
    more := PlaneAlone(w, cfg, more, P.SignNow(i.salt));
  }

  /** An approve of a pending proposal that its family signs, with a passphrase that opens the vault,
      is answered with the signature; `b` is the page's share in the verdict. */
  lemma ApproveRound(w: F.World, cfg: P.Config, steps: seq<Step>, id: u64, pass: seq<byte>, i: P.Issue, b: F.Action)
    returns (more: seq<Step>)
    requires Ready(Run(w, cfg, steps)) && Signable(cfg, Run(w, cfg, steps).plane.items, i) && i.id == id
    requires var s := Run(w, cfg, steps);
      F.Next(w, s.page, b).Some? && F.Next(w, s.page, b).value.items == Resolved(s.page.items, id, Approved)
    ensures var s, t := Run(w, cfg, steps), Run(w, cfg, more);
      && Ready(t) && t.page == F.Next(w, s.page, b).value
      && t.plane.replies == s.plane.replies + [P.Signed(i)]
  {
    more := UpToSigned(w, cfg, steps, id, pass, i);
    PlaneResolves(cfg, Run(w, cfg, more).plane, i);
    more := Joined(w, cfg, more, Step(Some(b), Some(P.ResolveNow)));
    PlaneRecords(cfg, Run(w, cfg, more).plane, i);
    more := PlaneAlone(w, cfg, more, P.Record(true));
    PlaneReplies(cfg, Run(w, cfg, more).plane, i);
    more := PlaneAlone(w, cfg, more, P.Send(true));
  }

  // --- The run -----------------------------------------------------------------------

  /** The page of a review of this EVM draft, once its figures have come in. */
  function UnderReview(d: F.Page, f: F.Figures): F.Page
  {
    F.Quoted(F.Begun(F.FRESH_PAGE, d).(stage := F.Quoting), f)
  }

  lemma ReviewRound(w: F.World, cfg: P.Config, d: F.Page, f: F.Figures) returns (steps: seq<Step>)
    requires d.family == D.Eth
    ensures var s := Run(w, cfg, steps);
      s.page == Before(d, f) && s.plane == P.START
  {
    steps := PageAlone(w, cfg, [], F.BeginReview(d));
    steps := PageAlone(w, cfg, steps, F.QuoteEnds(0, true, f));
    steps := PageAlone(w, cfg, steps, F.PollJob);
  }

  /** The page's side under review, after the submission whose reply is lost, and after the next. */
  function Before(d: F.Page, f: F.Figures): F.System
  {
    F.START.(page := UnderReview(d, f), jobs := [F.Job(F.Quote, F.Succeeded, 0, f)])
  }

  function Once(d: F.Page, f: F.Figures, payload: seq<byte>): F.System
  {
    Before(d, f).(items := [Proposal(1, Ui, Pending, payload)], queuedIds := {1}, lostReplies := 1)
  }

  function Twice(d: F.Page, f: F.Figures, payload: seq<byte>): F.System
  {
    Once(d, f, payload).(
      page := UnderReview(d, f).(proposal := 2, job := Some(1), stage := F.Delivering),
      jobs := [F.Job(F.Quote, F.Succeeded, 0, f), F.Job(F.JobKind.Deliver(2), F.Running, 0, F.NO_FIGURES)],
      items := [Proposal(1, Ui, Pending, payload), Proposal(2, Ui, Pending, payload)],
      queuedIds := {1, 2}, reviewIds := {2})
  }

  function PayloadOf(w: F.World, d: F.Page, f: F.Figures): seq<byte>
    requires d.family == D.Eth
  {
    F.DraftEnvelope(w, UnderReview(d, f)).value
  }

  lemma FirstConfirm(w: F.World, d: F.Page, f: F.Figures)
    requires d.family == D.Eth
    ensures F.Next(w, Before(d, f), F.Confirm(F.ReplyLost)) == Some(Once(d, f, PayloadOf(w, d, f)))
  {
    var t := F.Next(w, Before(d, f), F.Confirm(F.ReplyLost)).value;
    assert t.queuedIds == {1} && t.items == Once(d, f, PayloadOf(w, d, f)).items;
  }

  lemma SecondConfirm(w: F.World, d: F.Page, f: F.Figures)
    requires d.family == D.Eth
    ensures F.Next(w, Once(d, f, PayloadOf(w, d, f)), F.Confirm(F.Accepted)) == Some(Twice(d, f, PayloadOf(w, d, f)))
  {
    var t := F.Next(w, Once(d, f, PayloadOf(w, d, f)), F.Confirm(F.Accepted)).value;
    assert t.queuedIds == {1, 2} && t.reviewIds == {2};
    assert t.jobs == Twice(d, f, PayloadOf(w, d, f)).jobs && t.items == Twice(d, f, PayloadOf(w, d, f)).items;
  }

  lemma ConfirmTwice(w: F.World, cfg: P.Config, d: F.Page, f: F.Figures) returns (steps: seq<Step>)
    requires d.family == D.Eth && forall p :: |cfg.mac(p)| == MAC_BYTES
    ensures var s := Run(w, cfg, steps);
      s.page == Twice(d, f, PayloadOf(w, d, f)) && Ready(s) && s.plane.replies == []
  {
    var payload := PayloadOf(w, d, f);
    assert payload != [];
    steps := ReviewRound(w, cfg, d, f);
    FirstConfirm(w, d, f);
    steps := SubmitRound(w, cfg, steps, payload, F.Confirm(F.ReplyLost));
    SecondConfirm(w, d, f);
    steps := SubmitRound(w, cfg, steps, payload, F.Confirm(F.Accepted));
  }

  /** The page's side when someone has approved the first proposal, and when the page's own delivery
      has been answered for the second. */
  function OneApproved(d: F.Page, f: F.Figures, payload: seq<byte>): F.System
  {
    Twice(d, f, payload).(items := [Proposal(1, Ui, Approved, payload), Proposal(2, Ui, Pending, payload)])
  }

  lemma Verdicts(w: F.World, d: F.Page, f: F.Figures, payload: seq<byte>)
    ensures F.Next(w, Twice(d, f, payload), F.OthersResolve(1, Approved)) == Some(OneApproved(d, f, payload))
    ensures Resolved(Twice(d, f, payload).items, 1, Approved) == OneApproved(d, f, payload).items
    ensures var t := F.Next(w, OneApproved(d, f, payload), F.AskKeyd(1, F.SignatureReceived));
      && t.Some? && t.value.items == Resolved(OneApproved(d, f, payload).items, 2, Approved)
      && t.value.page == Twice(d, f, payload).page && t.value.tierChanges == 0 && t.value.lostReplies == 1
      && t.value.queuedIds == {1, 2} && t.value.reviewIds == {2}
  {
    assert Resolved(Twice(d, f, payload).items, 1, Approved) == OneApproved(d, f, payload).items;
  }

  lemma DraftUntouched(w: F.World, d: F.Page, f: F.Figures)
    requires d.family == D.Eth
    ensures F.DraftEnvelope(w, Twice(d, f, PayloadOf(w, d, f)).page) == Some(PayloadOf(w, d, f))
  {}

  /** One review of an EVM draft, no fee tier changed, one reply lost: two signatures, both over the
      envelope of the draft on screen. */
  lemma SignedTwice(w: F.World, cfg: P.Config, d: F.Page, f: F.Figures, pass: seq<byte>, wallet: Vault.Wallet, salt: nat)
    returns (steps: seq<Step>)
    requires d.family == D.Eth && forall p :: |cfg.mac(p)| == MAC_BYTES
    requires P.SignProposal(cfg, wallet, PayloadOf(w, d, f), salt).Some?
    ensures var s := Run(w, cfg, steps);
      var signed := PS.Released(s.plane.replies);
      && s.page.tierChanges == 0 && s.page.lostReplies == 1
      && s.page.queuedIds == {1, 2} && s.page.reviewIds == {2}
      && FS.ReleasedFor(PS.Ids(signed), s.page.queuedIds) == 2
      && |signed| == 2 && Some(signed[0].over) == Some(signed[1].over) == F.DraftEnvelope(w, s.page.page)
  {
    var payload := PayloadOf(w, d, f);
    var i := P.Issue(1, payload, wallet, salt, P.SignProposal(cfg, wallet, payload, salt).value);
    Verdicts(w, d, f, payload);
    DraftUntouched(w, d, f);
    steps := ConfirmTwice(w, cfg, d, f);
    steps := ApproveRound(w, cfg, steps, 1, pass, i, F.OthersResolve(1, Approved));
    steps := ApproveRound(w, cfg, steps, 2, pass, i.(id := 2), F.AskKeyd(1, F.SignatureReceived));
    TwoReleased(i, i.(id := 2), {1, 2});
    assert Run(w, cfg, steps).plane.replies == [P.Signed(i), P.Signed(i.(id := 2))];
  }

  lemma TwoReleased(i: P.Issue, j: P.Issue, ids: set<nat>)
    requires i.id in ids && j.id in ids
    ensures var signed := PS.Released([P.Signed(i), P.Signed(j)]);
      signed == [i, j] && FS.ReleasedFor(PS.Ids(signed), ids) == 2
  {
    PS.ReleasedSnoc([], P.Signed(i));
    PS.ReleasedSnoc([P.Signed(i)], P.Signed(j));
    assert [P.Signed(i)] + [P.Signed(j)] == [P.Signed(i), P.Signed(j)] && [] + [P.Signed(i)] == [P.Signed(i)];
    var both := PS.Ids([i, j]);
    assert both[..1] == [i.id] && [i.id][..0] == [];
    assert FS.ReleasedFor([i.id], ids) == FS.ReleasedFor([], ids) + 1;
  }
}
