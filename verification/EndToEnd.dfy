/** The send page and the trust plane at one queue: both transition systems side by side, stepping
    together wherever one of them moves the queue. What SendFlow takes keyd to do is what
    TrustPlane does, and the promises of the two add up. */
module EndToEnd {
  import opened Bytes
  import opened ProposalQueue
  import opened Protocol
  import F = SendFlow
  import FS = SendFlowSafety
  import FR = SendReview
  import FC = SendScreen
  import P = TrustPlane
  import PS = TrustPlaneSafety
  import PT = TrustPlaneTheorems
  import E = Envelope
  import D = DerivePath
  import B = BtcSpend
  import CoinSelect
  import Identity

  datatype Both = Both(page: F.System, plane: P.Plane)

  /** A step of the page, of the plane, or of both at once. */
  datatype Step = Step(page: Option<F.Action>, plane: Option<P.Action>)

  const START := Both(F.START, P.START)

  function PageNext(w: F.World, s: F.System, a: Option<F.Action>): Option<F.System>
  {
    match a
    case None => Some(s)
    case Some(x) => F.Next(w, s, x)
  }

  function PlaneNext(cfg: P.Config, s: P.Plane, a: Option<P.Action>): Option<P.Plane>
  {
    match a
    case None => Some(s)
    case Some(x) => P.Next(cfg, s, x)
  }

  /** A step that leaves one queue, not two, behind. */
  function Next(w: F.World, cfg: P.Config, s: Both, a: Step): Option<Both>
  {
    var t, u := PageNext(w, s.page, a.page), PlaneNext(cfg, s.plane, a.plane);
    if t.Some? && u.Some? && t.value.items == u.value.items then Some(Both(t.value, u.value)) else None
  }

  /** A run: any sequence of steps, those that are not possible being passed over. */
  function Run(w: F.World, cfg: P.Config, steps: seq<Step>): Both
  {
    if steps == [] then START
    else
      var s := Run(w, cfg, steps[..|steps| - 1]);
      match Next(w, cfg, s, steps[|steps| - 1])
      case None => s
      case Some(t) => t
  }

  // --- Each side of a run is a run ---------------------------------------------------

  lemma PageRunSnoc(w: F.World, actions: seq<F.Action>, a: F.Action)
    requires F.Next(w, F.Run(w, actions), a).Some?
    ensures F.Run(w, actions + [a]) == F.Next(w, F.Run(w, actions), a).value
  {
    assert (actions + [a])[..|actions|] == actions;
  }

  lemma PlaneRunSnoc(cfg: P.Config, actions: seq<P.Action>, a: P.Action)
    requires P.Next(cfg, P.Run(cfg, actions), a).Some?
    ensures P.Run(cfg, actions + [a]) == P.Next(cfg, P.Run(cfg, actions), a).value
  {
    assert (actions + [a])[..|actions|] == actions;
  }

  /** The two sides of a run are runs of their own, over one queue. */
  lemma {:induction false} SidesAreRuns(w: F.World, cfg: P.Config, steps: seq<Step>)
    returns (pageActions: seq<F.Action>, planeActions: seq<P.Action>)
    ensures var s := Run(w, cfg, steps);
      s.page == F.Run(w, pageActions) && s.plane == P.Run(cfg, planeActions) && s.page.items == s.plane.items
  {
    pageActions, planeActions := [], [];
    if steps != [] {
      var front, last := steps[..|steps| - 1], steps[|steps| - 1];
      pageActions, planeActions := SidesAreRuns(w, cfg, front);
      if Next(w, cfg, Run(w, cfg, front), last).Some? {
        if last.page.Some? {
          PageRunSnoc(w, pageActions, last.page.value);
          pageActions := pageActions + [last.page.value];
        }
        if last.plane.Some? {
          PlaneRunSnoc(cfg, planeActions, last.plane.value);
          planeActions := planeActions + [last.plane.value];
        }
      }
    }
  }

  // --- Nothing keyd does is left out of the page's world -----------------------------

  /** The page's world has a step for anything others do to the queue. */
  lemma OthersMove(w: F.World, s: F.System, payload: seq<byte>, provenance: Provenance, id: nat, verdict: State)
    requires verdict == Approved || verdict == Denied
    ensures var t := F.Next(w, s, F.OthersSubmit(payload, provenance));
      t.Some? && t.value.items == Submitted(s.items, payload, provenance)
    ensures var t := F.Next(w, s, F.OthersResolve(id, verdict));
      t.Some? && t.value.items == Resolved(s.items, id, verdict)
  {}

  /** Whatever the plane does next, the page's world has a step that goes with it. */
  lemma PageFollows(w: F.World, cfg: P.Config, steps: seq<Step>, a: P.Action) returns (b: Option<F.Action>)
    requires P.Next(cfg, Run(w, cfg, steps).plane, a).Some?
    ensures Next(w, cfg, Run(w, cfg, steps), Step(b, Some(a))).Some?
  {
    var pageActions, planeActions := SidesAreRuns(w, cfg, steps);
    var s := Run(w, cfg, steps);
    b := FollowMove(w, cfg, s, a);
  }

  lemma FollowMove(w: F.World, cfg: P.Config, s: Both, a: P.Action) returns (b: Option<F.Action>)
    requires s.page.items == s.plane.items && P.Next(cfg, s.plane, a).Some?
    ensures var t := PageNext(w, s.page, b);
      t.Some? && t.value.items == P.Next(cfg, s.plane, a).value.items
  {
    var items, t := s.plane.items, P.Next(cfg, s.plane, a).value;
    PT.PlaneMovesTheQueue(cfg, s.plane, a);
    if t.items == items {
      b := None;
    } else if a.PipeMessage? && DecodePipe(cfg.mac, a.msg).Submission? {
      var r := DecodePipe(cfg.mac, a.msg);
      b := Some(F.OthersSubmit(r.payload, r.provenance));
      OthersMove(w, s.page, r.payload, r.provenance, 0, Denied);
    } else if s.plane.loop.AtRecv? {
      var id: nat :| t.items == Resolved(items, id, Denied);
      b := Some(F.OthersResolve(id, Denied));
      OthersMove(w, s.page, [], Ui, id, Denied);
    } else {
      b := Some(F.OthersResolve(s.plane.loop.issue.id, Approved));
      OthersMove(w, s.page, [], Ui, s.plane.loop.issue.id, Approved);
    }
  }

  /** So every run of the plane is one side of a run of both. */
  lemma {:induction false} EveryPlaneRunIsASide(w: F.World, cfg: P.Config, planeActions: seq<P.Action>)
    returns (steps: seq<Step>)
    ensures Run(w, cfg, steps).plane == P.Run(cfg, planeActions)
  {
    steps := [];
    if planeActions != [] {
      var front, last := planeActions[..|planeActions| - 1], planeActions[|planeActions| - 1];
      steps := EveryPlaneRunIsASide(w, cfg, front);
      if P.Next(cfg, P.Run(cfg, front), last).Some? {
        var b := PageFollows(w, cfg, steps, last);
        assert (steps + [Step(b, Some(last))])[..|steps|] == steps;
        steps := steps + [Step(b, Some(last))];
      }
    }
  }

  // --- What the page asks of keyd is what keyd does ----------------------------------

  /** Confirming queues the draft: when the pipe thread is there to read it, the page's submission
      and the plane's are one step. */
  lemma ConfirmIsSubmit(w: F.World, cfg: P.Config, steps: seq<Step>, reply: F.SubmitReply)
    requires var s := Run(w, cfg, steps);
      && s.plane.alive && s.plane.pipe.Waiting? && reply != F.NeverQueued
      && s.page.page.stage == F.Review && s.page.page.job.None? && s.page.page.proposal == 0
      && F.MayConfirm(s.page.page) && F.DraftEnvelope(w, s.page.page).Some?
    requires forall p :: |cfg.mac(p)| == MAC_BYTES
    ensures var s := Run(w, cfg, steps);
      var payload := F.DraftEnvelope(w, s.page.page).value;
      Next(w, cfg, s, Step(Some(F.Confirm(reply)), Some(P.PipeMessage(UiFrame(cfg.mac, payload))))).Some?
  {
    var s := Run(w, cfg, steps);
    var payload := F.DraftEnvelope(w, s.page.page).value;
    var pageActions, planeActions := SidesAreRuns(w, cfg, steps);
    UiProvenanceIsEarned(cfg.mac, UiFrame(cfg.mac, payload), payload);
  }

  lemma PageCancels(w: F.World, s: F.System)
    requires s.page.stage !in {F.Form, F.Delivering} && s.page.proposal != 0
    ensures var t := F.Next(w, s, F.Cancel(true));
      t.Some? && t.value.items == Resolved(s.items, s.page.proposal, Denied)
  {}

  lemma DenyIsUnderstood(id: u64)
    ensures DecodeRequest(DenyFrame(id)) == Deny(id)
  {
    RequestsAreUnderstood(id, [], 0, 0);
  }

  lemma PlaneDenies(cfg: P.Config, s: P.Plane, id: u64)
    requires s.alive && s.loop.AtRecv?
    ensures var t := P.Next(cfg, s, P.Receive(Some(DenyFrame(id))));
      t.Some? && t.value.items == Resolved(s.items, id, Denied)
  {
    DenyIsUnderstood(id);
  }

  /** Cancelling a queued draft denies it: the page's cancel and the plane's deny are one step. */
  lemma CancelIsDeny(w: F.World, cfg: P.Config, steps: seq<Step>)
    requires var s := Run(w, cfg, steps);
      && s.plane.alive && s.plane.loop.AtRecv?
      && s.page.page.stage !in {F.Form, F.Delivering} && 0 < s.page.page.proposal < TWO_64
    ensures var s := Run(w, cfg, steps);
      Next(w, cfg, s, Step(Some(F.Cancel(true)), Some(P.Receive(Some(DenyFrame(s.page.page.proposal)))))).Some?
  {
    var s := Run(w, cfg, steps);
    var pageActions, planeActions := SidesAreRuns(w, cfg, steps);
    PageCancels(w, s.page);
    PlaneDenies(cfg, s.plane, s.page.page.proposal);
  }

  /** A delivery that waits for keyd's one answer about this proposal. */
  predicate Asking(s: F.System, i: nat, id: nat)
  {
    i < |s.jobs| && s.jobs[i].kind == F.JobKind.Deliver(id) && s.jobs[i].phase == F.Running && s.jobs[i].step == 0
  }

  lemma PageIsAnswered(w: F.World, s: F.System, i: nat, id: nat, answer: F.Answer)
    requires Asking(s, i, id) && IsPending(s.items, id) && answer != F.Refusal
    ensures var t := F.Next(w, s, F.AskKeyd(i, answer));
      t.Some? && t.value.items == Resolved(s.items, id, Approved) && t.value.releases == s.releases + [id]
  {}

  lemma PlaneResolves(cfg: P.Config, s: P.Plane)
    requires PS.Inv(cfg, s) && s.alive && s.loop.SignedOff?
    ensures var t := P.Next(cfg, s, P.ResolveNow);
      && t.Some? && t.value.items == Resolved(s.items, s.loop.issue.id, Approved)
      && PS.Claimed(t.value) == PS.Claimed(s) + [s.loop.issue]
  {}

  /** A delivery's approve: where the plane has signed the delivery's proposal and is about to
      resolve it, the page's answer and the plane's verdict are one step, which adds the id to
      what was released to the page; and the proposal was pending, as the page's world assumes. */
  lemma AnswerIsVerdict(w: F.World, cfg: P.Config, steps: seq<Step>, i: nat, answer: F.Answer)
    requires var s := Run(w, cfg, steps);
      s.plane.alive && s.plane.loop.SignedOff? && Asking(s.page, i, s.plane.loop.issue.id) && answer != F.Refusal
    ensures var s := Run(w, cfg, steps);
      var t := Next(w, cfg, s, Step(Some(F.AskKeyd(i, answer)), Some(P.ResolveNow)));
      && IsPending(s.page.items, s.plane.loop.issue.id)
      && t.Some? && t.value.page.releases == s.page.releases + [s.plane.loop.issue.id]
      && PS.Claimed(t.value.plane) == PS.Claimed(s.plane) + [s.plane.loop.issue]
  {
    var s := Run(w, cfg, steps);
    var pageActions, planeActions := SidesAreRuns(w, cfg, steps);
    PT.ResolveNeverFails(cfg, planeActions);
    PS.RunKeepsInv(cfg, planeActions);
    PageIsAnswered(w, s.page, i, s.plane.loop.issue.id, answer);
    PlaneResolves(cfg, s.plane);
  }

  // --- What the two promise together -------------------------------------------------

  /** The signatures there are for a proposal the page remembers, replied or only recorded, are all
      over the envelope of the draft on screen: under its preset, its account and its bytes. */
  lemma DraftOnScreenIsWhatIsSigned(w: F.World, cfg: P.Config, steps: seq<Step>)
    ensures var s := Run(w, cfg, steps);
      forall k :: 0 <= k < |PS.Recorded(s.plane.ledger)| && PS.Recorded(s.plane.ledger)[k].id == s.page.page.proposal ==>
        var i := PS.Recorded(s.plane.ledger)[k];
        F.DraftEnvelope(w, s.page.page) == Some(i.over) && P.Genuine(cfg, i)
  {
    var s := Run(w, cfg, steps);
    var pageActions, planeActions := SidesAreRuns(w, cfg, steps);
    FS.ReviewedDraftIsQueued(w, pageActions);
    PS.RunKeepsInv(cfg, planeActions);
    forall k | 0 <= k < |PS.Recorded(s.plane.ledger)| && PS.Recorded(s.plane.ledger)[k].id == s.page.page.proposal
      ensures var i := PS.Recorded(s.plane.ledger)[k];
        F.DraftEnvelope(w, s.page.page) == Some(i.over) && P.Genuine(cfg, i)
    {
      var i := PS.Recorded(s.plane.ledger)[k];
      assert PS.Recorded(s.plane.ledger) <= PS.Claimed(s.plane);
      assert PS.Claimed(s.plane)[k] == i;
      assert PS.OverQueuedBytes(cfg, s.plane.items, i);
    }
  }

  /** However often a review is confirmed, and whoever approves what it queued, keyd replies with at
      most one signature for it, plus one for every change of the Bitcoin fee tier and one for
      every submission whose reply was lost; for what the page itself sent to delivery, the lost
      ones do not count. */
  lemma OneSignaturePerReview(w: F.World, cfg: P.Config, steps: seq<Step>)
    ensures var s := Run(w, cfg, steps);
      var ids, page := PS.Ids(PS.Released(s.plane.replies)), s.page;
      && FS.ReleasedFor(ids, page.queuedIds) <= 1 + page.tierChanges + page.lostReplies
      && FS.ReleasedFor(ids, page.reviewIds) <= 1 + page.tierChanges
      && (page.page.stage != F.Form && page.page.family != D.Btc ==> page.tierChanges == 0)
  {
    var s := Run(w, cfg, steps);
    var pageActions, planeActions := SidesAreRuns(w, cfg, steps);
    FS.RunKeepsInv(w, pageActions);
    FR.ReviewQueues(w, pageActions);
    PT.NeverAheadOfTheLedger(cfg, planeActions);
    var released, recorded := PS.Released(s.plane.replies), PS.Recorded(s.plane.ledger);
    assert PS.Ids(released) == PS.Ids(recorded)[..|released|];
    FS.AtMostOneEach(PS.Ids(released), s.page.queuedIds);
    FS.AtMostOneEach(PS.Ids(released), s.page.reviewIds);
  }

  /** What was released to the page's deliveries is what the plane has signed: back at recv, each of
      these ids is, once, the id of a signature the plane replied with and recorded. */
  lemma ReleasesAreSignatures(w: F.World, cfg: P.Config, steps: seq<Step>)
    ensures var s := Run(w, cfg, steps);
      s.plane.loop.AtRecv? ==>
        && Distinct(s.page.releases)
        && forall k :: 0 <= k < |s.page.releases| ==>
             s.page.releases[k] in PS.Ids(PS.Released(s.plane.replies))
  {
    var s := Run(w, cfg, steps);
    var pageActions, planeActions := SidesAreRuns(w, cfg, steps);
    FS.RunKeepsInv(w, pageActions);
    PT.SignApproveAudit(cfg, planeActions);
    if s.plane.loop.AtRecv? {
      PS.RunKeepsInv(cfg, planeActions);
      PT.ApprovedIdsExact(s.plane.items);
      forall k | 0 <= k < |s.page.releases|
        ensures s.page.releases[k] in PS.Ids(PS.Released(s.plane.replies))
      {
        assert IsApproved(s.page.items, s.page.releases[k]);
      }
    }
  }

  // --- The fee -----------------------------------------------------------------------

  /** On Bitcoin bodies the plane's signer is the one that judges them first. */
  ghost predicate JudgesBitcoin(cfg: P.Config, lib: B.Library, keys: Identity.Keys)
  {
    forall w, body: E.ProposalBody, salt: nat ::
      D.PresetFamily(body.preset) == D.Btc && cfg.sign(w, body, salt).Some? ==>
        B.Judge(lib, keys, w, body.tx, body.account, body.preset).Ok?
  }

  /** The selection on screen, under no sum that wraps, whose skeleton can be read back. */
  ghost predicate Readable(lib: B.Library, p: F.Page)
  {
    && D.PresetFamily(p.preset) == D.Btc
    && CoinSelect.Fits(p.btc.utxos, p.btc.amount, FR.RateAt(p.btc.tiers, p.btc.tier), FR.InputWeight(p.preset), 43)
    && var plan := B.PlanOf(lib, p.btc.selection, p.btc.amount, p.to, p.from);
       plan.Ok? ==> |lib.encode(plan.value)| < TWO_32 - 4
                    && lib.parse(lib.encode(plan.value)) == Some(B.Unvalued(plan.value))
  }

  lemma DraftIsItsPayload(w: F.World, p: F.Page, over: seq<byte>)
    requires p.family == D.Btc && F.DraftEnvelope(w, p) == Some(over)
    ensures var plan := B.PlanOf(w.lib, p.btc.selection, p.btc.amount, p.to, p.from);
      plan.Ok? && E.ParseProposal(over) == Ok(E.ProposalBody(p.preset, p.account, B.PayloadOf(w.lib, plan.value)))
  {
    var plan := B.PlanOf(w.lib, p.btc.selection, p.btc.amount, p.to, p.from).value;
    E.ParseReadsExactlyTheCarriers(over, E.ProposalBody(p.preset, p.account, B.PayloadOf(w.lib, plan)));
  }

  /** The plan spends the selected coins, pays the amount on screen to the address on screen, and brings
      the change on screen back to the page's own address; there is no other output. */
  ghost predicate PaysAsShown(lib: B.Library, plan: B.TxPlan, p: F.Page)
  {
    && |plan.inputs| == |p.btc.selection.inputs|
    && (forall i :: 0 <= i < |plan.inputs| ==>
          plan.inputs[i].vout == p.btc.selection.inputs[i].vout && plan.inputs[i].value == p.btc.selection.inputs[i].value)
    && |plan.outputs| == (if p.btc.selection.change == 0 then 1 else 2)
    && plan.outputs[0].value == p.btc.amount && Some(plan.outputs[0].script) == lib.scriptFor(p.to)
    && (|plan.outputs| == 2 ==>
          plan.outputs[1].value == p.btc.selection.change && Some(plan.outputs[1].script) == lib.scriptFor(p.from))
  }

  /** The fee on screen is the fee that is signed: whatever signature there is for the remembered
      proposal of a Bitcoin review, its signer judged the very plan on screen, with that fee. */
  lemma FeeOnScreenIsWhatIsSigned(w: F.World, cfg: P.Config, keys: Identity.Keys, steps: seq<Step>, k: nat)
    requires JudgesBitcoin(cfg, w.lib, keys)
    requires var s := Run(w, cfg, steps);
      && s.page.page.family == D.Btc && Readable(w.lib, s.page.page)
      && k < |PS.Recorded(s.plane.ledger)| && PS.Recorded(s.plane.ledger)[k].id == s.page.page.proposal
    ensures var s := Run(w, cfg, steps);
      var p, i := s.page.page, PS.Recorded(s.plane.ledger)[k];
      var body := E.ParseProposal(i.over);
      var plan := B.PlanOf(w.lib, p.btc.selection, p.btc.amount, p.to, p.from);
      && body.Ok? && plan.Ok?
      && var j := B.Judge(w.lib, keys, i.wallet, body.value.tx, body.value.account, body.value.preset);
         && j.Ok? && j.value.plan == plan.value && j.value.fee == p.btc.selection.fee
         && PaysAsShown(w.lib, j.value.plan, p)
  {
    var s := Run(w, cfg, steps);
    var p, i := s.page.page, PS.Recorded(s.plane.ledger)[k];
    var pageActions, planeActions := SidesAreRuns(w, cfg, steps);
    DraftOnScreenIsWhatIsSigned(w, cfg, steps);
    DraftIsItsPayload(w, p, i.over);
    PT.NeverAheadOfTheLedger(cfg, planeActions);
    assert IsApproved(s.plane.items, i.id);
    FS.RunKeepsInv(w, pageActions);
    FR.DraftIsPriced(w, pageActions);
    B.SelectionFeeIsJudged(w.lib, keys, i.wallet, p.account, p.preset,
                           p.btc.utxos, p.btc.amount, FR.RateAt(p.btc.tiers, p.btc.tier), FR.InputWeight(p.preset), 43,
                           p.to, p.from);
    B.PlanIsWhatWasAsked(w.lib, p.btc.selection, p.btc.amount, p.to, p.from);
  }

  // --- From the entry to the signature -----------------------------------------------

  /** The bytes ask for what was entered, under the figures on screen. */
  ghost predicate AsEntered(w: F.World, d: F.Page, p: F.Page, body: E.ProposalBody)
  {
    && body.preset == d.preset && body.account == d.account
    && match d.family
       case Eth => body.tx == w.signingPayload(F.EvmTx(d.evm.call, p.evm.market))
       case Sol =>
         && w.encodeSol(d.from, d.to, p.sol) == Some(body.tx)
         && p.sol.spl == d.sol.spl && p.sol.mint == d.sol.mint && p.sol.decimals == d.sol.decimals
         && p.sol.lamports == d.sol.lamports && p.sol.amount == d.sol.amount
       case Btc =>
         var plan := B.PlanOf(w.lib, p.btc.selection, d.btc.amount, d.to, d.from);
         plan.Ok? && body.tx == B.PayloadOf(w.lib, plan.value)
  }

  lemma EnvelopeIsParsed(over: seq<byte>, preset: D.Preset, account: u32, tx: seq<byte>)
    requires over == E.MakeEnvelope(preset, account, tx) && E.ParseProposal(over).Ok?
    ensures E.ParseProposal(over) == Ok(E.ProposalBody(preset, account, tx))
  {
    var body := E.ParseProposal(over).value;
    E.ParseReadsExactlyTheCarriers(over, body);
    if tx != [] { E.ParseReadsExactlyTheCarriers(over, E.ProposalBody(preset, account, tx)); }
    assert over[0] == E.ENVELOPE_V2;
  }

  /** What was entered is what is signed: in every run of page and plane, whatever signature there is for
      the remembered proposal is over bytes that ask for just what the review was begun with. */
  lemma EnteredIsWhatIsSigned(w: F.World, cfg: P.Config, steps: seq<Step>, k: nat)
    returns (pageActions: seq<F.Action>)
    requires var s := Run(w, cfg, steps);
      k < |PS.Recorded(s.plane.ledger)| && PS.Recorded(s.plane.ledger)[k].id == s.page.page.proposal
    ensures var s := Run(w, cfg, steps);
      var entered, body := FC.Entered(w, pageActions), E.ParseProposal(PS.Recorded(s.plane.ledger)[k].over);
      && s.page == F.Run(w, pageActions)
      && entered.Some? && body.Ok? && AsEntered(w, entered.value, s.page.page, body.value)
  {
    var s := Run(w, cfg, steps);
    var p, i := s.page.page, PS.Recorded(s.plane.ledger)[k];
    var planeActions;
    pageActions, planeActions := SidesAreRuns(w, cfg, steps);
    DraftOnScreenIsWhatIsSigned(w, cfg, steps);
    PT.NeverAheadOfTheLedger(cfg, planeActions);
    assert IsApproved(s.plane.items, i.id);
    FS.RunKeepsInv(w, pageActions);
    FC.EnteredIsReviewed(w, pageActions);
    EnvelopeIsParsed(i.over, p.preset, p.account, F.DraftTx(w, p).value);
  }
}
