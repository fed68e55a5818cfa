/** What the send flow keeps over every run: the reviewed draft is the queued one, and a review
    releases no more signatures than it may. */
module SendFlowSafety {
  import opened Bytes
  import opened ProposalQueue
  import opened DerivePath
  import opened SendFlow
  import E = Envelope

  // --- The invariant -----------------------------------------------------------------

  predicate Holds(s: System, kind: JobKind)
  {
    s.page.job.Some? && s.page.job.value < |s.jobs| && s.jobs[s.page.job.value].kind == kind
  }

  /** What the page may hold at each stage. */
  predicate StageInv(s: System)
  {
    var p := s.page;
    match p.stage
    case Form => p.proposal == 0 && p.job.None?
    case Quoting => p.proposal == 0 && Holds(s, Quote)
    case Review => p.job.None? || (Holds(s, Requote) && p.proposal == 0 && p.family == Eth)
    case Delivering => p.proposal != 0 && Holds(s, JobKind.Deliver(p.proposal))
    case Done =>
      p.proposal != 0 && Holds(s, JobKind.Deliver(p.proposal)) && s.jobs[p.job.value].phase == Succeeded
    case Failed =>
      p.proposal != 0
      && (p.job.None? || (Holds(s, JobKind.Deliver(p.proposal)) && s.jobs[p.job.value].phase == Broken))
  }

  /** The proposal the page remembers is queued with the envelope of the draft on screen. */
  predicate DraftQueued(w: World, p: Page, items: seq<Proposal>)
  {
    p.proposal != 0 ==>
      var q := Lookup(items, p.proposal);
      && q.Some? && DraftEnvelope(w, p) == Some(q.value.payload) && q.value.provenance == Ui
      && (p.family == Sol ==> DraftTx(w, p) == Some(p.solMsg))
  }

  predicate JobsKnown(jobs: seq<Job>, items: seq<Proposal>)
  {
    forall i :: 0 <= i < |jobs| && jobs[i].kind.Deliver? ==> 1 <= jobs[i].kind.proposal <= |items|
  }

  /** The deliveries of this review are for the remembered proposal, but for one forgotten
      proposal per change of the fee tier. */
  ghost predicate ReviewInv(s: System)
  {
    (forall id :: id in s.reviewIds ==> 1 <= id <= |s.items|)
    && (s.page.stage != Form ==> |s.reviewIds - {s.page.proposal}| <= s.tierChanges)
    && (s.page.stage != Form && s.page.family != Btc ==> s.tierChanges == 0)
    && |s.reviewIds| <= s.tierChanges + 1
  }

  predicate ReleasesApproved(s: System)
  {
    Distinct(s.releases) && forall k :: 0 <= k < |s.releases| ==> IsApproved(s.items, s.releases[k])
  }

  ghost predicate Inv(w: World, s: System)
  {
    Numbered(s.items) && StageInv(s) && DraftQueued(w, s.page, s.items) && JobsKnown(s.jobs, s.items)
    && ReviewInv(s) && ReleasesApproved(s)
  }

  // --- The queue may evolve under the page -------------------------------------------

  lemma EvolvesKeeps(w: World, s: System, items: seq<Proposal>)
    requires Inv(w, s) && Evolves(s.items, items) && Numbered(items)
    ensures Inv(w, s.(items := items))
  {
    var t := s.(items := items);
    assert StageInv(t);
    forall k | 0 <= k < |s.releases| ensures IsApproved(items, s.releases[k]) {
      assert IsApproved(s.items, s.releases[k]);
    }
  }

  // --- Each kind of action -----------------------------------------------------------

  /** Polling lands figures only while nothing is queued; otherwise the draft stays. */
  lemma PollKeepsDraft(s: System)
    requires StageInv(s)
    ensures var p, q := s.page, Poll(s.page, s.jobs);
      q.proposal == p.proposal
      && (p.proposal != 0 ==> q == p.(stage := q.stage, job := q.job))
  {}

  lemma PollKeepsStage(s: System)
    requires StageInv(s)
    ensures StageInv(s.(page := Poll(s.page, s.jobs)))
    ensures Poll(s.page, s.jobs).family == s.page.family
    ensures s.page.stage == Form ==> Poll(s.page, s.jobs).stage == Form
  {}

  lemma PollKeeps(w: World, s: System)
    requires Inv(w, s)
    ensures Inv(w, s.(page := Poll(s.page, s.jobs)))
  {
    PollKeepsDraft(s);
    PollKeepsStage(s);
    var q := Poll(s.page, s.jobs);
    DraftStays(w, s.page, q, s.items);
    if q.stage == Form { assert s.reviewIds - {0} == s.reviewIds; }
  }

  lemma DraftStays(w: World, p: Page, q: Page, items: seq<Proposal>)
    requires DraftQueued(w, p, items)
    requires q.proposal == p.proposal && (p.proposal != 0 ==> q == p.(stage := q.stage, job := q.job))
    ensures DraftQueued(w, q, items)
  {}

  lemma BeginKeeps(w: World, s: System, d: Page)
    requires Inv(w, s) && Next(w, s, BeginReview(d)).Some?
    ensures Inv(w, Next(w, s, BeginReview(d)).value)
  {}

  lemma RequoteKeeps(w: World, s: System)
    requires Inv(w, s) && Next(w, s, StartRequote).Some?
    ensures Inv(w, Next(w, s, StartRequote).value)
  {}

  /** Picking a tier forgets the proposal, and pays for it with one tier change. */
  lemma TierKeeps(w: World, s: System, tier: int)
    requires Inv(w, s) && Next(w, s, PickTier(tier)).Some?
    ensures Inv(w, Next(w, s, PickTier(tier)).value)
  {
    var t := Next(w, s, PickTier(tier)).value;
    assert t.page.proposal == 0 && t.page.stage == Review && t.page.job.None?;
    assert t.reviewIds - {0} == s.reviewIds;
  }

  lemma ResetKeeps(w: World, s: System, items: seq<Proposal>)
    requires Inv(w, s) && Evolves(s.items, items) && Numbered(items)
    ensures Inv(w, s.(items := items, page := ResetToForm(s.page.(job := None))))
  {
    EvolvesKeeps(w, s, items);
  }

  /** A thread writes to its own job only; the page learns of it when it polls. */
  lemma JobKeeps(w: World, s: System, i: nat, j: Job)
    requires Inv(w, s) && i < |s.jobs| && s.jobs[i].phase == Running && j.kind == s.jobs[i].kind
    ensures Inv(w, s.(jobs := s.jobs[i := j]))
  {
    var t := s.(jobs := s.jobs[i := j]);
    assert forall k :: 0 <= k < |t.jobs| ==> t.jobs[k].kind == s.jobs[k].kind;
    assert StageInv(t);
  }

  lemma ReleaseKeeps(w: World, s: System, id: nat)
    requires Inv(w, s) && IsPending(s.items, id)
    ensures Inv(w, s.(items := Resolved(s.items, id, Approved), releases := s.releases + [id]))
  {
    var items := Resolved(s.items, id, Approved);
    QueueStepsEvolve(s.items, id, Approved, [], Ui);
    EvolvesKeeps(w, s, items);
    var t := s.(items := items, releases := s.releases + [id]);
    assert StageInv(t);
    forall k | 0 <= k < |s.releases| ensures s.releases[k] != id && IsApproved(items, s.releases[k]) {
      assert IsApproved(s.items, s.releases[k]);
    }
  }

  lemma KeydKeeps(w: World, s: System, i: nat, answer: Answer)
    requires Inv(w, s) && Next(w, s, AskKeyd(i, answer)).Some?
    ensures Inv(w, Next(w, s, AskKeyd(i, answer)).value)
  {
    var id := s.jobs[i].kind.proposal;
    if answer == Refusal || !IsPending(s.items, id) {
      JobKeeps(w, s, i, s.jobs[i].(phase := Broken));
    } else {
      ReleaseKeeps(w, s, id);
      var t := s.(items := Resolved(s.items, id, Approved), releases := s.releases + [id]);
      JobKeeps(w, t, i, if answer == SignatureLost then t.jobs[i].(phase := Broken) else t.jobs[i].(step := 1));
    }
  }

  /** Starting a delivery for the remembered proposal, whose draft is queued. */
  lemma DeliveryKeeps(w: World, s: System)
    requires Inv(w, s) && s.page.stage == Review && s.page.proposal != 0
    ensures Inv(w, StartDelivery(s))
  {
    var t := StartDelivery(s);
    var id := s.page.proposal;
    assert t.reviewIds - {id} == s.reviewIds - {id};
    assert t.reviewIds == (s.reviewIds - {id}) + {id};
    assert t.jobs[..|s.jobs|] == s.jobs;
  }

  /** Submitting the draft of a review that has nothing queued yet. */
  lemma SubmitKeeps(w: World, s: System, tx: seq<byte>)
    requires Inv(w, s) && s.page.stage == Review && s.page.proposal == 0 && s.page.job.None?
    requires DraftTx(w, s.page) == Some(tx) && (s.page.family == Sol ==> s.page.solMsg == tx)
    ensures var p := s.page;
      Inv(w, Enqueued(s, E.MakeEnvelope(p.preset, p.account, tx)).(page := p.(proposal := |s.items| + 1)))
  {
    var p := s.page;
    var items := Submitted(s.items, E.MakeEnvelope(p.preset, p.account, tx), Ui);
    QueueStepsEvolve(s.items, 0, Denied, E.MakeEnvelope(p.preset, p.account, tx), Ui);
    EvolvesKeeps(w, s, items);
    assert DraftTx(w, p.(proposal := |s.items| + 1)) == DraftTx(w, p);
    assert |s.items| + 1 !in s.reviewIds;
    assert s.reviewIds - {|s.items| + 1} == s.reviewIds == s.reviewIds - {0};
  }

  lemma ConfirmKeeps(w: World, s: System, reply: SubmitReply)
    requires Inv(w, s) && Next(w, s, Confirm(reply)).Some?
    ensures Inv(w, Next(w, s, Confirm(reply)).value)
  {
    var p := s.page;
    if MayConfirm(p) && p.proposal != 0 {
      DeliveryKeeps(w, s);
    } else if MayConfirm(p) && DraftTx(w, p).Some? {
      var tx := DraftTx(w, p).value;
      var t := s.(page := if p.family == Sol then p.(solMsg := tx) else p);
      assert DraftTx(w, t.page) == DraftTx(w, p);
      assert Inv(w, t);
      var payload := E.MakeEnvelope(p.preset, p.account, tx);
      match reply
      case NeverQueued =>
      case ReplyLost =>
        QueueStepsEvolve(s.items, 0, Denied, payload, Ui);
        EvolvesKeeps(w, t, Submitted(s.items, payload, Ui));
      case Accepted =>
        SubmitKeeps(w, t, tx);
        DeliveryKeeps(w, Enqueued(t, payload).(page := t.page.(proposal := |s.items| + 1)));
    }
  }

  lemma StepKeeps(w: World, s: System, a: Action)
    requires Inv(w, s) && Next(w, s, a).Some?
    ensures Inv(w, Next(w, s, a).value)
  {
    match a
    case PollJob => PollKeeps(w, s);
    case BeginReview(d) => BeginKeeps(w, s, d);
    case RefuseReview(d) =>
    case StartRequote => RequoteKeeps(w, s);
    case Confirm(reply) => ConfirmKeeps(w, s, reply);
    case PickTier(tier) => TierKeeps(w, s, tier);
    case Cancel(_) =>
      QueueStepsEvolve(s.items, s.page.proposal, Denied, [], Ui);
      ResetKeeps(w, s, Next(w, s, a).value.items);
    case Finish =>
      QueueStepsEvolve(s.items, 0, Denied, [], Ui);
      ResetKeeps(w, s, s.items);
    case SwitchWallet =>
      QueueStepsEvolve(s.items, 0, Denied, [], Ui);
      ResetKeeps(w, s, s.items);
    case QuoteEnds(i, ok, f) =>
      JobKeeps(w, s, i, s.jobs[i].(phase := if ok then Succeeded else Broken, figures := f));
    case AskKeyd(i, answer) => KeydKeeps(w, s, i, answer);
    case Advance(i, step, phase) => JobKeeps(w, s, i, s.jobs[i].(step := step, phase := phase));
    case OthersSubmit(payload, provenance) =>
      QueueStepsEvolve(s.items, 0, Denied, payload, provenance);
      EvolvesKeeps(w, s, Submitted(s.items, payload, provenance));
    case OthersResolve(id, verdict) =>
      QueueStepsEvolve(s.items, id, verdict, [], Ui);
      EvolvesKeeps(w, s, Resolved(s.items, id, verdict));
  }

  lemma {:induction false} RunKeepsInv(w: World, actions: seq<Action>)
    ensures Inv(w, Run(w, actions))
  {
    if actions != [] {
      var front, last := actions[..|actions| - 1], actions[|actions| - 1];
      RunKeepsInv(w, front);
      if Next(w, Run(w, front), last).Some? { StepKeeps(w, Run(w, front), last); }
    }
  }

  // --- What it means -----------------------------------------------------------------

  /** In every reachable state in which the page remembers a proposal, the queue holds for it, as
      the UI's own, the envelope of the draft on screen. */
  lemma ReviewedDraftIsQueued(w: World, actions: seq<Action>)
    ensures var s := Run(w, actions);
      s.page.proposal != 0 ==>
        var q := Lookup(s.items, s.page.proposal);
        q.Some? && DraftEnvelope(w, s.page) == Some(q.value.payload) && q.value.provenance == Ui
  {
    RunKeepsInv(w, actions);
  }

  lemma StepEvolves(w: World, s: System, a: Action)
    requires Next(w, s, a).Some?
    ensures Evolves(s.items, Next(w, s, a).value.items)
  {
    var items := Next(w, s, a).value.items;
    QueueStepsEvolve(s.items, 0, Denied, [], Ui);
    match a
    case Confirm(_) =>
      if items != s.items {
        var p := items[|s.items|];
        QueueStepsEvolve(s.items, 0, Denied, p.payload, p.provenance);
      }
    case Cancel(_) => QueueStepsEvolve(s.items, s.page.proposal, Denied, [], Ui);
    case AskKeyd(i, _) => QueueStepsEvolve(s.items, s.jobs[i].kind.proposal, Approved, [], Ui);
    case OthersSubmit(payload, provenance) => QueueStepsEvolve(s.items, 0, Denied, payload, provenance);
    case OthersResolve(id, verdict) => QueueStepsEvolve(s.items, id, verdict, [], Ui);
    case _ =>
  }

  lemma {:induction false} RunEvolves(w: World, before: seq<Action>, more: seq<Action>)
    ensures Evolves(Run(w, before).items, Run(w, before + more).items)
  {
    if more == [] {
      assert before + more == before;
      QueueStepsEvolve(Run(w, before).items, 0, Denied, [], Ui);
    } else {
      var n := |more| - 1;
      var all := before + more[..n];
      assert before + more == all + [more[n]] && (all + [more[n]])[..|all|] == all;
      RunEvolves(w, before, more[..n]);
      QueueStepsEvolve(Run(w, all).items, 0, Denied, [], Ui);
      if Next(w, Run(w, all), more[n]).Some? { StepEvolves(w, Run(w, all), more[n]); }
      EvolvesTransitive(Run(w, before).items, Run(w, all).items, Run(w, before + more).items);
    }
  }

  /** Once queued, the draft is frozen: as long as the page remembers the same proposal, it asks
      for the same bytes under the same identity, whatever quotes and abandoned jobs do. */
  lemma QueuedDraftIsFrozen(w: World, before: seq<Action>, more: seq<Action>)
    requires Run(w, before).page.proposal == Run(w, before + more).page.proposal != 0
    ensures var p, q := Run(w, before).page, Run(w, before + more).page;
      DraftTx(w, p) == DraftTx(w, q) && p.preset == q.preset && p.account == q.account
  {
    ReviewedDraftIsQueued(w, before);
    ReviewedDraftIsQueued(w, before + more);
    RunEvolves(w, before, more);
    var p, q := Run(w, before).page, Run(w, before + more).page;
    assert DraftEnvelope(w, p) == DraftEnvelope(w, q);
    E.EnvelopeInjective(p.preset, p.account, DraftTx(w, p).value, q.preset, q.account, DraftTx(w, q).value);
  }

  /** How many of the released signatures belong to these proposals. */
  function ReleasedFor(releases: seq<nat>, ids: set<nat>): nat
  {
    if releases == [] then 0
    else ReleasedFor(releases[..|releases| - 1], ids) + if releases[|releases| - 1] in ids then 1 else 0
  }

  lemma {:induction false} AtMostOneEach(releases: seq<nat>, ids: set<nat>)
    requires Distinct(releases)
    ensures ReleasedFor(releases, ids) <= |ids|
  {
    if releases != [] {
      var front, last := releases[..|releases| - 1], releases[|releases| - 1];
      if last in ids {
        NoneForAbsent(front, ids, last);
        AtMostOneEach(front, ids - {last});
      } else {
        AtMostOneEach(front, ids);
      }
    }
  }

  lemma {:induction false} NoneForAbsent(releases: seq<nat>, ids: set<nat>, id: nat)
    requires forall k :: 0 <= k < |releases| ==> releases[k] != id
    ensures ReleasedFor(releases, ids) == ReleasedFor(releases, ids - {id})
  {
    if releases != [] { NoneForAbsent(releases[..|releases| - 1], ids, id); }
  }

  /** However often a review is confirmed, it releases at most one signature, plus one for every
      change of the Bitcoin fee tier made during it; reviews on the other chains have none. */
  lemma OneSignaturePerReview(w: World, actions: seq<Action>)
    ensures var s := Run(w, actions);
      && ReleasedFor(s.releases, s.reviewIds) <= 1 + s.tierChanges
      && (s.page.stage != Form && s.page.family != Btc ==> ReleasedFor(s.releases, s.reviewIds) <= 1)
  {
    RunKeepsInv(w, actions);
    var s := Run(w, actions);
    AtMostOneEach(s.releases, s.reviewIds);
  }

  // --- The guard rails of a Solana transfer ------------------------------------------

  /** The guard's uint64 sum does not wrap exactly for amounts below 2^64 - 5000 lamports; for
      those, and only for those, passing it means that the balance covers amount and fee. */
  lemma SolGuardExact(lamports: u64)
    ensures (forall p: Page :: !p.sol.spl && p.sol.lamports == lamports && SolCovered(p)
                               ==> p.sol.balance >= lamports + FEE_LAMPORTS)
       <==> lamports + FEE_LAMPORTS < TWO_64
  {
    var s := FRESH_PAGE.sol.(lamports := lamports, toBalance := 1, balance := Wrap64(lamports + FEE_LAMPORTS));
    var p := FRESH_PAGE.(sol := s, from := [1]);
    if lamports + FEE_LAMPORTS >= TWO_64 {
      assert !p.sol.spl && SolCovered(p) && p.sol.balance < lamports + FEE_LAMPORTS;
    }
  }
}
