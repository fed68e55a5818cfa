/** More of what every run of the send flow keeps: how many proposals one review may have queued,
    and that a Bitcoin draft on screen is the selection its coins and its fee tier call for. */
module SendReview {
  import opened Bytes
  import opened ProposalQueue
  import opened DerivePath
  import opened CoinSelect
  import opened SendFlow
  import opened SendFlowSafety
  import E = Envelope

  // --- What a review has queued ------------------------------------------------------

  /** Everything a review queued but the remembered proposal is paid for by a change of the fee tier
      or by a reply that was lost; back at the form, the remembered one is forgotten. */
  ghost predicate QueuedInv(s: System)
  {
    && (forall id :: id in s.queuedIds ==> 1 <= id <= |s.items|)
    && (s.page.proposal != 0 ==> s.page.proposal in s.queuedIds)
    && s.reviewIds <= s.queuedIds
    && |s.queuedIds - {s.page.proposal}| <= s.tierChanges + s.lostReplies + if s.page.stage == Form then 1 else 0
  }

  ghost predicate SameCounts(s: System, t: System)
  {
    t.queuedIds == s.queuedIds && t.reviewIds == s.reviewIds
    && t.tierChanges == s.tierChanges && t.lostReplies == s.lostReplies && |t.items| >= |s.items|
  }

  lemma SameProposalKeeps(s: System, t: System)
    requires QueuedInv(s) && SameCounts(s, t) && t.page.proposal == s.page.proposal
    requires s.page.stage == Form ==> t.page.stage == Form
    ensures QueuedInv(t)
  {}

  lemma ForgetOne(ids: set<nat>, id: nat)
    requires 0 !in ids
    ensures |ids - {0}| <= |ids - {id}| + 1
    ensures id == 0 ==> |ids - {0}| == |ids - {id}|
  {
    assert ids - {0} == ids;
    assert ids <= (ids - {id}) + {id};
    CardinalityMonotone(ids, (ids - {id}) + {id});
  }

  lemma {:induction false} CardinalityMonotone(a: set<nat>, b: set<nat>)
    requires a <= b
    ensures |a| <= |b|
  {
    assert b == a + (b - a);
  }

  /** Actions of the jobs, of keyd and of others: the page keeps all but perhaps its job. */
  predicate Outside(a: Action)
  {
    a.StartRequote? || a.QuoteEnds? || a.AskKeyd? || a.Advance? || a.OthersSubmit? || a.OthersResolve?
  }

  lemma OutsideStays(w: World, s: System, a: Action)
    requires Outside(a) && Next(w, s, a).Some?
    ensures var t := Next(w, s, a).value;
      SameCounts(s, t) && t.page == s.page.(job := t.page.job)
  {}

  predicate Leaving(a: Action) { a.Cancel? || a.Finish? || a.SwitchWallet? }

  lemma LeavingResets(w: World, s: System, a: Action)
    requires Leaving(a) && Next(w, s, a).Some?
    ensures var t := Next(w, s, a).value;
      SameCounts(s, t) && t.page.proposal == 0 && t.page.stage == Form
  {}

  lemma ResetForgets(w: World, s: System, t: System)
    requires Inv(w, s) && QueuedInv(s) && SameCounts(s, t) && t.page.proposal == 0 && t.page.stage == Form
    ensures QueuedInv(t)
  {
    ForgetOne(s.queuedIds, s.page.proposal);
  }

  lemma TierOutcome(w: World, s: System, tier: int)
    requires Next(w, s, PickTier(tier)).Some?
    ensures var t := Next(w, s, PickTier(tier)).value;
      && t.items == s.items && t.queuedIds == s.queuedIds && t.reviewIds == s.reviewIds
      && t.lostReplies == s.lostReplies && t.tierChanges == s.tierChanges + 1
      && t.page.proposal == 0 && t.page.stage == s.page.stage == Review
  {}

  lemma ForgottenForATier(s: System, t: System)
    requires QueuedInv(s) && s.page.stage == Review
    requires t.items == s.items && t.queuedIds == s.queuedIds && t.reviewIds == s.reviewIds
    requires t.lostReplies == s.lostReplies && t.tierChanges == s.tierChanges + 1
    requires t.page.proposal == 0 && t.page.stage == Review
    ensures QueuedInv(t)
  {
    ForgetOne(s.queuedIds, s.page.proposal);
  }

  lemma TierForgets(w: World, s: System, tier: int)
    requires QueuedInv(s) && Next(w, s, PickTier(tier)).Some?
    ensures QueuedInv(Next(w, s, PickTier(tier)).value)
  {
    TierOutcome(w, s, tier);
    ForgottenForATier(s, Next(w, s, PickTier(tier)).value);
  }

  /** A submission of a review that remembers none: it is remembered, or its reply is lost. */
  lemma EnqueueKeeps(s: System, payload: seq<byte>)
    requires QueuedInv(s) && s.page.proposal == 0 && s.page.stage != Form
    ensures var t := Enqueued(s, payload);
      QueuedInv(t.(lostReplies := s.lostReplies + 1))
      && QueuedInv(t.(page := t.page.(proposal := |s.items| + 1)))
  {
    var id := |s.items| + 1;
    assert s.queuedIds + {id} - {id} == s.queuedIds == s.queuedIds - {0};
    assert s.queuedIds + {id} - {0} == s.queuedIds + {id};
  }

  lemma StartKeeps(s: System)
    requires QueuedInv(s) && s.page.proposal != 0 && s.page.stage != Form
    ensures QueuedInv(StartDelivery(s))
  {}

  lemma ConfirmQueues(w: World, s: System, reply: SubmitReply)
    requires Inv(w, s) && QueuedInv(s) && Next(w, s, Confirm(reply)).Some?
    ensures QueuedInv(Next(w, s, Confirm(reply)).value)
  {
    var p := s.page;
    if MayConfirm(p) && p.proposal != 0 {
      StartKeeps(s);
    } else if MayConfirm(p) && DraftTx(w, p).Some? {
      var tx := DraftTx(w, p).value;
      var t := s.(page := if p.family == Sol then p.(solMsg := tx) else p);
      var payload := E.MakeEnvelope(p.preset, p.account, tx);
      EnqueueKeeps(t, payload);
      if reply == Accepted { StartKeeps(Enqueued(t, payload).(page := t.page.(proposal := |s.items| + 1))); }
    }
  }

  lemma QueuedKept(w: World, s: System, a: Action)
    requires Inv(w, s) && QueuedInv(s) && Next(w, s, a).Some?
    ensures QueuedInv(Next(w, s, a).value)
  {
    if Outside(a) {
      OutsideStays(w, s, a);
      SameProposalKeeps(s, Next(w, s, a).value);
    } else if Leaving(a) {
      LeavingResets(w, s, a);
      ResetForgets(w, s, Next(w, s, a).value);
    } else {
      OwnStepQueues(w, s, a);
    }
  }

  lemma OwnStepQueues(w: World, s: System, a: Action)
    requires Inv(w, s) && QueuedInv(s) && Next(w, s, a).Some? && !Outside(a) && !Leaving(a)
    ensures QueuedInv(Next(w, s, a).value)
  {
    var t := Next(w, s, a).value;
    match a
    case PollJob =>
      PollKeepsDraft(s);
      PollKeepsStage(s);
      SameProposalKeeps(s, t);
    case BeginReview(_) => assert t.queuedIds == {} && t.reviewIds == {};
    case RefuseReview(_) => SameProposalKeeps(s, t);
    case Confirm(reply) => ConfirmQueues(w, s, reply);
    case PickTier(tier) => TierForgets(w, s, tier);
  }

  lemma {:induction false} RunKeepsQueued(w: World, actions: seq<Action>)
    ensures QueuedInv(Run(w, actions))
  {
    if actions != [] {
      var front, last := actions[..|actions| - 1], actions[|actions| - 1];
      RunKeepsQueued(w, front);
      RunKeepsInv(w, front);
      if Next(w, Run(w, front), last).Some? { QueuedKept(w, Run(w, front), last); }
    }
  }

  /** A review queues one proposal, one more for every change of the Bitcoin fee tier, and one more
      for every submission whose reply was lost. */
  lemma ReviewQueues(w: World, actions: seq<Action>)
    ensures var s := Run(w, actions);
      && |s.queuedIds| <= 1 + s.tierChanges + s.lostReplies
      && (s.page.stage != Form && s.page.family != Btc ==> s.tierChanges == 0)
  {
    RunKeepsInv(w, actions);
    RunKeepsQueued(w, actions);
    var s := Run(w, actions);
    var id := s.page.proposal;
    assert s.queuedIds <= (s.queuedIds - {id}) + {id};
    CardinalityMonotone(s.queuedIds, (s.queuedIds - {id}) + {id});
    if s.page.stage == Form { ForgetOne(s.queuedIds, 0); assert s.queuedIds - {0} == s.queuedIds; }
  }

  // --- The Bitcoin draft on screen ---------------------------------------------------

  predicate Reviewed(p: Page) { p.stage != Form && p.stage != Quoting && p.family == Btc }

  /** What an input of each kind of address weighs, in virtual bytes. */
  function InputWeight(p: Preset): u64
  {
    if p == BtcLegacy then 148 else if p == BtcNestedSegwit then 91 else if p == BtcTaproot then 58 else 68
  }

  /** The selection on screen is the one at this rate, with outputs of 43 virtual bytes; or there is
      none at this rate, and then nothing is queued. */
  predicate SelectedAt(p: Page, rate: u64)
  {
    match Selection(p.btc.utxos, p.btc.amount, rate, InputWeight(p.preset), 43)
    case Ok(sel) => p.btc.selection == sel && !p.btc.failed
    case Err(_) => p.btc.failed && p.proposal == 0
  }

  /** From the quote on, tier 0 is priced at the fast rate, tier 2 at the slow one, any other at the
      normal one. */
  predicate Priced(p: Page)
  {
    Reviewed(p) ==>
      && (p.btc.tier == 0 ==> SelectedAt(p, p.btc.tiers.fast))
      && (p.btc.tier == 2 ==> SelectedAt(p, p.btc.tiers.slow))
      && (p.btc.tier !in {0, 2} ==> SelectedAt(p, p.btc.tiers.normal))
  }

  lemma ReselectSelects(p: Page)
    ensures SelectedAt(Reselect(p), TierRate(p.btc))
    ensures Reselect(p).btc.tiers == p.btc.tiers && Reselect(p).btc.tier == p.btc.tier
  {}

  lemma ReselectPrices(p: Page)
    ensures Priced(Reselect(p))
  {
    ReselectSelects(p);
  }

  lemma QuotedPrices(p: Page, f: Figures)
    requires p.family == Btc
    ensures Priced(Quoted(p, f))
  {
    var q := p.(evm := p.evm.(market := f.market),
                sol := p.sol.(blockhash := f.blockhash, balance := f.balance, toBalance := f.toBalance, rent := f.rent),
                btc := p.btc.(utxos := f.utxos, tiers := f.tiers));
    var r := Reselect(q);
    assert Quoted(p, f) == r.(sol := r.sol.(ataMissing := f.ataMissing, token2022 := f.token2022, splRent := f.splRent),
                              stage := Review, job := None);
    ReselectPrices(q.(stage := Review));
    assert Reselect(q.(stage := Review)).btc == r.btc;
  }

  /** The same draft, as far as its price goes, and under review already. */
  predicate SamePriced(p: Page, q: Page)
  {
    q.btc == p.btc && q.preset == p.preset && q.proposal == p.proposal && (Reviewed(q) ==> Reviewed(p))
  }

  lemma SamePricedKeeps(p: Page, q: Page)
    requires Priced(p) && SamePriced(p, q)
    ensures Priced(q)
  {}

  /** Polling lands a quote or leaves the price of the draft alone. */
  lemma PollOutcome(s: System)
    requires StageInv(s)
    ensures var p, q := s.page, Poll(s.page, s.jobs);
      || (p.stage == Quoting && p.job.Some? && p.job.value < |s.jobs| && q == Quoted(p, s.jobs[p.job.value].figures))
      || SamePriced(p, q)
  {}

  lemma PollPrices(s: System)
    requires StageInv(s) && Priced(s.page)
    ensures Priced(Poll(s.page, s.jobs))
  {
    var p, q := s.page, Poll(s.page, s.jobs);
    PollOutcome(s);
    if SamePriced(p, q) {
      SamePricedKeeps(p, q);
    } else if p.family == Btc {
      QuotedPrices(p, s.jobs[p.job.value].figures);
    }
  }

  /** Confirming moves the stage, the job and the proposal, and the latter only past the guard. */
  lemma ConfirmStays(w: World, s: System, reply: SubmitReply)
    requires Next(w, s, Confirm(reply)).Some?
    ensures var q := Next(w, s, Confirm(reply)).value.page;
      && q == s.page.(stage := q.stage, job := q.job, proposal := q.proposal, solMsg := q.solMsg)
      && s.page.stage == Review && q.stage != Form
      && (q.proposal != s.page.proposal ==> MayConfirm(s.page))
  {}

  lemma ConfirmPrices(w: World, s: System, reply: SubmitReply)
    requires Priced(s.page) && Next(w, s, Confirm(reply)).Some?
    ensures Priced(Next(w, s, Confirm(reply)).value.page)
  {
    ConfirmStays(w, s, reply);
  }

  lemma PricedKept(w: World, s: System, a: Action)
    requires Inv(w, s) && Priced(s.page) && Next(w, s, a).Some?
    ensures Priced(Next(w, s, a).value.page)
  {
    if Outside(a) {
      OutsideStays(w, s, a);
    } else if Leaving(a) {
      LeavingResets(w, s, a);
    } else {
      OwnStepPrices(w, s, a);
    }
  }

  lemma OwnStepPrices(w: World, s: System, a: Action)
    requires Inv(w, s) && Priced(s.page) && Next(w, s, a).Some? && !Outside(a) && !Leaving(a)
    ensures Priced(Next(w, s, a).value.page)
  {
    match a
    case PollJob => PollPrices(s);
    case BeginReview(_) =>
    case RefuseReview(_) =>
    case Confirm(reply) => ConfirmPrices(w, s, reply);
    case PickTier(tier) => ReselectPrices(s.page.(btc := s.page.btc.(tier := tier)));
  }

  /** In every reachable state, the Bitcoin draft under review or on its way is the selection of its
      coins at the rate of its tier; a draft that has been queued has one. */
  lemma {:induction false} DraftIsPriced(w: World, actions: seq<Action>)
    ensures Priced(Run(w, actions).page)
  {
    if actions != [] {
      var front, last := actions[..|actions| - 1], actions[|actions| - 1];
      DraftIsPriced(w, front);
      RunKeepsInv(w, front);
      if Next(w, Run(w, front), last).Some? { PricedKept(w, Run(w, front), last); }
    }
  }

  /** The rate of a tier, where fast, normal and slow are tiers 0, 1 and 2. */
  function RateAt(tiers: FeeTiers, tier: int): u64
  {
    if tier == 0 then tiers.fast else if tier == 2 then tiers.slow else tiers.normal
  }

  /** In a review, going to a faster tier, where faster is not cheaper, never needs fewer coins; and for
      the same coins it never charges less and never returns more. */
  lemma FasterIsNeverCheaper(w: World, actions: seq<Action>, tier: int)
    requires var s := Run(w, actions);
      && Reviewed(s.page) && Next(w, s, PickTier(tier)).Some? && 0 <= tier < s.page.btc.tier <= 2
      && RateAt(s.page.btc.tiers, s.page.btc.tier) <= RateAt(s.page.btc.tiers, tier)
      && Fits(s.page.btc.utxos, s.page.btc.amount, RateAt(s.page.btc.tiers, tier), InputWeight(s.page.preset), 43)
    ensures var before := Run(w, actions).page.btc;
      var now := Next(w, Run(w, actions), PickTier(tier)).value.page.btc;
      !now.failed ==>
        && !before.failed && |before.selection.inputs| <= |now.selection.inputs|
        && (|before.selection.inputs| == |now.selection.inputs| ==>
              before.selection.inputs == now.selection.inputs
              && before.selection.fee <= now.selection.fee && before.selection.change >= now.selection.change)
  {
    var s := Run(w, actions);
    DraftIsPriced(w, actions);
    RunKeepsInv(w, actions);
    PricedKept(w, s, PickTier(tier));
    TierDraft(w, s, tier);
    RatesCompared(s.page, Next(w, s, PickTier(tier)).value.page);
  }

  lemma TierDraft(w: World, s: System, tier: int)
    requires Next(w, s, PickTier(tier)).Some?
    ensures var p, q := s.page, Next(w, s, PickTier(tier)).value.page;
      q.btc.tier == tier && q.btc.tiers == p.btc.tiers && q.btc.utxos == p.btc.utxos && q.btc.amount == p.btc.amount
      && q.preset == p.preset && (Reviewed(p) ==> Reviewed(q))
  {}

  lemma RatesCompared(p: Page, q: Page)
    requires Reviewed(p) && Reviewed(q) && Priced(p) && Priced(q)
    requires q.btc.tiers == p.btc.tiers && q.btc.utxos == p.btc.utxos && q.btc.amount == p.btc.amount
    requires q.preset == p.preset
    requires var rate, higher := RateAt(p.btc.tiers, p.btc.tier), RateAt(p.btc.tiers, q.btc.tier);
      rate <= higher && Fits(p.btc.utxos, p.btc.amount, higher, InputWeight(p.preset), 43)
    ensures !q.btc.failed ==>
      && !p.btc.failed && |p.btc.selection.inputs| <= |q.btc.selection.inputs|
      && (|p.btc.selection.inputs| == |q.btc.selection.inputs| ==>
            p.btc.selection.inputs == q.btc.selection.inputs
            && p.btc.selection.fee <= q.btc.selection.fee && p.btc.selection.change >= q.btc.selection.change)
  {
    var rate, higher := RateAt(p.btc.tiers, p.btc.tier), RateAt(p.btc.tiers, q.btc.tier);
    assert SelectedAt(p, rate) && SelectedAt(q, higher);
    if !q.btc.failed {
      HigherRateNeverCheaper(p.btc.utxos, p.btc.amount, rate, higher, InputWeight(p.preset), 43);
    }
  }
}
