/** What is on the screen of a review and where it comes from: what was entered, the figures of the
    quote, and deliveries that got nothing signed. */
module SendScreen {
  import opened Bytes
  import opened ProposalQueue
  import opened DerivePath
  import opened SendFlow
  import opened SendFlowSafety
  import opened SendReview

  // --- What was entered --------------------------------------------------------------

  /** The draft the last review was begun with. */
  function Entered(w: World, actions: seq<Action>): Option<Page>
  {
    if actions == [] then None
    else
      var front, a := actions[..|actions| - 1], actions[|actions| - 1];
      if a.BeginReview? && Next(w, Run(w, front), a).Some? then Some(a.draft) else Entered(w, front)
  }

  /** The part of a draft that is the human's: who, from whom, to whom, what and how much. */
  predicate AsksFor(p: Page, d: Page)
  {
    && p.family == d.family && p.account == d.account && p.preset == d.preset && p.from == d.from && p.to == d.to
    && (p.family == Eth ==> p.evm.call == d.evm.call)
    && (p.family == Sol ==>
          p.sol.spl == d.sol.spl && p.sol.mint == d.sol.mint && p.sol.decimals == d.sol.decimals
          && p.sol.lamports == d.sol.lamports && p.sol.amount == d.sol.amount)
    && (p.family == Btc ==> p.btc.amount == d.btc.amount)
  }

  ghost predicate EnteredInv(s: System, entered: Option<Page>)
  {
    s.page.stage != Form ==> entered.Some? && AsksFor(s.page, entered.value)
  }

  lemma PollAsks(p: Page, jobs: seq<Job>, d: Page)
    requires AsksFor(p, d)
    ensures AsksFor(Poll(p, jobs), d)
  {}

  lemma EnteredKept(w: World, s: System, a: Action, entered: Option<Page>)
    requires Inv(w, s) && EnteredInv(s, entered) && Next(w, s, a).Some?
    ensures EnteredInv(Next(w, s, a).value, if a.BeginReview? then Some(a.draft) else entered)
  {
    if Outside(a) {
      OutsideStays(w, s, a);
    } else if Leaving(a) {
      LeavingResets(w, s, a);
    } else {
      match a
      case PollJob =>
        PollKeepsStage(s);
        if s.page.stage != Form { PollAsks(s.page, s.jobs, entered.value); }
      case BeginReview(d) =>
      case RefuseReview(d) =>
      case Confirm(reply) => ConfirmStays(w, s, reply);
      case PickTier(tier) =>
    }
  }

  /** Throughout a review and its delivery, the draft asks for what was entered when it was begun:
      quotes, requotes, retries and fee tiers change nothing of it. */
  lemma {:induction false} EnteredIsReviewed(w: World, actions: seq<Action>)
    ensures EnteredInv(Run(w, actions), Entered(w, actions))
  {
    if actions != [] {
      var front, a := actions[..|actions| - 1], actions[|actions| - 1];
      EnteredIsReviewed(w, front);
      RunKeepsInv(w, front);
      if Next(w, Run(w, front), a).Some? { EnteredKept(w, Run(w, front), a, Entered(w, front)); }
    }
  }

  // --- Where the figures come from ---------------------------------------------------

  predicate OnScreen(p: Page) { p.stage != Form && p.stage != Quoting }

  /** The draft shows the figures this quote brought. */
  predicate Shows(p: Page, f: Figures)
  {
    && p.sol.blockhash == f.blockhash && p.sol.balance == f.balance && p.sol.toBalance == f.toBalance
    && p.sol.rent == f.rent && p.sol.ataMissing == f.ataMissing && p.sol.token2022 == f.token2022
    && p.sol.splRent == f.splRent
    && (p.family == Btc ==> p.btc.utxos == f.utxos && p.btc.tiers == f.tiers)
  }

  predicate Quotes(j: Job, kinds: set<JobKind>) { j.kind in kinds && j.phase == Succeeded }

  /** They are those of a quote that succeeded; the market figures may be those of a later requote. */
  ghost predicate FiguresInv(s: System)
  {
    OnScreen(s.page) ==>
      && (exists i :: 0 <= i < |s.jobs| && Quotes(s.jobs[i], {Quote}) && Shows(s.page, s.jobs[i].figures))
      && (exists i :: 0 <= i < |s.jobs| && Quotes(s.jobs[i], {Quote, Requote})
                      && s.page.evm.market == s.jobs[i].figures.market)
  }

  /** Quotes that have ended stay as they are. */
  ghost predicate QuotesStay(s: System, t: System)
  {
    |s.jobs| <= |t.jobs|
    && forall i :: 0 <= i < |s.jobs| && Quotes(s.jobs[i], {Quote, Requote}) ==> t.jobs[i] == s.jobs[i]
  }

  predicate SameFigures(p: Page, q: Page)
  {
    q.family == p.family && q.sol == p.sol && q.btc.utxos == p.btc.utxos && q.btc.tiers == p.btc.tiers
    && q.evm.market == p.evm.market && (OnScreen(q) ==> OnScreen(p))
  }

  lemma FiguresStay(s: System, t: System)
    requires FiguresInv(s) && QuotesStay(s, t) && SameFigures(s.page, t.page)
    ensures FiguresInv(t)
  {
    if OnScreen(t.page) {
      var i :| 0 <= i < |s.jobs| && Quotes(s.jobs[i], {Quote}) && Shows(s.page, s.jobs[i].figures);
      assert Quotes(s.jobs[i], {Quote, Requote}) && t.jobs[i] == s.jobs[i] && Shows(t.page, t.jobs[i].figures);
      var k :| 0 <= k < |s.jobs| && Quotes(s.jobs[k], {Quote, Requote})
               && s.page.evm.market == s.jobs[k].figures.market;
      assert t.jobs[k] == s.jobs[k];
    }
  }

  lemma QuotedShows(p: Page, f: Figures)
    ensures Shows(Quoted(p, f), f) && Quoted(p, f).evm.market == f.market
  {}

  lemma PollFigures(s: System)
    requires StageInv(s) && FiguresInv(s)
    ensures FiguresInv(s.(page := Poll(s.page, s.jobs)))
  {
    var t := s.(page := Poll(s.page, s.jobs));
    PollLands(s);
    if SameFigures(s.page, t.page) {
      FiguresStay(s, t);
    } else if s.page.stage == Quoting {
      var i := s.page.job.value;
      QuotedShows(s.page, s.jobs[i].figures);
      assert Quotes(s.jobs[i], {Quote}) && Quotes(s.jobs[i], {Quote, Requote});
    } else {
      var i := s.page.job.value;
      var k :| 0 <= k < |s.jobs| && Quotes(s.jobs[k], {Quote}) && Shows(s.page, s.jobs[k].figures);
      assert Shows(t.page, s.jobs[k].figures);
      assert Quotes(s.jobs[i], {Quote, Requote});
    }
  }

  /** Polling lands a quote, lands the market of a requote, or leaves the figures alone. */
  lemma PollLands(s: System)
    requires StageInv(s)
    ensures var p, q := s.page, Poll(s.page, s.jobs);
      || SameFigures(p, q)
      || (p.stage == Quoting && p.job.Some? && p.job.value < |s.jobs| && Quotes(s.jobs[p.job.value], {Quote})
          && q == Quoted(p, s.jobs[p.job.value].figures))
      || (p.stage == Review && p.job.Some? && p.job.value < |s.jobs| && Quotes(s.jobs[p.job.value], {Requote})
          && q == p.(evm := p.evm.(market := s.jobs[p.job.value].figures.market), job := None))
  {}

  lemma OutsideFigures(w: World, s: System, a: Action)
    requires Outside(a) && Next(w, s, a).Some?
    ensures QuotesStay(s, Next(w, s, a).value) && SameFigures(s.page, Next(w, s, a).value.page)
  {
    OutsideStays(w, s, a);
  }

  lemma OwnFigures(w: World, s: System, a: Action)
    requires Inv(w, s) && FiguresInv(s) && Next(w, s, a).Some? && !Outside(a) && !Leaving(a) && !a.PollJob?
    ensures FiguresInv(Next(w, s, a).value)
  {
    var t := Next(w, s, a).value;
    match a
    case BeginReview(_) =>
    case RefuseReview(_) =>
    case Confirm(reply) =>
      ConfirmStays(w, s, reply);
      ConfirmJobs(w, s, reply);
      FiguresStay(s, t);
    case PickTier(tier) => FiguresStay(s, t);
  }

  lemma ConfirmJobs(w: World, s: System, reply: SubmitReply)
    requires Next(w, s, Confirm(reply)).Some?
    ensures s.jobs <= Next(w, s, Confirm(reply)).value.jobs
  {}

  lemma FiguresKept(w: World, s: System, a: Action)
    requires Inv(w, s) && FiguresInv(s) && Next(w, s, a).Some?
    ensures FiguresInv(Next(w, s, a).value)
  {
    if Outside(a) {
      OutsideFigures(w, s, a);
      FiguresStay(s, Next(w, s, a).value);
    } else if Leaving(a) {
      LeavingResets(w, s, a);
    } else if a.PollJob? {
      PollFigures(s);
    } else {
      OwnFigures(w, s, a);
    }
  }

  /** In every reachable state the figures of the draft under review or on its way are those of one quote
      that succeeded, each in its place, but that the market may be a later requote's. */
  lemma {:induction false} FiguresAreQuoted(w: World, actions: seq<Action>)
    ensures FiguresInv(Run(w, actions))
  {
    if actions != [] {
      var front, a := actions[..|actions| - 1], actions[|actions| - 1];
      FiguresAreQuoted(w, front);
      RunKeepsInv(w, front);
      if Next(w, Run(w, front), a).Some? { FiguresKept(w, Run(w, front), a); }
    }
  }

  /** Leaving a review, by cancelling, finishing or switching wallets, leaves nothing of it to be asked
      for: no draft on any chain, no proposal, no job. */
  lemma LeavingForgets(w: World, s: System, a: Action)
    requires Leaving(a) && Next(w, s, a).Some?
    ensures var p := Next(w, s, a).value.page;
      && p.stage == Form && p.family == Eth && p.proposal == 0 && p.job == None && p.solMsg == []
      && p.evm == EvmTx([], Market(0, 0, 0, 0))
      && !p.sol.spl && p.sol.mint == [] && p.sol.lamports == 0 && p.sol.amount == 0
      && !p.sol.ataMissing && !p.sol.token2022
      && p.btc.amount == 0 && p.btc.selection.inputs == [] && p.btc.selection.fee == 0 && p.btc.selection.change == 0
      && !p.btc.failed
  {}

  // --- Retries -----------------------------------------------------------------------

  predicate Unsigned(j: Job) { j.phase == Broken && j.step == 0 }

  /** As far as the page can know, nothing was signed: the deliveries of this proposal, but for the one
      that is running, broke before a signature came back. */
  ghost predicate RetryInv(s: System)
  {
    s.page.proposal != 0 && (s.page.stage == Review || s.page.stage == Delivering) ==>
      forall i :: 0 <= i < |s.jobs| && s.jobs[i].kind == JobKind.Deliver(s.page.proposal)
                  && !(s.page.stage == Delivering && s.page.job == Some(i)) ==>
        Unsigned(s.jobs[i])
  }

  lemma PollRetries(w: World, s: System)
    requires Inv(w, s) && RetryInv(s)
    ensures RetryInv(s.(page := Poll(s.page, s.jobs)))
  {
    PollKeepsDraft(s);
    PollBack(s);
  }

  /** Back in the review, the delivery that was running broke before a signature came back. */
  lemma PollBack(s: System)
    requires StageInv(s)
    ensures var p, q := s.page, Poll(s.page, s.jobs);
      q.proposal != 0 && (q.stage == Review || q.stage == Delivering) ==>
        || (q.stage == p.stage && (q.stage == Delivering ==> q.job == p.job))
        || (p.stage == Delivering && q.stage == Review && p.job.value < |s.jobs| && Unsigned(s.jobs[p.job.value]))
  {}

  lemma JobRetries(w: World, s: System, i: nat, j: Job)
    requires Inv(w, s) && RetryInv(s) && i < |s.jobs| && s.jobs[i].phase == Running && j.kind == s.jobs[i].kind
    ensures RetryInv(s.(jobs := s.jobs[i := j]))
  {}

  lemma OutsideJobs(w: World, s: System, a: Action)
    requires Outside(a) && Next(w, s, a).Some?
    ensures var t := Next(w, s, a).value;
      && t.page == s.page.(job := t.page.job)
      && (t.jobs == s.jobs
          || (t.jobs == s.jobs + [Job(Requote, Running, 0, NO_FIGURES)] && s.page.stage == Review)
          || exists i, j: Job :: 0 <= i < |s.jobs| && s.jobs[i].phase == Running && j.kind == s.jobs[i].kind
                                 && t.jobs == s.jobs[i := j])
      && (!a.StartRequote? ==> t.page == s.page)
  {
    match a
    case QuoteEnds(i, ok, f) =>
      assert Next(w, s, a).value.jobs == s.jobs[i := s.jobs[i].(phase := if ok then Succeeded else Broken, figures := f)];
    case AskKeyd(i, answer) => AskedJob(s, i, answer);
    case Advance(i, step, phase) =>
      assert Next(w, s, a).value.jobs == s.jobs[i := s.jobs[i].(step := step, phase := phase)];
    case _ =>
  }

  lemma AskedJob(s: System, i: nat, answer: Answer)
    requires i < |s.jobs| && s.jobs[i].kind.Deliver?
    ensures var t := KeydAnswers(s, i, answer);
      t.page == s.page && exists j: Job :: j.kind == s.jobs[i].kind && t.jobs == s.jobs[i := j]
  {}

  lemma OutsideRetries(w: World, s: System, a: Action)
    requires Inv(w, s) && RetryInv(s) && Outside(a) && Next(w, s, a).Some?
    ensures RetryInv(Next(w, s, a).value)
  {
    OutsideJobs(w, s, a);
    var t := Next(w, s, a).value;
    if a.StartRequote? {
      assert s.page.proposal == 0;
    } else if t.jobs != s.jobs {
      var i, j: Job :| 0 <= i < |s.jobs| && s.jobs[i].phase == Running && j.kind == s.jobs[i].kind
                       && t.jobs == s.jobs[i := j];
      JobRetries(w, s, i, j);
    }
  }

  lemma ConfirmRetries(w: World, s: System, reply: SubmitReply)
    requires Inv(w, s) && RetryInv(s) && Next(w, s, Confirm(reply)).Some?
    ensures RetryInv(Next(w, s, Confirm(reply)).value)
  {
    var t := Next(w, s, Confirm(reply)).value;
    ConfirmOutcome(w, s, reply);
    if t.page.proposal != 0 && t.page.stage == Delivering {
      forall i | 0 <= i < |t.jobs| && t.jobs[i].kind == JobKind.Deliver(t.page.proposal) && t.page.job != Some(i)
        ensures Unsigned(t.jobs[i])
      {
        assert i < |s.jobs| && t.jobs[i] == s.jobs[i];
        assert 1 <= s.jobs[i].kind.proposal <= |s.items|;
      }
    }
  }

  lemma ConfirmOutcome(w: World, s: System, reply: SubmitReply)
    requires Next(w, s, Confirm(reply)).Some?
    ensures var t := Next(w, s, Confirm(reply)).value;
      || (t.jobs == s.jobs && t.page.proposal == s.page.proposal && t.page.stage == s.page.stage == Review)
      || (&& s.page.stage == Review && t.page.stage == Delivering && t.page.job == Some(|s.jobs|)
          && |t.jobs| == |s.jobs| + 1 && t.jobs[..|s.jobs|] == s.jobs
          && t.page.proposal == if s.page.proposal != 0 then s.page.proposal else |s.items| + 1)
  {}

  lemma RetryKept(w: World, s: System, a: Action)
    requires Inv(w, s) && RetryInv(s) && Next(w, s, a).Some?
    ensures RetryInv(Next(w, s, a).value)
  {
    if Outside(a) {
      OutsideRetries(w, s, a);
    } else if Leaving(a) {
      LeavingResets(w, s, a);
    } else {
      match a
      case PollJob => PollRetries(w, s);
      case BeginReview(_) =>
      case RefuseReview(_) =>
      case Confirm(reply) => ConfirmRetries(w, s, reply);
      case PickTier(tier) => TierOutcome(w, s, tier);
    }
  }

  /** A review is offered again only while, for all the page knows, nothing was signed. */
  lemma {:induction false} RetriesOnlyUnsigned(w: World, actions: seq<Action>)
    ensures RetryInv(Run(w, actions))
  {
    if actions != [] {
      var front, a := actions[..|actions| - 1], actions[|actions| - 1];
      RetriesOnlyUnsigned(w, front);
      RunKeepsInv(w, front);
      if Next(w, Run(w, front), a).Some? { RetryKept(w, Run(w, front), a); }
    }
  }

  // --- The guard rails of a Solana transfer, rule by rule ----------------------------

  /** Below the wraps, a transfer is covered exactly when: for a token, the balance pays the fee and, where
      the recipient's account has to be opened, its rent; for lamports, the balance pays amount and
      fee, what is left is nothing or at least the rent floor, and a fresh recipient gets at least
      that floor. To oneself only the fee leaves, and there is no recipient to open. */
  lemma SolCoveredExactly(p: Page)
    requires p.sol.lamports + 5000 < TWO_64 && p.sol.splRent + 5000 < TWO_64
    ensures SolCovered(p) <==>
      var s := p.sol;
      if s.spl then s.balance >= 5000 + if s.ataMissing then s.splRent else 0
      else if p.from == p.to then
        s.balance >= s.lamports + 5000 && (s.balance == 5000 || s.balance - 5000 >= s.rent)
      else
        && s.balance >= s.lamports + 5000
        && (s.balance == s.lamports + 5000 || s.balance - s.lamports - 5000 >= s.rent)
        && (s.toBalance > 0 || s.lamports >= s.rent)
  {}
}
