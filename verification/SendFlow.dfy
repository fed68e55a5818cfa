/** The stage transitions of ui/pages/send_page.cpp, composed with the proposal queue: the draft
    under review, the jobs that quote and deliver it, and what reaches the queue. User input and
    network outcomes are chosen by the actions; the confirmation dialog is modal, so a review is
    begun from the form only. */
module SendFlow {
  import opened Bytes
  import opened ProposalQueue
  import opened DerivePath
  import opened CoinSelect
  import E = Envelope
  import B = BtcSpend

  // --- The draft ---------------------------------------------------------------------

  datatype Market = Market(nonce: u64, gas: u64, priority: nat, maxFee: nat)

  /** An EIP-1559 draft: what the human asked for, and the market figures of the last quote. */
  datatype EvmTx = EvmTx(call: seq<byte>, market: Market)

  datatype SolDraft = SolDraft(
    spl: bool, mint: seq<byte>, decimals: byte, lamports: u64, amount: u64,
    blockhash: seq<byte>, token2022: bool, ataMissing: bool, splRent: u64,
    balance: u64, toBalance: u64, rent: u64)

  datatype FeeTiers = FeeTiers(fast: u64, normal: u64, slow: u64)

  datatype BtcDraft = BtcDraft(
    amount: u64, tier: int, utxos: seq<Utxo>, tiers: FeeTiers,
    selection: CoinSelection, failed: bool)

  datatype Stage = Form | Quoting | Review | Delivering | Done | Failed

  datatype Phase = Running | Succeeded | Broken

  datatype JobKind = Quote | Requote | Deliver(proposal: nat)

  /** What a quote brings back. */
  datatype Figures = Figures(market: Market, blockhash: seq<byte>, balance: u64, toBalance: u64,
                             rent: u64, ataMissing: bool, token2022: bool, splRent: u64,
                             utxos: seq<Utxo>, tiers: FeeTiers)

  datatype Job = Job(kind: JobKind, phase: Phase, step: nat, figures: Figures)

  datatype Page = Page(
    stage: Stage, family: Family, account: u32, preset: Preset,
    from: seq<byte>, to: seq<byte>,
    evm: EvmTx, sol: SolDraft, solMsg: seq<byte>, btc: BtcDraft,
    proposal: nat,
    job: Option<nat>)            // the job the page holds, among all ever started

  const NO_MARKET := Market(0, 0, 0, 0)
  const NO_SELECTION := CoinSelection([], 0, 0)
  const NO_FIGURES := Figures(NO_MARKET, [], 0, 0, 0, false, false, 0, [], FeeTiers(0, 0, 0))

  /** The encoders of the three chains. */
  datatype World = World(
    signingPayload: EvmTx -> seq<byte>,
    encodeSol: (seq<byte>, seq<byte>, SolDraft) -> Option<seq<byte>>,
    lib: B.Library)

  /** The bytes whose signature the draft on screen asks for. */
  function DraftTx(w: World, p: Page): Option<seq<byte>>
  {
    match p.family
    case Eth => Some(w.signingPayload(p.evm))
    case Sol => w.encodeSol(p.from, p.to, p.sol)
    case Btc =>
      match B.PlanOf(w.lib, p.btc.selection, p.btc.amount, p.to, p.from)
      case Err(_) => None
      case Ok(plan) => Some(B.PayloadOf(w.lib, plan))
  }

  /** The envelope of the draft on screen. */
  function DraftEnvelope(w: World, p: Page): Option<seq<byte>>
  {
    match DraftTx(w, p)
    case None => None
    case Some(tx) => Some(E.MakeEnvelope(p.preset, p.account, tx))
  }

  // --- Transitions of the page -------------------------------------------------------

  function ResetToForm(p: Page): Page
  {
    p.(evm := EvmTx([], NO_MARKET), family := Eth,
       sol := p.sol.(lamports := 0, spl := false, mint := [], amount := 0, ataMissing := false, token2022 := false),
       solMsg := [], btc := p.btc.(amount := 0, selection := NO_SELECTION, failed := false),
       proposal := 0, stage := Form)
  }

  function InputVb(p: Preset): u64
  {
    match p
    case BtcLegacy => 148
    case BtcNestedSegwit => 91
    case BtcTaproot => 58
    case _ => 68
  }

  function TierRate(b: BtcDraft): u64
  {
    if b.tier == 0 then b.tiers.fast else if b.tier == 2 then b.tiers.slow else b.tiers.normal
  }

  /** btc_reselect: reprice the selection; the proposal is forgotten. */
  function Reselect(p: Page): Page
  {
    var b := p.btc;
    match Selection(b.utxos, b.amount, TierRate(b), InputVb(p.preset), 43)
    case Ok(sel) => p.(btc := b.(selection := sel, failed := false), proposal := 0)
    case Err(_) => p.(btc := b.(selection := NO_SELECTION, failed := true), proposal := 0)
  }

  /** A quote's figures land in the draft. */
  function Quoted(p: Page, f: Figures): Page
  {
    var q := p.(evm := p.evm.(market := f.market),
                sol := p.sol.(blockhash := f.blockhash, balance := f.balance, toBalance := f.toBalance, rent := f.rent));
    var r := if p.family == Btc then Reselect(q.(btc := q.btc.(utxos := f.utxos, tiers := f.tiers))) else q;
    r.(sol := r.sol.(ataMissing := f.ataMissing, token2022 := f.token2022, splRent := f.splRent),
       stage := Review, job := None)
  }

  /** poll_job: what the held job means for the page this frame. */
  function Poll(p: Page, jobs: seq<Job>): Page
  {
    if p.job.None? || p.job.value >= |jobs| then p
    else
      var j := jobs[p.job.value];
      if j.phase == Running then p
      else if j.kind == Requote then
        (if p.stage == Review && j.phase == Succeeded then p.(evm := p.evm.(market := j.figures.market)) else p)
          .(job := None)
      else if j.phase == Succeeded then
        if p.stage == Quoting then Quoted(p, j.figures) else p.(stage := Done)
      else if p.stage == Quoting then p.(stage := Form, job := None)
      else if p.stage == Delivering && j.step == 0 then p.(stage := Review, job := None)
      else if p.stage == Delivering then p.(stage := Failed)
      else p.(job := None)
  }

  const FEE_LAMPORTS: u64 := 5000

  /** The guard rails of confirm_sol_send, in uint64 arithmetic. */
  predicate SolCovered(p: Page)
  {
    var s := p.sol;
    if s.spl then s.balance >= Wrap64(FEE_LAMPORTS + if s.ataMissing then s.splRent else 0)
    else
      var self := p.from == p.to;
      var left := if self then Wrap64(s.balance - FEE_LAMPORTS) else Wrap64(s.balance - s.lamports - FEE_LAMPORTS);
      s.balance >= Wrap64(s.lamports + FEE_LAMPORTS)
      && (left == 0 || left >= s.rent)
      && (self || s.toBalance != 0 || s.lamports >= s.rent)
  }

  /** What stops confirm before anything is submitted. */
  predicate MayConfirm(p: Page)
  {
    match p.family
    case Eth => true
    case Sol => SolCovered(p)
    case Btc => !p.btc.failed && p.btc.selection.inputs != []
  }

  // --- The page and the world around it ----------------------------------------------

  datatype System = System(
    page: Page,
    jobs: seq<Job>,              // every job ever started; threads outlive the page's interest
    items: seq<Proposal>,        // keyd's queue
    // what has happened so far
    releases: seq<nat>,          // ids of the proposals whose signature keyd gave to a delivery
    reviewIds: set<nat>,         // ids deliveries were started for since the review began
    queuedIds: set<nat>,         // ids the review queued, whether the page was told or not
    tierChanges: nat,            // fee tiers picked since the review began
    lostReplies: nat)            // submissions since then that were queued and not acknowledged

  datatype Answer = Refusal | SignatureReceived | SignatureLost

  datatype Action =
    | PollJob
    | BeginReview(draft: Page)
    | RefuseReview(draft: Page)                  // an amount or address that does not parse
    | StartRequote
    | Confirm(reply: SubmitReply)
    | PickTier(tier: int)
    | Cancel(keydUp: bool)
    | Finish                                     // the Done button
    | SwitchWallet
    | QuoteEnds(job: nat, ok: bool, figures: Figures)
    | AskKeyd(job: nat, answer: Answer)          // a delivery's one approve round trip
    | Advance(job: nat, step: nat, phase: Phase)
    | OthersSubmit(payload: seq<byte>, provenance: Provenance)
    | OthersResolve(id: nat, verdict: State)

  /** submit_ui: accepted, or an error; an error may come after the proposal was queued. */
  datatype SubmitReply = Accepted | NeverQueued | ReplyLost

  /** A fresh draft as begin_review leaves it: the amounts and the captured identity; what a
      quote brings is still to come. */
  function Begun(p: Page, d: Page): Page
  {
    p.(family := d.family, account := d.account, preset := d.preset, from := d.from, to := d.to,
       evm := if d.family == Eth then EvmTx(d.evm.call, NO_MARKET) else p.evm,
       sol := if d.family == Sol then d.sol else p.sol,
       btc := if d.family == Btc then p.btc.(amount := d.btc.amount) else p.btc)
  }

  function StartJob(s: System, kind: JobKind): System
  {
    s.(jobs := s.jobs + [Job(kind, Running, 0, NO_FIGURES)], page := s.page.(job := Some(|s.jobs|)))
  }

  /** The end of every confirm: hand the passphrase to a delivery job. */
  function StartDelivery(s: System): System
  {
    var t := StartJob(s, JobKind.Deliver(s.page.proposal));
    t.(page := t.page.(stage := Delivering), reviewIds := t.reviewIds + {s.page.proposal})
  }

  /** The review's envelope enters keyd's queue. */
  function Enqueued(s: System, payload: seq<byte>): System
  {
    s.(items := Submitted(s.items, payload, Ui), queuedIds := s.queuedIds + {|s.items| + 1})
  }

  /** confirm_send and its two siblings, past the passphrase check. */
  function Confirmed(w: World, s: System, reply: SubmitReply): System
  {
    var p := s.page;
    if !MayConfirm(p) then s
    else if p.proposal != 0 then StartDelivery(s)
    else
      match DraftTx(w, p)
      case None => s
      case Some(tx) =>
        var t := s.(page := if p.family == Sol then p.(solMsg := tx) else p);
        var payload := E.MakeEnvelope(p.preset, p.account, tx);
        match reply
        case NeverQueued => t
        case ReplyLost =>
          Enqueued(t, payload).(lostReplies := s.lostReplies + 1)
        case Accepted =>
          StartDelivery(Enqueued(t, payload).(page := t.page.(proposal := |s.items| + 1)))
  }

  /** keyd answers an approve: it signs a pending proposal, once (EndToEnd.AnswerIsVerdict). */
  function KeydAnswers(s: System, i: nat, answer: Answer): System
    requires i < |s.jobs| && s.jobs[i].kind.Deliver?
  {
    var id := s.jobs[i].kind.proposal;
    if answer == Refusal || !IsPending(s.items, id) then s.(jobs := s.jobs[i := s.jobs[i].(phase := Broken)])
    else
      var t := s.(items := Resolved(s.items, id, Approved), releases := s.releases + [id]);
      t.(jobs := t.jobs[i := if answer == SignatureLost then t.jobs[i].(phase := Broken) else t.jobs[i].(step := 1)])
  }

  function Next(w: World, s: System, a: Action): Option<System>
  {
    var p := s.page;
    match a
    case PollJob => Some(s.(page := Poll(p, s.jobs)))
    case BeginReview(d) =>
      if p.stage != Form || p.job.Some? then None
      else
        var t := StartJob(s.(page := Begun(p, d)), Quote);
        Some(t.(page := t.page.(stage := Quoting), reviewIds := {}, queuedIds := {}, tierChanges := 0,
                lostReplies := 0))
    case RefuseReview(d) => if p.stage != Form || p.job.Some? then None else Some(s.(page := Begun(p, d)))
    case StartRequote =>
      if p.stage != Review || p.family != Eth || p.proposal != 0 || p.job.Some? then None
      else Some(StartJob(s, Requote))
    case Confirm(reply) => if p.stage != Review || p.job.Some? then None else Some(Confirmed(w, s, reply))
    case PickTier(tier) =>
      if p.stage != Review || p.family != Btc || p.btc.tier == tier then None
      else Some(s.(page := Reselect(p.(btc := p.btc.(tier := tier))), tierChanges := s.tierChanges + 1))
    case Cancel(keydUp) =>
      if p.stage == Form || p.stage == Delivering then None
      else Some(s.(items := if p.proposal != 0 && keydUp then Resolved(s.items, p.proposal, Denied) else s.items,
                   page := ResetToForm(p.(job := None))))
    case Finish =>
      if p.stage != Done && p.stage != Failed then None else Some(s.(page := ResetToForm(p.(job := None))))
    case SwitchWallet => Some(s.(page := ResetToForm(p.(job := None))))
    case QuoteEnds(i, ok, f) =>
      if i >= |s.jobs| || s.jobs[i].kind.Deliver? || s.jobs[i].phase != Running then None
      else Some(s.(jobs := s.jobs[i := s.jobs[i].(phase := if ok then Succeeded else Broken, figures := f)]))
    case AskKeyd(i, answer) =>
      if i >= |s.jobs| || !s.jobs[i].kind.Deliver? || s.jobs[i].phase != Running || s.jobs[i].step != 0 then None
      else Some(KeydAnswers(s, i, answer))
    case Advance(i, step, phase) =>
      if i >= |s.jobs| || !s.jobs[i].kind.Deliver? || s.jobs[i].phase != Running
         || s.jobs[i].step == 0 || step < s.jobs[i].step then None
      else Some(s.(jobs := s.jobs[i := s.jobs[i].(step := step, phase := phase)]))
    case OthersSubmit(payload, provenance) => Some(s.(items := Submitted(s.items, payload, provenance)))
    case OthersResolve(id, verdict) =>
      if verdict == Approved || verdict == Denied then Some(s.(items := Resolved(s.items, id, verdict))) else None
  }

  const FRESH_PAGE := Page(Form, Eth, 0, MetaMask, [], [], EvmTx([], NO_MARKET),
    SolDraft(false, [], 0, 0, 0, [], false, false, 0, 0, 0, 0), [],
    BtcDraft(0, 1, [], FeeTiers(0, 0, 0), NO_SELECTION, false), 0, None)

  const START := System(FRESH_PAGE, [], [], [], {}, {}, 0, 0)

  /** A run: any sequence of actions, those that are not possible being passed over. */
  function Run(w: World, actions: seq<Action>): System
  {
    if actions == [] then START
    else
      var s := Run(w, actions[..|actions| - 1]);
      match Next(w, s, actions[|actions| - 1])
      case None => s
      case Some(t) => t
  }
}
