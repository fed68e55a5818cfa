/** The fields of the send page and the methods that rewrite them (ui/pages/send_page.cpp), each
    proved to be the transition of the same name in SendFlow. */
module SendPage {
  import opened Bytes
  import opened ProposalQueue
  import opened DerivePath
  import opened CoinSelect
  import opened SendFlow
  import E = Envelope

  class SendPage {
    var stage: Stage
    var family: Family
    var account: u32
    var preset: Preset
    var from: seq<byte>
    var to: seq<byte>
    var evm: EvmTx
    var sol: SolDraft
    var solMsg: seq<byte>
    var btc: BtcDraft
    var proposal: nat
    var job: Option<nat>

    /** The page as a value. */
    function Snapshot(): Page
      reads this
    {
      Page(stage, family, account, preset, from, to, evm, sol, solMsg, btc, proposal, job)
    }

    constructor ()
      ensures Snapshot() == FRESH_PAGE
    {
      stage, family, account, preset, from, to := Form, Eth, 0, MetaMask, [], [];
      evm := EvmTx([], NO_MARKET);
      sol := SolDraft(false, [], 0, 0, 0, [], false, false, 0, 0, 0, 0);
      solMsg := [];
      btc := BtcDraft(0, 1, [], FeeTiers(0, 0, 0), NO_SELECTION, false);
      proposal, job := 0, None;
    }

    method ResetToForm()
      modifies this
      ensures Snapshot() == SendFlow.ResetToForm(old(Snapshot()))
    {
      evm := EvmTx([], NO_MARKET);
      family := Eth;
      sol := sol.(lamports := 0, spl := false, mint := [], amount := 0, ataMissing := false, token2022 := false);
      solMsg := [];
      btc := btc.(amount := 0, selection := NO_SELECTION, failed := false);
      proposal := 0;
      stage := Form;
    }

    /** cancel_flow: the proposal is denied if keyd is there to hear it. */
    method CancelFlow(queue: Queue, keydUp: bool)
      requires queue.Valid()
      modifies this, queue
      ensures queue.Valid()
      ensures queue.items == (if old(proposal) != 0 && keydUp then Resolved(old(queue.items), old(proposal), Denied)
                              else old(queue.items))
      ensures Snapshot() == SendFlow.ResetToForm(old(Snapshot()).(job := None))
    {
      if proposal != 0 && keydUp { var _ := queue.Resolve(proposal, Denied); }
      job := None;
      ResetToForm();
    }

    method BtcReselect()
      modifies this
      ensures Snapshot() == Reselect(old(Snapshot()))
    {
      var rate := Rate();
      btc := btc.(selection := NO_SELECTION, failed := false);
      proposal := 0;
      var inVb := InputWeight();
      var sel := SelectCoins(btc.utxos, btc.amount, rate, inVb, 43);
      btc := if sel.Ok? then btc.(selection := sel.value) else btc.(failed := true);
    }

    method Rate() returns (rate: u64)
      ensures rate == TierRate(btc)
    {
      rate := if btc.tier == 0 then btc.tiers.fast
              else if btc.tier == 2 then btc.tiers.slow else btc.tiers.normal;
    }

    method InputWeight() returns (inVb: u64)
      ensures inVb == InputVb(preset)
    {
      inVb := if preset == BtcLegacy then 148
              else if preset == BtcNestedSegwit then 91
              else if preset == BtcTaproot then 58 else 68;
    }

    method LandMarket(figures: Figures)
      modifies this`evm
      ensures evm == old(evm).(market := figures.market)
    {
      evm := evm.(market := evm.market.(nonce := figures.market.nonce));
      evm := evm.(market := evm.market.(gas := figures.market.gas));
      evm := evm.(market := evm.market.(priority := figures.market.priority));
      evm := evm.(market := evm.market.(maxFee := figures.market.maxFee));
    }

    /** The quoting branch of poll_job. */
    method LandQuote(figures: Figures)
      modifies this
      ensures Snapshot() == Quoted(old(Snapshot()), figures)
    {
      LandMarket(figures);
      sol := sol.(blockhash := figures.blockhash, balance := figures.balance,
                  toBalance := figures.toBalance, rent := figures.rent);
      if family == Btc {
        btc := btc.(utxos := figures.utxos, tiers := figures.tiers);
        BtcReselect();
      }
      sol := sol.(ataMissing := figures.ataMissing, token2022 := figures.token2022, splRent := figures.splRent);
      stage := Review;
      job := None;
    }

    method PollJob(jobs: seq<Job>)
      requires job.Some? ==> job.value < |jobs|
      modifies this
      ensures Snapshot() == Poll(old(Snapshot()), jobs)
    {
      if job.None? { return; }
      var j := jobs[job.value];
      if j.phase == Running { return; }
      if j.kind == Requote {
        if stage == Review && j.phase == Succeeded { LandMarket(j.figures); }
        job := None;
        return;
      }
      if j.phase == Succeeded {
        if stage == Quoting {
          LandQuote(j.figures);
          return;
        }
        stage := Stage.Done;
        return;
      }
      if stage == Quoting {
        stage := Form;
      } else if stage == Delivering && j.step == 0 {
        stage := Review;
      } else if stage == Delivering {
        stage := Stage.Failed;
        return;
      }
      job := None;
    }

    /** The end of the three confirms: a delivery of the remembered proposal starts. */
    method Deliver(jobs: nat) returns (started: Job)
      modifies this`job, this`stage
      ensures started == Job(JobKind.Deliver(proposal), Running, 0, NO_FIGURES)
      ensures job == Some(jobs) && stage == Delivering
    {
      started := Job(JobKind.Deliver(proposal), Running, 0, NO_FIGURES);
      job := Some(jobs);
      stage := Delivering;
    }

    /** submit_ui of the draft's envelope; the page remembers the id if it is told. */
    method Enqueue(w: World, tx: seq<byte>, queue: Queue, reply: SubmitReply) returns (ok: bool)
      requires queue.Valid()
      modifies this`proposal, this`solMsg, queue
      ensures queue.Valid() && (ok <==> reply == Accepted)
      ensures solMsg == if family == Sol then tx else old(solMsg)
      ensures proposal == if ok then |old(queue.items)| + 1 else old(proposal)
      ensures queue.items == if reply == NeverQueued then old(queue.items)
                             else Submitted(old(queue.items), E.MakeEnvelope(preset, account, tx), Ui)
    {
      if family == Sol { solMsg := tx; }
      if reply == NeverQueued { return false; }
      var id := queue.Submit(E.MakeEnvelope(preset, account, tx), Ui);
      if reply == ReplyLost { return false; }
      proposal := id;
      return true;
    }

    /** confirm_send, confirm_sol_send and confirm_btc_send: guard, queue the envelope once, start
        a delivery. */
    method ConfirmSend(w: World, queue: Queue, jobs: seq<Job>, reply: SubmitReply)
      returns (started: Option<Job>)
      requires queue.Valid() && stage == Review && job.None?
      modifies this, queue
      ensures queue.Valid()
      ensures
        var after := Confirmed(w, System(old(Snapshot()), jobs, old(queue.items), [], {}, {}, 0, 0), reply);
        && after.page == Snapshot() && after.items == queue.items
        && after.jobs == jobs + if started.Some? then [started.value] else []
    {
      started := None;
      assert jobs + [] == jobs;
      if !MayConfirm(Snapshot()) { return; }
      if proposal == 0 {
        var tx := DraftTx(w, Snapshot());
        if tx.None? { return; }
        var ok := Enqueue(w, tx.value, queue, reply);
        if !ok { return; }
      }
      var job := Deliver(|jobs|);
      started := Some(job);
    }
  }
}
