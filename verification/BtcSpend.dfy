/** The Bitcoin spend path end to end: the payload ui/pages/send_page.cpp builds from a coin
    selection, and the judgement keyd/signer.cpp passes on it before it signs. The transaction
    skeleton and the address codec are functions the model does not look into. */
module BtcSpend {
  import opened Bytes
  import opened CoinSelect
  import opened DerivePath
  import opened Vault
  import opened Identity
  import A = AuditLog

  datatype TxIn = TxIn(txid: seq<byte>, vout: u32, value: u64)
  datatype TxOut = TxOut(value: u64, script: seq<byte>)
  datatype TxPlan = TxPlan(inputs: seq<TxIn>, outputs: seq<TxOut>)

  datatype Library = Library(
    encode: TxPlan -> seq<byte>,
    parse: seq<byte> -> Option<TxPlan>,
    scriptFor: seq<byte> -> Option<seq<byte>>,    // None: not an address
    addressFor: seq<byte> -> seq<byte>)           // empty: no address names this script

  /** The skeleton carries everything but the input values. */
  function Unvalued(p: TxPlan): TxPlan
  {
    TxPlan(seq(|p.inputs|, i requires 0 <= i < |p.inputs| => p.inputs[i].(value := 0)), p.outputs)
  }

  // --- The payload -------------------------------------------------------------------

  datatype BuildError = MalformedTxid | NotAnAddress

  /** The nibble lambda of the send page: no check that the character is a hex digit. The char is
      signed, so bytes from 0x80 on are below '9'; either way the result is cut to a byte. */
  function LooseNibble(c: byte): byte
  {
    var signed := if c < 128 then c else c - 256;
    (if signed <= 57 then signed - 48 else signed - 97 + 10) % 256
  }

  /** uint8_t(hi << 4 | lo) */
  function LooseByte(hi: byte, lo: byte): byte { Or(lo, hi * 16) % 256 }

  function TxidBytes(txid: seq<byte>): seq<byte>
    requires |txid| == 64
  {
    seq(32, i requires 0 <= i < 32 => LooseByte(LooseNibble(txid[2 * i]), LooseNibble(txid[2 * i + 1])))
  }

  predicate WellNamed(coins: seq<Utxo>) { forall u :: u in coins ==> |u.txid| == 64 }

  function PlanInputs(coins: seq<Utxo>): (r: seq<TxIn>)
    requires WellNamed(coins)
    ensures |r| == |coins|
    ensures forall i :: 0 <= i < |r| ==> r[i].value == coins[i].value
  {
    if coins == [] then []
    else
      assert forall u :: u in coins[1..] ==> u in coins;
      [TxIn(TxidBytes(coins[0].txid), coins[0].vout, coins[0].value)] + PlanInputs(coins[1..])
  }

  function Values(vs: seq<TxIn>): (b: seq<byte>)
    ensures |b| == 8 * |vs|
  {
    if vs == [] then [] else U64(vs[0].value) + Values(vs[1..])
  }

  /** The transaction under review: the picked coins in; the payment, and change if there is any. */
  function PlanOf(lib: Library, sel: CoinSelection, amount: u64, to: seq<byte>, from: seq<byte>)
    : Result<TxPlan, BuildError>
  {
    if !WellNamed(sel.inputs) then Err(MalformedTxid)
    else if lib.scriptFor(to).None? then Err(NotAnAddress)
    else if sel.change > 0 && lib.scriptFor(from).None? then Err(NotAnAddress)
    else
      Ok(TxPlan(PlanInputs(sel.inputs),
                [TxOut(amount, lib.scriptFor(to).value)]
                + if sel.change > 0 then [TxOut(sel.change, lib.scriptFor(from).value)] else []))
  }

  /** Length, skeleton, one value per input. */
  function PayloadOf(lib: Library, plan: TxPlan): seq<byte>
  {
    U32(Wrap32(|lib.encode(plan)|)) + lib.encode(plan) + Values(plan.inputs)
  }

  /** The payload part of confirm_btc_send. */
  method BuildPayload(lib: Library, sel: CoinSelection, amount: u64, to: seq<byte>, from: seq<byte>)
    returns (r: Result<seq<byte>, BuildError>)
    ensures r == match PlanOf(lib, sel, amount, to, from)
                 case Err(e) => Err(e)
                 case Ok(plan) => Ok(PayloadOf(lib, plan))
  {
    var inputs: seq<TxIn> := [];
    var values: seq<byte> := [];
    for i := 0 to |sel.inputs|
      invariant WellNamed(sel.inputs[..i])
      invariant inputs == PlanInputs(sel.inputs[..i]) && values == Values(inputs)
    {
      var u := sel.inputs[i];
      assert u in sel.inputs;
      if |u.txid| != 64 { return Err(MalformedTxid); }
      PlanInputsSnoc(sel.inputs, i);
      ValuesSnoc(inputs, TxIn(TxidBytes(u.txid), u.vout, u.value));
      inputs := inputs + [TxIn(TxidBytes(u.txid), u.vout, u.value)];
      values := values + U64(u.value);
    }
    assert sel.inputs[..|sel.inputs|] == sel.inputs;
    var toScript := lib.scriptFor(to);
    if toScript.None? { return Err(NotAnAddress); }
    var outputs := [TxOut(amount, toScript.value)];
    if sel.change > 0 {
      var home := lib.scriptFor(from);
      if home.None? { return Err(NotAnAddress); }
      outputs := outputs + [TxOut(sel.change, home.value)];
    }
    assert [TxOut(amount, toScript.value)] + [] == [TxOut(amount, toScript.value)];
    var skeleton := lib.encode(TxPlan(inputs, outputs));
    r := Ok(U32(Wrap32(|skeleton|)) + skeleton + values);
  }

  // --- What the plan says ------------------------------------------------------------

  /** A txid in lower-case hex is put into the plan as the bytes it spells, first digit first. */
  lemma TxidIsDecoded(txid: seq<byte>)
    requires |txid| == 64 && A.FromHex(txid).Some?
    ensures A.FromHex(txid) == Some(TxidBytes(txid))
  {
    var data := A.FromHex(txid).value;
    forall i | 0 <= i < 32 ensures data[i] == TxidBytes(txid)[i] {
      HexDigits(txid, i);
      DigitsSpell(txid[2 * i], txid[2 * i + 1]);
    }
    assert data == TxidBytes(txid);
  }

  lemma DigitsSpell(c: byte, d: byte)
    requires A.Nibble(c) >= 0 && A.Nibble(d) >= 0
    ensures LooseByte(LooseNibble(c), LooseNibble(d)) == 16 * A.Nibble(c) + A.Nibble(d)
  {
    DigitIsLoose(c);
    DigitIsLoose(d);
    NibblesJoin(A.Nibble(c), A.Nibble(d));
  }

  lemma DigitIsLoose(c: byte)
    requires A.Nibble(c) >= 0
    ensures LooseNibble(c) == A.Nibble(c)
  {}

  lemma NibblesJoin(hi: nat, lo: nat)
    requires hi < 16 && lo < 16
    ensures Or(lo, hi * 16) == 16 * hi + lo
  {
    assert Pow2(4) == 16 by { Pow2Two(0); Pow2Two(2); }
    OrOfDisjoint(lo, hi, 4);
  }

  lemma {:induction false} HexDigits(hex: seq<byte>, i: nat)
    requires |hex| % 2 == 0 && A.FromHex(hex).Some? && 2 * i < |hex|
    ensures var hi, lo := A.Nibble(hex[2 * i]), A.Nibble(hex[2 * i + 1]);
      hi >= 0 && lo >= 0 && A.FromHex(hex).value[i] == 16 * hi + lo
  {
    if i > 0 { HexDigits(hex[2..], i - 1); }
  }

  lemma {:induction false} PlanInputAt(coins: seq<Utxo>, i: nat)
    requires WellNamed(coins) && i < |coins|
    ensures coins[i] in coins && PlanInputs(coins)[i] == TxIn(TxidBytes(coins[i].txid), coins[i].vout, coins[i].value)
  {
    assert forall u :: u in coins[1..] ==> u in coins;
    if i > 0 { PlanInputAt(coins[1..], i - 1); }
  }

  /** The plan spends the picked coins, each by its name, number and value, pays the amount to the
      recipient first, and brings the change, if there is any, home. */
  lemma PlanIsWhatWasAsked(lib: Library, sel: CoinSelection, amount: u64, to: seq<byte>, from: seq<byte>)
    requires PlanOf(lib, sel, amount, to, from).Ok?
    ensures var plan := PlanOf(lib, sel, amount, to, from).value;
      && |plan.inputs| == |sel.inputs|
      && (forall i :: 0 <= i < |sel.inputs| ==>
            var u := sel.inputs[i];
            && plan.inputs[i].vout == u.vout && plan.inputs[i].value == u.value
            && |u.txid| == 64 && (A.FromHex(u.txid).Some? ==> A.FromHex(u.txid) == Some(plan.inputs[i].txid)))
      && |plan.outputs| == (if sel.change == 0 then 1 else 2)
      && plan.outputs[0].value == amount && Some(plan.outputs[0].script) == lib.scriptFor(to)
      && (sel.change > 0 ==>
            plan.outputs[1].value == sel.change && Some(plan.outputs[1].script) == lib.scriptFor(from))
  {
    var plan := PlanOf(lib, sel, amount, to, from).value;
    forall i | 0 <= i < |sel.inputs|
      ensures var u := sel.inputs[i];
        && plan.inputs[i].vout == u.vout && plan.inputs[i].value == u.value
        && |u.txid| == 64 && (A.FromHex(u.txid).Some? ==> A.FromHex(u.txid) == Some(plan.inputs[i].txid))
    {
      PlanInputAt(sel.inputs, i);
      if A.FromHex(sel.inputs[i].txid).Some? { TxidIsDecoded(sel.inputs[i].txid); }
    }
  }

  lemma PlanInputsSnoc(coins: seq<Utxo>, i: nat)
    requires i < |coins| && WellNamed(coins[..i]) && |coins[i].txid| == 64
    ensures WellNamed(coins[..i + 1])
    ensures PlanInputs(coins[..i + 1])
         == PlanInputs(coins[..i]) + [TxIn(TxidBytes(coins[i].txid), coins[i].vout, coins[i].value)]
  {
    assert coins[..i + 1] == coins[..i] + [coins[i]];
    PlanInputsAppend(coins[..i], coins[i]);
  }

  lemma {:induction false} PlanInputsAppend(coins: seq<Utxo>, u: Utxo)
    requires WellNamed(coins) && |u.txid| == 64
    ensures WellNamed(coins + [u])
    ensures PlanInputs(coins + [u]) == PlanInputs(coins) + [TxIn(TxidBytes(u.txid), u.vout, u.value)]
  {
    if coins != [] {
      assert (coins + [u])[1..] == coins[1..] + [u];
      assert forall x :: x in coins[1..] ==> x in coins;
      PlanInputsAppend(coins[1..], u);
    }
  }

  lemma {:induction false} ValuesSnoc(vs: seq<TxIn>, x: TxIn)
    ensures Values(vs + [x]) == Values(vs) + U64(x.value)
  {
    if vs == [] {
      assert Values([x]) == U64(x.value) + Values([]);
    } else {
      assert (vs + [x])[1..] == vs[1..] + [x];
      ValuesSnoc(vs[1..], x);
    }
  }

  // --- The judgement -----------------------------------------------------------------

  datatype JudgeError = NotBitcoin | PayloadTruncated | OutOfBounds | BadSkeleton | ValueCount
                      | Key(why: KeyError) | TooManyOutputs | OwnScript | UnnamedOutput
                      | NoOwnChange | NegativeFee

  /** A payload that may be signed: the transaction with its values, the fee, the signer. */
  datatype Judged = Judged(plan: TxPlan, fee: u64, signer: seq<byte>)

  /** The values as they lie in the payload, put into the parsed inputs. */
  function Valued(inputs: seq<TxIn>, values: seq<byte>): (r: seq<TxIn>)
    requires |values| == 8 * |inputs|
    ensures |r| == |inputs|
  {
    if inputs == [] then []
    else
      WordBound(values[..8]);
      [inputs[0].(value := Number(values[..8]))] + Valued(inputs[1..], values[8..])
  }

  function SumIn(inputs: seq<TxIn>): nat
  {
    if inputs == [] then 0 else inputs[0].value + SumIn(inputs[1..])
  }

  function SumOut(outputs: seq<TxOut>): nat
  {
    if outputs == [] then 0 else outputs[0].value + SumOut(outputs[1..])
  }

  /** The whitelist and the fee. */
  function JudgePlan(lib: Library, plan: TxPlan, signer: seq<byte>): Result<Judged, JudgeError>
  {
    var total := Wrap64(SumIn(plan.inputs));
    if |plan.outputs| > 2 then Err(TooManyOutputs)
    else
      match lib.scriptFor(signer)
      case None => Err(OwnScript)
      case Some(own) =>
        if exists o :: o in plan.outputs && lib.addressFor(o.script) == [] then Err(UnnamedOutput)
        else if |plan.outputs| == 2 && !exists o :: o in plan.outputs && o.script == own then Err(NoOwnChange)
        else
          var out := Wrap64(SumOut(plan.outputs));
          if total <= out then Err(NegativeFee) else Ok(Judged(plan, total - out, signer))
  }

  /** sign_btc_payload up to the first signature. `4 + skel_len` is computed in 32 bits; where it
      wraps, the source goes on with a span past the end of the payload. */
  function Judge(lib: Library, k: Keys, w: Wallet, payload: seq<byte>, account: u32, preset: Preset)
    : Result<Judged, JudgeError>
  {
    if PresetFamily(preset) != Btc then Err(NotBitcoin)
    else if |payload| < 4 then Err(PayloadTruncated)
    else
      WordBound(payload[..4]);
      var skelLen := Number(payload[..4]);
      var at := Wrap32(4 + skelLen);
      if at > |payload| then Err(PayloadTruncated)
      else if 4 + skelLen > |payload| then Err(OutOfBounds)
      else
        match lib.parse(payload[4..4 + skelLen])
        case None => Err(BadSkeleton)
        case Some(plan) =>
          if |payload| != at + 8 * |plan.inputs| then Err(ValueCount)
          else
            match BtcSigner(k, w, account, preset)
            case Err(e) => Err(Key(e))
            case Ok(signer) =>
              JudgePlan(lib, plan.(inputs := Valued(plan.inputs, payload[at..])), signer)
  }

  method SignBtcJudge(lib: Library, k: Keys, w: Wallet, payload: seq<byte>, account: u32, preset: Preset)
    returns (r: Result<Judged, JudgeError>)
    ensures r == Judge(lib, k, w, payload, account, preset)
  {
    if PresetFamily(preset) != Btc { return Err(NotBitcoin); }
    if |payload| < 4 { return Err(PayloadTruncated); }
    WordBound(payload[..4]);
    var skelLen := Number(payload[..4]);
    var at := Wrap32(4 + skelLen);
    if at > |payload| { return Err(PayloadTruncated); }
    if 4 + skelLen > |payload| { return Err(OutOfBounds); }
    var parsed := lib.parse(payload[4..4 + skelLen]);
    if parsed.None? { return Err(BadSkeleton); }
    var n := |parsed.value.inputs|;
    if |payload| != at + 8 * n { return Err(ValueCount); }
    var inputs, total := ReadValues(parsed.value.inputs, payload, at);
    var plan := parsed.value.(inputs := inputs);
    var key := BtcSigner(k, w, account, preset);
    if key.Err? { return Err(Key(key.error)); }
    r := Whitelist(lib, plan, total, key.value);
  }

  /** The value loop: uint64 sum, one value per input. */
  method ReadValues(inputs: seq<TxIn>, payload: seq<byte>, at: nat) returns (r: seq<TxIn>, total: u64)
    requires |payload| == at + 8 * |inputs|
    ensures r == Valued(inputs, payload[at..]) && total == Wrap64(SumIn(r))
  {
    r, total := [], 0;
    ghost var all := Valued(inputs, payload[at..]);
    assert inputs[0..] == inputs && [] + all == all;
    var p := at;
    for i := 0 to |inputs|
      invariant p == at + 8 * i
      invariant ReadSoFar(inputs, i, payload, p, r, total, all)
    {
      var v := GetU64le(payload[p..p + 8]);
      assert payload[p..p + 8][..8] == payload[p..p + 8];
      ReadOneMore(inputs, i, payload, p, r, total, all, v);
      r := r + [inputs[i].(value := v)];
      p := p + 8;
      total := Wrap64(total + v);
    }
    assert r + [] == r;
  }

  /** After i inputs: what was read, followed by what is left, is the whole. */
  ghost predicate ReadSoFar(inputs: seq<TxIn>, i: nat, payload: seq<byte>, p: nat,
                            r: seq<TxIn>, total: u64, all: seq<TxIn>)
  {
    i <= |inputs| && |payload| == p + 8 * (|inputs| - i)
    && r + Valued(inputs[i..], payload[p..]) == all && total == Wrap64(SumIn(r))
  }

  lemma ReadOneMore(inputs: seq<TxIn>, i: nat, payload: seq<byte>, p: nat,
                    r: seq<TxIn>, total: u64, all: seq<TxIn>, v: u64)
    requires i < |inputs| && ReadSoFar(inputs, i, payload, p, r, total, all)
    requires v == Number(payload[p..p + 8])
    ensures ReadSoFar(inputs, i + 1, payload, p + 8, r + [inputs[i].(value := v)], Wrap64(total + v), all)
  {
    var x := inputs[i].(value := v);
    ValuedStep(inputs, i, payload, p, r, x);
    SumInSnoc(r, x);
    WrapStep(SumIn(r), v);
  }

  lemma ValuedStep(inputs: seq<TxIn>, i: nat, payload: seq<byte>, p: nat, r: seq<TxIn>, x: TxIn)
    requires i < |inputs| && |payload| == p + 8 * (|inputs| - i)
    requires Number(payload[p..p + 8]) < TWO_64 && x == inputs[i].(value := Number(payload[p..p + 8]))
    ensures r + Valued(inputs[i..], payload[p..]) == r + [x] + Valued(inputs[i + 1..], payload[p + 8..])
  {
    Cut(payload, p, p + 8);
    assert inputs[i..][1..] == inputs[i + 1..];
  }

  lemma {:induction false} SumInSnoc(inputs: seq<TxIn>, x: TxIn)
    ensures SumIn(inputs + [x]) == SumIn(inputs) + x.value
  {
    if inputs == [] {
      assert SumIn([x]) == x.value + SumIn([]);
    } else {
      assert (inputs + [x])[1..] == inputs[1..] + [x];
      SumInSnoc(inputs[1..], x);
    }
  }

  lemma {:induction false} SumOutSnoc(outputs: seq<TxOut>, x: TxOut)
    ensures SumOut(outputs + [x]) == SumOut(outputs) + x.value
  {
    if outputs == [] {
      assert SumOut([x]) == x.value + SumOut([]);
    } else {
      assert (outputs + [x])[1..] == outputs[1..] + [x];
      SumOutSnoc(outputs[1..], x);
    }
  }

  /** The output loop: every output nameable, the own script seen among two. */
  method Whitelist(lib: Library, plan: TxPlan, total: u64, signer: seq<byte>) returns (r: Result<Judged, JudgeError>)
    requires total == Wrap64(SumIn(plan.inputs))
    ensures r == JudgePlan(lib, plan, signer)
  {
    if |plan.outputs| > 2 { return Err(TooManyOutputs); }
    var own := lib.scriptFor(signer);
    if own.None? { return Err(OwnScript); }
    var totalOut: u64 := 0;
    var changeSeen := false;
    for i := 0 to |plan.outputs|
      invariant totalOut == Wrap64(SumOut(plan.outputs[..i]))
      invariant forall o :: o in plan.outputs[..i] ==> lib.addressFor(o.script) != []
      invariant changeSeen <==> |plan.outputs| == 2 && exists o :: o in plan.outputs[..i] && o.script == own.value
    {
      var o := plan.outputs[i];
      if lib.addressFor(o.script) == [] { return Err(UnnamedOutput); }
      assert plan.outputs[..i + 1] == plan.outputs[..i] + [o];
      SumOutSnoc(plan.outputs[..i], o);
      WrapStep(SumOut(plan.outputs[..i]), o.value);
      totalOut := Wrap64(totalOut + o.value);
      if |plan.outputs| == 2 && o.script == own.value { changeSeen := true; }
    }
    assert plan.outputs[..|plan.outputs|] == plan.outputs;
    if |plan.outputs| == 2 && !changeSeen { return Err(NoOwnChange); }
    if total <= totalOut { return Err(NegativeFee); }
    r := Ok(Judged(plan, total - totalOut, signer));
  }

  // --- Reading and writing payloads --------------------------------------------------

  /** The same inputs, but for their values. */
  predicate SameInputs(inputs: seq<TxIn>, bare: seq<TxIn>)
  {
    |inputs| == |bare| && forall i :: 0 <= i < |inputs| ==> inputs[i] == bare[i].(value := inputs[i].value)
  }

  lemma {:induction false} ValuesReadBack(inputs: seq<TxIn>, bare: seq<TxIn>)
    requires SameInputs(inputs, bare)
    ensures Valued(bare, Values(inputs)) == inputs
  {
    if inputs != [] {
      U64RoundTrip(inputs[0].value);
      assert Values(inputs)[..8] == U64(inputs[0].value);
      assert Values(inputs)[8..] == Values(inputs[1..]);
      ValuesReadBack(inputs[1..], bare[1..]);
      assert inputs == [inputs[0]] + inputs[1..];
    }
  }

  lemma {:induction false} ValuesWriteBack(bare: seq<TxIn>, values: seq<byte>)
    requires |values| == 8 * |bare|
    ensures SameInputs(Valued(bare, values), bare) && Values(Valued(bare, values)) == values
  {
    if bare != [] {
      WordBound(values[..8]);
      LittleEndianOfNumber(values[..8]);
      ValuesWriteBack(bare[1..], values[8..]);
      var rest := Valued(bare[1..], values[8..]);
      var first := bare[0].(value := Number(values[..8]));
      assert Valued(bare, values) == [first] + rest && ([first] + rest)[1..] == rest;
      Halves(values[..8], values[8..]);
      assert values == values[..8] + values[8..];
    }
  }

  /** The payload is the skeleton with its length before it and the plan's values after it, and
      the skeleton reads as the plan without its values. */
  ghost predicate Assembled(lib: Library, payload: seq<byte>, skeleton: seq<byte>, plan: TxPlan)
  {
    && |skeleton| < TWO_32 - 4
    && payload == U32(|skeleton|) + skeleton + Values(plan.inputs)
    && lib.parse(skeleton).Some?
    && var bare := lib.parse(skeleton).value;
       SameInputs(plan.inputs, bare.inputs) && plan.outputs == bare.outputs
  }

  /** How an assembled payload comes apart again. */
  lemma PartsOf(skeleton: seq<byte>, inputs: seq<TxIn>, bare: seq<TxIn>)
    requires |skeleton| < TWO_32 && SameInputs(inputs, bare)
    ensures var payload := U32(|skeleton|) + skeleton + Values(inputs);
      && |payload| == 4 + |skeleton| + 8 * |bare| && Number(payload[..4]) == |skeleton|
      && payload[4..4 + |skeleton|] == skeleton && Valued(bare, payload[4 + |skeleton|..]) == inputs
  {
    U32RoundTrip(|skeleton|);
    Joined(U32(|skeleton|), skeleton, Values(inputs));
    ValuesReadBack(inputs, bare);
  }

  lemma AssembledReadsBack(lib: Library, k: Keys, w: Wallet, skeleton: seq<byte>, plan: TxPlan,
                           account: u32, preset: Preset)
    requires PresetFamily(preset) == Btc && BtcSigner(k, w, account, preset).Ok?
    requires |skeleton| < TWO_32 - 4 && lib.parse(skeleton).Some?
    requires SameInputs(plan.inputs, lib.parse(skeleton).value.inputs)
    requires plan.outputs == lib.parse(skeleton).value.outputs
    ensures Judge(lib, k, w, U32(|skeleton|) + skeleton + Values(plan.inputs), account, preset)
         == JudgePlan(lib, plan, BtcSigner(k, w, account, preset).value)
  {
    PartsOf(skeleton, plan.inputs, lib.parse(skeleton).value.inputs);
  }

  // --- What acceptance means ---------------------------------------------------------

  /** What the signer signs, said without its loops: every output has an address, there are at
      most two, of two one is the account's own, and the fee is a positive difference of sums. */
  ghost predicate Acceptable(lib: Library, plan: TxPlan, fee: u64, signer: seq<byte>)
  {
    && lib.scriptFor(signer).Some?
    && |plan.outputs| <= 2
    && (forall o :: o in plan.outputs ==> lib.addressFor(o.script) != [])
    && (|plan.outputs| == 2 ==>
          lib.scriptFor(signer).value in [plan.outputs[0].script, plan.outputs[1].script])
    && fee > 0 && Wrap64(SumIn(plan.inputs)) == Wrap64(SumOut(plan.outputs)) + fee
  }

  lemma JudgePlanExact(lib: Library, plan: TxPlan, fee: u64, signer: seq<byte>)
    ensures JudgePlan(lib, plan, signer) == Ok(Judged(plan, fee, signer)) <==> Acceptable(lib, plan, fee, signer)
  {
    if |plan.outputs| == 2 {
      assert plan.outputs[0] in plan.outputs && plan.outputs[1] in plan.outputs;
    }
  }

  /** Whatever an accepted payload is, it has at most two outputs, at most one of which does not
      pay the account itself, every output has an address, and the fee is the exact difference
      of the sums wherever the sums do not wrap; then it is positive. */
  lemma AcceptedIsReadable(lib: Library, k: Keys, w: Wallet, payload: seq<byte>, account: u32, preset: Preset)
    requires Judge(lib, k, w, payload, account, preset).Ok?
    ensures var j := Judge(lib, k, w, payload, account, preset).value;
      && PresetFamily(preset) == Btc && BtcSigner(k, w, account, preset) == Ok(j.signer)
      && |j.plan.outputs| <= 2
      && lib.scriptFor(j.signer).Some?
      && (forall o :: o in j.plan.outputs ==> lib.addressFor(o.script) != [])
      && (forall a, b :: 0 <= a < b < |j.plan.outputs| ==>
            j.plan.outputs[a].script == lib.scriptFor(j.signer).value
            || j.plan.outputs[b].script == lib.scriptFor(j.signer).value)
      && j.fee > 0
      && (SumIn(j.plan.inputs) < TWO_64 && SumOut(j.plan.outputs) < TWO_64 ==>
            SumIn(j.plan.inputs) == SumOut(j.plan.outputs) + j.fee)
  {
    var j := Judge(lib, k, w, payload, account, preset).value;
    AcceptedByPlan(lib, k, w, payload, account, preset);
    JudgePlanExact(lib, j.plan, j.fee, j.signer);
  }

  lemma AcceptedByPlan(lib: Library, k: Keys, w: Wallet, payload: seq<byte>, account: u32, preset: Preset)
    requires Judge(lib, k, w, payload, account, preset).Ok?
    ensures var j := Judge(lib, k, w, payload, account, preset).value;
      && PresetFamily(preset) == Btc && BtcSigner(k, w, account, preset) == Ok(j.signer)
      && JudgePlan(lib, j.plan, j.signer) == Ok(j)
  {}

  /** The judgement in both directions: the payloads accepted for a plan and a fee are exactly
      those assembled from a skeleton of that plan, where the plan is acceptable to the key. */
  lemma AcceptedExactly(lib: Library, k: Keys, w: Wallet, payload: seq<byte>, account: u32, preset: Preset,
                        plan: TxPlan, fee: u64, signer: seq<byte>)
    requires |payload| < TWO_32
    ensures Judge(lib, k, w, payload, account, preset) == Ok(Judged(plan, fee, signer))
       <==> && PresetFamily(preset) == Btc && BtcSigner(k, w, account, preset) == Ok(signer)
            && Acceptable(lib, plan, fee, signer)
            && exists skeleton :: Assembled(lib, payload, skeleton, plan)
  {
    JudgePlanExact(lib, plan, fee, signer);
    if Judge(lib, k, w, payload, account, preset) == Ok(Judged(plan, fee, signer)) {
      AcceptedIsAssembled(lib, k, w, payload, account, preset);
    }
    if PresetFamily(preset) == Btc && BtcSigner(k, w, account, preset) == Ok(signer)
       && Acceptable(lib, plan, fee, signer) && exists skeleton :: Assembled(lib, payload, skeleton, plan) {
      var skeleton :| Assembled(lib, payload, skeleton, plan);
      AssembledReadsBack(lib, k, w, skeleton, plan, account, preset);
    }
  }

  lemma AcceptedIsAssembled(lib: Library, k: Keys, w: Wallet, payload: seq<byte>, account: u32, preset: Preset)
    requires |payload| < TWO_32 && Judge(lib, k, w, payload, account, preset).Ok?
    ensures var j := Judge(lib, k, w, payload, account, preset).value;
      && JudgePlan(lib, j.plan, j.signer) == Ok(j)
      && exists skeleton :: Assembled(lib, payload, skeleton, j.plan)
  {
    WordBound(payload[..4]);
    TakenApart(lib, payload);
  }

  /** Where the length word, the skeleton and the values lie in an assembled payload. */
  lemma TakenApart(lib: Library, payload: seq<byte>)
    requires 4 <= |payload| < TWO_32
    ensures var n := Number(payload[..4]);
      4 + n <= |payload| && lib.parse(payload[4..4 + n]).Some?
      && |payload| == 4 + n + 8 * |lib.parse(payload[4..4 + n]).value.inputs| ==>
        var bare := lib.parse(payload[4..4 + n]).value;
        Assembled(lib, payload, payload[4..4 + n], bare.(inputs := Valued(bare.inputs, payload[4 + n..])))
  {
    var n := Number(payload[..4]);
    if 4 + n <= |payload| && lib.parse(payload[4..4 + n]).Some? {
      var inputs := lib.parse(payload[4..4 + n]).value.inputs;
      if |payload| == 4 + n + 8 * |inputs| {
        LittleEndianOfNumber(payload[..4]);
        ValuesWriteBack(inputs, payload[4 + n..]);
        Thirds(payload, 4, 4 + n);
      }
    }
  }

  lemma Joined(a: seq<byte>, b: seq<byte>, c: seq<byte>)
    ensures (a + b + c)[..|a|] == a
    ensures (a + b + c)[|a|..|a| + |b|] == b
    ensures (a + b + c)[|a| + |b|..] == c
  {}

  lemma Thirds(b: seq<byte>, i: nat, j: nat)
    requires i <= j <= |b|
    ensures b == b[..i] + b[i..j] + b[j..]
  {}

  /** The length check keeps the reading inside the payload exactly for lengths below 2^32 - 4:
      above, the 32-bit sum wraps, the check passes, and the span runs past the end. */
  lemma LengthCheckExact(lib: Library, k: Keys, w: Wallet, payload: seq<byte>, account: u32, preset: Preset)
    requires PresetFamily(preset) == Btc && 4 <= |payload| < TWO_32
    ensures Judge(lib, k, w, payload, account, preset) == Err(OutOfBounds)
       <==> Number(payload[..4]) >= TWO_32 - 4
  {
    WordBound(payload[..4]);
  }

  // --- From the selection to the signer ----------------------------------------------

  lemma {:induction false} SumOfPlan(coins: seq<Utxo>)
    requires WellNamed(coins)
    ensures SumIn(PlanInputs(coins)) == Sum(coins)
  {
    if coins != [] {
      assert forall u :: u in coins[1..] ==> u in coins;
      SumOfPlan(coins[1..]);
    }
  }

  /** The signer takes a payload apart as it was put together. */
  lemma PayloadReadsBack(lib: Library, k: Keys, w: Wallet, plan: TxPlan, account: u32, preset: Preset)
    requires PresetFamily(preset) == Btc && BtcSigner(k, w, account, preset).Ok?
    requires |lib.encode(plan)| < TWO_32 - 4 && lib.parse(lib.encode(plan)) == Some(Unvalued(plan))
    ensures Judge(lib, k, w, PayloadOf(lib, plan), account, preset)
         == JudgePlan(lib, plan, BtcSigner(k, w, account, preset).value)
  {
    Wrap32Small(|lib.encode(plan)|);
    UnvaluedSame(plan);
    AssembledReadsBack(lib, k, w, lib.encode(plan), plan, account, preset);
  }

  lemma Wrap32Small(n: nat)
    requires n < TWO_32
    ensures Wrap32(n) == n
  {}

  lemma UnvaluedSame(plan: TxPlan)
    ensures SameInputs(plan.inputs, Unvalued(plan).inputs) && plan.outputs == Unvalued(plan).outputs
  {}

  /** The address codec: an address the wallet prints has a script, and a script that came from
      an address is named by one. */
  ghost predicate AddressCodec(lib: Library, k: Keys)
  {
    (forall p, pub :: lib.scriptFor(k.address(p, pub)).Some?)
    && forall a :: lib.scriptFor(a).Some? ==> lib.addressFor(lib.scriptFor(a).value) != []
  }

  lemma JudgeAcceptsSelection(lib: Library, k: Keys, sel: CoinSelection, amount: u64,
                              to: seq<byte>, from: seq<byte>, asked: nat)
    requires AddressCodec(lib, k) && lib.scriptFor(from).Some?
    requires PlanOf(lib, sel, amount, to, from).Ok?
    requires Balanced(sel, amount, asked) && asked > 0 && Sum(sel.inputs) < TWO_64
    ensures JudgePlan(lib, PlanOf(lib, sel, amount, to, from).value, from)
         == Ok(Judged(PlanOf(lib, sel, amount, to, from).value, sel.fee, from))
  {
    var plan := PlanOf(lib, sel, amount, to, from).value;
    SumOfPlan(sel.inputs);
    PlanPays(lib, sel, amount, to, from);
    if sel.change > 0 {
      var home := TxOut(sel.change, lib.scriptFor(from).value);
      assert plan.outputs[1] == home;
    }
  }

  /** End to end: what the send page builds from a selection of the wallet's coins, for the
      address the wallet shows, the signer accepts, for exactly the reviewed transaction and
      with exactly the fee shown at review. */
  lemma ReviewedFeeIsSigned(lib: Library, k: Keys, w: Wallet, account: u32, preset: Preset,
                            coins: seq<Utxo>, amount: u64, rate: u64, inputVb: u64, outputVb: u64,
                            to: seq<byte>, from: seq<byte>)
    requires PresetFamily(preset) == Btc && AccountAddress(k, w, account, preset) == Ok(from)
    requires AddressCodec(lib, k) && Fits(coins, amount, rate, inputVb, outputVb)
    requires Selection(coins, amount, rate, inputVb, outputVb).Ok?
    requires
      var plan := PlanOf(lib, Selection(coins, amount, rate, inputVb, outputVb).value, amount, to, from);
      plan.Ok? && |lib.encode(plan.value)| < TWO_32 - 4
      && lib.parse(lib.encode(plan.value)) == Some(Unvalued(plan.value))
    ensures
      var sel := Selection(coins, amount, rate, inputVb, outputVb).value;
      var plan := PlanOf(lib, sel, amount, to, from).value;
      Judge(lib, k, w, PayloadOf(lib, plan), account, preset) == Ok(Judged(plan, sel.fee, from))
  {
    var sel := Selection(coins, amount, rate, inputVb, outputVb).value;
    SelectionConserves(coins, amount, rate, inputVb, outputVb);
    SumWithin(sel.inputs, coins);
    var asked := AskedFee(|sel.inputs|, rate, inputVb, outputVb);
    FeePositive(|sel.inputs|, rate, inputVb, outputVb);
    SelectionIsSigned(lib, k, w, account, preset, sel, asked, amount, to, from);
  }

  lemma SelectionIsSigned(lib: Library, k: Keys, w: Wallet, account: u32, preset: Preset,
                          sel: CoinSelection, asked: nat, amount: u64, to: seq<byte>, from: seq<byte>)
    requires PresetFamily(preset) == Btc && AccountAddress(k, w, account, preset) == Ok(from)
    requires AddressCodec(lib, k) && PlanOf(lib, sel, amount, to, from).Ok?
    requires Balanced(sel, amount, asked) && asked > 0 && Sum(sel.inputs) < TWO_64
    requires var plan := PlanOf(lib, sel, amount, to, from).value;
      |lib.encode(plan)| < TWO_32 - 4 && lib.parse(lib.encode(plan)) == Some(Unvalued(plan))
    ensures var plan := PlanOf(lib, sel, amount, to, from).value;
      Judge(lib, k, w, PayloadOf(lib, plan), account, preset) == Ok(Judged(plan, sel.fee, from))
  {
    ShownAddressSigns(k, w, account, preset);
    PayloadReadsBack(lib, k, w, PlanOf(lib, sel, amount, to, from).value, account, preset);
    JudgeAcceptsSelection(lib, k, sel, amount, to, from, asked);
  }

  /** Whoever signs the plan of a selection, and whatever else the signer finds in it: if it accepts,
      the fee it computes is the selection's. */
  lemma FeeOfSelection(lib: Library, sel: CoinSelection, amount: u64, to: seq<byte>, from: seq<byte>,
                       asked: nat, signer: seq<byte>)
    requires PlanOf(lib, sel, amount, to, from).Ok? && Balanced(sel, amount, asked) && Sum(sel.inputs) < TWO_64
    requires JudgePlan(lib, PlanOf(lib, sel, amount, to, from).value, signer).Ok?
    ensures JudgePlan(lib, PlanOf(lib, sel, amount, to, from).value, signer)
         == Ok(Judged(PlanOf(lib, sel, amount, to, from).value, sel.fee, signer))
  {
    var plan := PlanOf(lib, sel, amount, to, from).value;
    SumOfPlan(sel.inputs);
    PlanPays(lib, sel, amount, to, from);
  }

  lemma PlanPays(lib: Library, sel: CoinSelection, amount: u64, to: seq<byte>, from: seq<byte>)
    requires PlanOf(lib, sel, amount, to, from).Ok?
    ensures SumOut(PlanOf(lib, sel, amount, to, from).value.outputs) == amount + sel.change
  {
    var pay := TxOut(amount, lib.scriptFor(to).value);
    var outputs := PlanOf(lib, sel, amount, to, from).value.outputs;
    if sel.change > 0 {
      var home := TxOut(sel.change, lib.scriptFor(from).value);
      assert outputs == [pay, home] && [pay, home][1..] == [home];
      assert SumOut([pay, home]) == pay.value + SumOut([home]) && SumOut([home]) == home.value + SumOut([]);
    } else {
      assert outputs == [pay] && SumOut([pay]) == pay.value + SumOut([]);
    }
  }

  /** The same for the payload, wherever it was built from a selection that fits. */
  lemma SelectionFeeIsJudged(lib: Library, k: Keys, w: Wallet, account: u32, preset: Preset,
                             coins: seq<Utxo>, amount: u64, rate: u64, inputVb: u64, outputVb: u64,
                             to: seq<byte>, from: seq<byte>)
    requires Fits(coins, amount, rate, inputVb, outputVb) && Selection(coins, amount, rate, inputVb, outputVb).Ok?
    requires
      var plan := PlanOf(lib, Selection(coins, amount, rate, inputVb, outputVb).value, amount, to, from);
      && plan.Ok? && |lib.encode(plan.value)| < TWO_32 - 4
      && lib.parse(lib.encode(plan.value)) == Some(Unvalued(plan.value))
      && Judge(lib, k, w, PayloadOf(lib, plan.value), account, preset).Ok?
    ensures
      var sel := Selection(coins, amount, rate, inputVb, outputVb).value;
      var plan := PlanOf(lib, sel, amount, to, from).value;
      var j := Judge(lib, k, w, PayloadOf(lib, plan), account, preset).value;
      j.plan == plan && j.fee == sel.fee && BtcSigner(k, w, account, preset) == Ok(j.signer)
  {
    var sel := Selection(coins, amount, rate, inputVb, outputVb).value;
    var plan := PlanOf(lib, sel, amount, to, from).value;
    AcceptedByPlan(lib, k, w, PayloadOf(lib, plan), account, preset);
    PayloadReadsBack(lib, k, w, plan, account, preset);
    SelectionConserves(coins, amount, rate, inputVb, outputVb);
    SumWithin(sel.inputs, coins);
    FeeOfSelection(lib, sel, amount, to, from, AskedFee(|sel.inputs|, rate, inputVb, outputVb),
                   BtcSigner(k, w, account, preset).value);
  }

  lemma FeePositive(n: nat, feerate: u64, inputVb: u64, outputVb: u64)
    ensures AskedFee(n, feerate, inputVb, outputVb) > 0
  {
    var size := 11 + inputVb * n + outputVb * 2;
    assert size >= 11;
    MulMonotone(1, if feerate > 0 then feerate else 1, size);
  }

  lemma SumWithin(pick: seq<Utxo>, coins: seq<Utxo>)
    requires multiset(pick) <= multiset(coins)
    ensures Sum(pick) <= Sum(coins)
  {
    SumOfMultiset(coins, Sort(coins));
    InOrderByValue(Sort(coins));
    PrefixIsRichest(Sort(coins), pick);
    SumPrefix(Sort(coins), |pick|);
  }
}
