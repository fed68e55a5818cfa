/** The coin selector of domain/btc/coin_select.cpp: sort by value, take greedily until the
    gathered value covers the amount and the fee of the growing transaction.
    uint64 arithmetic wraps as the source's does; the properties that need exact sums carry
    `Fits`, the bound below which no sum wraps. */
module CoinSelect {
  import opened Bytes

  datatype Utxo = Utxo(txid: seq<byte>, vout: u32, value: u64)
  datatype CoinSelection = CoinSelection(inputs: seq<Utxo>, fee: u64, change: u64)
  datatype Error = ZeroAmount | CannotCover | NothingToSweep | FeeEatsSweep

  const DUST_SATS: u64 := 546

  // --- The order ---------------------------------------------------------------------

  /** std::string's operator<: bytewise, a proper prefix first. */
  predicate TextLess(a: seq<byte>, b: seq<byte>)
  {
    if b == [] then false
    else if a == [] then true
    else a[0] < b[0] || (a[0] == b[0] && TextLess(a[1..], b[1..]))
  }

  /** The comparator handed to std::sort: value first, then txid and vout. */
  predicate Before(a: Utxo, b: Utxo)
  {
    if a.value != b.value then a.value > b.value
    else if a.txid != b.txid then TextLess(a.txid, b.txid)
    else a.vout < b.vout
  }

  lemma {:induction false} TextLessTotal(a: seq<byte>, b: seq<byte>)
    ensures !(TextLess(a, b) && TextLess(b, a))
    ensures TextLess(a, b) || TextLess(b, a) || a == b
    ensures TextLess(a, b) ==> a != b
  {
    if a != [] && b != [] {
      TextLessTotal(a[1..], b[1..]);
      assert a == [a[0]] + a[1..] && b == [b[0]] + b[1..];
    }
  }

  lemma {:induction false} TextLessTransitive(a: seq<byte>, b: seq<byte>, c: seq<byte>)
    requires TextLess(a, b) && TextLess(b, c)
    ensures TextLess(a, c)
  {
    if a != [] && a[0] == b[0] && b[0] == c[0] { TextLessTransitive(a[1..], b[1..], c[1..]); }
  }

  /** The comparator is a strict total order on coins: two distinct coins never tie. */
  lemma BeforeTotal(a: Utxo, b: Utxo)
    ensures !(Before(a, b) && Before(b, a))
    ensures Before(a, b) || Before(b, a) || a == b
    ensures Before(a, b) ==> a != b
  {
    TextLessTotal(a.txid, b.txid);
  }

  lemma BeforeTransitive(a: Utxo, b: Utxo, c: Utxo)
    requires Before(a, b) && Before(b, c)
    ensures Before(a, c)
  {
    if a.value == b.value == c.value {
      TextLessTotal(a.txid, b.txid);
      TextLessTotal(b.txid, c.txid);
      if a.txid != b.txid && b.txid != c.txid { TextLessTransitive(a.txid, b.txid, c.txid); }
      TextLessTotal(a.txid, c.txid);
    }
  }

  ghost predicate InOrder(s: seq<Utxo>)
  {
    forall i, j :: 0 <= i < j < |s| ==> !Before(s[j], s[i])
  }

  /** What std::sort leaves behind: an ordered rearrangement. SortedUnique shows there is only
      one, so which algorithm the library uses does not matter. */
  function Sort(s: seq<Utxo>): (r: seq<Utxo>)
    ensures multiset(r) == multiset(s)
    ensures InOrder(r)
  {
    if s == [] then []
    else
      assert s == [s[0]] + s[1..];
      Insert(s[0], Sort(s[1..]))
  }

  function Insert(x: Utxo, s: seq<Utxo>): (r: seq<Utxo>)
    requires InOrder(s)
    ensures multiset(r) == multiset{x} + multiset(s)
    ensures InOrder(r)
  {
    if s == [] then [x]
    else if Before(x, s[0]) then
      assert InOrder([x] + s) by { InsertFront(x, s); }
      [x] + s
    else
      assert s == [s[0]] + s[1..];
      var rest := Insert(x, s[1..]);
      assert InOrder([s[0]] + rest) by {
        forall y | y in multiset(rest) ensures !Before(y, s[0]) {
          assert y == x || y in multiset(s[1..]);
          assert y == x || y in s[1..];
        }
        ConsInOrder(s[0], rest);
      }
      [s[0]] + rest
  }

  lemma InsertFront(x: Utxo, s: seq<Utxo>)
    requires s != [] && InOrder(s) && Before(x, s[0])
    ensures InOrder([x] + s)
  {
    forall k | 0 <= k < |s| ensures !Before(s[k], x) {
      BeforeTotal(x, s[0]);
      if k > 0 && Before(s[k], x) { BeforeTransitive(s[k], x, s[0]); }
    }
    ConsInOrder(x, s);
  }

  lemma ConsInOrder(x: Utxo, s: seq<Utxo>)
    requires InOrder(s) && forall y :: y in multiset(s) ==> !Before(y, x)
    ensures InOrder([x] + s)
  {
    var r := [x] + s;
    forall i, j | 0 <= i < j < |r| ensures !Before(r[j], r[i]) {
      assert r[j] == s[j - 1] && s[j - 1] in multiset(s);
      if i > 0 { assert r[i] == s[i - 1]; }
    }
  }

  /** Two ordered rearrangements of the same coins are the same list. */
  lemma {:induction false} SortedUnique(a: seq<Utxo>, b: seq<Utxo>)
    requires InOrder(a) && InOrder(b) && multiset(a) == multiset(b)
    ensures a == b
  {
    assert |a| == |multiset(a)| == |multiset(b)| == |b|;
    if a != [] {
      SameHead(a, b);
      TailMultiset(a);
      TailMultiset(b);
      SortedUnique(a[1..], b[1..]);
      assert a == [a[0]] + a[1..] && b == [b[0]] + b[1..];
    }
  }

  lemma TailMultiset(a: seq<Utxo>)
    requires a != []
    ensures multiset(a[1..]) == multiset(a) - multiset{a[0]}
    ensures InOrder(a) ==> InOrder(a[1..])
  {
    assert a == [a[0]] + a[1..];
  }

  lemma SameHead(a: seq<Utxo>, b: seq<Utxo>)
    requires InOrder(a) && InOrder(b) && multiset(a) == multiset(b)
    requires a != [] && b != []
    ensures a[0] == b[0]
  {
    assert a[0] in multiset(b) && b[0] in multiset(a);
    var i :| 0 <= i < |b| && b[i] == a[0];
    var j :| 0 <= j < |a| && a[j] == b[0];
    BeforeTotal(a[0], b[0]);
  }

  // --- Sums --------------------------------------------------------------------------

  function Sum(s: seq<Utxo>): nat
  {
    if s == [] then 0 else s[0].value + Sum(s[1..])
  }

  lemma {:induction false} SumAppend(a: seq<Utxo>, b: seq<Utxo>)
    ensures Sum(a + b) == Sum(a) + Sum(b)
  {
    if a == [] {
      assert a + b == b;
    } else {
      assert (a + b)[1..] == a[1..] + b;
      SumAppend(a[1..], b);
    }
  }

  lemma SumSnoc(s: seq<Utxo>, k: nat)
    requires k < |s|
    ensures Sum(s[..k + 1]) == Sum(s[..k]) + s[k].value
  {
    assert s[..k + 1] == s[..k] + [s[k]];
    SumAppend(s[..k], [s[k]]);
    assert Sum([s[k]]) == s[k].value + Sum([]);
  }

  /** Sums depend on the coins, not on their order. */
  lemma {:induction false} SumOfMultiset(a: seq<Utxo>, b: seq<Utxo>)
    requires multiset(a) == multiset(b)
    ensures Sum(a) == Sum(b) && |a| == |b|
  {
    assert |a| == |multiset(a)| == |multiset(b)| == |b|;
    if a != [] {
      assert a == [a[0]] + a[1..];
      assert a[0] in multiset(b);
      var r := RemoveOne(b, a[0]);
      SumOfMultiset(a[1..], r);
    }
  }

  lemma RemoveOne(b: seq<Utxo>, x: Utxo) returns (r: seq<Utxo>)
    requires x in multiset(b)
    ensures |b| == |r| + 1 && multiset(r) == multiset(b) - multiset{x}
    ensures Sum(b) == x.value + Sum(r)
  {
    var k :| 0 <= k < |b| && b[k] == x;
    r := b[..k] + b[k + 1..];
    assert b == b[..k] + ([x] + b[k + 1..]);
    SumAppend(b[..k], [x] + b[k + 1..]);
    SumAppend(b[..k], b[k + 1..]);
    assert ([x] + b[k + 1..])[1..] == b[k + 1..];
  }

  // --- Fees --------------------------------------------------------------------------

  /** The fee at `rate` of a transaction with k inputs and m outputs. */
  function FeeFor(k: nat, m: nat, rate: nat, inputVb: nat, outputVb: nat): nat
  {
    (11 + inputVb * k + outputVb * m) * rate
  }

  /** A fee rate of zero is charged as one. */
  function Rate(asked: u64): u64 { if asked == 0 then 1 else asked }

  lemma FeeMonotone(j: nat, k: nat, rate: nat, inputVb: nat, outputVb: nat)
    requires j <= k
    ensures FeeFor(j, 2, rate, inputVb, outputVb) <= FeeFor(k, 2, rate, inputVb, outputVb)
  {
    MulMonotone(j, k, inputVb);
    MulMonotone(11 + inputVb * j + outputVb * 2, 11 + inputVb * k + outputVb * 2, rate);
  }

  lemma MulMonotone(a: nat, b: nat, c: nat)
    requires a <= b
    ensures a * c <= b * c && c * a <= c * b
  {}

  // --- The selector ------------------------------------------------------------------

  /** The decision of one probe: these coins are in hand, and they suffice. */
  function Settle(inputs: seq<Utxo>, gathered: u64, amount: u64, fee: u64): CoinSelection
  {
    var change := Wrap64(Wrap64(gathered - amount) - fee);
    if change < DUST_SATS then CoinSelection(inputs, Wrap64(gathered - amount), 0)
    else CoinSelection(inputs, fee, change)
  }

  /** Probing with the first k sorted coins already gathered; fee(n) is charged for n inputs. */
  function Probe(sorted: seq<Utxo>, k: nat, gathered: u64, amount: u64, fee: nat -> u64)
    : Result<CoinSelection, Error>
    requires k <= |sorted|
    decreases |sorted| - k
  {
    if k == |sorted| then Err(CannotCover)
    else
      var now := Wrap64(gathered + sorted[k].value);
      if now >= Wrap64(amount + fee(k + 1)) then Ok(Settle(sorted[..k + 1], now, amount, fee(k + 1)))
      else Probe(sorted, k + 1, now, amount, fee)
  }

  /** The fee the selector probes with: always that of a transaction with a change output. */
  function ProbeFee(rate: u64, inputVb: u64, outputVb: u64): nat -> u64
  {
    (n: nat) => WordFee(n, 2, Rate(rate), inputVb, outputVb)
  }

  /** select_coins as a function of its arguments. */
  function Selection(coins: seq<Utxo>, amount: u64, rate: u64, inputVb: u64, outputVb: u64)
    : Result<CoinSelection, Error>
  {
    if amount == 0 then Err(ZeroAmount)
    else Probe(Sort(coins), 0, 0, amount, ProbeFee(rate, inputVb, outputVb))
  }

  lemma WrapStep(x: int, y: int)
    ensures Wrap64(Wrap64(x) + y) == Wrap64(x + y)
    ensures Wrap64(y + Wrap64(x)) == Wrap64(x + y)
  {}

  lemma WrapScale(x: int, y: int)
    ensures Wrap64(Wrap64(x) * y) == Wrap64(x * y)
  {
    var q := x / TWO_64;
    assert x == TWO_64 * q + Wrap64(x);
    assert x * y == TWO_64 * (q * y) + Wrap64(x) * y;
    WrapShift(Wrap64(x) * y, q * y);
  }

  lemma WrapShift(x: int, q: int)
    ensures Wrap64(TWO_64 * q + x) == Wrap64(x)
  {}

  /** The size as the source computes it, every uint64 operation wrapping on its own. */
  function WordSize(k: nat, m: nat, inputVb: u64, outputVb: u64): u64
  {
    Wrap64(Wrap64(11 + Wrap64(inputVb * k)) + Wrap64(outputVb * m))
  }

  function WordFee(k: nat, m: nat, rate: u64, inputVb: u64, outputVb: u64): u64
  {
    Wrap64(WordSize(k, m, inputVb, outputVb) * rate)
  }

  lemma WordFeeExact(k: nat, m: nat, rate: u64, inputVb: u64, outputVb: u64)
    ensures WordFee(k, m, rate, inputVb, outputVb) == Wrap64(FeeFor(k, m, rate, inputVb, outputVb))
  {
    var inputs, outputs := inputVb * k, outputVb * m;
    WrapStep(inputs, 11);
    WrapStep(outputs, Wrap64(11 + inputs));
    WrapStep(11 + inputs, outputs);
    WrapScale(11 + inputs + outputs, rate);
  }

  /** select_coins: check, sort, gather. */
  method SelectCoins(utxos: seq<Utxo>, amount: u64, feerate: u64, inputVb: u64, outputVb: u64)
    returns (r: Result<CoinSelection, Error>)
    ensures r == Selection(utxos, amount, feerate, inputVb, outputVb)
  {
    if amount == 0 { return Err(ZeroAmount); }
    var rate := feerate;
    if rate == 0 { rate := 1; }
    r := Gather(Sort(utxos), amount, rate, inputVb, outputVb, ProbeFee(feerate, inputVb, outputVb));
  }

  /** The loop of select_coins, uint64 operation by uint64 operation. */
  method Gather(sorted: seq<Utxo>, amount: u64, rate: u64, inputVb: u64, outputVb: u64,
                ghost probeFee: nat -> u64)
    returns (r: Result<CoinSelection, Error>)
    requires forall n: nat :: probeFee(n) == WordFee(n, 2, rate, inputVb, outputVb)
    ensures r == Probe(sorted, 0, 0, amount, probeFee)
  {
    var inputs: seq<Utxo> := [];
    var gathered: u64 := 0;
    for i := 0 to |sorted|
      invariant inputs == sorted[..i]
      invariant Probe(sorted, 0, 0, amount, probeFee) == Probe(sorted, i, gathered, amount, probeFee)
    {
      inputs := inputs + [sorted[i]];
      assert inputs == sorted[..i + 1];
      gathered := Wrap64(gathered + sorted[i].value);
      var fee := WordFee(|inputs|, 2, rate, inputVb, outputVb);
      assert fee == probeFee(i + 1);
      if gathered >= Wrap64(amount + fee) {
        var change := Wrap64(Wrap64(gathered - amount) - fee);
        if change < DUST_SATS {
          return Ok(CoinSelection(inputs, Wrap64(gathered - amount), 0));
        } else {
          return Ok(CoinSelection(inputs, fee, change));
        }
      }
    }
    r := Err(CannotCover);
  }

  // --- What the selector promises ----------------------------------------------------

  /** What a transaction with n inputs and two outputs costs at the rate that was asked for; one
      satoshi a byte where none was. The promises below are about this fee. */
  ghost function AskedFee(n: nat, feerate: u64, inputVb: u64, outputVb: u64): nat
  {
    (11 + inputVb * n + outputVb * 2) * if feerate > 0 then feerate else 1
  }

  lemma AskedFeeIs(n: nat, feerate: u64, inputVb: u64, outputVb: u64)
    ensures AskedFee(n, feerate, inputVb, outputVb) == FeeFor(n, 2, Rate(feerate), inputVb, outputVb)
  {}

  /** No sum the selector forms reaches 2^64. */
  ghost predicate Fits(coins: seq<Utxo>, amount: u64, feerate: u64, inputVb: u64, outputVb: u64)
  {
    Sum(coins) < TWO_64 && amount + AskedFee(|coins|, feerate, inputVb, outputVb) < TWO_64
  }

  /** A choice of coins that pays `amount` and the fee of a two-output transaction. */
  ghost predicate Pays(pick: seq<Utxo>, coins: seq<Utxo>,
                       amount: nat, feerate: u64, inputVb: u64, outputVb: u64)
  {
    multiset(pick) <= multiset(coins)
    && Sum(pick) >= amount + AskedFee(|pick|, feerate, inputVb, outputVb)
  }

  ghost predicate ByValue(s: seq<Utxo>)
  {
    forall i, j :: 0 <= i < j < |s| ==> s[i].value >= s[j].value
  }

  lemma InOrderByValue(s: seq<Utxo>)
    requires InOrder(s)
    ensures ByValue(s)
  {
    forall i, j | 0 <= i < j < |s| ensures s[i].value >= s[j].value {
      assert !Before(s[j], s[i]);
    }
  }

  /** Exchange: no n coins are worth more than the n first in value order. */
  lemma {:induction false} PrefixIsRichest(sorted: seq<Utxo>, pick: seq<Utxo>)
    requires ByValue(sorted) && multiset(pick) <= multiset(sorted)
    ensures |pick| <= |sorted|
    ensures Sum(pick) <= Sum(sorted[..|pick|])
    decreases |sorted|
  {
    SubsetSmaller(multiset(pick), multiset(sorted));
    assert |pick| <= |sorted|;
    if pick != [] {
      var x, rest := sorted[0], sorted[1..];
      assert multiset(rest) == multiset(sorted) - multiset{x} by { assert sorted == [x] + rest; }
      if x in multiset(pick) {
        var less := RemoveOne(pick, x);
        PrefixIsRichest(rest, less);
        PrefixHead(sorted, |pick|);
      } else {
        OmitHead(multiset(pick), multiset(sorted), x);
        PrefixIsRichest(rest, pick);
        if |pick| < |sorted| { ShiftRight(sorted, |pick|); }
      }
    }
  }

  lemma PrefixHead(s: seq<Utxo>, n: nat)
    requires 0 < n <= |s|
    ensures Sum(s[..n]) == s[0].value + Sum(s[1..][..n - 1])
  {
    assert s[..n] == [s[0]] + s[1..][..n - 1];
  }

  lemma OmitHead<T>(a: multiset<T>, b: multiset<T>, x: T)
    requires a <= b && x !in a
    ensures a <= b - multiset{x}
  {}

  /** Moving a window of a value-ordered list to the front does not make it poorer. */
  lemma ShiftRight(sorted: seq<Utxo>, n: nat)
    requires ByValue(sorted) && 0 < n < |sorted|
    ensures Sum(sorted[1..][..n]) <= Sum(sorted[..n])
  {
    SumSnoc(sorted[1..], n - 1);
    PrefixHead(sorted, n);
    assert sorted[1..][n - 1] == sorted[n];
  }

  lemma SubsetSmaller<T>(a: multiset<T>, b: multiset<T>)
    requires a <= b
    ensures |a| <= |b|
  {
    assert b == a + (b - a);
  }

  lemma SumPrefix(s: seq<Utxo>, k: nat)
    requires k <= |s|
    ensures Sum(s[..k]) <= Sum(s)
  {
    assert s == s[..k] + s[k..];
    SumAppend(s[..k], s[k..]);
  }

  /** Every satoshi is accounted for: paid, charged as fee, or coming home as change that is
      worth spending; the fee overshoots the one asked for only by folded dust. */
  ghost predicate Balanced(sel: CoinSelection, amount: nat, asked: nat)
  {
    Sum(sel.inputs) == amount + sel.fee + sel.change
    && (sel.change == 0 || sel.change >= 546)
    && asked <= sel.fee <= asked + 545
    && (sel.change > 0 ==> sel.fee == asked)
  }

  /** What the probe loop found out about the prefixes it looked at. */
  ghost predicate ProbeOutcome(r: Result<CoinSelection, Error>, sorted: seq<Utxo>, k: nat,
                               amount: u64, fee: nat -> u64)
  {
    match r
    case Err(e) =>
      e == CannotCover && forall j :: k < j <= |sorted| ==> Sum(sorted[..j]) < amount + fee(j)
    case Ok(sel) =>
      var n := |sel.inputs|;
      k < n <= |sorted| && sel.inputs == sorted[..n]
      && Balanced(sel, amount, fee(n))
      && forall j :: k < j < n ==> Sum(sorted[..j]) < amount + fee(j)
  }

  lemma SettleBalances(inputs: seq<Utxo>, amount: u64, fee: u64)
    requires amount + fee <= Sum(inputs) < TWO_64
    ensures Balanced(Settle(inputs, Sum(inputs), amount, fee), amount, fee)
    ensures Settle(inputs, Sum(inputs), amount, fee).inputs == inputs
  {}

  lemma {:induction false} ProbeMeaning(sorted: seq<Utxo>, k: nat, amount: u64, fee: nat -> u64)
    requires k <= |sorted| && Sum(sorted) < TWO_64
    requires forall j :: 0 <= j <= |sorted| ==> amount + fee(j) < TWO_64
    ensures Sum(sorted[..k]) < TWO_64
    ensures ProbeOutcome(Probe(sorted, k, Sum(sorted[..k]), amount, fee), sorted, k, amount, fee)
    decreases |sorted| - k
  {
    SumPrefix(sorted, k);
    if k < |sorted| {
      SumPrefix(sorted, k + 1);
      SumSnoc(sorted, k);
      assert Wrap64(Sum(sorted[..k]) + sorted[k].value) == Sum(sorted[..k + 1]);
      assert Wrap64(amount + fee(k + 1)) == amount + fee(k + 1);
      if Sum(sorted[..k + 1]) >= amount + fee(k + 1) {
        SettleBalances(sorted[..k + 1], amount, fee(k + 1));
      } else {
        ProbeMeaning(sorted, k + 1, amount, fee);
      }
    }
  }

  /** Below the bound, the wrapping fee is the fee. */
  lemma ProbeFeeAt(j: nat, n: nat, amount: u64, rate: u64, inputVb: u64, outputVb: u64)
    requires j <= n && amount + FeeFor(n, 2, Rate(rate), inputVb, outputVb) < TWO_64
    ensures ProbeFee(rate, inputVb, outputVb)(j) == FeeFor(j, 2, Rate(rate), inputVb, outputVb)
    ensures amount + FeeFor(j, 2, Rate(rate), inputVb, outputVb) < TWO_64
  {
    FeeMonotone(j, n, Rate(rate), inputVb, outputVb);
    WordFeeExact(j, 2, Rate(rate), inputVb, outputVb);
    NoWrap(FeeFor(j, 2, Rate(rate), inputVb, outputVb));
  }

  lemma ProbeFeeExact(n: nat, amount: u64, rate: u64, inputVb: u64, outputVb: u64, fee: nat -> u64)
    requires amount + FeeFor(n, 2, Rate(rate), inputVb, outputVb) < TWO_64
    requires fee == ProbeFee(rate, inputVb, outputVb)
    ensures forall j: nat :: j <= n ==>
      fee(j) == FeeFor(j, 2, Rate(rate), inputVb, outputVb) && amount + fee(j) < TWO_64
  {
    forall j: nat | j <= n
      ensures fee(j) == FeeFor(j, 2, Rate(rate), inputVb, outputVb) && amount + fee(j) < TWO_64
    {
      ProbeFeeAt(j, n, amount, rate, inputVb, outputVb);
    }
  }

  lemma FirstProbe(coins: seq<Utxo>, amount: u64, rate: u64, inputVb: u64, outputVb: u64)
    requires amount > 0 && Fits(coins, amount, rate, inputVb, outputVb)
    ensures ProbeOutcome(Selection(coins, amount, rate, inputVb, outputVb),
                         Sort(coins), 0, amount, ProbeFee(rate, inputVb, outputVb))
    ensures |Sort(coins)| == |coins|
  {
    var sorted := Sort(coins);
    SumOfMultiset(coins, sorted);
    assert sorted[..0] == [];
    AskedFeeIs(|coins|, rate, inputVb, outputVb);
    ProbeFeeExact(|sorted|, amount, rate, inputVb, outputVb, ProbeFee(rate, inputVb, outputVb));
    ProbeMeaning(sorted, 0, amount, ProbeFee(rate, inputVb, outputVb));
  }

  lemma PrefixPicks(coins: seq<Utxo>, n: nat)
    requires n <= |Sort(coins)|
    ensures multiset(Sort(coins)[..n]) <= multiset(coins)
  {
    var sorted := Sort(coins);
    assert sorted == sorted[..n] + sorted[n..];
  }

  /** Below the bound, the fee of every probe is the one asked for. */
  lemma ProbesAsk(coins: seq<Utxo>, amount: u64, feerate: u64, inputVb: u64, outputVb: u64)
    requires Fits(coins, amount, feerate, inputVb, outputVb)
    ensures forall j: nat :: j <= |coins| ==>
      ProbeFee(feerate, inputVb, outputVb)(j) == AskedFee(j, feerate, inputVb, outputVb)
  {
    AskedFeeIs(|coins|, feerate, inputVb, outputVb);
    forall j: nat | j <= |coins|
      ensures ProbeFee(feerate, inputVb, outputVb)(j) == AskedFee(j, feerate, inputVb, outputVb)
    {
      ProbeFeeAt(j, |coins|, amount, feerate, inputVb, outputVb);
      AskedFeeIs(j, feerate, inputVb, outputVb);
    }
  }

  /** Completeness and minimality: the selector fails exactly when no choice of the coins pays,
      and otherwise returns a paying choice of the fewest coins. */
  lemma SelectionOptimal(coins: seq<Utxo>, amount: u64, feerate: u64, inputVb: u64, outputVb: u64)
    requires amount > 0 && Fits(coins, amount, feerate, inputVb, outputVb)
    ensures var r := Selection(coins, amount, feerate, inputVb, outputVb);
      && (r == Err(CannotCover)
          <==> !exists pick :: Pays(pick, coins, amount, feerate, inputVb, outputVb))
      && (r.Ok? ==>
            && Pays(r.value.inputs, coins, amount, feerate, inputVb, outputVb)
            && forall pick :: Pays(pick, coins, amount, feerate, inputVb, outputVb)
                              ==> |r.value.inputs| <= |pick|)
      && (r.Err? ==> r.error == CannotCover)
  {
    var r := Selection(coins, amount, feerate, inputVb, outputVb);
    FirstProbe(coins, amount, feerate, inputVb, outputVb);
    ProbesAsk(coins, amount, feerate, inputVb, outputVb);
    forall pick | Pays(pick, coins, amount, feerate, inputVb, outputVb)
      ensures r.Ok? && |r.value.inputs| <= |pick|
    {
      InOrderByValue(Sort(coins));
      PrefixIsRichest(Sort(coins), pick);
      assert pick != [];
    }
    if r.Ok? {
      PrefixPicks(coins, |r.value.inputs|);
      assert Pays(r.value.inputs, coins, amount, feerate, inputVb, outputVb);
    }
  }

  /** Conservation: what goes in is what is paid, charged and returned. */
  lemma SelectionConserves(coins: seq<Utxo>, amount: u64, feerate: u64, inputVb: u64, outputVb: u64)
    requires Fits(coins, amount, feerate, inputVb, outputVb)
    ensures var r := Selection(coins, amount, feerate, inputVb, outputVb);
      r.Ok? ==>
        && r.value.inputs != []
        && multiset(r.value.inputs) <= multiset(coins)
        && Balanced(r.value, amount, AskedFee(|r.value.inputs|, feerate, inputVb, outputVb))
  {
    if amount > 0 {
      FirstProbe(coins, amount, feerate, inputVb, outputVb);
      ProbesAsk(coins, amount, feerate, inputVb, outputVb);
      var r := Selection(coins, amount, feerate, inputVb, outputVb);
      if r.Ok? { PrefixPicks(coins, |r.value.inputs|); }
    }
  }

  lemma AskedFeeGrows(n: nat, feerate: u64, higher: u64, inputVb: u64, outputVb: u64)
    requires feerate <= higher
    ensures AskedFee(n, feerate, inputVb, outputVb) <= AskedFee(n, higher, inputVb, outputVb)
  {
    MulMonotone(if feerate > 0 then feerate else 1, if higher > 0 then higher else 1,
                11 + inputVb * n + outputVb * 2);
  }

  /** A higher rate never needs fewer coins; and where it needs as many, they are the same coins, and
      it never charges less and never returns more. */
  lemma HigherRateNeverCheaper(coins: seq<Utxo>, amount: u64, feerate: u64, higher: u64, inputVb: u64, outputVb: u64)
    requires feerate <= higher && Fits(coins, amount, higher, inputVb, outputVb)
    requires Selection(coins, amount, higher, inputVb, outputVb).Ok?
    ensures var r, q := Selection(coins, amount, feerate, inputVb, outputVb),
                        Selection(coins, amount, higher, inputVb, outputVb).value;
      && r.Ok? && |r.value.inputs| <= |q.inputs|
      && (|r.value.inputs| == |q.inputs| ==>
            r.value.inputs == q.inputs && r.value.fee <= q.fee && r.value.change >= q.change)
  {
    var q := Selection(coins, amount, higher, inputVb, outputVb).value;
    AskedFeeGrows(|coins|, feerate, higher, inputVb, outputVb);
    AskedFeeGrows(|q.inputs|, feerate, higher, inputVb, outputVb);
    SelectionOptimal(coins, amount, higher, inputVb, outputVb);
    SelectionOptimal(coins, amount, feerate, inputVb, outputVb);
    assert Pays(q.inputs, coins, amount, feerate, inputVb, outputVb);
    SelectionConserves(coins, amount, higher, inputVb, outputVb);
    SelectionConserves(coins, amount, feerate, inputVb, outputVb);
    FirstProbe(coins, amount, higher, inputVb, outputVb);
    FirstProbe(coins, amount, feerate, inputVb, outputVb);
  }

  // --- The order of the inputs -------------------------------------------------------

  /** The text a comes before b: it ends where they first differ, or has the smaller byte there. */
  ghost predicate DiffersBelow(a: seq<byte>, b: seq<byte>)
  {
    exists k :: 0 <= k <= |a| && k < |b| && a[..k] == b[..k] && (k == |a| || a[k] < b[k])
  }

  lemma {:induction false} TextLessExact(a: seq<byte>, b: seq<byte>)
    ensures TextLess(a, b) ==> DiffersBelow(a, b)
  {
    if TextLess(a, b) {
      if a == [] || a[0] < b[0] {
        assert a[..0] == b[..0];
      } else {
        TextLessExact(a[1..], b[1..]);
        var k :| 0 <= k <= |a[1..]| && k < |b[1..]| && a[1..][..k] == b[1..][..k]
                 && (k == |a[1..]| || a[1..][k] < b[1..][k]);
        assert a[..k + 1] == [a[0]] + a[1..][..k] && b[..k + 1] == [b[0]] + b[1..][..k];
      }
    }
  }

  /** The inputs come in one order: falling in value, among equal values rising in txid, among equal
      txids rising in output number. */
  lemma InputsInOrder(coins: seq<Utxo>, amount: u64, feerate: u64, inputVb: u64, outputVb: u64, i: nat, j: nat)
    requires Fits(coins, amount, feerate, inputVb, outputVb)
    requires Selection(coins, amount, feerate, inputVb, outputVb).Ok?
    requires i < j < |Selection(coins, amount, feerate, inputVb, outputVb).value.inputs|
    ensures var inputs := Selection(coins, amount, feerate, inputVb, outputVb).value.inputs;
      var a, b := inputs[i], inputs[j];
      || a.value > b.value
      || (a.value == b.value && DiffersBelow(a.txid, b.txid))
      || (a.value == b.value && a.txid == b.txid && a.vout <= b.vout)
  {
    FirstProbe(coins, amount, feerate, inputVb, outputVb);
    var a, b := Sort(coins)[i], Sort(coins)[j];
    BeforeTotal(a, b);
    TextLessExact(a.txid, b.txid);
  }

  /** The order in which the server lists the coins does not matter. */
  lemma SelectionIgnoresOrder(a: seq<Utxo>, b: seq<Utxo>,
                              amount: u64, rate: u64, inputVb: u64, outputVb: u64)
    requires multiset(a) == multiset(b)
    ensures Selection(a, amount, rate, inputVb, outputVb)
         == Selection(b, amount, rate, inputVb, outputVb)
  {
    SortedUnique(Sort(a), Sort(b));
  }

  /** p2wpkh_vsize */
  function P2wpkhVsize(inputs: nat, outputs: nat): nat { 11 + 68 * inputs + 31 * outputs }

  lemma SizeScales(n: nat, feerate: u64)
    requires feerate > 0
    ensures AskedFee(n, feerate, 68, 31) == P2wpkhVsize(n, 2) * feerate > P2wpkhVsize(n, 1) * feerate
  {
    var size := P2wpkhVsize(n, 1);
    assert P2wpkhVsize(n, 2) == size + 31;
    assert (size + 31) * feerate == size * feerate + 31 * feerate;
  }

  /** At the default weights, a selection with change pays for exactly the size of its transaction,
      and one without change for more than that. */
  lemma DefaultFeeIsForTheSize(coins: seq<Utxo>, amount: u64, feerate: u64)
    requires feerate > 0
    requires Fits(coins, amount, feerate, 68, 31) && Selection(coins, amount, feerate, 68, 31).Ok?
    ensures var sel := Selection(coins, amount, feerate, 68, 31).value;
      && (sel.change > 0 ==> sel.fee == P2wpkhVsize(|sel.inputs|, 2) * feerate)
      && sel.fee > P2wpkhVsize(|sel.inputs|, 1) * feerate
  {
    SelectionConserves(coins, amount, feerate, 68, 31);
    SizeScales(|Selection(coins, amount, feerate, 68, 31).value.inputs|, feerate);
  }

  /** Asking for no rate is asking for one satoshi a byte. */
  lemma ZeroRateIsOne(coins: seq<Utxo>, amount: u64, inputVb: u64, outputVb: u64)
    ensures Selection(coins, amount, 0, inputVb, outputVb) == Selection(coins, amount, 1, inputVb, outputVb)
    ensures Sweep(coins, 0, inputVb, outputVb) == Sweep(coins, 1, inputVb, outputVb)
  {
    if amount > 0 {
      var zero, one := ProbeFee(0, inputVb, outputVb), ProbeFee(1, inputVb, outputVb);
      assert forall n :: zero(n) == one(n);
      SameProbes(Sort(coins), 0, 0, amount, zero, one);
    }
  }

  lemma {:induction false} SameProbes(sorted: seq<Utxo>, k: nat, gathered: u64, amount: u64,
                                      f: nat -> u64, g: nat -> u64)
    requires k <= |sorted| && forall n :: f(n) == g(n)
    ensures Probe(sorted, k, gathered, amount, f) == Probe(sorted, k, gathered, amount, g)
    decreases |sorted| - k
  {
    if k < |sorted| { SameProbes(sorted, k + 1, Wrap64(gathered + sorted[k].value), amount, f, g); }
  }

  /** Completeness is for the two-output fee only: here one coin covers the amount and the
      fee of a transaction without change, and the selector still refuses. */
  lemma OneOutputFeeIsNotEnough()
    ensures var coin := Utxo([1], 0, 10_000);
      && Sum([coin]) >= 9_880 + FeeFor(1, 1, 1, 68, 31)
      && Selection([coin], 9_880, 1, 68, 31) == Err(CannotCover)
  {
    var coin := Utxo([1], 0, 10_000);
    assert Sort([coin]) == [coin] by { SortedUnique(Sort([coin]), [coin]); }
    assert Sum([coin]) == 10_000 + Sum([]);
  }

  // --- Sweeping ----------------------------------------------------------------------

  /** sweep_coins as a function of its arguments: every coin in, one output. */
  function Sweep(utxos: seq<Utxo>, feerate: u64, inputVb: u64, outputVb: u64): Result<CoinSelection, Error>
  {
    var fee := WordFee(|utxos|, 1, Rate(feerate), inputVb, outputVb);
    if utxos == [] then Err(NothingToSweep)
    else if Wrap64(Sum(utxos)) <= Wrap64(fee + DUST_SATS) then Err(FeeEatsSweep)
    else Ok(CoinSelection(utxos, fee, 0))
  }

  method SweepCoins(utxos: seq<Utxo>, feerate: u64, inputVb: u64, outputVb: u64)
    returns (r: Result<CoinSelection, Error>)
    ensures r == Sweep(utxos, feerate, inputVb, outputVb)
  {
    if utxos == [] { return Err(NothingToSweep); }
    var rate := feerate;
    if rate == 0 { rate := 1; }
    var total := Total(utxos);
    var fee := WordFee(|utxos|, 1, rate, inputVb, outputVb);
    if total <= Wrap64(fee + DUST_SATS) { return Err(FeeEatsSweep); }
    r := Ok(CoinSelection(utxos, fee, 0));
  }

  method Total(utxos: seq<Utxo>) returns (total: u64)
    ensures total == Wrap64(Sum(utxos))
  {
    total := 0;
    for i := 0 to |utxos|
      invariant total == Wrap64(Sum(utxos[..i]))
    {
      SumSnoc(utxos, i);
      WrapStep(Sum(utxos[..i]), utxos[i].value);
      total := Wrap64(total + utxos[i].value);
    }
    assert utxos[..|utxos|] == utxos;
  }

  /** What a transaction with n inputs and one output costs at the rate that was asked for. */
  ghost function AskedSweepFee(n: nat, feerate: u64, inputVb: u64, outputVb: u64): nat
  {
    (11 + inputVb * n + outputVb) * if feerate > 0 then feerate else 1
  }

  /** Below the bound a sweep of some coins goes through exactly when the one-output fee leaves the
      recipient more than 546 satoshi, and then keeps every coin and charges exactly that fee. */
  lemma SweepLeavesMoreThanDust(utxos: seq<Utxo>, feerate: u64, inputVb: u64, outputVb: u64)
    requires Sum(utxos) < TWO_64 && AskedSweepFee(|utxos|, feerate, inputVb, outputVb) + 546 < TWO_64
    ensures var r, fee := Sweep(utxos, feerate, inputVb, outputVb),
                          AskedSweepFee(|utxos|, feerate, inputVb, outputVb);
      && (r.Ok? <==> utxos != [] && Sum(utxos) - fee > 546)
      && (r.Ok? ==> r.value == CoinSelection(utxos, fee, 0))
  {
    var fee := AskedSweepFee(|utxos|, feerate, inputVb, outputVb);
    assert fee == FeeFor(|utxos|, 1, Rate(feerate), inputVb, outputVb);
    WordFeeExact(|utxos|, 1, Rate(feerate), inputVb, outputVb);
    NoWrap(Sum(utxos));
    NoWrap(fee);
    NoWrap(fee + 546);
  }

  lemma NoWrap(x: nat)
    requires x < TWO_64
    ensures Wrap64(x) == x
  {}
}
