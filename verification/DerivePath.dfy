/** The derivation presets of keyd/signer.hpp and the paths derive_path gives them. */
module DerivePath {
  import opened Bytes
  import opened Text

  datatype Preset = MetaMask | LedgerLive | LegacyMew
                  | BtcLegacy | BtcNestedSegwit | BtcSegwit | BtcTaproot | SolPhantom
  datatype Family = Eth | Btc | Sol

  const PRESET_COUNT: int := 8

  function PresetByte(p: Preset): (b: byte)
    ensures b < PRESET_COUNT
  {
    match p
    case MetaMask => 0 case LedgerLive => 1 case LegacyMew => 2 case BtcLegacy => 3
    case BtcNestedSegwit => 4 case BtcSegwit => 5 case BtcTaproot => 6 case SolPhantom => 7
  }

  function PresetOf(b: byte): (p: Preset)
    requires b < PRESET_COUNT
    ensures PresetByte(p) == b
  {
    match b
    case 0 => MetaMask case 1 => LedgerLive case 2 => LegacyMew case 3 => BtcLegacy
    case 4 => BtcNestedSegwit case 5 => BtcSegwit case 6 => BtcTaproot case _ => SolPhantom
  }

  /** The presets in the order of their bytes. */
  lemma PresetsInOrder(p: Preset)
    ensures [MetaMask, LedgerLive, LegacyMew, BtcLegacy, BtcNestedSegwit, BtcSegwit, BtcTaproot, SolPhantom][PresetByte(p)]
         == p
  {}

  function PresetFamily(p: Preset): Family
  {
    match p
    case MetaMask | LedgerLive | LegacyMew => Eth
    case BtcLegacy | BtcNestedSegwit | BtcSegwit | BtcTaproot => Btc
    case SolPhantom => Sol
  }

  function PathOf(p: Preset, account: u32): string
  {
    var i := Decimal(account);
    match p
    case MetaMask => "m/44'/60'/0'/0/" + i
    case LedgerLive => "m/44'/60'/" + i + "'/0/0"
    case LegacyMew => "m/44'/60'/0'/" + i
    case BtcLegacy => "m/44'/0'/0'/0/" + i
    case BtcNestedSegwit => "m/49'/0'/0'/0/" + i
    case BtcSegwit => "m/84'/0'/0'/0/" + i
    case BtcTaproot => "m/86'/0'/0'/0/" + i
    case SolPhantom => "m/44'/501'/" + i + "'/0'"
  }

  // --- Paths as lists of segments ----------------------------------------------------

  function Segments(p: Preset, account: u32): seq<string>
  {
    var i := Decimal(account);
    match p
    case MetaMask => ["m", "44'", "60'", "0'", "0", i]
    case LedgerLive => ["m", "44'", "60'", i + "'", "0", "0"]
    case LegacyMew => ["m", "44'", "60'", "0'", i]
    case BtcLegacy => ["m", "44'", "0'", "0'", "0", i]
    case BtcNestedSegwit => ["m", "49'", "0'", "0'", "0", i]
    case BtcSegwit => ["m", "84'", "0'", "0'", "0", i]
    case BtcTaproot => ["m", "86'", "0'", "0'", "0", i]
    case SolPhantom => ["m", "44'", "501'", i + "'", "0'"]
  }

  function Join(segments: seq<string>): string
    requires segments != []
  {
    if |segments| == 1 then segments[0]
    else segments[0] + ("/" + Join(segments[1..]))
  }

  predicate NoSlash(s: string) { '/' !in s }

  lemma {:induction false} JoinInjective(a: seq<string>, b: seq<string>)
    requires a != [] && b != [] && Join(a) == Join(b)
    requires forall s :: s in a ==> NoSlash(s)
    requires forall s :: s in b ==> NoSlash(s)
    ensures a == b
  {
    assert NoSlash(a[0]) && NoSlash(b[0]);
    if |a| > 1 && |b| > 1 {
      FirstSlash(a[0], Join(a[1..]), b[0], Join(b[1..]));
      JoinInjective(a[1..], b[1..]);
      assert a == [a[0]] + a[1..] && b == [b[0]] + b[1..];
    }
  }

  lemma FirstSlash(x: string, restX: string, y: string, restY: string)
    requires NoSlash(x) && NoSlash(y)
    requires x + ("/" + restX) == y + ("/" + restY)
    ensures x == y && restX == restY
  {
    var s := x + ("/" + restX);
    assert s[|x|] == '/' && s[|y|] == '/';
    assert x == s[..|x|] && y == s[..|y|];
    assert restX == s[|x| + 1..] && restY == s[|y| + 1..];
  }

  // --- The paths of the presets are what their segments say --------------------------

  lemma Join5(a: string, b: string, c: string, d: string, e: string)
    ensures Join([a, b, c, d, e]) == a + ("/" + (b + ("/" + (c + ("/" + (d + ("/" + e)))))))
  {
    assert [a, b, c, d, e][1..] == [b, c, d, e];
    assert [b, c, d, e][1..] == [c, d, e];
    assert [c, d, e][1..] == [d, e];
    assert [d, e][1..] == [e];
    assert Join([d, e]) == d + ("/" + e);
    assert Join([c, d, e]) == c + ("/" + Join([d, e]));
    assert Join([b, c, d, e]) == b + ("/" + Join([c, d, e]));
  }

  lemma Join6(a: string, b: string, c: string, d: string, e: string, f: string)
    ensures Join([a, b, c, d, e, f])
         == a + ("/" + (b + ("/" + (c + ("/" + (d + ("/" + (e + ("/" + f)))))))))
  {
    assert [a, b, c, d, e, f][1..] == [b, c, d, e, f];
    Join5(b, c, d, e, f);
  }

  /** A literal prefix of five segments, and what follows it. */
  lemma Prefix5(prefix: string, a: string, b: string, c: string, d: string, e: string, i: string)
    requires prefix == a + "/" + b + "/" + c + "/" + d + "/" + e + "/"
    ensures prefix + i == Join([a, b, c, d, e, i])
  {
    Join6(a, b, c, d, e, i);
    assert prefix + i
      == a + ("/" + (b + ("/" + (c + ("/" + (d + ("/" + (e + ("/" + i)))))))));
  }

  lemma PathJoinsSegments(p: Preset, account: u32)
    ensures PathOf(p, account) == Join(Segments(p, account))
  {
    var i := Decimal(account);
    match p
    case MetaMask => Prefix5("m/44'/60'/0'/0/", "m", "44'", "60'", "0'", "0", i);
    case LedgerLive => LedgerPath(i);
    case LegacyMew => MewPath(i);
    case BtcLegacy => Prefix5("m/44'/0'/0'/0/", "m", "44'", "0'", "0'", "0", i);
    case BtcNestedSegwit => Prefix5("m/49'/0'/0'/0/", "m", "49'", "0'", "0'", "0", i);
    case BtcSegwit => Prefix5("m/84'/0'/0'/0/", "m", "84'", "0'", "0'", "0", i);
    case BtcTaproot => Prefix5("m/86'/0'/0'/0/", "m", "86'", "0'", "0'", "0", i);
    case SolPhantom => SolPath(i);
  }

  lemma LedgerPath(i: string)
    ensures "m/44'/60'/" + i + "'/0/0" == Join(["m", "44'", "60'", i + "'", "0", "0"])
  {
    Join6("m", "44'", "60'", i + "'", "0", "0");
    Hardened("m/44'/60'/", "m", "44'", "60'", i, "'/0/0", "0" + ("/" + "0"));
  }

  lemma MewPath(i: string)
    ensures "m/44'/60'/0'/" + i == Join(["m", "44'", "60'", "0'", i])
  {
    Join5("m", "44'", "60'", "0'", i);
    assert "m/44'/60'/0'/" == "m" + "/" + "44'" + "/" + "60'" + "/" + "0'" + "/";
  }

  lemma SolPath(i: string)
    ensures "m/44'/501'/" + i + "'/0'" == Join(["m", "44'", "501'", i + "'", "0'"])
  {
    Join5("m", "44'", "501'", i + "'", "0'");
    Hardened("m/44'/501'/", "m", "44'", "501'", i, "'/0'", "0'");
  }

  /** A hardened account segment in the middle of a path. */
  lemma Hardened(prefix: string, a: string, b: string, c: string, i: string, suffix: string, d: string)
    requires prefix == a + "/" + b + "/" + c + "/" && suffix == "'" + ("/" + d)
    ensures prefix + i + suffix == a + ("/" + (b + ("/" + (c + ("/" + ((i + "'") + ("/" + d)))))))
  {}

  lemma SegmentsHaveNoSlash(p: Preset, account: u32)
    ensures forall s :: s in Segments(p, account) ==> NoSlash(s)
  {
    var i := Decimal(account);
    assert NoSlash(i) by { assert forall c :: c in i ==> IsDigit(c); }
    assert NoSlash(i + "'");
  }

  /** Two identities share a path exactly when they are the same identity, or are the two
      account-0 identities of MetaMask and Ledger Live. */
  predicate SameIdentity(p: Preset, a: u32, q: Preset, b: u32)
  {
    (p == q && a == b)
    || (a == b == 0 && {p, q} == {MetaMask, LedgerLive})
  }

  lemma PathsCollideOnlyAtZero(p: Preset, a: u32, q: Preset, b: u32)
    ensures PathOf(p, a) == PathOf(q, b) <==> SameIdentity(p, a, q, b)
  {
    PathJoinsSegments(p, a);
    PathJoinsSegments(q, b);
    if PathOf(p, a) == PathOf(q, b) {
      SegmentsHaveNoSlash(p, a);
      SegmentsHaveNoSlash(q, b);
      JoinInjective(Segments(p, a), Segments(q, b));
      SegmentsCollideOnlyAtZero(p, a, q, b);
    }
  }

  lemma SegmentsCollideOnlyAtZero(p: Preset, a: u32, q: Preset, b: u32)
    requires Segments(p, a) == Segments(q, b)
    ensures SameIdentity(p, a, q, b)
  {
    var s, t := Segments(p, a), Segments(q, b);
    assert |s| == |t| && s[1] == t[1] && s[2] == t[2] && s[3] == t[3] && s[4] == t[4];
    assert s[|s| - 1] == t[|t| - 1];
    var i, j := Decimal(a), Decimal(b);
    assert (i + "'")[..|i|] == i && (j + "'")[..|j|] == j;
    if i == j { DecimalInjective(a, b); }
    assert Decimal(0) == "0";
    if i == "0" { DecimalInjective(a, 0); }
    if j == "0" { DecimalInjective(b, 0); }
  }

  // --- What the paths say ------------------------------------------------------------

  /** One step of a path: a child number, hardened or not. */
  datatype Step = Hard(n: nat) | Soft(n: nat)

  function ReadStep(s: string): Option<Step>
  {
    if s == [] then None
    else if s[|s| - 1] == '\'' then
      if |s| > 1 && forall c :: c in s[..|s| - 1] ==> IsDigit(c) then Some(Hard(DecimalValue(s[..|s| - 1]))) else None
    else if forall c :: c in s ==> IsDigit(c) then Some(Soft(DecimalValue(s))) else None
  }

  /** The path is the master key followed by these steps. */
  ghost predicate Says(path: string, steps: seq<Step>)
  {
    exists segments: seq<string> ::
      && |segments| == |steps| + 1 && path == Join(segments) && segments[0] == "m"
      && (forall s :: s in segments ==> NoSlash(s))
      && forall i :: 0 <= i < |steps| ==> ReadStep(segments[i + 1]) == Some(steps[i])
  }

  /** A path says one thing. */
  lemma SaysOnce(path: string, a: seq<Step>, b: seq<Step>)
    requires Says(path, a) && Says(path, b)
    ensures a == b
  {
    var x: seq<string> :| |x| == |a| + 1 && path == Join(x) && x[0] == "m" && (forall s :: s in x ==> NoSlash(s))
      && forall i :: 0 <= i < |a| ==> ReadStep(x[i + 1]) == Some(a[i]);
    var y: seq<string> :| |y| == |b| + 1 && path == Join(y) && y[0] == "m" && (forall s :: s in y ==> NoSlash(s))
      && forall i :: 0 <= i < |b| ==> ReadStep(y[i + 1]) == Some(b[i]);
    JoinInjective(x, y);
    forall i | 0 <= i < |a| ensures a[i] == b[i] {
      assert ReadStep(x[i + 1]) == ReadStep(y[i + 1]);
    }
  }

  /** BIP-44, 49, 84 and 86 by the kind of address. */
  function Purpose(p: Preset): nat
  {
    if p == BtcNestedSegwit then 49 else if p == BtcSegwit then 84 else if p == BtcTaproot then 86 else 44
  }

  /** The registered coin types of SLIP-44. */
  function CoinType(f: Family): nat { if f == Btc then 0 else if f == Eth then 60 else 501 }

  /** Purpose and coin type, and the account: the hardened third number for Ledger Live and Phantom, the
      last one otherwise; all else is zero. */
  function Meaning(p: Preset, account: u32): seq<Step>
  {
    var head := [Hard(Purpose(p)), Hard(CoinType(PresetFamily(p)))];
    if p == LedgerLive then head + [Hard(account), Soft(0), Soft(0)]
    else if p == SolPhantom then head + [Hard(account), Hard(0)]
    else if p == LegacyMew then head + [Hard(0), Soft(account)]
    else head + [Hard(0), Soft(0), Soft(account)]
  }

  lemma ReadsSoft(n: nat)
    ensures ReadStep(Decimal(n)) == Some(Soft(n))
  {
    DecimalReadsBack(n);
    var s := Decimal(n);
    assert IsDigit(s[|s| - 1]);
  }

  lemma ReadsHard(n: nat)
    ensures ReadStep(Decimal(n) + "'") == Some(Hard(n))
  {
    DecimalReadsBack(n);
    var s := Decimal(n) + "'";
    assert s[..|s| - 1] == Decimal(n) && s[|s| - 1] == '\'';
  }

  lemma TwoDigits(n: nat)
    requires 10 <= n < 100
    ensures Decimal(n) == [Digit(n / 10), Digit(n % 10)]
  {
    assert Decimal(n / 10) == [Digit(n / 10)];
  }

  lemma Numerals()
    ensures Decimal(0) == "0" && Decimal(44) == "44" && Decimal(49) == "49" && Decimal(84) == "84"
    ensures Decimal(86) == "86" && Decimal(60) == "60" && Decimal(501) == "501"
  {
    TwoDigits(44);
    TwoDigits(49);
    TwoDigits(84);
    TwoDigits(86);
    TwoDigits(60);
    TwoDigits(50);
    assert Decimal(501) == Decimal(50) + [Digit(1)];
  }

  /** A literal hardened step. */
  lemma HardLiteral(n: nat, digits: string, step: string)
    requires Decimal(n) == digits && step == digits + "'"
    ensures ReadStep(step) == Some(Hard(n))
  {
    ReadsHard(n);
  }

  lemma PurposeSteps()
    ensures ReadStep("44'") == Some(Hard(44)) && ReadStep("49'") == Some(Hard(49))
    ensures ReadStep("84'") == Some(Hard(84)) && ReadStep("86'") == Some(Hard(86))
  {
    Numerals();
    HardLiteral(44, "44", "44'");
    HardLiteral(49, "49", "49'");
    HardLiteral(84, "84", "84'");
    HardLiteral(86, "86", "86'");
  }

  lemma CoinSteps()
    ensures ReadStep("60'") == Some(Hard(60)) && ReadStep("501'") == Some(Hard(501))
    ensures ReadStep("0") == Some(Soft(0)) && ReadStep("0'") == Some(Hard(0))
  {
    Numerals();
    HardLiteral(60, "60", "60'");
    HardLiteral(501, "501", "501'");
    HardLiteral(0, "0", "0'");
    ReadsSoft(0);
  }

  /** Read as BIP-32 child numbers, the path of an identity is its purpose, its coin type and its account,
      in their places; and nothing else. */
  lemma PathSaysItsMeaning(p: Preset, account: u32, steps: seq<Step>)
    ensures Says(PathOf(p, account), steps) <==> steps == Meaning(p, account)
  {
    var segments, meaning := Segments(p, account), Meaning(p, account);
    PathJoinsSegments(p, account);
    SegmentsHaveNoSlash(p, account);
    SegmentsMean(p, account);
    assert Says(PathOf(p, account), meaning);
    if Says(PathOf(p, account), steps) { SaysOnce(PathOf(p, account), steps, meaning); }
  }

  lemma SegmentsMean(p: Preset, account: u32)
    ensures SegmentsSay(Segments(p, account), Meaning(p, account))
  {
    PurposeSteps();
    CoinSteps();
    ReadsSoft(account);
    ReadsHard(account);
    if PresetFamily(p) == Btc { BitcoinMeans(p, account); } else { OthersMean(p, account); }
  }

  lemma BitcoinMeans(p: Preset, account: u32)
    requires PresetFamily(p) == Btc && ReadStep(Decimal(account)) == Some(Soft(account))
    requires ReadStep("44'") == Some(Hard(44)) && ReadStep("49'") == Some(Hard(49))
    requires ReadStep("84'") == Some(Hard(84)) && ReadStep("86'") == Some(Hard(86))
    requires ReadStep("0") == Some(Soft(0)) && ReadStep("0'") == Some(Hard(0))
    ensures SegmentsSay(Segments(p, account), Meaning(p, account))
  {
    var i, zero := Decimal(account), Hard(0);
    match p
    case BtcLegacy => Five("44'", "0'", "0'", "0", i, Hard(44), zero, zero, Soft(0), Soft(account));
    case BtcNestedSegwit => Five("49'", "0'", "0'", "0", i, Hard(49), zero, zero, Soft(0), Soft(account));
    case BtcSegwit => Five("84'", "0'", "0'", "0", i, Hard(84), zero, zero, Soft(0), Soft(account));
    case BtcTaproot => Five("86'", "0'", "0'", "0", i, Hard(86), zero, zero, Soft(0), Soft(account));
  }

  lemma OthersMean(p: Preset, account: u32)
    requires PresetFamily(p) != Btc && ReadStep(Decimal(account)) == Some(Soft(account))
    requires ReadStep(Decimal(account) + "'") == Some(Hard(account)) && ReadStep("44'") == Some(Hard(44))
    requires ReadStep("60'") == Some(Hard(60)) && ReadStep("501'") == Some(Hard(501))
    requires ReadStep("0") == Some(Soft(0)) && ReadStep("0'") == Some(Hard(0))
    ensures SegmentsSay(Segments(p, account), Meaning(p, account))
  {
    var i := Decimal(account);
    match p
    case MetaMask => Five("44'", "60'", "0'", "0", i, Hard(44), Hard(60), Hard(0), Soft(0), Soft(account));
    case LedgerLive => Five("44'", "60'", i + "'", "0", "0", Hard(44), Hard(60), Hard(account), Soft(0), Soft(0));
    case LegacyMew => Four("44'", "60'", "0'", i, Hard(44), Hard(60), Hard(0), Soft(account));
    case SolPhantom => Four("44'", "501'", i + "'", "0'", Hard(44), Hard(501), Hard(account), Hard(0));
  }

  predicate SegmentsSay(segments: seq<string>, steps: seq<Step>)
  {
    |segments| == |steps| + 1 && segments[0] == "m"
    && forall i :: 0 <= i < |steps| ==> ReadStep(segments[i + 1]) == Some(steps[i])
  }

  lemma Four(a: string, b: string, c: string, d: string, s: Step, t: Step, u: Step, v: Step)
    requires ReadStep(a) == Some(s) && ReadStep(b) == Some(t) && ReadStep(c) == Some(u) && ReadStep(d) == Some(v)
    ensures SegmentsSay(["m", a, b, c, d], [s, t] + [u, v])
  {}

  lemma Five(a: string, b: string, c: string, d: string, e: string, s: Step, t: Step, u: Step, v: Step, w: Step)
    requires ReadStep(a) == Some(s) && ReadStep(b) == Some(t) && ReadStep(c) == Some(u)
    requires ReadStep(d) == Some(v) && ReadStep(e) == Some(w)
    ensures SegmentsSay(["m", a, b, c, d, e], [s, t] + [u, v, w])
  {}
}
