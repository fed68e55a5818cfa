/** The DER form sign_btc_payload gives an ECDSA signature (keyd/signer.cpp), against the strict
    reader of section "DER encoding reference" of BIP-66 (without the trailing sighash byte). */
module Der {
  import opened Bytes

  // --- Numbers -----------------------------------------------------------------------

  /** The number a big-endian byte string denotes. */
  function BigEndian(b: seq<byte>): nat
  {
    if b == [] then 0 else b[0] * Pow256(|b| - 1) + BigEndian(b[1..])
  }

  lemma {:induction false} BigEndianBound(b: seq<byte>)
    ensures BigEndian(b) < Pow256(|b|)
  {
    if b != [] {
      BigEndianBound(b[1..]);
      LeadingTerm(b[0], Pow256(|b| - 1));
    }
  }

  lemma LeadingTerm(x: byte, p: nat)
    ensures x * p + p <= 256 * p
  {}

  lemma {:induction false} BigEndianInjective(a: seq<byte>, b: seq<byte>)
    requires |a| == |b| && BigEndian(a) == BigEndian(b)
    ensures a == b
  {
    if a != [] {
      var p := Pow256(|a| - 1);
      BigEndianBound(a[1..]);
      BigEndianBound(b[1..]);
      SameLead(a[0], BigEndian(a[1..]), b[0], BigEndian(b[1..]), p);
      BigEndianInjective(a[1..], b[1..]);
      assert a == [a[0]] + a[1..] && b == [b[0]] + b[1..];
    }
  }

  lemma SameLead(x: nat, r: nat, y: nat, s: nat, p: nat)
    requires r < p && s < p && x * p + r == y * p + s
    ensures x == y && r == s
  {
    if x < y { ScaleGap(x, y, p); } else if y < x { ScaleGap(y, x, p); }
  }

  lemma ScaleGap(x: nat, y: nat, p: nat)
    requires x < y
    ensures x * p + p <= y * p
  {
    assert y * p == x * p + (y - x) * p;
    ScaleAtLeast(y - x, p);
  }

  // --- Writing: push_int -------------------------------------------------------------

  /** Leading zero bytes go, but never the last byte. */
  function Strip(v: seq<byte>): (r: seq<byte>)
    requires v != []
    ensures r != [] && |r| <= |v|
  {
    if |v| > 1 && v[0] == 0 then Strip(v[1..]) else v
  }

  /** The content bytes of an INTEGER: minimal, with a zero byte before a set sign bit. */
  function Content(v: seq<byte>): (r: seq<byte>)
    requires v != []
    ensures r != [] && |r| <= |v| + 1
  {
    var s := Strip(v);
    if s[0] >= 0x80 then [0] + s else s
  }

  /** push_int: tag, length, content. */
  function IntBytes(v: seq<byte>): seq<byte>
    requires 0 < |v| <= 32
  {
    [0x02, |Content(v)|] + Content(v)
  }

  method PushInt(d: seq<byte>, v: seq<byte>) returns (r: seq<byte>)
    requires |v| == 32
    ensures r == d + IntBytes(v)
  {
    var at := 0;
    while at < 31 && v[at] == 0
      invariant 0 <= at <= 31
      invariant Strip(v) == Strip(v[at..])
    {
      at := at + 1;
    }
    assert Strip(v[at..]) == v[at..];
    var pad := v[at] >= 0x80;
    r := d + [0x02];
    r := r + [32 - at + if pad then 1 else 0];
    if pad { r := r + [0x00]; }
    r := r + v[at..];
  }

  /** The witness bytes of a signature. */
  function EncodeDer(r: seq<byte>, s: seq<byte>): seq<byte>
    requires |r| == |s| == 32
  {
    var body := IntBytes(r) + IntBytes(s);
    [0x30, |body|] + body
  }

  // --- Reading: the strict rules -----------------------------------------------------

  /** An INTEGER content is non-empty, non-negative and as short as possible. */
  predicate Minimal(c: seq<byte>)
  {
    c != [] && c[0] < 0x80 && (|c| > 1 && c[0] == 0 ==> c[1] >= 0x80)
  }

  /** The two integers of a strictly encoded signature. */
  function ParseDer(d: seq<byte>): Option<(nat, nat)>
  {
    if !(8 <= |d| <= 72) || d[0] != 0x30 || d[1] != |d| - 2 || d[2] != 0x02 then None
    else
      var lenR := d[3];
      if 5 + lenR >= |d| || d[4 + lenR] != 0x02 then None
      else
        var lenS := d[5 + lenR];
        if 6 + lenR + lenS != |d| then None
        else
          var r, s := d[4..4 + lenR], d[6 + lenR..];
          if Minimal(r) && Minimal(s) then Some((BigEndian(r), BigEndian(s))) else None
  }

  // --- Each undoes the other ---------------------------------------------------------

  lemma {:induction false} StripKeepsValue(v: seq<byte>)
    requires v != []
    ensures BigEndian(Strip(v)) == BigEndian(v)
    ensures |Strip(v)| > 1 ==> Strip(v)[0] != 0
  {
    if |v| > 1 && v[0] == 0 { StripKeepsValue(v[1..]); }
  }

  lemma ContentIsMinimal(v: seq<byte>)
    requires v != []
    ensures Minimal(Content(v)) && BigEndian(Content(v)) == BigEndian(v)
  {
    StripKeepsValue(v);
    assert ([0] + Strip(v))[1..] == Strip(v);
  }

  /** A number without leading zeros needs all its bytes. */
  lemma LeadingByteCounts(c: seq<byte>)
    requires c != [] && c[0] != 0
    ensures BigEndian(c) >= Pow256(|c| - 1)
  {
    ScaleAtLeast(c[0], Pow256(|c| - 1));
  }

  lemma SignificantLength(a: seq<byte>, b: seq<byte>)
    requires a != [] && b != [] && (|a| > 1 ==> a[0] != 0) && (|b| > 1 ==> b[0] != 0)
    requires BigEndian(a) == BigEndian(b)
    ensures a == b
  {
    BigEndianBound(a);
    BigEndianBound(b);
    if |a| < |b| {
      LeadingByteCounts(b);
      PowMonotone(|a|, |b| - 1);
    } else if |b| < |a| {
      LeadingByteCounts(a);
      PowMonotone(|b|, |a| - 1);
    }
    assert |a| == |b|;
    BigEndianInjective(a, b);
  }

  /** A number has one minimal content. */
  lemma MinimalUnique(a: seq<byte>, b: seq<byte>)
    requires Minimal(a) && Minimal(b) && BigEndian(a) == BigEndian(b)
    ensures a == b
  {
    StripMinimal(a);
    StripMinimal(b);
    SignificantLength(Strip(a), Strip(b));
  }

  lemma StripMinimal(a: seq<byte>)
    requires Minimal(a)
    ensures a == Content(a)
    ensures |Strip(a)| > 1 ==> Strip(a)[0] != 0
    ensures BigEndian(Strip(a)) == BigEndian(a)
  {
    StripKeepsValue(a);
    if |a| > 1 && a[0] == 0 { assert a == [0] + a[1..]; }
  }

  /** The frame around two contents. */
  ghost function Frame(a: seq<byte>, b: seq<byte>): seq<byte>
    requires 4 + |a| + |b| < 256
  {
    [0x30, 4 + |a| + |b|] + ([0x02, |a|] + a + ([0x02, |b|] + b))
  }

  /** Where the parts of a frame lie. */
  lemma FrameParts(a: seq<byte>, b: seq<byte>)
    requires 4 + |a| + |b| < 256
    ensures var d := Frame(a, b);
      && |d| == 6 + |a| + |b| && d[0] == 0x30 && d[1] == 4 + |a| + |b| && d[2] == 0x02 && d[3] == |a|
      && d[4 + |a|] == 0x02 && d[5 + |a|] == |b|
      && d[4..4 + |a|] == a && d[6 + |a|..] == b
  {
    var head: seq<byte> := [0x30, 4 + |a| + |b|, 0x02, |a|];
    var middle: seq<byte> := [0x02, |b|];
    assert Frame(a, b) == head + (a + (middle + b));
    Middle(head, a, middle + b);
    assert (middle + b)[0] == 0x02 && (middle + b)[1] == |b|;
    Halves(middle, b);
    Cut(Frame(a, b), 4 + |a|, 6 + |a|);
  }

  lemma FrameReads(a: seq<byte>, b: seq<byte>)
    requires Minimal(a) && Minimal(b) && |a| <= 33 && |b| <= 33
    ensures ParseDer(Frame(a, b)) == Some((BigEndian(a), BigEndian(b)))
  {
    FrameParts(a, b);
  }

  lemma ReadIsFramed(d: seq<byte>) returns (a: seq<byte>, b: seq<byte>)
    requires ParseDer(d).Some?
    ensures Minimal(a) && Minimal(b) && 4 + |a| + |b| < 256 && d == Frame(a, b)
    ensures ParseDer(d).value == (BigEndian(a), BigEndian(b))
  {
    a, b := d[4..4 + d[3]], d[6 + d[3]..];
    var head, middle := d[..4], d[4 + |a|..6 + |a|];
    assert d == head + (a + (middle + b));
    assert head == [0x30, 4 + |a| + |b|] + [0x02, |a|];
    assert middle == [0x02, |b|];
    assert Frame(a, b) == head + (a + (middle + b));
  }

  /** The strict reader accepts one encoding of a signature, the one that is written; it has
      8 to 72 bytes. */
  lemma DerIsExact(r: seq<byte>, s: seq<byte>, d: seq<byte>)
    requires |r| == |s| == 32
    ensures ParseDer(d) == Some((BigEndian(r), BigEndian(s))) <==> d == EncodeDer(r, s)
    ensures 8 <= |EncodeDer(r, s)| <= 72
  {
    ContentIsMinimal(r);
    ContentIsMinimal(s);
    assert EncodeDer(r, s) == Frame(Content(r), Content(s));
    FrameReads(Content(r), Content(s));
    if ParseDer(d) == Some((BigEndian(r), BigEndian(s))) {
      var a, b := ReadIsFramed(d);
      MinimalUnique(a, Content(r));
      MinimalUnique(b, Content(s));
    }
  }
}
