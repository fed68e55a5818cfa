/** Bytes, machine words, and the little-endian number format every component shares
    (keyd/protocol.hpp, core/secure/vault.cpp, platform/ipc/secret_channel.cpp). */
module Bytes {
  type byte = x: int | 0 <= x < 0x100
  type u32 = x: int | 0 <= x < 0x1_0000_0000
  type u64 = x: int | 0 <= x < 0x1_0000_0000_0000_0000

  const TWO_32: int := 0x1_0000_0000
  const TWO_64: int := 0x1_0000_0000_0000_0000

  datatype Option<+T> = None | Some(value: T)
  datatype Result<+T, +E> = Ok(value: T) | Err(error: E)

  /** The value a uint64 expression takes when its exact value is x. */
  function Wrap64(x: int): u64 { x % TWO_64 }

  function Wrap32(x: int): u32 { x % TWO_32 }

  /** 256 to the n. */
  function Pow256(n: nat): (p: nat)
    ensures p > 0
  {
    if n == 0 then 1 else 256 * Pow256(n - 1)
  }

  lemma Pow256Words()
    ensures Pow256(4) == TWO_32 && Pow256(8) == TWO_64
  {
    assert Pow256(4) == 256 * (256 * (256 * 256));
    assert Pow256(8) == 256 * (256 * (256 * (256 * Pow256(4))));
  }

  // --- Taking concatenations apart ---------------------------------------------------

  lemma Halves<T>(a: seq<T>, b: seq<T>)
    ensures (a + b)[..|a|] == a && (a + b)[|a|..] == b
  {}

  lemma Middle<T>(a: seq<T>, b: seq<T>, c: seq<T>)
    ensures (a + (b + c))[|a|..|a| + |b|] == b
    ensures (a + (b + c))[|a| + |b|..] == c
  {}

  lemma Cut<T>(s: seq<T>, i: nat, j: nat)
    requires i <= j <= |s|
    ensures s[i..] == s[i..j] + s[j..]
    ensures s[i..][..j - i] == s[i..j] && s[i..][j - i..] == s[j..]
  {}

  /** Two prefixes of the same sequence, the shorter is a prefix of the longer. */
  lemma PrefixOfSum<T>(p: seq<T>, a: seq<T>, b: seq<T>)
    requires p <= a + b
    ensures |p| <= |a| ==> p <= a
    ensures |p| >= |a| ==> a <= p && p[|a|..] <= b && p == a + p[|a|..]
  {
    assert p == (a + b)[..|p|];
    if |p| <= |a| {
      assert p == a[..|p|];
    } else {
      assert a == (a + b)[..|a|] == p[..|a|];
      assert p[|a|..] == b[..|p| - |a|];
    }
  }

  // --- Specification of the little-endian format -------------------------------------

  /** The n low bytes of v, least significant first. */
  function LittleEndian(v: nat, n: nat): (b: seq<byte>)
    ensures |b| == n
  {
    if n == 0 then [] else [v % 256] + LittleEndian(v / 256, n - 1)
  }

  /** The number a little-endian byte string denotes. */
  function Number(b: seq<byte>): nat
  {
    if b == [] then 0 else b[0] + 256 * Number(b[1..])
  }

  lemma {:induction false} NumberBound(b: seq<byte>)
    ensures Number(b) < Pow256(|b|)
  {
    if b != [] { NumberBound(b[1..]); }
  }

  /** Reading back what was written gives the number again ... */
  lemma {:induction false} NumberOfLittleEndian(v: nat, n: nat)
    requires v < Pow256(n)
    ensures Number(LittleEndian(v, n)) == v
  {
    if n != 0 {
      NumberOfLittleEndian(v / 256, n - 1);
      assert LittleEndian(v, n)[1..] == LittleEndian(v / 256, n - 1);
    }
  }

  /** ... and writing back what was read gives the bytes again. */
  lemma {:induction false} LittleEndianOfNumber(b: seq<byte>)
    ensures LittleEndian(Number(b), |b|) == b
  {
    if b != [] {
      LittleEndianOfNumber(b[1..]);
      DigitAndRest(b[0], Number(b[1..]));
      assert b == [b[0]] + b[1..];
    }
  }

  lemma DigitAndRest(x: byte, n: nat)
    ensures (x + 256 * n) % 256 == x && (x + 256 * n) / 256 == n
  {}

  function U32(v: u32): seq<byte> { LittleEndian(v, 4) }

  function U64(v: u64): seq<byte> { LittleEndian(v, 8) }

  lemma U32RoundTrip(v: u32)
    ensures Number(U32(v)) == v
  {
    Pow256Words();
    NumberOfLittleEndian(v, 4);
  }

  lemma U64RoundTrip(v: u64)
    ensures Number(U64(v)) == v
  {
    Pow256Words();
    NumberOfLittleEndian(v, 8);
  }

  lemma WordBound(b: seq<byte>)
    ensures |b| == 4 ==> Number(b) < TWO_32
    ensures |b| == 8 ==> Number(b) < TWO_64
  {
    Pow256Words();
    NumberBound(b);
  }

  // --- The loops of protocol.hpp, proved against it ----------------------------------

  /** The last byte of a one-byte-longer rendering. */
  lemma {:induction false} LittleEndianSnoc(v: nat, n: nat)
    ensures LittleEndian(v, n + 1) == LittleEndian(v, n) + [v / Pow256(n) % 256]
  {
    if n != 0 {
      LittleEndianSnoc(v / 256, n - 1);
      DivDiv(v, n);
    }
  }

  lemma DivDiv(v: nat, n: nat)
    requires n > 0
    ensures v / 256 / Pow256(n - 1) == v / Pow256(n)
  {
    var p := Pow256(n - 1);
    var q := v / 256 / p;
    var r := v / 256 - q * p;
    assert 0 <= r < p;
    assert v == 256 * (q * p + r) + v % 256;
    assert v == q * (256 * p) + (256 * r + v % 256);
    assert 256 * r + v % 256 < 256 * p;
    DivUnique(v, 256 * p, q, 256 * r + v % 256);
  }

  lemma DivUnique(v: nat, d: nat, q: nat, r: nat)
    requires d > 0 && v == q * d + r && r < d
    ensures v / d == q
  {
    var k := v / d;
    var m := v % d;
    assert v == d * k + m;
    assert (q - k) * d == q * d - d * k == m - r;
    if q - k >= 1 {
      ScaleAtLeast(q - k, d);
    } else if q - k <= -1 {
      ScaleAtLeast(k - q, d);
    }
  }

  lemma ScaleAtLeast(n: int, d: nat)
    requires n >= 1
    ensures n * d >= d
  {}

  lemma {:induction false} NumberSnoc(b: seq<byte>, x: byte)
    ensures Number(b + [x]) == Number(b) + x * Pow256(|b|)
  {
    if b == [] {
      assert Number([x]) == x + 256 * Number([]);
    } else {
      NumberSnoc(b[1..], x);
      assert (b + [x])[1..] == b[1..] + [x];
      calc {
        Number(b + [x]);
        b[0] + 256 * (Number(b[1..]) + x * Pow256(|b| - 1));
        b[0] + 256 * Number(b[1..]) + 256 * (x * Pow256(|b| - 1));
        { assert 256 * (x * Pow256(|b| - 1)) == x * (256 * Pow256(|b| - 1)); }
        Number(b) + x * Pow256(|b|);
      }
    }
  }

  /** The buffer with the first i bytes of the rendering in it. */
  ghost function Poked(before: seq<byte>, at: nat, v: u64, i: nat): seq<byte>
    requires at + i <= |before|
  {
    before[..at] + LittleEndian(v, i) + before[at + i..]
  }

  lemma PokeNext(before: seq<byte>, at: nat, v: u64, i: nat)
    requires at + i < |before|
    ensures Poked(before, at, v, i)[at + i := v / Pow256(i) % 256] == Poked(before, at, v, i + 1)
  {
    LittleEndianSnoc(v, i);
  }

  /** put_u64le: byte i of the buffer receives bits 8i to 8i+7. */
  method PutU64le(out: array<byte>, at: nat, v: u64)
    requires at + 8 <= out.Length
    modifies out
    ensures out[..] == old(out[..at]) + U64(v) + old(out[at + 8..])
  {
    ghost var before := out[..];
    var i := 0;
    while i < 8
      invariant 0 <= i <= 8
      invariant out[..] == Poked(before, at, v, i)
    {
      PokeNext(before, at, v, i);
      ghost var now: seq<byte> := out[..];
      out[at + i] := v / Pow256(i) % 256;
      assert out[..] == now[at + i := v / Pow256(i) % 256];
      i := i + 1;
    }
  }

  // --- Or of shifted bytes -----------------------------------------------------------

  /** Bitwise or, bit by bit. */
  function Or(a: nat, b: nat): nat
    decreases a + b
  {
    if a == 0 && b == 0 then 0
    else (if a % 2 == 1 || b % 2 == 1 then 1 else 0) + 2 * Or(a / 2, b / 2)
  }

  function Pow2(n: nat): (p: nat)
    ensures p > 0
  {
    if n == 0 then 1 else 2 * Pow2(n - 1)
  }

  lemma {:induction false} OrZero(b: nat)
    ensures Or(0, b) == b
  {
    if b != 0 { OrZero(b / 2); }
  }

  lemma HalfOfShifted(x: nat, p: nat)
    ensures x * (2 * p) % 2 == 0 && x * (2 * p) / 2 == x * p
  {
    assert x * (2 * p) == 2 * (x * p);
  }

  /** A number shifted above all bits of another shares none with it: their or is their sum. */
  lemma {:induction false} OrOfDisjoint(a: nat, x: nat, n: nat)
    requires a < Pow2(n)
    ensures Or(a, x * Pow2(n)) == a + x * Pow2(n)
  {
    if n == 0 {
      OrZero(x);
    } else {
      HalfOfShifted(x, Pow2(n - 1));
      OrOfDisjoint(a / 2, x, n - 1);
    }
  }

  lemma Pow2Two(n: nat)
    ensures Pow2(n + 2) == 4 * Pow2(n)
  {
    assert Pow2(n + 1) == 2 * Pow2(n);
  }

  lemma Pow2Eight(n: nat)
    ensures Pow2(n + 8) == 256 * Pow2(n)
  {
    Pow2Two(n);
    Pow2Two(n + 2);
    Pow2Two(n + 4);
    Pow2Two(n + 6);
  }

  lemma {:induction false} Pow2OfBytes(n: nat)
    ensures Pow2(8 * n) == Pow256(n)
  {
    if n > 0 {
      Pow2OfBytes(n - 1);
      Pow2Eight(8 * (n - 1));
    }
  }

  /** The next byte, or-ed in above the bytes before it. */
  lemma OrNextByte(b: seq<byte>, i: nat)
    requires i < 8 <= |b|
    ensures Or(Number(b[..i]), b[i] * Pow2(8 * i)) == Number(b[..i + 1]) < TWO_64
  {
    NumberSnoc(b[..i], b[i]);
    assert b[..i] + [b[i]] == b[..i + 1];
    NumberBound(b[..i]);
    Pow2OfBytes(i);
    OrOfDisjoint(Number(b[..i]), b[i], 8 * i);
    NumberBound(b[..i + 1]);
    PowMonotone(i + 1, 8);
    Pow256Words();
  }

  /** get_u64le: the or of the bytes, each shifted by eight bits more. */
  method GetU64le(b: seq<byte>) returns (v: u64)
    requires |b| >= 8
    ensures v == Number(b[..8])
  {
    v := 0;
    var i := 0;
    while i < 8
      invariant 0 <= i <= 8
      invariant v == Number(b[..i])
    {
      OrNextByte(b, i);
      v := Or(v, b[i] * Pow2(8 * i));
      i := i + 1;
    }
  }

  lemma {:induction false} PowMonotone(m: nat, n: nat)
    requires m <= n
    ensures Pow256(m) <= Pow256(n)
    decreases n
  {
    if m < n { PowMonotone(m, n - 1); }
  }
}
