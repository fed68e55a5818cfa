/** What sanitize_token_text keeps out, said over code points: the encoding of section 3 of RFC 3629,
    and the code points a spoofer leans on, written down once more and on their own. */
module Utf8 {
  import opened Bytes
  import opened TokenText

  /** What four bytes can say; Unicode ends a little earlier. */
  type CodeValue = cp: nat | cp < 0x20_0000

  /** The four ranges of section 3 of RFC 3629, the last one to the end of what four bytes can say. */
  function Encode(cp: CodeValue): (c: seq<byte>)
    ensures c != []
  {
    if cp < 0x80 then [cp]
    else if cp < 0x800 then [0xc0 + cp / 0x40, 0x80 + cp % 0x40]
    else if cp < 0x1_0000 then [0xe0 + cp / 0x1000, 0x80 + cp / 0x40 % 0x40, 0x80 + cp % 0x40]
    else [0xf0 + cp / 0x4_0000, 0x80 + cp / 0x1000 % 0x40, 0x80 + cp / 0x40 % 0x40, 0x80 + cp % 0x40]
  }

  /** C0 controls and DEL; zero-width and direction marks; bidi embeddings and overrides; bidi isolates;
      the byte order mark. */
  predicate Spoofs(cp: nat)
  {
    cp <= 31 || cp == 127
    || cp in {0x200b, 0x200c, 0x200d, 0x200e, 0x200f}
    || cp in {0x202a, 0x202b, 0x202c, 0x202d, 0x202e}
    || cp in {0x2066, 0x2067, 0x2068, 0x2069}
    || cp == 0xfeff
  }

  lemma BannedIsSpoofing(cp: nat)
    ensures Banned(cp) <==> Spoofs(cp)
  {}

  // --- One character -----------------------------------------------------------------

  lemma OneByte(a: byte)
    ensures CodePoint([a]) == LeadBits(a)
  {}

  lemma OneMoreByte(c: seq<byte>, b: byte)
    requires c != []
    ensures CodePoint(c + [b]) == CodePoint(c) * 64 + b % 64
  {
    assert (c + [b])[..|c|] == c;
  }

  lemma TwoBytes(a: byte, b: byte)
    ensures CodePoint([a, b]) == LeadBits(a) * 64 + b % 64
  {
    OneMoreByte([a], b);
    assert [a] + [b] == [a, b];
    OneByte(a);
  }

  lemma ThreeBytes(a: byte, b: byte, c: byte)
    ensures CodePoint([a, b, c]) == (LeadBits(a) * 64 + b % 64) * 64 + c % 64
  {
    OneMoreByte([a, b], c);
    assert [a, b] + [c] == [a, b, c];
    TwoBytes(a, b);
  }

  lemma FourBytes(a: byte, b: byte, c: byte, d: byte)
    ensures CodePoint([a, b, c, d]) == ((LeadBits(a) * 64 + b % 64) * 64 + c % 64) * 64 + d % 64
  {
    OneMoreByte([a, b, c], d);
    assert [a, b, c] + [d] == [a, b, c, d];
    ThreeBytes(a, b, c);
  }

  lemma Leads(n: nat)
    ensures n < 0x20 ==> CharLength(0xc0 + n) == 2 && LeadBits(0xc0 + n) == n
    ensures n < 0x10 ==> CharLength(0xe0 + n) == 3 && LeadBits(0xe0 + n) == n
    ensures n < 0x08 ==> CharLength(0xf0 + n) == 4 && LeadBits(0xf0 + n) == n
  {}

  /** Six bits at a time. */
  lemma SixBits(n: nat)
    ensures n == n / 0x40 * 64 + n % 0x40 && (0x80 + n % 0x40) % 64 == n % 0x40
  {}

  lemma Shifts(n: nat)
    ensures n / 0x1000 == n / 0x40 / 0x40 && n / 0x4_0000 == n / 0x1000 / 0x40
  {}

  lemma ThreeByteDecodes(cp: CodeValue)
    requires 0x800 <= cp < 0x1_0000
    ensures IsChar(Encode(cp)) && CodePoint(Encode(cp)) == cp
  {
    var c := Encode(cp);
    Shifts(cp);
    SixBits(cp);
    SixBits(cp / 0x40);
    Leads(cp / 0x1000);
    ThreeBytes(c[0], c[1], c[2]);
  }

  lemma FourByteDecodes(cp: CodeValue)
    requires 0x1_0000 <= cp
    ensures IsChar(Encode(cp)) && CodePoint(Encode(cp)) == cp
  {
    var c := Encode(cp);
    Shifts(cp);
    SixBits(cp);
    SixBits(cp / 0x40);
    SixBits(cp / 0x1000);
    Leads(cp / 0x4_0000);
    FourBytes(c[0], c[1], c[2], c[3]);
  }

  /** What is decoded is what was encoded. */
  lemma EncodedDecodes(cp: CodeValue)
    ensures IsChar(Encode(cp)) && CodePoint(Encode(cp)) == cp
  {
    var c := Encode(cp);
    if cp < 0x80 {
      OneByte(c[0]);
    } else if cp < 0x800 {
      SixBits(cp);
      Leads(cp / 0x40);
      TwoBytes(c[0], c[1]);
    } else if cp < 0x1_0000 {
      ThreeByteDecodes(cp);
    } else {
      FourByteDecodes(cp);
    }
  }

  // --- Nothing that spoofs gets through ----------------------------------------------

  /** In a clean text, what does not continue a character begins one. */
  lemma {:induction false} CleanFrom(s: seq<byte>, i: nat)
    requires Clean(s) && i < |s| && !Continuation(s[i])
    ensures Clean(s[i..])
    decreases |s|
  {
    var c := Next(s).c;
    if i < |c| {
      assert s[i] == c[i];
      assert s[0..] == s;
    } else {
      var rest := s[|c|..];
      assert rest[i - |c|] == s[i] && rest[i - |c|..] == s[i..];
      CleanFrom(rest, i - |c|);
    }
  }

  /** Nowhere in a sanitized text, whatever the text was, stand the bytes of a code point that spoofs. */
  lemma NothingSpoofs(raw: seq<byte>, maxBytes: nat, i: nat, cp: CodeValue)
    requires Spoofs(cp)
    requires var s := Sanitized(raw, maxBytes); i + |Encode(cp)| <= |s|
    ensures Sanitized(raw, maxBytes)[i..i + |Encode(cp)|] != Encode(cp)
  {
    var s, c := Sanitized(raw, maxBytes), Encode(cp);
    SanitizedIsClean(raw, maxBytes);
    EncodedDecodes(cp);
    BannedIsSpoofing(cp);
    if s[i..i + |c|] == c {
      assert s[i] == c[0];
      CleanFrom(s, i);
      StandsFirst(s[i..], c);
    }
  }

  /** A text that begins with the bytes of a character begins with that character. */
  lemma StandsFirst(s: seq<byte>, c: seq<byte>)
    requires IsChar(c) && |c| <= |s| && s[..|c|] == c
    ensures Next(s) == Char(c)
  {
    assert s[0] == c[0];
    forall k | 1 <= k < |c| ensures Continuation(s[k]) { assert s[k] == s[..|c|][k]; }
  }

  // --- And nothing else is kept out --------------------------------------------------

  function Text(cps: seq<CodeValue>): seq<byte>
  {
    if cps == [] then [] else Encode(cps[0]) + Text(cps[1..])
  }

  function Honest(cps: seq<CodeValue>): seq<CodeValue>
  {
    if cps == [] then []
    else if Spoofs(cps[0]) then Honest(cps[1..]) else [cps[0]] + Honest(cps[1..])
  }

  lemma {:induction false} CharsOfText(cps: seq<CodeValue>)
    ensures !Chars(Text(cps)).1 && Join(Filter(Chars(Text(cps)).0)) == Text(Honest(cps))
  {
    if cps != [] {
      var c, rest := Encode(cps[0]), Text(cps[1..]);
      EncodedDecodes(cps[0]);
      BannedIsSpoofing(cps[0]);
      NextOfChar(c, rest);
      CharsOfText(cps[1..]);
      var cs := Chars(rest).0;
      assert ([c] + cs)[1..] == cs && ([c] + Filter(cs))[1..] == Filter(cs);
      if !Spoofs(cps[0]) { assert ([cps[0]] + Honest(cps[1..]))[1..] == Honest(cps[1..]); }
    }
  }

  /** A text of whole code points loses exactly those that spoof, and the spaces then at its ends, where
      the rest fits. */
  lemma OnlySpoofsAreDropped(cps: seq<CodeValue>, maxBytes: nat)
    requires |Text(Honest(cps))| <= maxBytes
    ensures Sanitized(Text(cps), maxBytes) == Trim(Text(Honest(cps)))
  {
    CharsOfText(cps);
    WholeTextKept(Text(cps), Text(Honest(cps)), maxBytes);
  }

  /** A text without a broken continuation, all of whose admissible characters fit. */
  lemma WholeTextKept(raw: seq<byte>, kept: seq<byte>, maxBytes: nat)
    requires !Chars(raw).1 && kept == Join(Filter(Chars(raw).0)) && |kept| <= maxBytes
    ensures Sanitized(raw, maxBytes) == Trim(kept)
  {
    var cs := Filter(Chars(raw).0);
    AllFit(cs, maxBytes);
    WalkResult(raw, maxBytes, Fitting(cs, maxBytes));
  }

  lemma WalkResult(raw: seq<byte>, maxBytes: nat, fitting: seq<seq<byte>>)
    requires !Chars(raw).1 && fitting == Fitting(Filter(Chars(raw).0), maxBytes)
    ensures Walk(raw, [], maxBytes) == (Join(fitting), false)
  {
    WalkKeepsFitting(raw, [], maxBytes);
    EarlyReturnExact(raw, [], maxBytes);
    assert [] + Join(fitting) == Join(fitting);
  }

  /** A text of whole code points, none of which spoofs, without a space at an end: if it fits, it stays. */
  lemma HonestTextStays(cps: seq<CodeValue>, maxBytes: nat)
    requires forall cp :: cp in cps ==> !Spoofs(cp)
    requires |Text(cps)| <= maxBytes && Trimmed(Text(cps))
    ensures Sanitized(Text(cps), maxBytes) == Text(cps)
  {
    AllHonest(cps);
    OnlySpoofsAreDropped(cps, maxBytes);
    TrimTrims(Text(cps));
  }

  lemma {:induction false} AllHonest(cps: seq<CodeValue>)
    requires forall cp :: cp in cps ==> !Spoofs(cp)
    ensures Honest(cps) == cps
  {
    if cps != [] { AllHonest(cps[1..]); }
  }
}
