/** sanitize_token_text of domain/sol/solana.cpp: a walk over UTF-8 that drops the characters a
    spoofer leans on, truncates on a character boundary and trims spaces. */
module TokenText {
  import opened Bytes

  const BLANK: byte := 0x20

  // --- One character -----------------------------------------------------------------

  /** The length a lead byte announces; 0 for a byte that cannot lead. */
  function CharLength(lead: byte): (n: nat)
    ensures n <= 4
  {
    if lead < 0x80 then 1
    else if lead / 32 == 0x6 then 2
    else if lead / 16 == 0xe then 3
    else if lead / 8 == 0x1e then 4
    else 0
  }

  predicate Continuation(b: byte) { 0x80 <= b < 0xc0 }

  /** The payload bits of a lead byte. */
  function LeadBits(lead: byte): nat
  {
    match CharLength(lead)
    case 1 => lead
    case 2 => lead % 32
    case 3 => lead % 16
    case _ => lead % 8
  }

  function CodePoint(c: seq<byte>): nat
    requires c != []
  {
    if |c| == 1 then LeadBits(c[0]) else CodePoint(c[..|c| - 1]) * 64 + c[|c| - 1] % 64
  }

  /** Controls, zero-width joiners, the bidi overrides and the byte order mark. */
  predicate Banned(cp: nat)
  {
    cp < 0x20 || cp == 0x7f
    || 0x200b <= cp <= 0x200f || 0x202a <= cp <= 0x202e
    || 0x2066 <= cp <= 0x2069 || cp == 0xfeff
  }

  /** A structurally well-formed character (section 3 of RFC 3629, overlong forms tolerated). */
  predicate IsChar(c: seq<byte>)
  {
    c != [] && |c| == CharLength(c[0]) && forall k :: 1 <= k < |c| ==> Continuation(c[k])
  }

  predicate Kept(c: seq<byte>) { IsChar(c) && !Banned(CodePoint(c)) }

  // --- Texts -------------------------------------------------------------------------

  function Join(cs: seq<seq<byte>>): seq<byte>
  {
    if cs == [] then [] else cs[0] + Join(cs[1..])
  }

  /** What the text begins with: a character, a cut-off or impossible one, or one whose
      continuation is broken. */
  datatype Lead = Char(c: seq<byte>) | Malformed | Broken

  function Next(s: seq<byte>): (r: Lead)
    requires s != []
    ensures r.Char? ==> IsChar(r.c) && r.c <= s
  {
    var n := CharLength(s[0]);
    if n == 0 || n > |s| then Malformed
    else if forall k :: 1 <= k < n ==> Continuation(s[k]) then Char(s[..n])
    else Broken
  }

  /** The characters up to the first place that is none, and whether a broken continuation is
      what stands there. */
  function Chars(s: seq<byte>): (seq<seq<byte>>, bool)
    decreases |s|
  {
    if s == [] then ([], false)
    else
      match Next(s)
      case Char(c) => var (cs, broken) := Chars(s[|c|..]); ([c] + cs, broken)
      case Malformed => ([], false)
      case Broken => ([], true)
  }

  function Filter(cs: seq<seq<byte>>): seq<seq<byte>>
  {
    if cs == [] then []
    else if IsChar(cs[0]) && !Banned(CodePoint(cs[0])) then [cs[0]] + Filter(cs[1..])
    else Filter(cs[1..])
  }

  /** The longest run of leading characters that fits into n bytes. */
  function Fitting(cs: seq<seq<byte>>, n: int): seq<seq<byte>>
  {
    if cs == [] || |cs[0]| > n then [] else [cs[0]] + Fitting(cs[1..], n - |cs[0]|)
  }

  function TrimRight(s: seq<byte>): (r: seq<byte>)
    ensures r <= s && (r != [] ==> r[|r| - 1] != BLANK)
  {
    if s != [] && s[|s| - 1] == BLANK then TrimRight(s[..|s| - 1]) else s
  }

  function TrimLeft(s: seq<byte>): (r: seq<byte>)
    ensures |r| <= |s| && r == s[|s| - |r|..] && (r != [] ==> r[0] != BLANK)
  {
    if s != [] && s[0] == BLANK then TrimLeft(s[1..]) else s
  }

  function Trim(s: seq<byte>): seq<byte> { TrimLeft(TrimRight(s)) }

  /** The walk: what has been kept when it stops, and whether it stopped at a broken
      continuation, where the function returns without trimming. */
  function Walk(s: seq<byte>, out: seq<byte>, maxBytes: nat): (seq<byte>, bool)
    decreases |s|
  {
    if s == [] then (out, false)
    else
      match Next(s)
      case Malformed => (out, false)
      case Broken => (out, true)
      case Char(c) =>
        if Banned(CodePoint(c)) then Walk(s[|c|..], out, maxBytes)
        else if |out| + |c| > maxBytes then (out, false)
        else Walk(s[|c|..], out + c, maxBytes)
  }

  function Sanitized(raw: seq<byte>, maxBytes: nat): seq<byte>
  {
    var (out, early) := Walk(raw, [], maxBytes);
    if early then out else Trim(out)
  }

  // --- The method --------------------------------------------------------------------

  /** The inner loop: check the continuation bytes and collect the code point. */
  method ReadCodePoint(raw: seq<byte>, i: nat, len: nat) returns (cp: Option<nat>)
    requires i + len <= |raw| && i < |raw| && len == CharLength(raw[i]) && len > 0
    ensures cp.Some? <==> IsChar(raw[i..i + len])
    ensures cp.Some? ==> cp.value == CodePoint(raw[i..i + len])
  {
    ghost var c := raw[i..i + len];
    var v: nat := LeadBits(raw[i]);
    assert c[..1] == [raw[i]];
    var k := 1;
    while k < len
      invariant 1 <= k <= len
      invariant forall j :: 1 <= j < k ==> Continuation(c[j])
      invariant v == CodePoint(c[..k])
    {
      assert c[k] == raw[i + k];
      if !Continuation(raw[i + k]) { return None; }
      assert c[..k + 1][..k] == c[..k];
      v := v * 64 + raw[i + k] % 64;
      k := k + 1;
    }
    assert c[..len] == c;
    return Some(v);
  }

  method TrimSpaces(text: seq<byte>) returns (r: seq<byte>)
    ensures r == Trim(text)
  {
    var out := text;
    while out != [] && out[|out| - 1] == BLANK
      invariant TrimRight(text) == TrimRight(out)
    {
      out := out[..|out| - 1];
    }
    var start := 0;
    while start < |out| && out[start] == BLANK
      invariant 0 <= start <= |out|
      invariant TrimLeft(out) == TrimLeft(out[start..])
    {
      assert out[start..][1..] == out[start + 1..];
      start := start + 1;
    }
    r := out[start..];
  }

  /** The walk, standing at index i with this much collected, ends as `all`. */
  ghost predicate Walking(raw: seq<byte>, i: nat, out: seq<byte>, maxBytes: nat, all: (seq<byte>, bool))
  {
    i <= |raw| && Walk(raw[i..], out, maxBytes) == all
  }

  lemma WalkStep(raw: seq<byte>, i: nat, out: seq<byte>, maxBytes: nat, all: (seq<byte>, bool))
    requires i < |raw| && Walking(raw, i, out, maxBytes, all)
    ensures var len := CharLength(raw[i]);
      if len == 0 || i + len > |raw| then all == (out, false)
      else
        var c := raw[i..i + len];
        if !IsChar(c) then all == (out, true)
        else if Banned(CodePoint(c)) then Walking(raw, i + len, out, maxBytes, all)
        else if |out| + len > maxBytes then all == (out, false)
        else Walking(raw, i + len, out + c, maxBytes, all)
  {
    NextAt(raw, i);
    var len := CharLength(raw[i]);
    if 0 < len && i + len <= |raw| { assert raw[i..][len..] == raw[i + len..]; }
  }

  /** What stands at index i. */
  lemma NextAt(raw: seq<byte>, i: nat)
    requires i < |raw|
    ensures var len := CharLength(raw[i]);
      Next(raw[i..]) ==
        if len == 0 || i + len > |raw| then Malformed
        else if IsChar(raw[i..i + len]) then Char(raw[i..i + len]) else Broken
  {
    var s, len := raw[i..], CharLength(raw[i]);
    if 0 < len && i + len <= |raw| {
      var c := raw[i..i + len];
      assert s[..len] == c;
      forall k | 1 <= k < len ensures s[k] == c[k] {}
    }
  }

  lemma WalkStart(raw: seq<byte>, maxBytes: nat)
    ensures Walking(raw, 0, [], maxBytes, Walk(raw, [], maxBytes))
  {
    assert raw[0..] == raw;
  }

  lemma WalkEnd(raw: seq<byte>, out: seq<byte>, maxBytes: nat, all: (seq<byte>, bool))
    requires Walking(raw, |raw|, out, maxBytes, all)
    ensures all == (out, false)
  {}

  /** The loop over the characters, and whether it left through the early return. */
  method WalkText(raw: seq<byte>, maxBytes: nat) returns (out: seq<byte>, early: bool)
    ensures (out, early) == Walk(raw, [], maxBytes)
  {
    out, early := [], false;
    var i := 0;
    ghost var all := Walk(raw, [], maxBytes);
    WalkStart(raw, maxBytes);
    while i < |raw|
      invariant i <= |raw| && !early
      invariant Walking(raw, i, out, maxBytes, all)
    {
      WalkStep(raw, i, out, maxBytes, all);
      var len := CharLength(raw[i]);
      if len == 0 || i + len > |raw| { return; }
      var cp := ReadCodePoint(raw, i, len);
      if cp.None? { return out, true; }
      if !Banned(cp.value) {
        if |out| + len > maxBytes { return; }
        out := out + raw[i..i + len];
      }
      i := i + len;
    }
    WalkEnd(raw, out, maxBytes, all);
  }

  method SanitizeTokenText(raw: seq<byte>, maxBytes: nat) returns (r: seq<byte>)
    ensures r == Sanitized(raw, maxBytes)
  {
    var out, early := WalkText(raw, maxBytes);
    if early { return out; }
    r := TrimSpaces(out);
  }

  // --- What is kept ------------------------------------------------------------------

  /** The walk keeps the admissible characters, in order, as long as they fit. */
  lemma {:induction false} WalkKeepsFitting(s: seq<byte>, out: seq<byte>, maxBytes: nat)
    requires |out| <= maxBytes
    ensures Walk(s, out, maxBytes).0 == out + Join(Fitting(Filter(Chars(s).0), maxBytes - |out|))
    decreases |s|
  {
    if s != [] {
      var next := Next(s);
      if next.Char? {
        var c, rest := next.c, Chars(s[|next.c|..]).0;
        assert ([c] + rest)[1..] == rest;
        if Banned(CodePoint(c)) {
          WalkKeepsFitting(s[|c|..], out, maxBytes);
        } else {
          var kept := Filter(rest);
          assert ([c] + kept)[1..] == kept;
          if |out| + |c| <= maxBytes {
            WalkKeepsFitting(s[|c|..], out + c, maxBytes);
            var more := Fitting(kept, maxBytes - |out| - |c|);
            assert ([c] + more)[1..] == more;
            assert out + c + Join(more) == out + (c + Join(more));
          }
        }
      }
    }
  }

  /** It leaves through the early return exactly when a broken continuation ends the characters and
      everything admissible before it fits. */
  lemma {:induction false} EarlyReturnExact(s: seq<byte>, out: seq<byte>, maxBytes: nat)
    requires |out| <= maxBytes
    ensures Walk(s, out, maxBytes).1 <==> Chars(s).1 && |Join(Filter(Chars(s).0))| <= maxBytes - |out|
    decreases |s|
  {
    if s != [] && Next(s).Char? {
      var c := Next(s).c;
      var rest := Chars(s[|c|..]).0;
      assert ([c] + rest)[1..] == rest;
      if Banned(CodePoint(c)) {
        EarlyReturnExact(s[|c|..], out, maxBytes);
      } else {
        assert ([c] + Filter(rest))[1..] == Filter(rest);
        if |out| + |c| <= maxBytes { EarlyReturnExact(s[|c|..], out + c, maxBytes); }
      }
    }
  }

  /** A text made of admissible characters only. */
  ghost predicate Clean(s: seq<byte>)
    decreases |s|
  {
    s == [] || (Next(s).Char? && Kept(Next(s).c) && Clean(s[|Next(s).c|..]))
  }

  lemma NextOfChar(c: seq<byte>, rest: seq<byte>)
    requires IsChar(c)
    ensures Next(c + rest) == Char(c) && (c + rest)[|c|..] == rest
  {
    assert (c + rest)[..|c|] == c;
    forall k | 1 <= k < |c| ensures Continuation((c + rest)[k]) { assert (c + rest)[k] == c[k]; }
  }

  lemma {:induction false} CleanJoin(cs: seq<seq<byte>>)
    requires forall c :: c in cs ==> Kept(c)
    ensures Clean(Join(cs))
  {
    if cs != [] {
      assert Kept(cs[0]);
      NextOfChar(cs[0], Join(cs[1..]));
      CleanJoin(cs[1..]);
    }
  }

  lemma {:induction false} FilterKept(cs: seq<seq<byte>>, n: int)
    ensures forall c :: c in Fitting(Filter(cs), n) ==> Kept(c)
    ensures |Join(Fitting(Filter(cs), n))| <= if n < 0 then 0 else n
  {
    FittingFits(Filter(cs), n);
    FilterOnlyKeeps(cs);
  }

  lemma {:induction false} FilterOnlyKeeps(cs: seq<seq<byte>>)
    ensures forall c :: c in Filter(cs) ==> Kept(c)
  {
    if cs != [] { FilterOnlyKeeps(cs[1..]); }
  }

  lemma {:induction false} FittingFits(cs: seq<seq<byte>>, n: int)
    ensures forall c :: c in Fitting(cs, n) ==> c in cs
    ensures |Join(Fitting(cs, n))| <= if n < 0 then 0 else n
  {
    if cs != [] && |cs[0]| <= n {
      FittingFits(cs[1..], n - |cs[0]|);
      var more := Fitting(cs[1..], n - |cs[0]|);
      assert ([cs[0]] + more)[1..] == more;
    }
  }

  /** Dropping a final space takes away a whole character. */
  lemma {:induction false} CleanDropLast(s: seq<byte>)
    requires Clean(s) && s != [] && s[|s| - 1] == BLANK
    ensures Clean(s[..|s| - 1])
    decreases |s|
  {
    var c := Next(s).c;
    var rest := s[|c|..];
    assert s == c + rest;
    if rest == [] {
      assert s[|s| - 1] == c[|c| - 1];
      assert |c| == 1;
      assert s[..0] == [];
    } else {
      assert rest[|rest| - 1] == BLANK;
      CleanDropLast(rest);
      assert s[..|s| - 1] == c + rest[..|rest| - 1];
      NextOfChar(c, rest[..|rest| - 1]);
    }
  }

  lemma {:induction false} CleanTrimRight(s: seq<byte>)
    requires Clean(s)
    ensures Clean(TrimRight(s))
  {
    if s != [] && s[|s| - 1] == BLANK {
      CleanDropLast(s);
      CleanTrimRight(s[..|s| - 1]);
    }
  }

  lemma {:induction false} CleanTrimLeft(s: seq<byte>)
    requires Clean(s)
    ensures Clean(TrimLeft(s))
  {
    if s != [] && s[0] == BLANK {
      assert CharLength(s[0]) == 1;
      CleanTrimLeft(s[1..]);
    }
  }

  lemma FittingIsClean(cs: seq<seq<byte>>, n: nat, out: seq<byte>)
    requires out == Join(Fitting(Filter(cs), n))
    ensures Clean(out) && |out| <= n
  {
    FilterKept(cs, n);
    CleanJoin(Fitting(Filter(cs), n));
  }

  lemma WalkIsClean(raw: seq<byte>, maxBytes: nat, out: seq<byte>)
    requires out == Walk(raw, [], maxBytes).0
    ensures Clean(out) && |out| <= maxBytes
  {
    var cs := Chars(raw).0;
    assert out == Join(Fitting(Filter(cs), maxBytes)) by {
      WalkKeepsFitting(raw, [], maxBytes);
      assert [] + Join(Fitting(Filter(cs), maxBytes)) == Join(Fitting(Filter(cs), maxBytes));
    }
    FittingIsClean(cs, maxBytes, out);
  }

  lemma TrimIsClean(s: seq<byte>)
    requires Clean(s)
    ensures Clean(Trim(s)) && |Trim(s)| <= |s|
  {
    CleanTrimRight(s);
    CleanTrimLeft(TrimRight(s));
  }

  /** For every input the result fits, is made of whole admissible characters, and without the
      early return has no space at either end. */
  lemma SanitizedIsClean(raw: seq<byte>, maxBytes: nat)
    ensures |Sanitized(raw, maxBytes)| <= maxBytes
    ensures Clean(Sanitized(raw, maxBytes))
    ensures !Walk(raw, [], maxBytes).1 ==> Trimmed(Sanitized(raw, maxBytes))
  {
    var (out, early) := Walk(raw, [], maxBytes);
    WalkIsClean(raw, maxBytes, out);
    TrimIsClean(out);
    TrimTrims(out);
  }

  predicate Trimmed(s: seq<byte>)
  {
    s == [] || (s[0] != 0x20 && s[|s| - 1] != 0x20)
  }

  lemma TrimTrims(s: seq<byte>)
    ensures Trimmed(Trim(s))
    ensures Trim(s) == s <==> Trimmed(s)
  {
    var r := TrimRight(s);
    SuffixEnd(r, TrimLeft(r));
    if Trimmed(s) { TrimOfTrimmed(s); }
  }

  lemma SuffixEnd(r: seq<byte>, t: seq<byte>)
    requires |t| <= |r| && t == r[|r| - |t|..] && (t != [] ==> t[0] != BLANK)
    requires r != [] ==> r[|r| - 1] != BLANK
    ensures Trimmed(t)
  {
    if t != [] { assert t[|t| - 1] == r[|r| - 1]; }
  }

  lemma TrimOfTrimmed(s: seq<byte>)
    requires Trimmed(s)
    ensures TrimRight(s) == s && TrimLeft(s) == s
  {}

  /** A clean text passes the walk untouched. */
  lemma {:induction false} WalkOfClean(s: seq<byte>, out: seq<byte>, maxBytes: nat)
    requires Clean(s) && |out| + |s| <= maxBytes
    ensures Walk(s, out, maxBytes) == (out + s, false)
    decreases |s|
  {
    if s == [] {
      assert out + s == out;
    } else {
      var c := Next(s).c;
      WalkOfClean(s[|c|..], out + c, maxBytes);
      assert s == c + s[|c|..];
      assert out + c + s[|c|..] == out + s;
    }
  }

  lemma {:induction false} AllFit(cs: seq<seq<byte>>, n: int)
    requires |Join(cs)| <= n
    ensures Fitting(cs, n) == cs
  {
    if cs != [] { AllFit(cs[1..], n - |cs[0]|); }
  }

  /** The admissible characters before the first broken continuation, which leaves a space at one
      of their ends where they all fit. */
  predicate LeavesSpace(raw: seq<byte>, maxBytes: nat)
  {
    var kept := Join(Filter(Chars(raw).0));
    Chars(raw).1 && |kept| <= maxBytes && !Trimmed(kept)
  }

  /** Sanitizing again changes nothing exactly when it is not so that the text runs into a broken
      continuation before the limit, with a space at an end of what it has kept till then. */
  lemma SanitizedTwice(raw: seq<byte>, maxBytes: nat)
    ensures Sanitized(Sanitized(raw, maxBytes), maxBytes) == Sanitized(raw, maxBytes)
       <==> !LeavesSpace(raw, maxBytes)
  {
    var once := Sanitized(raw, maxBytes);
    SanitizedIsClean(raw, maxBytes);
    WalkOfClean(once, [], maxBytes);
    assert [] + once == once;
    TrimTrims(once);
    EarlyKeepsAll(raw, maxBytes);
  }

  lemma EarlyKeepsAll(raw: seq<byte>, maxBytes: nat)
    ensures Walk(raw, [], maxBytes).1 <==> Chars(raw).1 && |Join(Filter(Chars(raw).0))| <= maxBytes
    ensures Walk(raw, [], maxBytes).1 ==> Walk(raw, [], maxBytes).0 == Join(Filter(Chars(raw).0))
  {
    WalkKeepsFitting(raw, [], maxBytes);
    EarlyReturnExact(raw, [], maxBytes);
    if Walk(raw, [], maxBytes).1 { AllFit(Filter(Chars(raw).0), maxBytes); }
    var kept := Join(Fitting(Filter(Chars(raw).0), maxBytes));
    assert [] + kept == kept;
  }

  /** The early return is real: a space, then a two-byte character whose second byte is a letter. */
  lemma EarlyReturnSkipsTrimming()
    ensures Sanitized([BLANK, 0xc3, 0x41], 8) == [BLANK]
    ensures Sanitized([BLANK], 8) == []
  {
    var raw: seq<byte> := [BLANK, 0xc3, 0x41];
    assert raw[0..1] == [BLANK] && raw[0..] == raw && [] + [BLANK] == [BLANK];
    assert CodePoint([BLANK]) == 0x20;
    WalkStep(raw, 0, [], 8, Walk(raw[0..], [], 8));
    assert !Continuation(raw[1..3][1]);
    WalkStep(raw, 1, [BLANK], 8, Walk(raw[1..], [BLANK], 8));
    assert Walk(raw, [], 8) == ([BLANK], true);
    assert Clean([BLANK]) by { NextOfChar([BLANK], []); }
    WalkOfClean([BLANK], [], 8);
  }
}
