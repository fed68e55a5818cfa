/** The hash-chained ledger of keyd/audit.cpp: hex, the chain, appending and replaying. The hash
    is a function parameter; what rests on its strength is stated as a collision that the
    proofs exhibit. */
module AuditLog {
  import opened Bytes

  const NEWLINE: byte := 10
  const SPACE: byte := 32

  type Digest = d: seq<byte> | |d| == 32 witness Zeros(32)

  function Zeros(n: nat): (z: seq<byte>)
    ensures |z| == n
  {
    if n == 0 then [] else [0] + Zeros(n - 1)
  }

  /** SHA-256: any function to 32 bytes. */
  type Hash = seq<byte> -> Digest

  const GENESIS: Digest := Zeros(32)

  // --- Hex ---------------------------------------------------------------------------

  function HexDigit(n: int): byte
    requires 0 <= n < 16
  {
    if n < 10 then 48 + n else 87 + n
  }

  /** The value of a lower-case hex digit, or -1. */
  function Nibble(c: byte): (n: int)
    ensures -1 <= n < 16
  {
    if 48 <= c <= 57 then c - 48 else if 97 <= c <= 102 then c - 87 else -1
  }

  function ToHex(data: seq<byte>): (s: seq<byte>)
    ensures |s| == 2 * |data|
  {
    if data == [] then []
    else [HexDigit(data[0] / 16), HexDigit(data[0] % 16)] + ToHex(data[1..])
  }

  /** Decoding, or None at the first character that is no lower-case hex digit. */
  function FromHex(hex: seq<byte>): (r: Option<seq<byte>>)
    requires |hex| % 2 == 0
    ensures r.Some? ==> 2 * |r.value| == |hex|
  {
    if hex == [] then Some([])
    else
      var hi, lo := Nibble(hex[0]), Nibble(hex[1]);
      if hi < 0 || lo < 0 then None
      else
        match FromHex(hex[2..])
        case None => None
        case Some(rest) => Some([16 * hi + lo] + rest)
  }

  /** Hex is read back exactly: only the printed form of some data decodes to it. */
  lemma {:induction false} HexIsExact(hex: seq<byte>, data: seq<byte>)
    requires |hex| % 2 == 0
    ensures FromHex(hex) == Some(data) <==> hex == ToHex(data)
    decreases |hex| + |data|
  {
    if hex != [] && data != [] {
      HexIsExact(hex[2..], data[1..]);
      assert hex == [hex[0], hex[1]] + hex[2..];
      assert data == [data[0]] + data[1..];
      assert ToHex(data)[2..] == ToHex(data[1..]);
    }
  }

  /** Decoding into a buffer from its i-th byte on: it stops at the first bad pair, leaves the
      rest of the buffer as it was, and says whether it got to the end. */
  function DecodeInto(hex: seq<byte>, i: nat, out: seq<byte>): (r: (seq<byte>, bool))
    requires |hex| == 2 * |out| && i <= |out|
    ensures |r.0| == |out|
    decreases |out| - i
  {
    if i == |out| then (out, true)
    else
      var hi, lo := Nibble(hex[2 * i]), Nibble(hex[2 * i + 1]);
      if hi < 0 || lo < 0 then (out, false) else DecodeInto(hex, i + 1, out[i := 16 * hi + lo])
  }

  lemma {:induction false} DecodeIntoIsFromHex(hex: seq<byte>, i: nat, out: seq<byte>)
    requires |hex| == 2 * |out| && i <= |out|
    ensures var r, d := DecodeInto(hex, i, out), FromHex(hex[2 * i..]);
      (r.1 <==> d.Some?) && (r.1 ==> r.0 == out[..i] + d.value)
    decreases |out| - i
  {
    if i < |out| {
      var hi, lo := Nibble(hex[2 * i]), Nibble(hex[2 * i + 1]);
      assert hex[2 * i..][2..] == hex[2 * (i + 1)..];
      if hi >= 0 && lo >= 0 {
        var next := out[i := 16 * hi + lo];
        DecodeIntoIsFromHex(hex, i + 1, next);
        assert next[..i + 1] == out[..i] + [16 * hi + lo];
      }
    }
  }

  /** A buffer filled from good hex holds the decoded bytes, whatever was in it. */
  lemma GoodHexFills(hex: seq<byte>, out: seq<byte>)
    requires |hex| == 2 * |out|
    ensures DecodeInto(hex, 0, out).1 <==> FromHex(hex).Some?
    ensures FromHex(hex).Some? ==> FromHex(hex) == Some(DecodeInto(hex, 0, out).0)
  {
    DecodeIntoIsFromHex(hex, 0, out);
    assert hex[0..] == hex && out[..0] == [];
    if FromHex(hex).Some? { assert [] + FromHex(hex).value == FromHex(hex).value; }
  }

  // --- Lines: what getline yields ----------------------------------------------------

  function LineEnd(b: seq<byte>): (n: nat)
    ensures n <= |b| && NEWLINE !in b[..n]
    ensures n < |b| ==> b[n] == NEWLINE
  {
    if b == [] || b[0] == NEWLINE then 0
    else
      assert b[..1 + LineEnd(b[1..])] == [b[0]] + b[1..][..LineEnd(b[1..])];
      1 + LineEnd(b[1..])
  }

  /** The lines of a text; a last line needs no newline, and after a final one nothing follows. */
  function Lines(b: seq<byte>): seq<seq<byte>>
  {
    if b == [] then []
    else
      var n := LineEnd(b);
      if n == |b| then [b] else [b[..n]] + Lines(b[n + 1..])
  }

  /** A text that is empty or ends in a line feed. */
  predicate Terminated(b: seq<byte>) { b == [] || b[|b| - 1] == 10 }

  lemma LineEndUnique(b: seq<byte>, n: nat)
    requires n <= |b| && NEWLINE !in b[..n] && (n < |b| ==> b[n] == NEWLINE)
    ensures LineEnd(b) == n
  {}

  /** A newline-terminated text keeps its lines whatever is appended. */
  lemma {:induction false} LinesAppend(a: seq<byte>, b: seq<byte>)
    requires Terminated(a)
    ensures Lines(a + b) == Lines(a) + Lines(b)
  {
    if a == [] {
      assert a + b == b;
    } else {
      var n := LineEnd(a);
      assert (a + b)[..n] == a[..n];
      LineEndUnique(a + b, n);
      assert (a + b)[n + 1..] == a[n + 1..] + b;
      LinesAppend(a[n + 1..], b);
    }
  }

  lemma LinesOfOne(line: seq<byte>)
    requires NEWLINE !in line
    ensures Lines(line + [NEWLINE]) == [line]
    ensures line != [] ==> Lines(line) == [line]
  {
    var b := line + [NEWLINE];
    assert b[..|line|] == line;
    LineEndUnique(b, |line|);
    assert b[|line| + 1..] == [];
    if line != [] {
      assert line[..|line|] == line;
      LineEndUnique(line, |line|);
    }
  }

  // --- The chain ---------------------------------------------------------------------

  function ChainStep(h: Hash, prev: Digest, event: seq<byte>): Digest { h(prev + event) }

  function Chain(h: Hash, prev: Digest, events: seq<seq<byte>>): Digest
  {
    if events == [] then prev
    else ChainStep(h, Chain(h, prev, events[..|events| - 1]), events[|events| - 1])
  }

  /** A record: the hash in hex, a space, the event. */
  function Record(h: Hash, prev: Digest, event: seq<byte>): seq<byte>
  {
    ToHex(ChainStep(h, prev, event)) + [SPACE] + event
  }

  predicate GoodRecord(h: Hash, prev: Digest, line: seq<byte>)
  {
    |line| >= 66 && line[64] == SPACE
    && FromHex(line[..64]) == Some(ChainStep(h, prev, line[65..]))
  }

  lemma GoodRecordExact(h: Hash, prev: Digest, line: seq<byte>)
    requires |line| >= 65
    ensures GoodRecord(h, prev, line) <==> line[65..] != [] && line == Record(h, prev, line[65..])
  {
    var d := ChainStep(h, prev, line[65..]);
    HexIsExact(line[..64], d);
    if GoodRecord(h, prev, line) {
      assert line == line[..64] + [line[64]] + line[65..];
    }
    if line == Record(h, prev, line[65..]) {
      assert line[..64] == ToHex(d);
    }
  }

  /** The events of a ledger, or None when a link is broken: what verify replays. */
  function Replay(h: Hash, prev: Digest, lines: seq<seq<byte>>): Option<seq<seq<byte>>>
    decreases lines
  {
    if lines == [] then Some([])
    else if lines[0] == [] then Replay(h, prev, lines[1..])
    else if !GoodRecord(h, prev, lines[0]) then None
    else
      var event := lines[0][65..];
      match Replay(h, ChainStep(h, prev, event), lines[1..])
      case None => None
      case Some(events) => Some([event] + events)
  }

  /** The events a verifying ledger holds. */
  function Events(h: Hash, content: seq<byte>): Option<seq<seq<byte>>>
  {
    Replay(h, GENESIS, Lines(content))
  }

  lemma {:induction false} ChainFront(h: Hash, prev: Digest, e: seq<byte>, events: seq<seq<byte>>)
    ensures Chain(h, prev, [e] + events) == Chain(h, ChainStep(h, prev, e), events)
  {
    var all := [e] + events;
    if events == [] {
      assert all[..0] == [];
    } else {
      assert all[..|all| - 1] == [e] + events[..|events| - 1];
      ChainFront(h, prev, e, events[..|events| - 1]);
    }
  }

  lemma {:induction false} ReplayAppend(h: Hash, prev: Digest, a: seq<seq<byte>>, b: seq<seq<byte>>)
    requires Replay(h, prev, a).Some?
    decreases a
    ensures var events := Replay(h, prev, a).value;
      Replay(h, prev, a + b) == match Replay(h, Chain(h, prev, events), b)
                                case None => None
                                case Some(more) => Some(events + more)
  {
    if a == [] {
      assert a + b == b;
      var r := Replay(h, prev, b);
      if r.Some? { assert [] + r.value == r.value; }
    } else {
      assert (a + b)[1..] == a[1..] + b;
      if a[0] == [] {
        ReplayAppend(h, prev, a[1..], b);
      } else {
        var event := a[0][65..];
        var next := ChainStep(h, prev, event);
        var rest := Replay(h, next, a[1..]).value;
        ReplayAppend(h, next, a[1..], b);
        ChainFront(h, prev, event, rest);
        var more := Replay(h, Chain(h, next, rest), b);
        if more.Some? { assert [event] + (rest + more.value) == [event] + rest + more.value; }
      }
    }
  }

  lemma RecordHasNoNewline(h: Hash, prev: Digest, event: seq<byte>)
    requires NEWLINE !in event
    ensures NEWLINE !in Record(h, prev, event)
  {
    HexHasNoNewline(ChainStep(h, prev, event));
  }

  lemma {:induction false} HexHasNoNewline(data: seq<byte>)
    ensures NEWLINE !in ToHex(data)
  {
    if data != [] { HexHasNoNewline(data[1..]); }
  }

  // --- The tail that append continues ------------------------------------------------

  /** The last non-empty line of a text. */
  function LastRecord(lines: seq<seq<byte>>): seq<byte>
  {
    if lines == [] then []
    else if lines[|lines| - 1] != [] then lines[|lines| - 1]
    else LastRecord(lines[..|lines| - 1])
  }

  /** What load_tail makes of a ledger: the hash of the last record, read over the genesis digest;
      a last line that is no hash leaves the bytes before its first bad pair. */
  function TailDigest(content: seq<byte>): Digest
  {
    var last := LastRecord(Lines(content));
    if |last| < 64 then GENESIS else DecodeInto(last[..64], 0, GENESIS).0
  }

  lemma {:induction false} LastRecordEndsChain(h: Hash, prev: Digest, lines: seq<seq<byte>>)
    requires Replay(h, prev, lines).Some?
    ensures var events, last := Replay(h, prev, lines).value, LastRecord(lines);
      if events == [] then last == []
      else |last| >= 66 && FromHex(last[..64]) == Some(Chain(h, prev, events))
  {
    if lines != [] {
      var front, last := lines[..|lines| - 1], lines[|lines| - 1];
      assert lines == front + [last];
      FrontReplays(h, prev, front, last);
      ReplayAppend(h, prev, front, [last]);
      LastRecordEndsChain(h, prev, front);
      var events := Replay(h, prev, front).value;
      var one: seq<seq<byte>> := [last];
      assert one[1..] == [];
      if last == [] {
        assert events + [] == events;
      } else {
        assert (events + [last[65..]])[..|events|] == events;
      }
    }
  }

  lemma {:induction false} FrontReplays(h: Hash, prev: Digest, front: seq<seq<byte>>, last: seq<byte>)
    requires Replay(h, prev, front + [last]).Some?
    ensures Replay(h, prev, front).Some?
    decreases front
  {
    if front != [] {
      assert (front + [last])[1..] == front[1..] + [last];
      if front[0] == [] { FrontReplays(h, prev, front[1..], last); }
      else { FrontReplays(h, ChainStep(h, prev, front[0][65..]), front[1..], last); }
    }
  }

  /** The tail of a verifying ledger is the end of its chain. */
  lemma TailIsChain(h: Hash, content: seq<byte>, chain: Digest)
    requires Events(h, content).Some? && chain == TailDigest(content)
    ensures chain == Chain(h, GENESIS, Events(h, content).value)
  {
    LastRecordEndsChain(h, GENESIS, Lines(content));
    var last := LastRecord(Lines(content));
    if |last| >= 64 && FromHex(last[..64]).Some? { GoodHexFills(last[..64], GENESIS); }
  }

  // --- Appending keeps a ledger verifying --------------------------------------------

  /** A ledger after one append. */
  function Appended(h: Hash, content: seq<byte>, chain: Digest, event: seq<byte>): seq<byte>
  {
    content + Record(h, chain, event) + [NEWLINE]
  }

  lemma AppendAddsOneRecord(h: Hash, content: seq<byte>, chain: Digest, event: seq<byte>)
    requires Events(h, content).Some? && Terminated(content) && chain == TailDigest(content)
    requires event != [] && NEWLINE !in event
    ensures Events(h, Appended(h, content, chain, event)) == Some(Events(h, content).value + [event])
    ensures Terminated(Appended(h, content, chain, event))
    ensures TailDigest(Appended(h, content, chain, event)) == ChainStep(h, chain, event)
  {
    AppendAddsOneLine(h, content, chain, event);
    TailIsChain(h, content, chain);
    RecordReplays(h, chain, event);
    ReplayAppend(h, GENESIS, Lines(content), [Record(h, chain, event)]);
  }

  lemma AppendAddsOneLine(h: Hash, content: seq<byte>, chain: Digest, event: seq<byte>)
    requires Terminated(content) && NEWLINE !in event
    ensures Lines(Appended(h, content, chain, event)) == Lines(content) + [Record(h, chain, event)]
    ensures Terminated(Appended(h, content, chain, event))
    ensures TailDigest(Appended(h, content, chain, event)) == ChainStep(h, chain, event)
  {
    var line := Record(h, chain, event);
    assert Appended(h, content, chain, event) == content + (line + [NEWLINE]);
    RecordHasNoNewline(h, chain, event);
    LinesOfOne(line);
    LinesAppend(content, line + [NEWLINE]);
    HexIsExact(line[..64], ChainStep(h, chain, event));
    assert line[..64] == ToHex(ChainStep(h, chain, event));
    GoodHexFills(line[..64], GENESIS);
  }

  lemma RecordReplays(h: Hash, chain: Digest, event: seq<byte>)
    requires event != []
    ensures Replay(h, chain, [Record(h, chain, event)]) == Some([event])
  {
    var line := Record(h, chain, event);
    var one: seq<seq<byte>> := [line];
    assert line[65..] == event && one[1..] == [];
    GoodRecordExact(h, chain, line);
    assert Replay(h, ChainStep(h, chain, event), []) == Some([]);
    assert [event] + [] == [event];
  }

  // --- Any number of sessions --------------------------------------------------------

  function AppendAll(h: Hash, content: seq<byte>, chain: Digest, events: seq<seq<byte>>): seq<byte>
    decreases events
  {
    if events == [] then content
    else AppendAll(h, Appended(h, content, chain, events[0]), ChainStep(h, chain, events[0]), events[1..])
  }

  /** Each session opens the ledger anew, reloads the tail and appends its events. */
  function Sessions(h: Hash, content: seq<byte>, sessions: seq<seq<seq<byte>>>): seq<byte>
    decreases sessions
  {
    if sessions == [] then content
    else Sessions(h, AppendAll(h, content, TailDigest(content), sessions[0]), sessions[1..])
  }

  function Flatten(sessions: seq<seq<seq<byte>>>): seq<seq<byte>>
  {
    if sessions == [] then [] else sessions[0] + Flatten(sessions[1..])
  }

  /** An event the ledger can take: some text without a line feed. */
  predicate Recordable(event: seq<byte>) { event != [] && 10 !in event }

  lemma MoveOne<T>(a: seq<T>, b: seq<T>)
    requires b != []
    ensures a + [b[0]] + b[1..] == a + b
  {}

  lemma Associative<T>(a: seq<T>, b: seq<T>, c: seq<T>)
    ensures a + b + c == a + (b + c)
  {}

  lemma {:induction false} AppendAllVerifies(h: Hash, content: seq<byte>, chain: Digest, events: seq<seq<byte>>)
    requires Events(h, content).Some? && Terminated(content) && chain == TailDigest(content)
    requires forall e :: e in events ==> Recordable(e)
    ensures Events(h, AppendAll(h, content, chain, events)) == Some(Events(h, content).value + events)
    ensures Terminated(AppendAll(h, content, chain, events))
    decreases events
  {
    var before := Events(h, content).value;
    if events == [] {
      assert before + events == before;
    } else {
      assert Recordable(events[0]);
      AppendAddsOneRecord(h, content, chain, events[0]);
      AppendAllVerifies(h, Appended(h, content, chain, events[0]), ChainStep(h, chain, events[0]), events[1..]);
      MoveOne(before, events);
    }
  }

  /** However the appends are split over reopenings, the ledger verifies and holds the old
      events and then the new ones. */
  lemma {:induction false} SessionsVerify(h: Hash, content: seq<byte>, sessions: seq<seq<seq<byte>>>)
    requires Events(h, content).Some? && Terminated(content)
    requires forall e :: e in Flatten(sessions) ==> Recordable(e)
    ensures Events(h, Sessions(h, content, sessions)) == Some(Events(h, content).value + Flatten(sessions))
    ensures Terminated(Sessions(h, content, sessions))
    decreases sessions
  {
    var before := Events(h, content).value;
    if sessions == [] {
      assert before + [] == before;
    } else {
      assert forall e :: e in sessions[0] || e in Flatten(sessions[1..]) ==> e in Flatten(sessions);
      var after := AppendAll(h, content, TailDigest(content), sessions[0]);
      AppendAllVerifies(h, content, TailDigest(content), sessions[0]);
      SessionsVerify(h, after, sessions[1..]);
      Associative(before, sessions[0], Flatten(sessions[1..]));
    }
  }

  // --- When an append breaks the ledger ----------------------------------------------

  /** A text that does not end in a newline has a last line, which runs to its end. */
  lemma {:induction false} LinesAppendTorn(a: seq<byte>, b: seq<byte>)
    returns (front: seq<seq<byte>>, last: seq<byte>)
    requires !Terminated(a) && NEWLINE !in b
    ensures Lines(a) == front + [last] && last != []
    ensures Lines(a + (b + [NEWLINE])) == front + [last + b]
    decreases |a|
  {
    if LineEnd(a) == |a| {
      front, last := TornOnly(a, b);
    } else {
      var rest := TornRest(a);
      var later;
      later, last := LinesAppendTorn(rest, b);
      front := LaterTorn(a, b + [NEWLINE], later, last, last + b);
    }
  }

  lemma LaterTorn(a: seq<byte>, tail: seq<byte>, later: seq<seq<byte>>, last: seq<byte>, longer: seq<byte>)
    returns (front: seq<seq<byte>>)
    requires LineEnd(a) < |a| && Lines(a[LineEnd(a) + 1..]) == later + [last]
    requires Lines(a[LineEnd(a) + 1..] + tail) == later + [longer]
    ensures Lines(a) == front + [last] && Lines(a + tail) == front + [longer]
  {
    var first := a[..LineEnd(a)];
    front := [first] + later;
    FirstLineStays(a, tail);
    Associative([first], later, [last]);
    Associative([first], later, [longer]);
  }

  lemma TornRest(a: seq<byte>) returns (rest: seq<byte>)
    requires !Terminated(a) && LineEnd(a) < |a|
    ensures rest == a[LineEnd(a) + 1..] && |rest| < |a| && !Terminated(rest)
  {
    rest := a[LineEnd(a) + 1..];
  }

  lemma TornOnly(a: seq<byte>, b: seq<byte>) returns (front: seq<seq<byte>>, last: seq<byte>)
    requires a != [] && LineEnd(a) == |a| && NEWLINE !in b
    ensures Lines(a) == front + [last] && last != []
    ensures Lines(a + (b + [NEWLINE])) == front + [last + b]
  {
    front, last := [], a;
    assert a[..|a|] == a;
    assert NEWLINE !in a + b;
    LinesOfOne(a + b);
    assert a + (b + [NEWLINE]) == a + b + [NEWLINE];
  }

  lemma FirstLineStays(a: seq<byte>, tail: seq<byte>)
    requires LineEnd(a) < |a|
    ensures Lines(a + tail) == [a[..LineEnd(a)]] + Lines(a[LineEnd(a) + 1..] + tail)
  {
    var n, all := LineEnd(a), a + tail;
    assert all[..n] == a[..n];
    LineEndUnique(all, n);
    assert all[n + 1..] == a[n + 1..] + tail;
  }

  /** A good record that is run on stays good exactly when the hash takes the two different
      texts for one. */
  lemma LongerRecordExact(h: Hash, prev: Digest, line: seq<byte>, more: seq<byte>)
    requires GoodRecord(h, prev, line) && more != []
    ensures var x, y := prev + line[65..], prev + (line + more)[65..];
      x != y && (GoodRecord(h, prev, line + more) <==> h(x) == h(y))
  {
    assert (line + more)[..64] == line[..64];
    assert |prev + line[65..]| < |prev + (line + more)[65..]|;
  }

  /** Where an append runs on the last line of a ledger that does not end in a newline: the chain
      before that line, and the two texts that then have to hash alike. */
  ghost function Before(h: Hash, content: seq<byte>): Digest
    requires Events(h, content).Some? && Lines(content) != []
  {
    var lines := Lines(content);
    var front, last := lines[..|lines| - 1], lines[|lines| - 1];
    assert lines == front + [last];
    FrontReplays(h, GENESIS, front, last);
    Chain(h, GENESIS, Replay(h, GENESIS, front).value)
  }

  ghost predicate RunOnHashesAlike(h: Hash, content: seq<byte>, record: seq<byte>)
    requires Events(h, content).Some?
  {
    var lines := Lines(content);
    && lines != [] && |lines[|lines| - 1]| >= 65
    && var prev, last := Before(h, content), lines[|lines| - 1];
       var x, y := prev + last[65..], prev + (last + record)[65..];
       x != y && h(x) == h(y)
  }

  /** Appending a single-line event to a verifying ledger, with whatever chain the log holds, leaves
      a verifying ledger exactly: if it ends in a newline, when the event is not empty and hashes
      over that chain as it does over the ledger's own; if it does not, when the hash cannot tell
      the last record's text from that text run on with the new record. */
  lemma AppendVerifiesIff(h: Hash, content: seq<byte>, chain: Digest, event: seq<byte>)
    requires Events(h, content).Some? && NEWLINE !in event
    ensures Events(h, Appended(h, content, chain, event)).Some? <==>
      if Terminated(content) then event != [] && h(chain + event) == h(TailDigest(content) + event)
      else RunOnHashesAlike(h, content, Record(h, chain, event))
  {
    if Terminated(content) {
      var line := Record(h, chain, event);
      AppendAddsOneLine(h, content, chain, event);
      TailIsChain(h, content, TailDigest(content));
      ReplayAppend(h, GENESIS, Lines(content), [line]);
      ReplayOne(h, TailDigest(content), line);
      RecordOverAnotherChain(h, TailDigest(content), chain, event);
    } else {
      TornAppendExact(h, content, chain, event);
    }
  }

  /** A record made over one chain is good over another exactly when the two hash alike. */
  lemma RecordOverAnotherChain(h: Hash, prev: Digest, chain: Digest, event: seq<byte>)
    ensures GoodRecord(h, prev, Record(h, chain, event)) <==> event != [] && h(chain + event) == h(prev + event)
  {
    var line := Record(h, chain, event);
    assert line[..64] == ToHex(ChainStep(h, chain, event)) && line[65..] == event;
    HexIsExact(line[..64], ChainStep(h, chain, event));
  }

  lemma ReplayOne(h: Hash, prev: Digest, line: seq<byte>)
    requires line != []
    ensures Replay(h, prev, [line]).Some? <==> GoodRecord(h, prev, line)
  {
    var one: seq<seq<byte>> := [line];
    assert one[1..] == [];
  }

  lemma TornAppendExact(h: Hash, content: seq<byte>, chain: Digest, event: seq<byte>)
    requires Events(h, content).Some? && !Terminated(content) && NEWLINE !in event
    ensures Events(h, Appended(h, content, chain, event)).Some?
       <==> RunOnHashesAlike(h, content, Record(h, chain, event))
  {
    var line := Record(h, chain, event);
    RecordHasNoNewline(h, chain, event);
    var front, last := LinesAppendTorn(content, line);
    assert Appended(h, content, chain, event) == content + (line + [NEWLINE]);
    var lines := Lines(content);
    assert lines[..|lines| - 1] == front && lines[|lines| - 1] == last;
    FrontReplays(h, GENESIS, front, last);
    ReplayAppend(h, GENESIS, front, [last]);
    ReplayAppend(h, GENESIS, front, [last + line]);
    ReplayOne(h, Before(h, content), last);
    ReplayOne(h, Before(h, content), last + line);
    LongerRecordExact(h, Before(h, content), last, line);
  }

  // --- Tamper evidence ---------------------------------------------------------------

  /** The i-th links of two chains hash two different texts to one digest. */
  ghost predicate LinksCollide(h: Hash, a: seq<seq<byte>>, b: seq<seq<byte>>, i: nat)
    requires i < |a| && i < |b|
  {
    var x, y := Chain(h, GENESIS, a[..i]) + a[i], Chain(h, GENESIS, b[..i]) + b[i];
    x != y && h(x) == h(y)
  }

  lemma CollideInLonger(h: Hash, a: seq<seq<byte>>, b: seq<seq<byte>>, n: nat, i: nat)
    requires |a| == |b| == n + 1 && i < n && a[n] == b[n]
    requires LinksCollide(h, a[..n], b[..n], i) && a[..n][i + 1..] == b[..n][i + 1..]
    ensures LinksCollide(h, a, b, i) && a[i + 1..] == b[i + 1..]
  {
    assert a[..n][..i] == a[..i] && b[..n][..i] == b[..i];
    assert a[i + 1..] == a[..n][i + 1..] + [a[n]];
    assert b[i + 1..] == b[..n][i + 1..] + [b[n]];
  }

  lemma EqualFronts(a: seq<seq<byte>>, b: seq<seq<byte>>, n: nat)
    requires |a| == |b| == n + 1 && a[..n] == b[..n] && a[n] == b[n]
    ensures a == b
  {
    assert a == a[..n] + [a[n]] && b == b[..n] + [b[n]];
  }

  /** Equally long chains that end alike are equal, or collide at a link after which they are. */
  lemma {:induction false} ChainsAgree(h: Hash, a: seq<seq<byte>>, b: seq<seq<byte>>) returns (i: nat)
    requires |a| == |b| && Chain(h, GENESIS, a) == Chain(h, GENESIS, b)
    ensures a == b || (i < |a| && LinksCollide(h, a, b, i) && a[i + 1..] == b[i + 1..])
  {
    i := 0;
    if a != [] {
      var n := |a| - 1;
      var p, q := Chain(h, GENESIS, a[..n]), Chain(h, GENESIS, b[..n]);
      if p + a[n] != q + b[n] {
        i := n;
      } else {
        DigestsEnd(p, a[n], q, b[n]);
        i := ChainsAgree(h, a[..n], b[..n]);
        if a[..n] == b[..n] { EqualFronts(a, b, n); } else { CollideInLonger(h, a, b, n, i); }
      }
    }
  }

  lemma DigestsEnd(p: Digest, a: seq<byte>, q: Digest, b: seq<byte>)
    requires p + a == q + b
    ensures p == q && a == b
  {
    assert p == (p + a)[..32] && q == (q + b)[..32];
    assert a == (p + a)[32..] && b == (q + b)[32..];
  }

  /** Two verifying ledgers with the same number of records that end in the same hash hold the
      same events in the same order; or the hash takes two different link texts of theirs, the
      ones at a link handed over, for one. */
  lemma TamperEvidence(h: Hash, a: seq<byte>, b: seq<byte>) returns (i: nat)
    requires Events(h, a).Some? && Events(h, b).Some?
    requires |Events(h, a).value| == |Events(h, b).value| && TailDigest(a) == TailDigest(b)
    ensures var x, y := Events(h, a).value, Events(h, b).value;
      x == y || (i < |x| && LinksCollide(h, x, y, i) && x[i + 1..] == y[i + 1..])
  {
    TailIsChain(h, a, TailDigest(a));
    TailIsChain(h, b, TailDigest(b));
    i := ChainsAgree(h, Events(h, a).value, Events(h, b).value);
  }

  // --- The methods -------------------------------------------------------------------

  lemma {:induction false} ToHexSnoc(data: seq<byte>, x: byte)
    ensures ToHex(data + [x]) == ToHex(data) + [HexDigit(x / 16), HexDigit(x % 16)]
  {
    if data != [] {
      assert (data + [x])[1..] == data[1..] + [x];
      ToHexSnoc(data[1..], x);
    }
  }

  method HexOf(data: seq<byte>) returns (out: seq<byte>)
    ensures out == ToHex(data)
  {
    out := [];
    for i := 0 to |data|
      invariant out == ToHex(data[..i])
    {
      ToHexSnoc(data[..i], data[i]);
      assert data[..i + 1] == data[..i] + [data[i]];
      out := out + [HexDigit(data[i] / 16)];
      out := out + [HexDigit(data[i] % 16)];
    }
    assert data[..|data|] == data;
  }

  /** from_hex64: on failure the output keeps what was written before the first bad pair. */
  method FromHex64(hex: seq<byte>, out: array<byte>) returns (ok: bool)
    requires out.Length == 32
    modifies out
    ensures ok <==> |hex| == 64 && FromHex(hex).Some?
    ensures ok ==> FromHex(hex) == Some(out[..])
    ensures out[..] == if |hex| == 64 then DecodeInto(hex, 0, old(out[..])).0 else old(out[..])
  {
    if |hex| != 64 { return false; }
    ghost var was := out[..];
    GoodHexFills(hex, was);
    for i := 0 to 32
      invariant DecodeInto(hex, 0, was) == DecodeInto(hex, i, out[..])
    {
      var hi := Nibble(hex[2 * i]);
      var lo := Nibble(hex[2 * i + 1]);
      if hi < 0 || lo < 0 { return false; }
      ghost var now: seq<byte> := out[..];
      out[i] := 16 * hi + lo;
      assert out[..] == now[i := 16 * hi + lo];
    }
    return true;
  }

  /** getline: the next line and what is left, or nothing at the end of the text. */
  method GetLine(text: seq<byte>) returns (line: Option<seq<byte>>, rest: seq<byte>)
    ensures line.None? <==> text == []
    ensures line.Some? ==> |rest| < |text| && Lines(text) == [line.value] + Lines(rest)
  {
    if text == [] { return None, []; }
    var n := LineEnd(text);
    if n == |text| { return Some(text), []; }
    return Some(text[..n]), text[n + 1..];
  }

  /** verify: replay every link, count the records. */
  method Verify(h: Hash, file: Option<seq<byte>>) returns (r: Option<nat>)
    ensures file.None? ==> r == Some(0)
    ensures file.Some? ==>
      match Events(h, file.value)
      case None => r == None
      case Some(events) => r == Some(|events|)
  {
    if file.None? { return Some(0); }
    var chain: Digest := GENESIS;
    var count := 0;
    var claimed := new byte[32];
    var line, rest := GetLine(file.value);
    while line.Some?
      invariant
        var all, left := Events(h, file.value),
                         Replay(h, chain, if line.Some? then [line.value] + Lines(rest) else []);
        && (all.Some? <==> left.Some?)
        && (all.Some? ==> |all.value| == count + |left.value|)
      decreases line.Some?, |rest|
    {
      var l := line.value;
      ghost var here: seq<seq<byte>> := [l] + Lines(rest);
      assert here[1..] == Lines(rest);
      if l != [] {
        if |l| < 66 || l[64] != SPACE { return None; }
        var ok := FromHex64(l[..64], claimed);
        if !ok { return None; }
        var wanted := ChainStep(h, chain, l[65..]);
        if claimed[..] != wanted { return None; }
        chain := wanted;
        count := count + 1;
      }
      line, rest := GetLine(rest);
    }
    r := Some(count);
  }

  /** The ledger file on disk; None while it does not exist. */
  class LedgerFile {
    var content: Option<seq<byte>>

    constructor (content: Option<seq<byte>>)
      ensures this.content == content
    {
      this.content := content;
    }

    function Bytes(): seq<byte>
      reads this
    {
      if content.Some? then content.value else []
    }
  }

  datatype AppendError = MultiLine | CannotOpen | WriteFailed

  /** An opened ledger: the chain it continues, loaded from the file at the first append. */
  class Log {
    const file: LedgerFile
    const hash: Hash
    const chain: array<byte>
    var loaded: bool

    ghost predicate Valid() { chain.Length == 32 }

    constructor (file: LedgerFile, hash: Hash)
      ensures Valid() && this.file == file && this.hash == hash && !loaded
      ensures fresh(chain) && chain[..] == GENESIS
    {
      this.file, this.hash, this.loaded := file, hash, false;
      this.chain := new byte[32](i => 0);
      new;
      ZerosAreZero(32);
    }

    /** load_tail: remember the last non-empty line, take its hash. */
    method LoadTail()
      requires Valid() && !loaded && chain[..] == GENESIS
      modifies this, chain
      ensures loaded && chain[..] == TailDigest(file.Bytes())
    {
      var last: seq<byte> := [];
      var line, rest := GetLine(file.Bytes());
      while line.Some?
        invariant chain[..] == GENESIS
        invariant LastRecord(Lines(file.Bytes())) ==
          var later := LastRecord(if line.Some? then [line.value] + Lines(rest) else []);
          if later == [] then last else later
        decreases line.Some?, |rest|
      {
        LastRecordCons(line.value, Lines(rest));
        if line.value != [] { last := line.value; }
        line, rest := GetLine(rest);
      }
      if |last| >= 64 { var _ := FromHex64(last[..64], chain); }
      loaded := true;
    }

    /** append: one record at the end of the file, or a reason; a write that fails may leave a
        part of the record behind, and the chain stays where it was. */
    method Append(event: seq<byte>) returns (r: Result<(), AppendError>, ghost prev: Digest)
      requires Valid() && (!loaded ==> chain[..] == GENESIS)
      modifies this, chain, file
      ensures Valid() && (!loaded ==> chain[..] == GENESIS)
      ensures old(loaded) ==> loaded && prev == old(chain[..])
      ensures !old(loaded) && loaded ==> prev == TailDigest(old(file.Bytes()))
      ensures NEWLINE in event <==> r == Err(MultiLine)
      ensures r != Err(MultiLine) ==> loaded
      ensures r == Err(MultiLine) ==> file.content == old(file.content) && loaded == old(loaded)
      ensures r.Ok? ==>
        && loaded && file.content == Some(Appended(hash, old(file.Bytes()), prev, event))
        && chain[..] == ChainStep(hash, prev, event)
      ensures r.Err? && loaded ==>
        && chain[..] == (if r == Err(MultiLine) then old(chain[..]) else prev)
        && old(file.Bytes()) <= file.Bytes() <= Appended(hash, old(file.Bytes()), prev, event)
    {
      prev := chain[..];
      if NEWLINE in event {
        assert file.Bytes() <= Appended(hash, file.Bytes(), prev, event);
        return Err(MultiLine), prev;
      }
      if !loaded { LoadTail(); }
      prev := chain[..];
      ghost var before := file.Bytes();
      var next := ChainStep(hash, chain[..], event);
      var hex := HexOf(next);
      var line := hex + [SPACE] + event + [NEWLINE];
      LineIsAppended(hash, before, prev, event, line);
      var usable: bool := *;
      if !usable { return Err(CannotOpen), prev; }
      var flushed: bool := *;
      var k: nat :| k <= |line| && (flushed ==> k == |line|);
      file.content := Some(file.Bytes() + line[..k]);
      PartWritten(before, line, k);
      if !flushed { return Err(WriteFailed), prev; }
      forall i | 0 <= i < 32 { chain[i] := next[i]; }
      assert chain[..] == next;
      return Ok(()), prev;
    }
  }

  lemma LineIsAppended(h: Hash, before: seq<byte>, prev: Digest, event: seq<byte>, line: seq<byte>)
    requires line == ToHex(ChainStep(h, prev, event)) + [SPACE] + event + [NEWLINE]
    ensures before + line == Appended(h, before, prev, event)
    ensures before <= before + line
  {}

  lemma PartWritten(before: seq<byte>, line: seq<byte>, k: nat)
    requires k <= |line|
    ensures before <= before + line[..k] <= before + line
    ensures k == |line| ==> before + line[..k] == before + line
  {
    assert before + line == (before + line[..k]) + line[k..];
  }

  lemma {:induction false} ZerosAreZero(n: nat)
    ensures Zeros(n) == seq(n, i => 0)
  {
    if n > 0 { ZerosAreZero(n - 1); }
  }

  lemma {:induction false} LastRecordCons(line: seq<byte>, rest: seq<seq<byte>>)
    ensures LastRecord([line] + rest) == if LastRecord(rest) == [] then line else LastRecord(rest)
  {
    var all := [line] + rest;
    if rest == [] {
      assert all[..0] == [];
    } else {
      assert all[..|all| - 1] == [line] + rest[..|rest| - 1];
      LastRecordCons(line, rest[..|rest| - 1]);
    }
  }
}
