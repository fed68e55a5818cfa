/** The framed, authenticated channel of platform/ipc: pipe.cpp's loops over partial transfers
    and secret_channel.cpp's length-prefixed frames behind a stream header. */
module SecretChannel {
  import opened Bytes

  const HEADER_BYTES: nat := 24
  const ABYTES: nat := 17
  const MAX_FRAME: nat := 0x10_0000

  /** One direction of the secret stream: frame i is sealed and opened with counter i. */
  datatype Cipher = Cipher(
    header: seq<byte>,
    push: (nat, seq<byte>) -> seq<byte>,
    pull: (nat, seq<byte>) -> Option<seq<byte>>)

  /** What is sealed opens, with the overhead of the format. */
  ghost predicate Inverse(c: Cipher)
  {
    |c.header| == HEADER_BYTES
    && forall i: nat, m :: |c.push(i, m)| == |m| + ABYTES && c.pull(i, c.push(i, m)) == Some(m)
  }

  /** init_pull under the session key: the stream a peer's header starts, or a refusal. */
  type Acceptor = seq<byte> -> Option<Cipher>

  predicate Sendable(m: seq<byte>) { |m| <= MAX_FRAME - ABYTES }

  // --- The wire format ---------------------------------------------------------------

  function Frame(c: Cipher, i: nat, m: seq<byte>): seq<byte>
  {
    U32(Wrap32(|c.push(i, m)|)) + c.push(i, m)
  }

  function Frames(c: Cipher, i: nat, ms: seq<seq<byte>>): seq<byte>
    decreases ms
  {
    if ms == [] then [] else Frame(c, i, ms[0]) + Frames(c, i + 1, ms[1..])
  }

  /** Everything a sender writes: its header, then its frames. */
  function Wire(c: Cipher, ms: seq<seq<byte>>): seq<byte>
  {
    c.header + Frames(c, 0, ms)
  }

  datatype Received = Got(msg: seq<byte>, rest: seq<byte>) | Gone | BadHeader | BadLength | BadAuth

  /** One frame off the wire, once the header has been read. */
  function ReceiveFrame(c: Cipher, i: nat, wire: seq<byte>): Received
  {
    if |wire| < 4 then Gone
    else
      var n := Number(wire[..4]);
      if n < ABYTES || n > MAX_FRAME then BadLength
      else if |wire| - 4 < n then Gone
      else
        match c.pull(i, wire[4..4 + n])
        case None => BadAuth
        case Some(m) => Got(m, wire[4 + n..])
  }

  /** recv: the peer's header first, if no stream has been accepted yet. */
  function Receive(accept: Acceptor, opener: Option<Cipher>, i: nat, wire: seq<byte>): Received
  {
    match opener
    case Some(c) => ReceiveFrame(c, i, wire)
    case None =>
      if |wire| < HEADER_BYTES then Gone
      else
        match accept(wire[..HEADER_BYTES])
        case None => BadHeader
        case Some(c) => ReceiveFrame(c, i, wire[HEADER_BYTES..])
  }

  /** All messages a receiver gets before the stream ends, and how it ends. */
  function ReceiveAll(c: Cipher, i: nat, wire: seq<byte>): (seq<seq<byte>>, Received)
    decreases |wire|
  {
    match ReceiveFrame(c, i, wire)
    case Got(m, rest) =>
      var (ms, end) := ReceiveAll(c, i + 1, rest);
      ([m] + ms, end)
    case end => ([], end)
  }

  /** The same from the first byte of the stream on. */
  function ReceiveStream(accept: Acceptor, wire: seq<byte>): (seq<seq<byte>>, Received)
  {
    if |wire| < HEADER_BYTES then ([], Gone)
    else
      match accept(wire[..HEADER_BYTES])
      case None => ([], BadHeader)
      case Some(c) => ReceiveAll(c, 0, wire[HEADER_BYTES..])
  }

  /** The receiver has the sender's key: the sender's header starts the sender's stream. */
  ghost predicate Shared(accept: Acceptor, c: Cipher)
  {
    Inverse(c) && accept(c.header) == Some(c)
  }

  /** A frame is sent up to a mebibyte less the overhead, and received from the bare overhead up to a
      mebibyte; its length comes first, the low byte leading. */
  lemma FrameLimits(c: Cipher, i: nat, m: seq<byte>, wire: seq<byte>)
    requires Inverse(c)
    ensures |Wire(c, [])| == 24
    ensures Sendable(m) <==> |m| + 17 <= 1_048_576
    ensures ReceiveFrame(c, i, wire) == BadLength <==>
      |wire| >= 4
      && var n := Word(wire[0], wire[1], wire[2], wire[3]); n < 17 || n > 1_048_576
  {
    if |wire| >= 4 { FourDigits(wire[..4]); }
  }

  /** Four bytes of a length, the low one first. */
  function Word(a: int, b: int, c: int, d: int): int { a + 0x100 * b + 0x1_0000 * c + 0x100_0000 * d }

  lemma FourDigits(b: seq<byte>)
    requires |b| == 4
    ensures Number(b) == Word(b[0], b[1], b[2], b[3])
  {
    var x, y, z := b[1..], b[1..][1..], b[1..][1..][1..];
    assert Number(z[1..]) == 0 && Number(z) == z[0];
    assert Number(y) == y[0] + 256 * Number(z) && Number(x) == x[0] + 256 * Number(y);
  }

  // --- Frames arrive as sent ---------------------------------------------------------

  lemma FrameReads(c: Cipher, i: nat, m: seq<byte>, wire: seq<byte>)
    requires Inverse(c) && Sendable(m) && Frame(c, i, m) <= wire
    ensures ReceiveFrame(c, i, wire) == Got(m, wire[|Frame(c, i, m)|..])
  {
    var f, ct := Frame(c, i, m), c.push(i, m);
    U32RoundTrip(|ct|);
    assert wire[..|f|] == f;
    assert wire[..4] == f[..4] == U32(|ct|);
    assert wire[4..4 + |ct|] == f[4..] == ct;
  }

  lemma FrameTorn(c: Cipher, i: nat, m: seq<byte>, wire: seq<byte>)
    requires Inverse(c) && Sendable(m) && wire < Frame(c, i, m)
    ensures ReceiveFrame(c, i, wire) == Gone
  {
    var f, ct := Frame(c, i, m), c.push(i, m);
    U32RoundTrip(|ct|);
    if |wire| >= 4 { assert wire[..4] == f[..4] == U32(|ct|); }
  }

  /** The number of frames that are complete within the first n bytes. */
  function Complete(c: Cipher, i: nat, ms: seq<seq<byte>>, n: int): (k: nat)
    ensures k <= |ms|
    decreases ms
  {
    if ms == [] || n < |Frame(c, i, ms[0])| then 0
    else 1 + Complete(c, i + 1, ms[1..], n - |Frame(c, i, ms[0])|)
  }

  lemma {:induction false} FramesDeliver(c: Cipher, i: nat, ms: seq<seq<byte>>, wire: seq<byte>)
    requires Inverse(c) && (forall m :: m in ms ==> Sendable(m)) && wire <= Frames(c, i, ms)
    ensures ReceiveAll(c, i, wire) == (ms[..Complete(c, i, ms, |wire|)], Gone)
    decreases |ms|
  {
    if ms != [] {
      var f, rest := Frame(c, i, ms[0]), Frames(c, i + 1, ms[1..]);
      PrefixOfSum(wire, f, rest);
      if |wire| < |f| {
        FrameTorn(c, i, ms[0], wire);
      } else {
        FrameReads(c, i, ms[0], wire);
        FramesDeliver(c, i + 1, ms[1..], wire[|f|..]);
        TakeOneMore(ms, Complete(c, i + 1, ms[1..], |wire| - |f|));
      }
    }
  }

  lemma TakeOneMore(ms: seq<seq<byte>>, k: nat)
    requires k < |ms|
    ensures ms[..1 + k] == [ms[0]] + ms[1..][..k]
  {}

  /** Wherever the sender stops or the pipe breaks, the receiver has got exactly the frames that
      were completely written, in order, and then learns that the peer is gone. */
  lemma PrefixDelivers(accept: Acceptor, c: Cipher, ms: seq<seq<byte>>, wire: seq<byte>)
    requires Shared(accept, c) && (forall m :: m in ms ==> Sendable(m)) && wire <= Wire(c, ms)
    ensures ReceiveStream(accept, wire) == (ms[..Complete(c, 0, ms, |wire| - HEADER_BYTES)], Gone)
  {
    if |wire| >= HEADER_BYTES {
      PrefixOfSum(wire, c.header, Frames(c, 0, ms));
      FramesDeliver(c, 0, ms, wire[HEADER_BYTES..]);
    }
  }

  lemma {:induction false} AllComplete(c: Cipher, i: nat, ms: seq<seq<byte>>)
    ensures Complete(c, i, ms, |Frames(c, i, ms)|) == |ms|
    decreases ms
  {
    if ms != [] { AllComplete(c, i + 1, ms[1..]); }
  }

  /** With nothing lost, everything sent is received. */
  lemma WholeWireDelivers(accept: Acceptor, c: Cipher, ms: seq<seq<byte>>)
    requires Shared(accept, c) && forall m :: m in ms ==> Sendable(m)
    ensures ReceiveStream(accept, Wire(c, ms)) == (ms, Gone)
  {
    PrefixDelivers(accept, c, ms, Wire(c, ms));
    AllComplete(c, 0, ms);
    assert ms[..|ms|] == ms;
  }

  // --- Wires an endpoint without the key has touched ---------------------------------

  /** What the length words of a wire cut it into, whether it opens or not. */
  function Ciphertexts(wire: seq<byte>): seq<seq<byte>>
    decreases |wire|
  {
    if |wire| < 4 then []
    else
      var n := Number(wire[..4]);
      if n < ABYTES || n > MAX_FRAME || |wire| - 4 < n then []
      else [wire[4..4 + n]] + Ciphertexts(wire[4 + n..])
  }

  /** None of these ciphertexts opens under any of the counters they may meet, but for what the
      key holder sealed under that counter. */
  ghost predicate NoneForged(c: Cipher, sent: seq<seq<byte>>, cts: seq<seq<byte>>)
  {
    forall i: nat, ct :: i < |cts| && ct in cts && c.pull(i, ct).Some? ==>
      i < |sent| && ct == c.push(i, sent[i])
  }

  lemma {:induction false} UnforgedFrames(c: Cipher, sent: seq<seq<byte>>, cts: seq<seq<byte>>, i: nat, wire: seq<byte>)
    requires Inverse(c) && NoneForged(c, sent, cts)
    requires i <= |sent| && i <= |cts| && cts[i..] == Ciphertexts(wire)
    ensures var ms := ReceiveAll(c, i, wire).0;
      ms <= sent[i..] && Frames(c, i, ms) <= wire
    decreases |wire|
  {
    var r := ReceiveFrame(c, i, wire);
    if r.Got? {
      var n := Number(wire[..4]);
      var ct := wire[4..4 + n];
      assert cts[i] == cts[i..][0] == ct && cts[i + 1..] == cts[i..][1..];
      assert ct == c.push(i, sent[i]) && r.msg == sent[i];
      UnforgedFrames(c, sent, cts, i + 1, r.rest);
      var more := ReceiveAll(c, i + 1, r.rest).0;
      OneMoreSent(sent, i, more);
      FrameAtFront(c, i, sent[i], wire, more);
    }
  }

  lemma OneMoreSent(sent: seq<seq<byte>>, i: nat, more: seq<seq<byte>>)
    requires i < |sent| && more <= sent[i + 1..]
    ensures [sent[i]] + more <= sent[i..]
  {
    assert sent[i..] == [sent[i]] + sent[i + 1..];
  }

  lemma FrameAtFront(c: Cipher, i: nat, m: seq<byte>, wire: seq<byte>, more: seq<seq<byte>>)
    requires |wire| >= 4
    requires var n := Number(wire[..4]);
      n <= MAX_FRAME && 4 + n <= |wire| && wire[4..4 + n] == c.push(i, m) && Frames(c, i + 1, more) <= wire[4 + n..]
    ensures Frames(c, i, [m] + more) <= wire
  {
    var n := Number(wire[..4]);
    LittleEndianOfNumber(wire[..4]);
    LengthAndText(wire, 4 + n);
    FrontGrows(Frame(c, i, m), Frames(c, i + 1, more), wire);
    assert ([m] + more)[1..] == more;
  }

  lemma LengthAndText(wire: seq<byte>, end: nat)
    requires 4 <= end <= |wire|
    ensures wire[..4] + wire[4..end] == wire[..end]
  {}

  lemma FrontGrows(f: seq<byte>, rest: seq<byte>, wire: seq<byte>)
    requires f <= wire && rest <= wire[|f|..]
    ensures f + rest <= wire
  {
    assert wire == f + wire[|f|..];
  }

  /** Whatever bytes an endpoint without the key puts on the wire, header included: unless it
      forges a ciphertext among them, the receiver accepts only a prefix of what the key holder
      sent, and what it accepts is the front of the wire just as the key holder wrote it. */
  lemma TamperedWireDeliversPrefix(accept: Acceptor, c: Cipher, sent: seq<seq<byte>>, wire: seq<byte>)
    requires Shared(accept, c)
    requires |wire| >= HEADER_BYTES && accept(wire[..HEADER_BYTES]).Some? ==>
      var d := accept(wire[..HEADER_BYTES]).value;
      Inverse(d)
      && NoneForged(d, if wire[..HEADER_BYTES] == c.header then sent else [], Ciphertexts(wire[HEADER_BYTES..]))
    ensures var ms := ReceiveStream(accept, wire).0;
      ms <= sent && (ms != [] ==> Wire(c, ms) <= wire)
  {
    if |wire| >= HEADER_BYTES && accept(wire[..HEADER_BYTES]).Some? {
      var header, frames := wire[..HEADER_BYTES], wire[HEADER_BYTES..];
      var d, own := accept(header).value, if header == c.header then sent else [];
      var cts := Ciphertexts(frames);
      assert cts[0..] == cts && own[0..] == own;
      UnforgedFrames(d, own, cts, 0, frames);
      var ms := ReceiveAll(d, 0, frames).0;
      if header == c.header {
        assert wire == header + frames;
        assert (header + frames)[..HEADER_BYTES + |Frames(c, 0, ms)|] == header + frames[..|Frames(c, 0, ms)|];
      }
    }
  }

  // Such streams exist: one that ends every ciphertext in its counter.

  function Tagged(): Cipher
  {
    Cipher(
      LittleEndian(0, HEADER_BYTES),
      (i: nat, m: seq<byte>) => m + LittleEndian(i, ABYTES),
      (i: nat, ct: seq<byte>) =>
        if |ct| >= ABYTES && ct[|ct| - ABYTES..] == LittleEndian(i, ABYTES) then Some(ct[..|ct| - ABYTES]) else None)
  }

  lemma FieldsOf(len: seq<byte>, ct: seq<byte>, rest: seq<byte>)
    requires |len| == 4
    ensures var wire := len + ct + rest;
      wire[..4] == len && wire[4..4 + |ct|] == ct && wire[4 + |ct|..] == rest
  {}

  lemma CutOne(len: seq<byte>, ct: seq<byte>, rest: seq<byte>)
    requires |len| == 4 && Number(len) == |ct| && ABYTES <= |ct| <= MAX_FRAME
    ensures Ciphertexts(len + ct + rest) == [ct] + Ciphertexts(rest)
  {
    FieldsOf(len, ct, rest);
  }

  lemma FirstCiphertext(c: Cipher, i: nat, m: seq<byte>, rest: seq<byte>)
    requires Inverse(c) && Sendable(m)
    ensures Ciphertexts(Frame(c, i, m) + rest) == [c.push(i, m)] + Ciphertexts(rest)
  {
    var len := FrameLength(c, i, m);
    CutOne(len, c.push(i, m), rest);
  }

  lemma FrameLength(c: Cipher, i: nat, m: seq<byte>) returns (len: seq<byte>)
    requires Inverse(c) && Sendable(m)
    ensures |len| == 4 && Number(len) == |c.push(i, m)| && Frame(c, i, m) == len + c.push(i, m)
  {
    len := U32(|c.push(i, m)|);
    U32RoundTrip(|c.push(i, m)|);
  }

  function Sealed(c: Cipher, i: nat, ms: seq<seq<byte>>): (cts: seq<seq<byte>>)
    ensures |cts| == |ms| && forall k :: 0 <= k < |ms| ==> cts[k] == c.push(i + k, ms[k])
    decreases ms
  {
    if ms == [] then [] else [c.push(i, ms[0])] + Sealed(c, i + 1, ms[1..])
  }

  lemma {:induction false} CiphertextsOfFrames(c: Cipher, i: nat, ms: seq<seq<byte>>)
    requires Inverse(c) && forall m :: m in ms ==> Sendable(m)
    ensures Ciphertexts(Frames(c, i, ms)) == Sealed(c, i, ms)
    decreases ms
  {
    if ms != [] {
      FirstCiphertext(c, i, ms[0], Frames(c, i + 1, ms[1..]));
      CiphertextsOfFrames(c, i + 1, ms[1..]);
    }
  }

  lemma TaggedInverse()
    ensures Inverse(Tagged())
  {
    var c := Tagged();
    forall i: nat, m: seq<byte> ensures c.pull(i, c.push(i, m)) == Some(m) {
      Halves(m, LittleEndian(i, ABYTES));
    }
  }

  lemma TagTells(i: nat, k: nat, m: seq<byte>)
    requires i < Pow256(ABYTES) && k < Pow256(ABYTES) && Tagged().pull(i, Tagged().push(k, m)).Some?
    ensures i == k
  {
    Halves(m, LittleEndian(k, ABYTES));
    NumberOfLittleEndian(i, ABYTES);
    NumberOfLittleEndian(k, ABYTES);
  }

  /** A wire nobody touched is unforged, where a ciphertext tells its counter. */
  lemma OwnWireIsUnforged(c: Cipher, sent: seq<seq<byte>>)
    requires Inverse(c) && forall m :: m in sent ==> Sendable(m)
    requires forall i: nat, k: nat, m :: i < |sent| && k < |sent| && c.pull(i, c.push(k, m)).Some? ==> i == k
    ensures NoneForged(c, sent, Ciphertexts(Frames(c, 0, sent)))
  {
    var cts := Ciphertexts(Frames(c, 0, sent));
    CiphertextsOfFrames(c, 0, sent);
    forall i: nat, ct | i < |cts| && ct in cts && c.pull(i, ct).Some?
      ensures i < |sent| && ct == c.push(i, sent[i])
    {
      var k: nat :| k < |cts| && cts[k] == ct;
      assert ct == c.push(k, sent[k]);
    }
  }

  lemma TagsTell(n: nat)
    requires n <= Pow256(ABYTES)
    ensures forall i: nat, k: nat, m :: i < n && k < n && Tagged().pull(i, Tagged().push(k, m)).Some? ==> i == k
  {
    forall i: nat, k: nat, m | i < n && k < n && Tagged().pull(i, Tagged().push(k, m)).Some?
      ensures i == k
    {
      TagTells(i, k, m);
    }
  }

  lemma UnforgedCanBeMet(sent: seq<seq<byte>>)
    requires |sent| <= Pow256(ABYTES) && forall m :: m in sent ==> Sendable(m)
    ensures Inverse(Tagged()) && NoneForged(Tagged(), sent, Ciphertexts(Frames(Tagged(), 0, sent)))
  {
    TaggedInverse();
    TagsTell(|sent|);
    OwnWireIsUnforged(Tagged(), sent);
  }

  // --- Pipes -------------------------------------------------------------------------

  /** An anonymous pipe: the bytes written so far, and how many of them have been read. */
  class Pipe {
    var written: seq<byte>
    var taken: nat

    ghost predicate Valid() reads this { taken <= |written| }

    function Available(): seq<byte>
      requires Valid()
      reads this
    {
      written[taken..]
    }

    constructor ()
      ensures Valid() && written == [] && taken == 0
    {
      written, taken := [], 0;
    }

    /** write_all: WriteFile may take any part of the rest, or fail. */
    method WriteAll(data: seq<byte>) returns (ok: bool)
      requires Valid()
      modifies this`written
      ensures Valid()
      ensures ok ==> written == old(written) + data
      ensures old(written) <= written <= old(written) + data
    {
      var at := 0;
      ghost var before := written;
      while at < |data|
        invariant 0 <= at <= |data| && Valid()
        invariant written == before + data[..at]
      {
        var success: bool := *;
        var n: nat :| n <= |data| - at;
        assert before + data == written + data[at..];
        if !success || n == 0 { return false; }
        written := written + data[at..at + n];
        at := at + n;
        assert data[..at] == data[..at - n] + data[at - n..at];
      }
      return true;
    }

    /** read_all: ReadFile may return any part of what is there, or fail; with nothing left the
        peer is gone. */
    method ReadAll(size: nat) returns (data: Option<seq<byte>>, ghost failed: bool)
      requires Valid()
      modifies this`taken
      ensures Valid()
      ensures data.Some? <==> !failed && old(|Available()|) >= size
      ensures data.Some? ==>
        data.value == old(Available())[..size] && Available() == old(Available())[size..]
    {
      var got: seq<byte> := [];
      ghost var all := Available();
      while |got| < size
        invariant |got| <= size && Valid()
        invariant got + Available() == all
        decreases size - |got|
      {
        var success: bool := *;
        if !success { return None, true; }
        if taken == |written| { return None, false; }
        var n: nat :| 0 < n <= size - |got| && n <= |written| - taken;
        TakeMore(got, written, taken, n);
        got := got + written[taken..taken + n];
        taken := taken + n;
      }
      Halves(got, Available());
      return Some(got), false;
    }
  }

  lemma TakeMore(got: seq<byte>, s: seq<byte>, from: nat, n: nat)
    requires from + n <= |s|
    ensures got + s[from..from + n] + s[from + n..] == got + s[from..]
  {
    Cut(s, from, from + n);
    Regroup(got, s[from..from + n], s[from + n..]);
  }

  lemma Regroup(a: seq<byte>, b: seq<byte>, c: seq<byte>)
    ensures a + (b + c) == a + b + c
  {}

  // --- The channel -------------------------------------------------------------------

  datatype SendResult = Sent | PeerGone | TooLarge

  /** One end: it seals into `output` with its own stream and opens from `input` the stream the
      peer's header starts. */
  class Channel {
    const input: Pipe
    const output: Pipe
    const sealer: Cipher
    const accept: Acceptor
    var pushed: nat
    var pulled: nat
    var opener: Option<Cipher>

    ghost predicate Valid()
      reads this, input, output
    {
      input != output && input.Valid() && output.Valid() && Inverse(sealer)
    }

    /** The own header is written eagerly; the peer's is read with the first message. */
    constructor (input: Pipe, output: Pipe, sealer: Cipher, accept: Acceptor)
      requires input != output && input.Valid() && output.Valid() && Inverse(sealer)
      ensures Valid() && this.input == input && this.output == output
      ensures this.sealer == sealer && this.accept == accept
      ensures pushed == 0 && pulled == 0 && opener == None
    {
      this.input, this.output, this.sealer, this.accept := input, output, sealer, accept;
      pushed, pulled, opener := 0, 0, None;
    }

    /** The second half of construction; the source throws when it fails. */
    method Handshake() returns (ok: bool)
      requires Valid() && pushed == 0
      modifies output`written
      ensures Valid()
      ensures old(output.written) <= output.written <= old(output.written) + Wire(sealer, [])
      ensures ok ==> output.written == old(output.written) + Wire(sealer, [])
    {
      ok := output.WriteAll(sealer.header);
      assert Wire(sealer, []) == sealer.header;
    }

    /** send: seal, length, ciphertext. */
    method Send(data: seq<byte>) returns (r: SendResult)
      requires Valid()
      modifies this`pushed, output`written
      ensures Valid()
      ensures r == TooLarge <==> !Sendable(data)
      ensures pushed == if r == TooLarge then old(pushed) else old(pushed) + 1
      ensures r == TooLarge ==> output.written == old(output.written)
      ensures r == Sent ==> output.written == old(output.written) + Frame(sealer, old(pushed), data)
      ensures old(output.written) <= output.written
           <= old(output.written) + Frame(sealer, old(pushed), data)
    {
      if |data| > MAX_FRAME - ABYTES { return TooLarge; }
      ghost var before := output.written;
      var ct := sealer.push(pushed, data);
      pushed := pushed + 1;
      var len := U32(|ct|);
      assert before + (len + ct) == before + len + ct;
      var ok := output.WriteAll(len);
      if !ok {
        assert before + len <= before + len + ct;
        return PeerGone;
      }
      ok := output.WriteAll(ct);
      if !ok { return PeerGone; }
      return Sent;
    }

    /** recv, against the specification of the wire; `failed` tells that a read failed. */
    method Recv() returns (r: Received, ghost failed: bool)
      requires Valid()
      modifies this`pulled, this`opener, input`taken
      ensures Valid()
      ensures r == if failed then Gone else Receive(accept, old(opener), old(pulled), old(input.Available()))
      ensures r.Got? ==>
        && opener.Some?
        && opener == (if old(opener).Some? then old(opener) else accept(old(input.Available())[..HEADER_BYTES]))
        && pulled == old(pulled) + 1 && input.Available() == r.rest
    {
      if opener.None? {
        var header, e := input.ReadAll(HEADER_BYTES);
        if header.None? { return Gone, e; }
        opener := accept(header.value);
        if opener.None? { return BadHeader, false; }
      }
      ghost var wire := input.Available();
      var len, e := input.ReadAll(4);
      if len.None? { return Gone, e; }
      var n := Number(len.value);
      if n < ABYTES || n > MAX_FRAME { return BadLength, false; }
      var ct, e' := input.ReadAll(n);
      if ct.None? { return Gone, e'; }
      assert wire[4..][..n] == wire[4..4 + n] && wire[4..][n..] == wire[4 + n..];
      var msg := opener.value.pull(pulled, ct.value);
      if msg.None? { return BadAuth, false; }
      pulled := pulled + 1;
      return Got(msg.value, input.Available()), false;
    }
  }

  // --- Two ends, any number of messages ----------------------------------------------

  lemma {:induction false} FramesSnoc(c: Cipher, i: nat, ms: seq<seq<byte>>, m: seq<byte>)
    ensures Frames(c, i, ms + [m]) == Frames(c, i, ms) + Frame(c, i + |ms|, m)
    decreases ms
  {
    if ms == [] {
      assert Frames(c, i + 1, []) == [];
    } else {
      assert (ms + [m])[1..] == ms[1..] + [m];
      FramesSnoc(c, i + 1, ms[1..], m);
    }
  }

  lemma {:induction false} FramesPrefix(c: Cipher, i: nat, ms: seq<seq<byte>>, k: nat)
    requires k <= |ms|
    ensures Frames(c, i, ms[..k]) <= Frames(c, i, ms)
    decreases |ms| - k
  {
    if k == |ms| {
      assert ms[..k] == ms;
    } else {
      assert ms[..k + 1] == ms[..k] + [ms[k]];
      FramesSnoc(c, i, ms[..k], ms[k]);
      FramesPrefix(c, i, ms, k + 1);
    }
  }

  lemma PrefixUnder(header: seq<byte>, a: seq<byte>, b: seq<byte>)
    requires a <= b
    ensures header + a <= header + b
  {
    assert header + b == header + a + b[|a|..];
  }

  lemma WireGrows(c: Cipher, ms: seq<seq<byte>>, k: nat)
    requires k < |ms|
    ensures Wire(c, ms[..k + 1]) == Wire(c, ms[..k]) + Frame(c, k, ms[k])
    ensures Wire(c, ms[..k]) <= Wire(c, ms[..k + 1]) <= Wire(c, ms)
  {
    assert ms[..k + 1] == ms[..k] + [ms[k]];
    FramesSnoc(c, 0, ms[..k], ms[k]);
    Regroup(c.header, Frames(c, 0, ms[..k]), Frame(c, k, ms[k]));
    FramesPrefix(c, 0, ms, k + 1);
    PrefixUnder(c.header, Frames(c, 0, ms[..k + 1]), Frames(c, 0, ms));
  }

  /** A sender at work: the header, then one message after the other, until one cannot be sent.
      What is on the wire is the beginning of the wire of the first n, and when it gets through,
      the wire of all of them. */
  method SendMessages(ch: Channel, ms: seq<seq<byte>>) returns (ok: bool, ghost n: nat)
    requires ch.Valid() && ch.pushed == 0 && ch.output.written == []
    modifies ch`pushed, ch.output`written
    ensures ch.Valid()
    ensures n <= |ms| && forall m :: m in ms[..n] ==> Sendable(m)
    ensures ch.output.written <= Wire(ch.sealer, ms[..n])
    ensures ok ==> n == |ms| && ch.output.written == Wire(ch.sealer, ms)
  {
    n := 0;
    ok := ch.Handshake();
    assert ms[..0] == [];
    if !ok { return; }
    for k := 0 to |ms|
      invariant ch.Valid() && ch.pushed == k
      invariant ch.output.written == Wire(ch.sealer, ms[..k])
      invariant forall m :: m in ms[..k] ==> Sendable(m)
    {
      WireGrows(ch.sealer, ms, k);
      assert ms[..k + 1] == ms[..k] + [ms[k]];
      var r := ch.Send(ms[k]);
      if r != Sent { return false, if r == TooLarge then k else k + 1; }
    }
    assert ms[..|ms|] == ms;
    return true, |ms|;
  }

  /** Messages got before, and what is still got from the stream. */
  ghost function Continued(before: seq<seq<byte>>, r: (seq<seq<byte>>, Received)): (seq<seq<byte>>, Received)
  {
    (before + r.0, r.1)
  }

  lemma StreamStep(c: Cipher, i: nat, wire: seq<byte>, before: seq<seq<byte>>)
    ensures Continued(before, ReceiveAll(c, i, wire)) ==
      match ReceiveFrame(c, i, wire)
      case Got(m, rest) => Continued(before + [m], ReceiveAll(c, i + 1, rest))
      case end => (before, end)
  {
    match ReceiveFrame(c, i, wire)
    case Got(m, rest) =>
      var more := ReceiveAll(c, i + 1, rest).0;
      assert before + ([m] + more) == before + [m] + more;
    case _ => assert before + [] == before;
  }

  /** After a recv: with what was got before it, what it got and what is still to come, all of the
      stream; where it got nothing, all of it unless a read failed. */
  ghost predicate Receiving(all: (seq<seq<byte>>, Received), ms: seq<seq<byte>>, r: Received, failed: bool,
                            opener: Option<Cipher>, pulled: nat)
  {
    match r
    case Got(m, rest) =>
      opener.Some? && pulled == |ms| + 1 && all == Continued(ms + [m], ReceiveAll(opener.value, pulled, rest))
    case _ => ms <= all.0 && (!failed ==> all == (ms, r))
  }

  lemma ReceivingOn(accept: Acceptor, all: (seq<seq<byte>>, Received), ms: seq<seq<byte>>, m: seq<byte>,
                    rest: seq<byte>, opener: Option<Cipher>, pulled: nat, next: Received, failed: bool)
    requires Receiving(all, ms, Got(m, rest), false, opener, pulled)
    requires next == if failed then Gone else Receive(accept, opener, pulled, rest)
    ensures Receiving(all, ms + [m], next, failed, opener, pulled + 1)
  {
    StreamStep(opener.value, pulled, rest, ms + [m]);
  }

  lemma StreamStart(accept: Acceptor, wire: seq<byte>)
    ensures ReceiveStream(accept, wire) ==
      match Receive(accept, None, 0, wire)
      case Got(m, rest) => Continued([m], ReceiveAll(accept(wire[..HEADER_BYTES]).value, 1, rest))
      case end => ([], end)
  {
    if |wire| >= HEADER_BYTES && accept(wire[..HEADER_BYTES]).Some? {
      var c, frames := accept(wire[..HEADER_BYTES]).value, wire[HEADER_BYTES..];
      StreamStep(c, 0, frames, []);
      assert [] + ReceiveAll(c, 0, frames).0 == ReceiveAll(c, 0, frames).0;
      if ReceiveFrame(c, 0, frames).Got? {
        assert [] + [ReceiveFrame(c, 0, frames).msg] == [ReceiveFrame(c, 0, frames).msg];
      }
    }
  }

  /** A receiver at work, as the serve loop is: it takes messages until none comes. Without a
      failing read it gets what the stream holds, and never anything else. */
  method ReceiveMessages(ch: Channel) returns (ms: seq<seq<byte>>, end: Received, ghost failed: bool)
    requires ch.Valid() && ch.pulled == 0 && ch.opener == None
    modifies ch`pulled, ch`opener, ch.input`taken
    ensures ch.Valid()
    ensures !failed ==> (ms, end) == ReceiveStream(ch.accept, old(ch.input.Available()))
    ensures ms <= ReceiveStream(ch.accept, old(ch.input.Available())).0
  {
    ms := [];
    ghost var all := ReceiveStream(ch.accept, ch.input.Available());
    StreamStart(ch.accept, ch.input.Available());
    var r, e := ch.Recv();
    if r.Got? { assert [] + [r.msg] == [r.msg]; }
    while r.Got?
      invariant ch.Valid() && (e ==> !r.Got?)
      invariant r.Got? ==> r.rest == ch.input.Available()
      invariant Receiving(all, ms, r, e, ch.opener, ch.pulled)
      decreases r.Got?, if r.Got? then |r.rest| else 0
    {
      var got := r.msg;
      ghost var rest, opener, pulled := r.rest, ch.opener, ch.pulled;
      r, e := ch.Recv();
      ReceivingOn(ch.accept, all, ms, got, rest, opener, pulled, r, e);
      ms := ms + [got];
    }
    return ms, r, e;
  }

  /** Both ends of one pipe: what is received is a prefix of what was to be sent, in order, and
      everything when neither end met a failure, whatever partial counts the pipe returned. */
  method Deliver(sender: Channel, receiver: Channel, ms: seq<seq<byte>>)
    returns (got: seq<seq<byte>>, ok: bool, ghost failed: bool)
    requires sender != receiver && sender.Valid() && receiver.Valid() && sender.output == receiver.input
    requires Shared(receiver.accept, sender.sealer)
    requires sender.pushed == 0 && sender.output.written == [] && sender.output.taken == 0
    requires receiver.pulled == 0 && receiver.opener == None
    modifies sender`pushed, receiver`pulled, receiver`opener, sender.output
    ensures got <= ms
    ensures ok && !failed ==> got == ms
  {
    ghost var n: nat;
    ok, n := SendMessages(sender, ms);
    assert ms[..n] <= ms && (ok ==> ms[..n] == ms);
    ghost var wire := sender.output.written;
    assert receiver.input.Available() == wire;
    PrefixDelivers(receiver.accept, sender.sealer, ms[..n], wire);
    if ok { WholeWireDelivers(receiver.accept, sender.sealer, ms); }
    var end;
    got, end, failed := ReceiveMessages(receiver);
  }
}
