/** The two wire protocols of keyd/protocol.hpp: the requests the serve loops of keyd/child.cpp
    read, against the frames keyd/client.cpp builds, and the replies the other way. */
module Protocol {
  import opened Bytes
  import opened ProposalQueue
  import DerivePath

  // --- The password channel ----------------------------------------------------------

  const OP_UNLOCK: byte := 0x01
  const OP_LOCK: byte := 0x02
  const OP_STATUS: byte := 0x03
  const OP_SHUTDOWN: byte := 0x04
  const OP_APPROVE: byte := 0x05
  const OP_DENY: byte := 0x06
  const OP_PENDING: byte := 0x07
  const OP_FETCH: byte := 0x08
  const OP_REVEAL: byte := 0x09
  const OP_ADDRESS: byte := 0x0a

  const OP_HELLO: byte := 0x40
  const OP_OK: byte := 0x41
  const OP_ERR: byte := 0x42
  const OP_STATE: byte := 0x43
  const OP_PENDING_LIST: byte := 0x44
  const OP_PROPOSAL_BODY: byte := 0x45
  const OP_ROOT_SECRET: byte := 0x46
  const OP_SIGNED: byte := 0x47
  const OP_ADDRESS_IS: byte := 0x48
  const OP_SIGNED_SOL: byte := 0x49
  const OP_SIGNED_BTC: byte := 0x4a

  const PROTOCOL_VERSION: byte := 1

  datatype Request =
    | Unlock(pass: seq<byte>)
    | Lock
    | Status
    | Shutdown
    | Approve(id: u64, pass: seq<byte>)
    | Deny(id: u64)
    | ListPending
    | Fetch(id: u64)
    | Reveal(pass: seq<byte>)
    | Address(account: u32, preset: byte)
    | ShortFrame
    | UnknownPreset
    | UnknownOp

  function IdAt(frame: seq<byte>, at: nat): u64
    requires at + 8 <= |frame|
  {
    WordBound(frame[at..at + 8]);
    Number(frame[at..at + 8])
  }

  function DecodeRequest(frame: seq<byte>): Request
    requires frame != []
  {
    var op := frame[0];
    if op == OP_UNLOCK then Unlock(frame[1..])
    else if op == OP_LOCK then Lock
    else if op == OP_STATUS then Status
    else if op == OP_SHUTDOWN then Shutdown
    else if op == OP_APPROVE then
      if |frame| < 9 then ShortFrame else Approve(IdAt(frame, 1), frame[9..])
    else if op == OP_DENY then
      if |frame| != 9 then ShortFrame else Deny(IdAt(frame, 1))
    else if op == OP_PENDING then ListPending
    else if op == OP_FETCH then
      if |frame| != 9 then ShortFrame else Fetch(IdAt(frame, 1))
    else if op == OP_REVEAL then Reveal(frame[1..])
    else if op == OP_ADDRESS then DecodeAddress(frame)
    else UnknownOp
  }

  /** No body is account 0 under the default preset; an account may come with a preset. */
  function DecodeAddress(frame: seq<byte>): Request
    requires frame != []
  {
    if |frame| == 1 then Address(0, 0)
    else if |frame| == 5 || |frame| == 6 then
      WordBound(frame[1..5]);
      if |frame| == 6 && frame[5] >= DerivePath.PRESET_COUNT then UnknownPreset
      else Address(Number(frame[1..5]), if |frame| == 6 then frame[5] else 0)
    else ShortFrame
  }

  /** The frames the client builds. */
  function ApproveFrame(id: u64, pass: seq<byte>): seq<byte> { [OP_APPROVE] + U64(id) + pass }
  function DenyFrame(id: u64): seq<byte> { [OP_DENY] + U64(id) }
  function FetchFrame(id: u64): seq<byte> { [OP_FETCH] + U64(id) }
  function AddressFrame(account: u32, preset: byte): seq<byte>
  {
    [OP_ADDRESS] + U32(account) + [preset]
  }

  /** The child reads every request as the client meant it. */
  lemma RequestsAreUnderstood(id: u64, pass: seq<byte>, account: u32, preset: byte)
    ensures DecodeRequest([2]) == Lock && DecodeRequest([3]) == Status
    ensures DecodeRequest([4]) == Shutdown && DecodeRequest([7]) == ListPending
    ensures DecodeRequest([1] + pass) == Unlock(pass)
    ensures DecodeRequest([9] + pass) == Reveal(pass)
    ensures ApproveFrame(id, pass) == [5] + U64(id) + pass && DenyFrame(id) == [6] + U64(id)
    ensures FetchFrame(id) == [8] + U64(id) && AddressFrame(account, preset) == [10] + U32(account) + [preset]
    ensures DecodeRequest(ApproveFrame(id, pass)) == Approve(id, pass)
    ensures DecodeRequest(DenyFrame(id)) == Deny(id)
    ensures DecodeRequest(FetchFrame(id)) == Fetch(id)
    ensures DecodeRequest(AddressFrame(account, preset))
         == if preset < DerivePath.PRESET_COUNT then Address(account, preset) else UnknownPreset
  {
    U64RoundTrip(id);
    U32RoundTrip(account);
    assert ApproveFrame(id, pass)[1..9] == U64(id) && ApproveFrame(id, pass)[9..] == pass;
    assert DenyFrame(id)[1..9] == U64(id);
    assert FetchFrame(id)[1..9] == U64(id);
    assert AddressFrame(account, preset)[1..5] == U32(account);
    assert ([OP_UNLOCK] + pass)[1..] == pass && ([OP_REVEAL] + pass)[1..] == pass;
  }

  /** The frames that are not understood: those too short or too long for their opcode, an address of a
      preset there is not, and opcodes there are not. An address without an account is account 0,
      without a preset preset 0. */
  lemma OtherFramesExact(frame: seq<byte>, account: u32)
    requires frame != []
    ensures DecodeRequest(frame) == ShortFrame <==>
      (frame[0] == 5 && |frame| < 9) || (frame[0] in {6, 8} && |frame| != 9) || (frame[0] == 10 && |frame| !in {1, 5, 6})
    ensures DecodeRequest(frame) == UnknownPreset <==> frame[0] == 10 && |frame| == 6 && frame[5] > 7
    ensures DecodeRequest(frame) == UnknownOp <==> frame[0] == 0 || frame[0] > 10
    ensures DecodeRequest([10]) == Address(0, 0) && DecodeRequest([10] + U32(account)) == Address(account, 0)
  {
    U32RoundTrip(account);
    assert ([10] + U32(account))[1..5] == U32(account);
  }

  // --- Lists of pending proposals ----------------------------------------------------

  datatype PendingItem = PendingItem(id: u64, provenance: Provenance)

  function ProvenanceByte(p: Provenance): byte { if p == Ui then 1 else 0 }

  function PendingBody(items: seq<PendingItem>): seq<byte>
  {
    if items == [] then []
    else U64(items[0].id) + [ProvenanceByte(items[0].provenance)] + PendingBody(items[1..])
  }

  /** Records of nine bytes, read off one after the other. */
  function ReadItems(b: seq<byte>): seq<PendingItem>
  {
    if |b| < 9 then []
    else [PendingItem(IdAt(b, 0), if b[8] == 1 then Ui else Anonymous)] + ReadItems(b[9..])
  }

  /** pending, as a function of the reply. */
  function ReadPending(reply: seq<byte>): Option<seq<PendingItem>>
  {
    if reply == [] || reply[0] != OP_PENDING_LIST || (|reply| - 1) % 9 != 0 then None
    else Some(ReadItems(reply[1..]))
  }

  /** The list the child wrote is the list the client reads. */
  lemma {:induction false} PendingReadsBack(items: seq<PendingItem>)
    ensures ReadItems(PendingBody(items)) == items
    ensures ReadPending([OP_PENDING_LIST] + PendingBody(items)) == Some(items)
  {
    PendingBodyLength(items);
    if items != [] {
      PendingReadsBack(items[1..]);
      PendingStep(PendingBody(items), 0, items);
      assert PendingBody(items)[0..] == PendingBody(items);
    }
    assert ([OP_PENDING_LIST] + PendingBody(items))[1..] == PendingBody(items);
  }

  /** The client's pending(). */
  method DecodePending(reply: seq<byte>) returns (r: Option<seq<PendingItem>>)
    ensures r == ReadPending(reply)
  {
    if reply == [] || reply[0] != OP_PENDING_LIST || (|reply| - 1) % 9 != 0 { return None; }
    var out: seq<PendingItem> := [];
    var at := 1;
    ghost var all := ReadItems(reply[1..]);
    assert ReadSoFar(reply, 1, []) == all;
    while at < |reply|
      invariant 1 <= at <= |reply| && (|reply| - at) % 9 == 0
      invariant ReadSoFar(reply, at, out) == all
    {
      var id := GetU64le(reply[at..at + 8]);
      var item := PendingItem(id, if reply[at + 8] == 1 then Ui else Anonymous);
      ReadOneMore(reply, at, item, out);
      out := out + [item];
      at := at + 9;
    }
    assert ReadSoFar(reply, |reply|, out) == out;
    return Some(out);
  }

  /** What has been read, and what is still to be read. */
  ghost function ReadSoFar(reply: seq<byte>, at: nat, out: seq<PendingItem>): seq<PendingItem>
    requires at <= |reply|
  {
    out + ReadItems(reply[at..])
  }

  lemma ReadOneMore(reply: seq<byte>, at: nat, item: PendingItem, out: seq<PendingItem>)
    requires at + 9 <= |reply| && item.id == Number(reply[at..at + 8][..8])
    requires item.provenance == if reply[at + 8] == 1 then Ui else Anonymous
    ensures ReadSoFar(reply, at, out) == ReadSoFar(reply, at + 9, out + [item])
  {
    ReadOne(reply, at, item);
    var rest := ReadItems(reply[at + 9..]);
    assert out + ([item] + rest) == out + [item] + rest;
  }

  lemma ReadOne(reply: seq<byte>, at: nat, item: PendingItem)
    requires at + 9 <= |reply| && item.id == Number(reply[at..at + 8][..8])
    requires item.provenance == if reply[at + 8] == 1 then Ui else Anonymous
    ensures ReadItems(reply[at..]) == [item] + ReadItems(reply[at + 9..])
  {
    var b := reply[at..];
    assert b[0..8] == reply[at..at + 8] == reply[at..at + 8][..8] && b[9..] == reply[at + 9..];
  }

  lemma {:induction false} PendingBodyLength(items: seq<PendingItem>)
    ensures |PendingBody(items)| == 9 * |items|
  {
    if items != [] { PendingBodyLength(items[1..]); }
  }

  lemma PendingStep(reply: seq<byte>, at: nat, items: seq<PendingItem>)
    requires at < |reply| && reply[at..] == PendingBody(items)
    ensures items != [] && at + 9 <= |reply|
    ensures Number(reply[at..at + 8]) == items[0].id
    ensures reply[at + 8] == ProvenanceByte(items[0].provenance)
    ensures reply[at + 9..] == PendingBody(items[1..])
  {
    PendingBodyLength(items);
    var body := PendingBody(items);
    U64RoundTrip(items[0].id);
    assert reply[at..at + 8] == body[..8] == U64(items[0].id);
    assert reply[at + 8] == body[8];
    assert reply[at + 9..] == body[9..] == PendingBody(items[1..]);
  }

  // --- The proposal pipe -------------------------------------------------------------

  const PIPE_SUBMIT: byte := 0x01
  const PIPE_QUERY: byte := 0x02
  const MAC_BYTES: nat := 32

  /** crypto_auth under the session's MAC key. */
  type Mac = seq<byte> -> seq<byte>

  datatype PipeRequest =
    | Ignored
    | Rejected
    | BadMac
    | Submission(provenance: Provenance, payload: seq<byte>)
    | Query(id: u64)

  function DecodePipe(mac: Mac, msg: seq<byte>): PipeRequest
  {
    if msg == [] then Ignored
    else if msg[0] == PIPE_SUBMIT then DecodeSubmit(mac, msg)
    else if msg[0] == PIPE_QUERY then
      if |msg| != 9 then Rejected else Query(IdAt(msg, 1))
    else Rejected
  }

  /** handle_submit: a claim of UI provenance verifies or is refused, never downgraded. */
  function DecodeSubmit(mac: Mac, msg: seq<byte>): PipeRequest
  {
    if |msg| < 2 then Rejected
    else if msg[1] == 1 then
      if |msg| < 2 + MAC_BYTES then Rejected
      else
        var payload := msg[2 + MAC_BYTES..];
        if mac(payload) != msg[2..2 + MAC_BYTES] then BadMac
        else if payload == [] then Rejected
        else Submission(Ui, payload)
    else if msg[1] != 0 then Rejected
    else if |msg| == 2 then Rejected
    else Submission(Anonymous, msg[2..])
  }

  /** submit_ui. */
  function UiFrame(mac: Mac, payload: seq<byte>): seq<byte>
  {
    [PIPE_SUBMIT, 1] + mac(payload) + payload
  }

  /** A submission is queued as the UI's exactly when it carries the MAC of its payload; the
      client's own frames do. */
  lemma UiProvenanceIsEarned(mac: Mac, msg: seq<byte>, payload: seq<byte>)
    requires forall p :: |mac(p)| == MAC_BYTES
    ensures DecodePipe(mac, msg) == Submission(Ui, payload)
       <==> payload != [] && msg == UiFrame(mac, payload)
  {
    var f := UiFrame(mac, payload);
    assert f[2..2 + MAC_BYTES] == mac(payload);
    assert f[2 + MAC_BYTES..] == payload;
    if DecodePipe(mac, msg) == Submission(Ui, payload) {
      assert msg == [PIPE_SUBMIT, 1] + msg[2..2 + MAC_BYTES] + msg[2 + MAC_BYTES..];
    }
  }

  /** A message that submits this payload: the flag says whose, the UI's proves it with the MAC. */
  predicate Submits(mac: Mac, msg: seq<byte>, payload: seq<byte>, provenance: Provenance)
  {
    payload != []
    && msg == match provenance case Ui => [1, 1] + mac(payload) + payload case Anonymous => [1, 0] + payload
  }

  /** A message that asks for the state of this id. */
  predicate Asks(msg: seq<byte>, id: u64) { |msg| == 9 && msg[0] == 2 && id == Number(msg[1..]) }

  /** What is read off the proposal pipe, in both directions: submissions and queries are exactly the
      messages that are built so; with everything else nothing is submitted and nothing asked. */
  lemma PipeMessagesExact(mac: Mac, msg: seq<byte>, payload: seq<byte>, provenance: Provenance, id: u64)
    requires forall p :: |mac(p)| == 32
    ensures DecodePipe(mac, msg) == Submission(provenance, payload) <==> Submits(mac, msg, payload, provenance)
    ensures DecodePipe(mac, msg) == Query(id) <==> Asks(msg, id)
    ensures DecodePipe(mac, msg) == Ignored <==> msg == []
  {
    if provenance == Ui {
      UiProvenanceIsEarned(mac, msg, payload);
    } else {
      AnonymousIsTheRest(mac, msg, payload);
    }
    if |msg| == 9 { assert msg[1..9] == msg[1..]; }
  }

  lemma AnonymousIsTheRest(mac: Mac, msg: seq<byte>, payload: seq<byte>)
    ensures DecodePipe(mac, msg) == Submission(Anonymous, payload) <==> payload != [] && msg == [1, 0] + payload
  {
    assert ([1, 0] + payload)[2..] == payload;
    if |msg| >= 2 { assert msg == [msg[0], msg[1]] + msg[2..]; }
  }
}
