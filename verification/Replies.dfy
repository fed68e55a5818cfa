/** The replies of the password loop as bytes: the frames keyd/child.cpp sends, and what the
    methods of keyd/client.cpp make of a frame they get. */
module Replies {
  import opened Bytes
  import opened ProposalQueue
  import opened Protocol
  import opened TrustPlane
  import opened DerivePath
  import E = Envelope

  // --- The child's side --------------------------------------------------------------

  /** The first frame of a session, before any request. */
  function Hello(hardened: byte): seq<byte> { [OP_HELLO, PROTOCOL_VERSION, hardened] }

  /** The family whose signature an approval of these bytes yields. */
  function SignedFamily(payload: seq<byte>): Family
  {
    match E.ParseProposal(payload)
    case Err(_) => Eth
    case Ok(body) => PresetFamily(body.preset)
  }

  function SignedOp(family: Family): byte
  {
    match family
    case Eth => OP_SIGNED
    case Sol => OP_SIGNED_SOL
    case Btc => OP_SIGNED_BTC
  }

  /** The list as it goes over the wire, its ids in 64 bits. */
  function WireItems(items: seq<(nat, Provenance)>): (r: seq<PendingItem>)
    ensures |r| == |items|
    ensures forall i :: 0 <= i < |items| ==> r[i] == PendingItem(Wrap64(items[i].0), items[i].1)
  {
    seq(|items|, i requires 0 <= i < |items| => PendingItem(Wrap64(items[i].0), items[i].1))
  }

  /** The frame of a reply; the text is the reason an error gives. */
  function EncodeReply(r: Reply, text: seq<byte>): (f: seq<byte>)
    ensures f != []
  {
    match r
    case Done => [OP_OK]
    case Failure => [OP_ERR] + text
    case StateIs(unlocked) => [OP_STATE, if unlocked then 1 else 0]
    case PendingList(items) => [OP_PENDING_LIST] + PendingBody(WireItems(items))
    case Body(_, provenance, payload) => [OP_PROPOSAL_BODY, ProvenanceByte(provenance)] + payload
    case Signed(i) => [SignedOp(SignedFamily(i.over))] + i.signature.bytes
    case RootSecret(kind, secret) => [OP_ROOT_SECRET, kind] + secret
    case AddressIs(kind, address) => [OP_ADDRESS_IS, kind] + address
  }

  // --- The client's side -------------------------------------------------------------

  /** unlock, lock, shutdown, deny */
  predicate ReadDone(f: seq<byte>) { f != [] && f[0] == OP_OK }

  /** unlocked */
  function ReadState(f: seq<byte>): Option<bool>
  {
    if |f| < 2 || f[0] != OP_STATE then None else Some(f[1] == 1)
  }

  /** fetch */
  function ReadBody(f: seq<byte>): Option<(Provenance, seq<byte>)>
  {
    if |f| < 2 || f[0] != OP_PROPOSAL_BODY then None
    else Some((if f[1] == 1 then Ui else Anonymous, f[2..]))
  }

  /** approve takes 65 bytes, approve_sol 64, approve_btc any number but none. */
  predicate SignatureFits(family: Family, bytes: seq<byte>)
  {
    match family
    case Eth => |bytes| == 65
    case Sol => |bytes| == 64
    case Btc => |bytes| >= 1
  }

  /** approve, approve_sol, approve_btc */
  function ReadSigned(family: Family, f: seq<byte>): Option<seq<byte>>
  {
    if f == [] || f[0] != SignedOp(family) || !SignatureFits(family, f[1..]) then None else Some(f[1..])
  }

  /** reveal and address: a kind and at least one byte. */
  function ReadKinded(op: byte, f: seq<byte>): Option<(byte, seq<byte>)>
  {
    if |f| < 3 || f[0] != op then None else Some((f[1], f[2..]))
  }

  function ReadSecret(f: seq<byte>): Option<(byte, seq<byte>)> { ReadKinded(OP_ROOT_SECRET, f) }

  function ReadAddress(f: seq<byte>): Option<(byte, seq<byte>)> { ReadKinded(OP_ADDRESS_IS, f) }

  // --- Both --------------------------------------------------------------------------

  lemma BodyBytes(a: byte, b: byte, rest: seq<byte>)
    ensures ([a, b] + rest)[2..] == rest && ([a] + rest)[1..] == rest
  {}

  /** The opcodes of the replies, and of the three kinds of signature. */
  lemma ReplyOpcodes(r: Reply, text: seq<byte>)
    ensures EncodeReply(r, text)[0] ==
      match r
      case Done => 0x41 case Failure => 0x42 case StateIs(_) => 0x43 case PendingList(_) => 0x44
      case Body(_, _, _) => 0x45 case RootSecret(_, _) => 0x46 case AddressIs(_, _) => 0x48
      case Signed(i) => (match SignedFamily(i.over) case Eth => 0x47 case Sol => 0x49 case Btc => 0x4a)
  {}

  /** What a client method makes of a frame is what the reply says, if it is the reply the method
      asks for, and nothing otherwise. */
  lemma RepliesAreUnderstood(r: Reply, text: seq<byte>)
    ensures var f := EncodeReply(r, text);
      && (ReadDone(f) <==> r == Done)
      && ReadState(f) == (if r.StateIs? then Some(r.unlocked) else None)
      && ReadBody(f) == (if r.Body? then Some((r.provenance, r.payload)) else None)
      && (forall family :: ReadSigned(family, f) ==
            if r.Signed? && family == SignedFamily(r.issue.over) && SignatureFits(family, r.issue.signature.bytes)
            then Some(r.issue.signature.bytes) else None)
      && ReadSecret(f) == (if r.RootSecret? && r.secret != [] then Some((r.kind, r.secret)) else None)
      && ReadPending(f) == (if r.PendingList? then Some(WireItems(r.items)) else None)
      && ReadAddress(f) == (if r.AddressIs? && r.address != [] then Some((r.kind, r.address)) else None)
  {
    match r
    case Body(_, provenance, payload) => BodyBytes(OP_PROPOSAL_BODY, ProvenanceByte(provenance), payload);
    case PendingList(items) => PendingReadsBack(WireItems(items));
    case Signed(i) => BodyBytes(SignedOp(SignedFamily(i.over)), 0, i.signature.bytes);
    case RootSecret(kind, secret) => BodyBytes(OP_ROOT_SECRET, kind, secret);
    case AddressIs(kind, address) => BodyBytes(OP_ADDRESS_IS, kind, address);
    case _ =>
  }
}
