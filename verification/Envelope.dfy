/** The proposal payload envelopes of keyd/signer.hpp: parse_proposal and make_envelope. */
module Envelope {
  import opened Bytes
  import opened DerivePath

  const ENVELOPE_V1: byte := 1
  const ENVELOPE_V2: byte := 3

  datatype Error = Truncated | UnknownPreset | EmptyPayload
  datatype ProposalBody = ProposalBody(preset: Preset, account: u32, tx: seq<byte>)

  function ParseProposal(payload: seq<byte>): Result<ProposalBody, Error>
  {
    if payload != [] && payload[0] == ENVELOPE_V1 then
      if |payload| < 5 then Err(Truncated)
      else NonEmpty(ProposalBody(MetaMask, AccountAt(payload, 1), payload[5..]))
    else if payload != [] && payload[0] == ENVELOPE_V2 then
      if |payload| < 6 then Err(Truncated)
      else if payload[1] >= PRESET_COUNT then Err(UnknownPreset)
      else NonEmpty(ProposalBody(PresetOf(payload[1]), AccountAt(payload, 2), payload[6..]))
    else NonEmpty(ProposalBody(MetaMask, 0, payload))
  }

  function AccountAt(payload: seq<byte>, at: nat): u32
    requires at + 4 <= |payload|
  {
    WordBound(payload[at..at + 4]);
    Number(payload[at..at + 4])
  }

  function NonEmpty(body: ProposalBody): Result<ProposalBody, Error>
  {
    if body.tx == [] then Err(EmptyPayload) else Ok(body)
  }

  function MakeEnvelope(preset: Preset, account: u32, tx: seq<byte>): seq<byte>
  {
    [ENVELOPE_V2, PresetByte(preset)] + U32(account) + tx
  }

  /** The version 1 envelope, which only parse_proposal knows. */
  function OldEnvelope(account: u32, tx: seq<byte>): seq<byte>
  {
    [ENVELOPE_V1] + U32(account) + tx
  }

  /** The payloads that carry a given body: its envelope, and for the default preset the old
      envelope and, on account 0, the bare bytes. */
  ghost predicate Carries(payload: seq<byte>, body: ProposalBody)
  {
    body.tx != []
    && (payload == [3, PresetByte(body.preset)] + U32(body.account) + body.tx
        || (body.preset == MetaMask && payload == [1] + U32(body.account) + body.tx)
        || (body.preset == MetaMask && body.account == 0 && payload == body.tx && payload[0] != 1 && payload[0] != 3))
  }

  /** parse_proposal reads a body from exactly the payloads that carry it; in particular it
      undoes make_envelope, and no payload names two identities. */
  lemma ParseReadsExactlyTheCarriers(payload: seq<byte>, body: ProposalBody)
    ensures ParseProposal(payload) == Ok(body) <==> Carries(payload, body)
  {
    if Carries(payload, body) {
      U32RoundTrip(body.account);
      if payload == MakeEnvelope(body.preset, body.account, body.tx) {
        assert payload[2..6] == U32(body.account);
        assert payload[6..] == body.tx;
      } else if body.preset == MetaMask && payload == OldEnvelope(body.account, body.tx) {
        assert payload[1..5] == U32(body.account);
        assert payload[5..] == body.tx;
      }
    }
    if ParseProposal(payload) == Ok(body) {
      if payload[0] == ENVELOPE_V1 {
        LittleEndianOfNumber(payload[1..5]);
        assert payload == OldEnvelope(body.account, body.tx);
      } else if payload[0] == ENVELOPE_V2 {
        LittleEndianOfNumber(payload[2..6]);
        assert payload == MakeEnvelope(body.preset, body.account, body.tx);
      }
    }
  }

  /** make_envelope loses nothing: the draft can be read off the queued bytes. */
  lemma EnvelopeInjective(p: Preset, a: u32, tx: seq<byte>, q: Preset, b: u32, ux: seq<byte>)
    requires MakeEnvelope(p, a, tx) == MakeEnvelope(q, b, ux)
    ensures p == q && a == b && tx == ux
  {
    var x, y := MakeEnvelope(p, a, tx), MakeEnvelope(q, b, ux);
    assert PresetByte(p) == x[1] == PresetByte(q);
    assert U32(a) == x[2..6] == y[2..6] == U32(b);
    U32RoundTrip(a);
    U32RoundTrip(b);
    assert tx == x[6..] == ux;
  }
}
