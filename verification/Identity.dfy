/** Which key a wallet answers with for an account and a preset: account_address and the key
    selection of sign_btc_payload (keyd/signer.cpp). Derivation and address formats are
    functions the model does not look into. */
module Identity {
  import opened Bytes
  import opened Text
  import opened DerivePath
  import opened Vault

  datatype Keys = Keys(
    derive: (Family, seq<byte>, string) -> Option<seq<byte>>,   // entropy, path
    publicOf: (Family, seq<byte>) -> seq<byte>,                 // raw key
    address: (Preset, seq<byte>) -> seq<byte>)                  // public key, as the preset formats it

  datatype KeyError = Underivable | SingleAddress | MalformedKey | WrongCurve | NoKey

  const ED25519_LABEL: seq<byte> := [0x65, 0x64, 0x32, 0x35, 0x35, 0x31, 0x39]

  predicate HoldsEd25519(w: Wallet) { w.imported != [] && w.imported[0].name == ED25519_LABEL }

  const SEED_ENTROPY: byte := 0
  const PRIVATE_KEY: byte := 1
  const ED25519_KEY: byte := 2

  /** wallet_reveal_kind: what a wallet's root secret is. */
  function RevealKind(w: Wallet): byte
  {
    if w.entropy != [] then SEED_ENTROPY else if HoldsEd25519(w) then ED25519_KEY else PRIVATE_KEY
  }

  function AccountAddress(k: Keys, w: Wallet, account: u32, preset: Preset): Result<seq<byte>, KeyError>
  {
    var family := PresetFamily(preset);
    if w.entropy != [] then
      match k.derive(family, w.entropy, PathOf(preset, account))
      case None => Err(Underivable)
      case Some(pub) => Ok(k.address(preset, pub))
    else if w.imported != [] then
      var key := w.imported[0].key;
      if account != 0 then Err(SingleAddress)
      else if |key| != 32 then Err(MalformedKey)
      else if HoldsEd25519(w) != family.Sol? then Err(WrongCurve)
      else Ok(k.address(preset, k.publicOf(family, key)))
    else Err(NoKey)
  }

  /** The address sign_btc_payload signs for. */
  function BtcSigner(k: Keys, w: Wallet, account: u32, preset: Preset): Result<seq<byte>, KeyError>
    requires PresetFamily(preset) == Btc
  {
    if w.entropy != [] then
      match k.derive(Btc, w.entropy, PathOf(preset, account))
      case None => Err(Underivable)
      case Some(pub) => Ok(k.address(preset, pub))
    else if w.imported != [] then
      if account != 0 then Err(SingleAddress)
      else if HoldsEd25519(w) then Err(WrongCurve)
      else Ok(k.address(preset, k.publicOf(Btc, w.imported[0].key)))
    else Err(NoKey)
  }

  /** The address shown for a Bitcoin account is the one that signs for it. */
  lemma ShownAddressSigns(k: Keys, w: Wallet, account: u32, preset: Preset)
    requires PresetFamily(preset) == Btc && AccountAddress(k, w, account, preset).Ok?
    ensures BtcSigner(k, w, account, preset) == AccountAddress(k, w, account, preset)
  {}

  /** Which identities a wallet has: with entropy, those that can be derived along their path; with keys
      only, the first key under account 0, an ed25519 key on Solana alone and any other key
      everywhere else. */
  lemma AddressExactly(k: Keys, w: Wallet, account: u32, preset: Preset)
    ensures var r, family := AccountAddress(k, w, account, preset), PresetFamily(preset);
      && (r.Ok? <==>
            if w.entropy != [] then k.derive(family, w.entropy, PathOf(preset, account)).Some?
            else w.imported != [] && account == 0 && |w.imported[0].key| == 32
                 && (w.imported[0].name == Ascii("ed25519") <==> family == Sol))
      && (r.Ok? ==>
            r.value == k.address(preset,
              if w.entropy != [] then k.derive(family, w.entropy, PathOf(preset, account)).value
              else k.publicOf(family, w.imported[0].key)))
  {
    LabelSpelled();
  }

  lemma LabelSpelled()
    ensures ED25519_LABEL == Ascii("ed25519")
  {
    assert Ascii("ed25519") == ED25519_LABEL;
  }

  /** The signer of a Bitcoin payload answers for exactly these identities, except that it does not ask
      how long an imported key is. */
  lemma SignerExactly(k: Keys, w: Wallet, account: u32, preset: Preset)
    requires PresetFamily(preset) == Btc
    ensures var r, shown := BtcSigner(k, w, account, preset), AccountAddress(k, w, account, preset);
      && (shown.Ok? ==> r == shown)
      && (r.Ok? <==> shown.Ok? || (shown == Err(MalformedKey) && w.imported[0].name != Ascii("ed25519")))
  {
    LabelSpelled();
  }
}
