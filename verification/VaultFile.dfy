/** The encrypted vault file of core/secure/vault.cpp: its layout, opening it, and the
    save / shred / change_password protocols over a disk that a crash may stop between any two
    file operations. */
module VaultFile {
  import opened Bytes
  import opened Vault

  // --- The file format ---------------------------------------------------------------

  /** argon2id and the secret box, as the file format uses them. */
  datatype Crypto = Crypto(
    kdf: (seq<byte>, seq<byte>, u64, u64) -> Option<seq<byte>>,      // passphrase, salt, ops, mem
    seal: (seq<byte>, seq<byte>, seq<byte>) -> seq<byte>,            // key, nonce, payload
    unseal: (seq<byte>, seq<byte>, seq<byte>) -> Option<seq<byte>>)  // key, nonce, ciphertext

  datatype Header = Header(ops: u64, mem: u64, salt: seq<byte>, nonce: seq<byte>)

  datatype OpenError = NoFile | NotAVault | BadVersion | BadAlg | FileTruncated
                     | EmptyPassphrase | KdfFailed | WrongPassphrase | BadPayload(why: Vault.Error)

  const MAGIC: seq<byte> := [0x51, 0x56, 0x4c, 0x54]
  const HEAD: nat := 66
  const MAC: nat := 16

  /** The passphrase as argon2id sees it: cut at the first NUL. */
  function CString(pass: seq<byte>): (s: seq<byte>)
    ensures 0 !in s && s <= pass
    ensures s == pass || pass[|s|] == 0
  {
    if pass == [] || pass[0] == 0 then []
    else [pass[0]] + CString(pass[1..])
  }

  function DeriveKey(c: Crypto, pass: seq<byte>, h: Header): Result<seq<byte>, OpenError>
  {
    if CString(pass) == [] then Err(EmptyPassphrase)
    else
      match c.kdf(CString(pass), h.salt, h.ops, h.mem)
      case None => Err(KdfFailed)
      case Some(key) => Ok(key)
  }

  predicate HeaderOk(h: Header) { |h.salt| == 16 && |h.nonce| == 24 }

  function Blob(h: Header, ct: seq<byte>): seq<byte>
  {
    MAGIC + [1, 1] + U64(h.ops) + U64(h.mem) + h.salt + h.nonce + U32(Wrap32(|ct|)) + ct
  }

  /** open, after the file has been read. */
  function OpenBlob(c: Crypto, blob: seq<byte>, pass: seq<byte>): Result<Wallet, OpenError>
  {
    if |blob| < HEAD || blob[..4] != MAGIC then Err(NotAVault)
    else if blob[4] != 1 then Err(BadVersion)
    else if blob[5] != 1 then Err(BadAlg)
    else
      var h := ReadHeader(blob);
      var n := Number(blob[62..66]);
      if |blob| != HEAD + n || n < MAC then Err(FileTruncated)
      else
        match DeriveKey(c, pass, h)
        case Err(e) => Err(e)
        case Ok(key) =>
          match c.unseal(key, h.nonce, blob[HEAD..])
          case None => Err(WrongPassphrase)
          case Some(payload) =>
            match Unpack(payload)
            case Err(e) => Err(BadPayload(e))
            case Ok(w) => Ok(w)
  }

  function ReadHeader(blob: seq<byte>): Header
    requires |blob| >= HEAD
  {
    WordBound(blob[6..14]);
    WordBound(blob[14..22]);
    Header(Number(blob[6..14]), Number(blob[14..22]), blob[22..38], blob[38..62])
  }

  /** The file a save writes: the packed wallet under the key of the passphrase. */
  function SavedBlob(c: Crypto, h: Header, pass: seq<byte>, w: Wallet): Result<seq<byte>, OpenError>
    requires Packable(w)
  {
    match DeriveKey(c, pass, h)
    case Err(e) => Err(e)
    case Ok(key) => Ok(Blob(h, c.seal(key, h.nonce, Packed(w))))
  }

  /** The box opens what it sealed, and adds its MAC to the length. */
  ghost predicate BoxInverse(c: Crypto)
  {
    forall k, n, p :: |c.seal(k, n, p)| == |p| + MAC && c.unseal(k, n, c.seal(k, n, p)) == Some(p)
  }

  /** Six fields of fixed width, and the rest. */
  lemma Fields(a: seq<byte>, b: seq<byte>, c: seq<byte>, d: seq<byte>, e: seq<byte>, f: seq<byte>, g: seq<byte>)
    requires |a| == 6 && |b| == 8 && |c| == 8 && |d| == 16 && |e| == 24 && |f| == 4
    ensures var s := a + b + c + d + e + f + g;
      && |s| == HEAD + |g| && s[..6] == a && s[6..14] == b && s[14..22] == c && s[22..38] == d
      && s[38..62] == e && s[62..66] == f && s[HEAD..] == g
  {}

  lemma BlobReads(h: Header, ct: seq<byte>)
    requires HeaderOk(h) && |ct| < TWO_32
    ensures var b := Blob(h, ct);
      && |b| == HEAD + |ct| && b[..4] == MAGIC && b[4] == 1 && b[5] == 1
      && ReadHeader(b) == h && Number(b[62..66]) == |ct| && b[HEAD..] == ct
  {
    var b, front := Blob(h, ct), MAGIC + [1, 1];
    U64RoundTrip(h.ops);
    U64RoundTrip(h.mem);
    U32RoundTrip(|ct|);
    Fields(front, U64(h.ops), U64(h.mem), h.salt, h.nonce, U32(|ct|), ct);
    assert b[..4] == front[..4] && b[4] == front[4] && b[5] == front[5];
  }

  lemma {:induction false} KeysBytesBound(keys: seq<Imported>)
    requires forall im :: im in keys ==> PackableKey(im)
    ensures |KeysBytes(keys)| <= 288 * |keys|
  {
    if keys != [] {
      assert PackableKey(keys[0]);
      KeysBytesBound(keys[1..]);
    }
  }

  /** Two different passphrases yield one key under the parameters of this file. */
  ghost predicate KeysCollide(c: Crypto, h: Header, pass: seq<byte>, other: seq<byte>)
  {
    CString(other) != CString(pass)
    && DeriveKey(c, pass, h).Ok? && DeriveKey(c, other, h) == DeriveKey(c, pass, h)
  }

  /** The box of this very file opens under another key. */
  ghost predicate OtherKeyOpens(c: Crypto, h: Header, pass: seq<byte>, w: Wallet, other: seq<byte>)
    requires Packable(w)
  {
    DeriveKey(c, pass, h).Ok? && DeriveKey(c, other, h).Ok?
    && var key, key' := DeriveKey(c, pass, h).value, DeriveKey(c, other, h).value;
       key' != key && c.unseal(key', h.nonce, c.seal(key, h.nonce, Packed(w))).Some?
  }

  /** A saved file opens under its passphrase, up to the first NUL, and gives the saved wallet. If
      it opens under another one, the key derivation or the box has failed on this very file. */
  lemma SavedOpens(c: Crypto, h: Header, pass: seq<byte>, w: Wallet, other: seq<byte>)
    requires BoxInverse(c) && HeaderOk(h) && Packable(w) && SavedBlob(c, h, pass, w).Ok?
    ensures var r := OpenBlob(c, SavedBlob(c, h, pass, w).value, other);
      && (CString(other) == CString(pass) ==> r == Ok(w))
      && (r.Ok? && CString(other) != CString(pass) ==>
            KeysCollide(c, h, pass, other) || OtherKeyOpens(c, h, pass, w, other))
  {
    var ct := c.seal(DeriveKey(c, pass, h).value, h.nonce, Packed(w));
    KeysBytesBound(w.imported);
    BlobReads(h, ct);
    UnpackReadsExactlyThePacked(Packed(w), w);
  }

  /** The key derivation and the box tell these two passphrases apart on this file. */
  ghost predicate Separates(c: Crypto, h: Header, pass: seq<byte>, w: Wallet, other: seq<byte>)
    requires Packable(w)
  {
    !KeysCollide(c, h, pass, other) && !OtherKeyOpens(c, h, pass, w, other)
  }

  /** Where they do, the file opens under the other passphrase exactly when the two agree up to
      the first NUL, and then gives the saved wallet. */
  lemma SavedOpensUnderItsPassphraseOnly(c: Crypto, h: Header, pass: seq<byte>, w: Wallet, other: seq<byte>)
    requires BoxInverse(c) && HeaderOk(h) && Packable(w) && SavedBlob(c, h, pass, w).Ok?
    requires Separates(c, h, pass, w, other)
    ensures var r := OpenBlob(c, SavedBlob(c, h, pass, w).value, other);
      (r.Ok? <==> CString(other) == CString(pass)) && (r.Ok? ==> r.value == w)
  {
    SavedOpens(c, h, pass, w, other);
  }

  // Such key derivations and boxes exist: let the key be the passphrase, and end the box in the
  // key's first sixteen bytes.

  function Tag(key: seq<byte>): (t: seq<byte>)
    ensures |t| == MAC
  {
    if |key| >= MAC then key[..MAC] else key + seq<byte>(MAC - |key|, i => 0)
  }

  function Tagged(): Crypto
  {
    Crypto(
      (pass, salt, ops, mem) => Some(pass),
      (k, n, p) => p + Tag(k),
      (k, n, ct) => if |ct| >= MAC && ct[|ct| - MAC..] == Tag(k) then Some(ct[..|ct| - MAC]) else None)
  }

  lemma TaggedBoxes()
    ensures BoxInverse(Tagged())
    ensures forall k, n, p, k' :: Tag(k) != Tag(k') ==> Tagged().unseal(k', n, Tagged().seal(k, n, p)) == None
  {
    var c := Tagged();
    forall k, n, p, k'
      ensures c.unseal(k', n, c.seal(k, n, p)) == if Tag(k) == Tag(k') then Some(p) else None
      ensures |c.seal(k, n, p)| == |p| + MAC
    {
      Halves(p, Tag(k));
    }
  }

  lemma SeparationCanBeMet(h: Header, w: Wallet)
    requires HeaderOk(h) && Packable(w)
    ensures BoxInverse(Tagged()) && SavedBlob(Tagged(), h, [1], w).Ok?
    ensures Separates(Tagged(), h, [1], w, [2])
  {
    TaggedBoxes();
    assert CString([1]) == [1] + CString([]) && CString([2]) == [2] + CString([]);
    assert Tag([1])[0] != Tag([2])[0];
  }

  // --- The file, byte by byte --------------------------------------------------------

  /** What opening a file under a passphrase takes: the magic, version 1 and algorithm 1, the length
      of the box, and a key made of the passphrase up to its first NUL with the salt and the two
      costs that stand in the file, which opens the box under the nonce that stands there. */
  ghost predicate OpensTo(c: Crypto, b: seq<byte>, pass: seq<byte>, key: seq<byte>, payload: seq<byte>)
  {
    && |b| >= 82 && b[..6] == [0x51, 0x56, 0x4c, 0x54, 1, 1] && |b| == 66 + Number(b[62..66])
    && CString(pass) != []
    && Number(b[6..14]) < TWO_64 && Number(b[14..22]) < TWO_64
    && c.kdf(CString(pass), b[22..38], Number(b[6..14]), Number(b[14..22])) == Some(key)
    && c.unseal(key, b[38..62], b[66..]) == Some(payload)
  }

  /** A file opens to a wallet exactly when it does so with some key, and the payload unpacks to it. */
  lemma OpensExactly(c: Crypto, b: seq<byte>, pass: seq<byte>, w: Wallet)
    ensures OpenBlob(c, b, pass) == Ok(w)
       <==> exists key, payload :: OpensTo(c, b, pass, key, payload) && Unpack(payload) == Ok(w)
  {
    if |b| >= 66 {
      WordBound(b[6..14]);
      WordBound(b[14..22]);
      Preamble(b);
      if OpenBlob(c, b, pass) == Ok(w) {
        var h := ReadHeader(b);
        var key := DeriveKey(c, pass, h).value;
        assert OpensTo(c, b, pass, key, c.unseal(key, h.nonce, b[66..]).value);
      }
    }
  }

  lemma Preamble(b: seq<byte>)
    requires |b| >= 66
    ensures b[..6] == [0x51, 0x56, 0x4c, 0x54, 1, 1] <==> b[..4] == MAGIC && b[4] == 1 && b[5] == 1
  {
    assert b[..6] == b[..4] + [b[4], b[5]];
    assert MAGIC + [1, 1] == [0x51, 0x56, 0x4c, 0x54, 1, 1];
  }

  lemma BlobHolds(h: Header, ct: seq<byte>)
    requires HeaderOk(h) && |ct| < TWO_32
    ensures var b := Blob(h, ct);
      && |b| == 66 + |ct| && b[..6] == [0x51, 0x56, 0x4c, 0x54, 1, 1]
      && Number(b[6..14]) == h.ops && Number(b[14..22]) == h.mem
      && b[22..38] == h.salt && b[38..62] == h.nonce && Number(b[62..66]) == |ct| && b[66..] == ct
  {
    Fields(MAGIC + [1, 1], U64(h.ops), U64(h.mem), h.salt, h.nonce, U32(|ct|), ct);
    U64RoundTrip(h.ops);
    U64RoundTrip(h.mem);
    U32RoundTrip(|ct|);
  }

  /** A saved file holds its costs, salt and nonce where opening looks for them, and the wallet's payload
      sealed under the key of just these. */
  lemma SavedHolds(c: Crypto, h: Header, pass: seq<byte>, w: Wallet) returns (key: seq<byte>)
    requires BoxInverse(c) && HeaderOk(h) && Packable(w) && SavedBlob(c, h, pass, w).Ok?
    ensures c.kdf(CString(pass), h.salt, h.ops, h.mem) == Some(key)
    ensures var b := SavedBlob(c, h, pass, w).value;
      && |b| == 82 + |Packed(w)| && b[..6] == [0x51, 0x56, 0x4c, 0x54, 1, 1]
      && Number(b[6..14]) == h.ops && Number(b[14..22]) == h.mem
      && b[22..38] == h.salt && b[38..62] == h.nonce && Number(b[62..66]) == 16 + |Packed(w)|
      && b[66..] == c.seal(key, h.nonce, Packed(w))
  {
    key := DeriveKey(c, pass, h).value;
    KeysBytesBound(w.imported);
    BlobHolds(h, c.seal(key, h.nonce, Packed(w)));
  }

  // --- The disk ----------------------------------------------------------------------

  /** The vault file, the file a save writes first, and the rotated previous file. */
  datatype Name = Path | Tmp | Bak

  type Files = map<Name, seq<byte>>

  datatype SaveError = NoPassphrase | Unpackable(why: Vault.Error) | NoKey(why': OpenError)
                     | TmpUnwritable | RenameFailed | CannotOpen(why'': OpenError) | ShredFailed

  function OpenFile(c: Crypto, files: Files, name: Name, pass: seq<byte>): Result<Wallet, OpenError>
  {
    if name in files then OpenBlob(c, files[name], pass) else Err(NoFile)
  }

  /** What a crash during a save over `before` may leave: the vault file is the old or the new
      one; or it is just being replaced, and both are there under their other names. */
  ghost predicate Recoverable(files: Files, before: Files, blob: seq<byte>)
  {
    if Path in files then files[Path] == blob || (Path in before && files[Path] == before[Path])
    else Path in before ==> Bak in files && files[Bak] == before[Path] && Tmp in files && files[Tmp] == blob
  }

  /** Two disks that agree on every file but one. */
  ghost predicate SameBut(name: Name, a: Files, b: Files)
  {
    forall n: Name :: n != name ==> (n in a <==> n in b) && (n in a ==> a[n] == b[n])
  }

  class Disk {
    var files: Files
    /** Every disk state a crash could have left so far. */
    ghost var crashes: seq<Files>

    constructor (files: Files)
      ensures this.files == files && crashes == [files]
    {
      this.files := files;
      crashes := [files];
    }

    /** All crash states from the n-th on are recoverable. */
    ghost predicate SafeSince(n: nat, before: Files, blob: seq<byte>)
      reads this
    {
      n <= |crashes| && forall i :: n <= i < |crashes| ==> Recoverable(crashes[i], before, blob)
    }

    /** ofstream(trunc), then write and flush: any prefix may be on disk when it stops. */
    method WriteNew(name: Name, data: seq<byte>, fault: WriteFault) returns (ok: bool)
      modifies this
      ensures ok <==> fault == NoFault
      ensures ok ==> files == old(files)[name := data]
      ensures SameBut(name, files, old(files))
      ensures |crashes| >= |old(crashes)| && crashes[..|old(crashes)|] == old(crashes)
      ensures forall i :: |old(crashes)| <= i < |crashes| ==> SameBut(name, crashes[i], old(files))
    {
      if fault == CannotOpenFile { return false; }
      files := files[name := []];
      crashes := crashes + [files];
      var k := if fault.Stops? && fault.at < |data| then fault.at else |data|;
      assert data[..|data|] == data;
      files := files[name := data[..k]];
      crashes := crashes + [files];
      return !fault.Stops?;
    }

    method Remove(name: Name, fails: bool) returns (ok: bool)
      modifies this
      ensures ok <==> !fails && name in old(files)
      ensures files == if ok then old(files) - {name} else old(files)
      ensures crashes == old(crashes) + [files]
    {
      ok := !fails && name in files;
      if ok { files := files - {name}; }
      crashes := crashes + [files];
    }

    /** rename replaces its target. */
    method Rename(from: Name, to: Name, fails: bool) returns (ok: bool)
      requires from != to
      modifies this
      ensures ok <==> !fails && from in old(files)
      ensures files == if ok then (old(files) - {from})[to := old(files)[from]] else old(files)
      ensures crashes == old(crashes) + [files]
    {
      ok := !fails && from in files;
      if ok { files := (files - {from})[to := files[from]]; }
      crashes := crashes + [files];
    }

    /** The file operations of save: write tmp, rotate, swing the new file into place. It succeeds
        exactly when the writing and the swing do; the previous file is then under its rotated name,
        unless that renaming failed, and it is there at every crash point from the swing on. */
    method Replace(blob: seq<byte>, faults: Faults) returns (r: Result<(), SaveError>)
      modifies this
      ensures |crashes| >= |old(crashes)| && crashes[..|old(crashes)|] == old(crashes)
      ensures SafeSince(|old(crashes)|, old(files), blob)
      ensures Recoverable(files, old(files), blob)
      ensures r == if faults.write != NoFault then Err(TmpUnwritable)
                   else if faults.swing then Err(RenameFailed) else Ok(())
      ensures r.Ok? ==> files == Replaced(old(files), blob, faults)
      ensures KeepsOld(|old(crashes)|, old(files), blob, faults)
    {
      var ok := WriteNew(Tmp, blob, faults.write);
      if !ok { return Err(TmpUnwritable); }
      if Path in files { Rotate(faults); }
      ok := Rename(Tmp, Path, faults.swing);
      r := if ok then Ok(()) else Err(RenameFailed);
    }

    /** The previous file goes under its rotated name; losing it there is not fatal. */
    method Rotate(faults: Faults)
      requires Path in files
      modifies this
      ensures |crashes| == |old(crashes)| + 2 && crashes[..|old(crashes)|] == old(crashes)
      ensures crashes[|old(crashes)|] in {old(files), old(files) - {Bak}} && crashes[|old(crashes)| + 1] == files
      ensures files ==
        if !faults.rotation then (old(files) - {Path})[Bak := old(files)[Path]]
        else if faults.removal then old(files) else old(files) - {Bak}
    {
      var _ := Remove(Bak, faults.removal);
      var _ := Rename(Path, Bak, faults.rotation);
    }

    /** At every crash point from the n-th on that has the new file in place of another one, that one is
        still there under the rotated name, unless the rotation itself failed. */
    ghost predicate KeepsOld(n: nat, before: Files, blob: seq<byte>, faults: Faults)
      reads this
    {
      n <= |crashes|
      && (Path in before && before[Path] != blob && !faults.rotation ==>
            forall i :: n <= i < |crashes| && Path in crashes[i] && crashes[i][Path] == blob ==>
              Bak in crashes[i] && crashes[i][Bak] == before[Path])
    }

    /** save: pack, derive, seal, replace. */
    method Save(c: Crypto, h: Header, pass: seq<byte>, w: Wallet, faults: Faults) returns (r: Result<(), SaveError>)
      modifies this
      ensures |crashes| >= |old(crashes)| && crashes[..|old(crashes)|] == old(crashes)
      ensures !Packable(w) || SavedBlob(c, h, pass, w).Err? ==> r.Err? && files == old(files) && crashes == old(crashes)
      ensures Packable(w) && SavedBlob(c, h, pass, w).Ok? ==>
        var blob := SavedBlob(c, h, pass, w).value;
        && SafeSince(|old(crashes)|, old(files), blob)
        && Recoverable(files, old(files), blob)
        && (r.Ok? <==> faults.write == NoFault && !faults.swing)
        && (r.Ok? ==> files == Replaced(old(files), blob, faults))
        && KeepsOld(|old(crashes)|, old(files), blob, faults)
    {
      if pass == [] { return Err(NoPassphrase); }
      var payload := PackPayload(w);
      if payload.Err? { return Err(Unpackable(payload.error)); }
      var key := DeriveKey(c, pass, h);
      if key.Err? { return Err(NoKey(key.error)); }
      r := Replace(Blob(h, c.seal(key.value, h.nonce, payload.value)), faults);
    }

    /** All crash states from the n-th on differ from `before` in this file at most. */
    ghost predicate OnlyTouches(n: nat, before: Files, name: Name)
      reads this
    {
      n <= |crashes| && forall i :: n <= i < |crashes| ==> SameBut(name, crashes[i], before)
    }

    /** The file is overwritten block by block with what the random generator gives. */
    method Scramble(name: Name, noise: nat -> byte)
      requires name in files
      modifies this
      ensures files == old(files)[name := Noise(noise, |old(files)[name]|)]
      ensures |crashes| >= |old(crashes)| && crashes[..|old(crashes)|] == old(crashes)
      ensures OnlyTouches(|old(crashes)|, old(files), name)
      ensures if |crashes| == |old(crashes)| then files == old(files) else crashes[|crashes| - 1] == files
    {
      var content := files[name];
      var size := |content|;
      var at := 0;
      ghost var was := content;
      ScrambledEnds(was, noise);
      while at < size
        invariant 0 <= at <= size == |was| && content == Scrambled(was, noise, at)
        invariant files == old(files)[name := content] && SameBut(name, files, old(files))
        invariant |crashes| >= |old(crashes)| && crashes[..|old(crashes)|] == old(crashes)
        invariant OnlyTouches(|old(crashes)|, old(files), name)
        invariant if |crashes| == |old(crashes)| then files == old(files) else crashes[|crashes| - 1] == files
      {
        var n := if size - at < 4096 then size - at else 4096;
        var block := seq(n, (i: nat) requires i < n => noise(at + i));
        Overwritten(was, noise, at, block);
        content := content[..at] + block + content[at + n..];
        Put(name, content, |old(crashes)|, old(files));
        at := at + n;
      }
    }

    /** A block lands in a file. */
    method Put(name: Name, content: seq<byte>, ghost n: nat, ghost before: Files)
      requires OnlyTouches(n, before, name) && SameBut(name, files, before)
      modifies this
      ensures files == old(files)[name := content] && crashes == old(crashes) + [files]
      ensures OnlyTouches(n, before, name) && SameBut(name, files, before)
    {
      files := files[name := content];
      crashes := crashes + [files];
    }

    /** shred: overwrite, then delete; a missing file is no error. Before the deletion the file holds
        nothing but what the random generator gave, all of its length. */
    method Shred(name: Name, noise: nat -> byte, faults: ShredFaults) returns (r: Result<(), SaveError>)
      modifies this
      ensures r.Ok? <==> name !in old(files) || faults == ShredFaults(false, false, false)
      ensures r.Ok? ==> files == old(files) - {name}
      ensures SameBut(name, files, old(files))
      ensures |crashes| >= |old(crashes)| && crashes[..|old(crashes)|] == old(crashes)
      ensures OnlyTouches(|old(crashes)|, old(files), name)
      ensures r.Ok? && name in old(files) ==>
        var last := if |crashes| - 1 > |old(crashes)| then crashes[|crashes| - 2] else old(files);
        name in last && last[name] == Noise(noise, |old(files)[name]|)
    {
      if name !in files { return Ok(()); }
      if faults.open { return Err(ShredFailed); }
      Scramble(name, noise);
      if faults.flush { return Err(ShredFailed); }
      var ok := Remove(name, faults.removal);
      r := if ok then Ok(()) else Err(ShredFailed);
    }

    /** change_password: open under the old passphrase, save under the new, shred the rotation. */
    method ChangePassword(c: Crypto, h: Header, oldPass: seq<byte>, newPass: seq<byte>, faults: Faults,
                          noise: nat -> byte, shredding: ShredFaults)
      returns (r: Result<(), SaveError>)
      modifies this
      ensures |crashes| >= |old(crashes)| && crashes[..|old(crashes)|] == old(crashes)
      ensures var target := Rekeyed(c, h, old(files), oldPass, newPass);
        if target.Some? then SafeSince(|old(crashes)|, old(files), target.value)
        else r.Err? && files == old(files) && crashes == old(crashes)
      ensures r.Ok? ==>
        var target := Rekeyed(c, h, old(files), oldPass, newPass);
        target.Some? && files == map[Path := target.value]
      ensures
        Rekeyed(c, h, old(files), oldPass, newPass).Some? && faults == NO_FAULTS
        && shredding == ShredFaults(false, false, false) ==>
          r.Ok?
    {
      var w := OpenFile(c, files, Path, oldPass);
      if w.Err? { return Err(CannotOpen(w.error)); }
      r := Save(c, h, newPass, w.value, faults);
      if r.Err? { return r; }
      ghost var saved := files;
      r := Shred(Bak, noise, shredding);
      if r.Ok? {
        forall n | n in files ensures n == Path { match n case Path => case Tmp => case Bak => }
        assert files == map[Path := saved[Path]];
      }
    }
  }

  // --- What may go wrong -------------------------------------------------------------

  /** The new file cannot be opened, or its writing stops after some bytes. */
  datatype WriteFault = NoFault | CannotOpenFile | Stops(at: nat)

  /** Which of the file operations of a save fail. */
  datatype Faults = Faults(write: WriteFault, removal: bool, rotation: bool, swing: bool)

  const NO_FAULTS := Faults(NoFault, false, false, false)

  datatype ShredFaults = ShredFaults(open: bool, flush: bool, removal: bool)

  /** The disk after a successful save. */
  ghost function Replaced(before: Files, blob: seq<byte>, faults: Faults): Files
  {
    var others := before - {Tmp};
    if Path !in before then others[Path := blob]
    else if !faults.rotation then others[Path := blob][Bak := before[Path]]
    else if !faults.removal then (others - {Bak})[Path := blob]
    else others[Path := blob]
  }

  /** The first n bytes the random generator gave. */
  ghost function Noise(noise: nat -> byte, n: nat): seq<byte>
  {
    seq(n, (i: nat) requires i < n => noise(i))
  }

  /** A file whose first n bytes have been overwritten. */
  ghost function Scrambled(was: seq<byte>, noise: nat -> byte, n: nat): (r: seq<byte>)
    requires n <= |was|
    ensures |r| == |was|
  {
    Noise(noise, n) + was[n..]
  }

  lemma ScrambledEnds(was: seq<byte>, noise: nat -> byte)
    ensures Scrambled(was, noise, 0) == was && Scrambled(was, noise, |was|) == Noise(noise, |was|)
  {}

  lemma Overwritten(was: seq<byte>, noise: nat -> byte, at: nat, block: seq<byte>)
    requires at + |block| <= |was| && forall i: nat :: i < |block| ==> block[i] == noise(at + i)
    ensures var now := Scrambled(was, noise, at);
      now[..at] + block + now[at + |block|..] == Scrambled(was, noise, at + |block|)
  {}

  /** The file change_password writes: the wallet the old passphrase opens, under the new. */
  function Rekeyed(c: Crypto, h: Header, files: Files, oldPass: seq<byte>, newPass: seq<byte>)
    : Option<seq<byte>>
  {
    match OpenFile(c, files, Path, oldPass)
    case Err(_) => None
    case Ok(w) =>
      if !Packable(w) then None
      else
        match SavedBlob(c, h, newPass, w)
        case Err(_) => None
        case Ok(blob) => Some(blob)
  }

  // --- What the protocols promise ----------------------------------------------------

  /** At every crash point one of the two wallets is at hand: under its own name, or both under
      the names of the tmp file and the rotation. */
  lemma RecoverableOpens(c: Crypto, h: Header, files: Files, before: Files,
                         oldPass: seq<byte>, oldWallet: Wallet, newPass: seq<byte>, newWallet: Wallet)
    requires BoxInverse(c) && HeaderOk(h) && Packable(newWallet)
    requires OpenFile(c, before, Path, oldPass) == Ok(oldWallet)
    requires SavedBlob(c, h, newPass, newWallet).Ok?
    requires Recoverable(files, before, SavedBlob(c, h, newPass, newWallet).value)
    ensures
      if Path in files then
        OpenFile(c, files, Path, newPass) == Ok(newWallet) || OpenFile(c, files, Path, oldPass) == Ok(oldWallet)
      else
        OpenFile(c, files, Bak, oldPass) == Ok(oldWallet) && OpenFile(c, files, Tmp, newPass) == Ok(newWallet)
  {
    SavedOpens(c, h, newPass, newWallet, newPass);
  }

  /** Once change_password has returned, the new passphrase opens the vault; and the old one
      opens none of the three files exactly when it differs from the new one before the first NUL,
      wherever the two are told apart on the new file. */
  lemma OldPassphraseIsOut(c: Crypto, h: Header, before: Files, files: Files,
                           oldPass: seq<byte>, newPass: seq<byte>)
    requires BoxInverse(c) && HeaderOk(h)
    requires Rekeyed(c, h, before, oldPass, newPass).Some?
    requires files == map[Path := Rekeyed(c, h, before, oldPass, newPass).value]
    ensures OpenFile(c, files, Path, newPass) == OpenFile(c, before, Path, oldPass)
    ensures Separates(c, h, newPass, OpenFile(c, before, Path, oldPass).value, oldPass) ==>
      ((forall n :: OpenFile(c, files, n, oldPass).Err?) <==> CString(oldPass) != CString(newPass))
  {
    var w := OpenFile(c, before, Path, oldPass).value;
    var blob := SavedBlob(c, h, newPass, w).value;
    SavedOpens(c, h, newPass, w, oldPass);
    SavedOpens(c, h, newPass, w, newPass);
    OnlyPath(c, files, blob, oldPass);
    OnlyPath(c, files, blob, newPass);
  }

  lemma OnlyPath(c: Crypto, files: Files, blob: seq<byte>, pass: seq<byte>)
    requires files == map[Path := blob]
    ensures OpenFile(c, files, Path, pass) == OpenBlob(c, blob, pass)
    ensures (forall n :: OpenFile(c, files, n, pass).Err?) <==> OpenBlob(c, blob, pass).Err?
  {
    assert forall n :: n != Path ==> OpenFile(c, files, n, pass) == Err(NoFile);
    assert OpenFile(c, files, Path, pass) == OpenBlob(c, blob, pass);
  }
}
