/** The wallet and its plaintext payload: pack_payload and unpack_payload of
    core/secure/vault.cpp. */
module Vault {
  import opened Bytes

  datatype Imported = Imported(name: seq<byte>, key: seq<byte>)
  datatype Wallet = Wallet(entropy: seq<byte>, imported: seq<Imported>)

  datatype Error = LabelTooLong | KeyNot32 | TooManyKeys | EntropySize | Truncated | UnknownVersion

  const PAYLOAD_VERSION: byte := 1

  // --- The format --------------------------------------------------------------------

  predicate PackableKey(im: Imported) { |im.name| <= 255 && |im.key| == 32 }

  predicate Packable(w: Wallet)
  {
    (forall im :: im in w.imported ==> PackableKey(im))
    && |w.imported| <= 255
    && |w.entropy| in {0, 16, 32}
  }

  function KeyBytes(im: Imported): seq<byte>
    requires PackableKey(im)
  {
    [|im.name|] + im.name + im.key
  }

  function KeysBytes(keys: seq<Imported>): seq<byte>
    requires forall im :: im in keys ==> PackableKey(im)
  {
    if keys == [] then [] else KeyBytes(keys[0]) + KeysBytes(keys[1..])
  }

  /** The payload layout: version, entropy length, entropy, key count, keys. */
  function Packed(w: Wallet): seq<byte>
    requires Packable(w)
  {
    [PAYLOAD_VERSION, |w.entropy|] + w.entropy + ([|w.imported|] + KeysBytes(w.imported))
  }

  /** Where the parts of a payload lie: version 1, the length of the entropy, the entropy, the number of
      keys; each key its label behind the length of the label, then its 32 bytes. */
  lemma PackedLayout(w: Wallet)
    requires Packable(w)
    ensures var p, n := Packed(w), |w.entropy|;
      && |p| >= n + 3 && p[0] == 1 && p[1] == n && p[2..n + 2] == w.entropy && p[n + 2] == |w.imported|
      && (w.imported == [] <==> |p| == n + 3)
      && (w.imported != [] ==>
            var im, m := w.imported[0], |w.imported[0].name|;
            && |p| >= n + 36 + m && p[n + 3] == m
            && p[n + 4..n + 4 + m] == im.name && p[n + 4 + m..n + 36 + m] == im.key
            && p[n + 36 + m..] == KeysBytes(w.imported[1..]))
  {
    var p, n := Packed(w), |w.entropy|;
    assert p[2..n + 2] == w.entropy;
    assert p[n + 3..] == KeysBytes(w.imported);
    if w.imported != [] {
      assert PackableKey(w.imported[0]);
      FirstKeyLayout(w.imported, p[n + 3..]);
      LaterSlices(p, n + 3, |w.imported[0].name|);
    }
  }

  lemma FirstKeyLayout(keys: seq<Imported>, b: seq<byte>)
    requires keys != [] && (forall im :: im in keys ==> PackableKey(im)) && b == KeysBytes(keys)
    ensures var m := |keys[0].name|;
      |b| >= 33 + m && b[0] == m && b[1..1 + m] == keys[0].name && b[1 + m..33 + m] == keys[0].key
      && b[33 + m..] == KeysBytes(keys[1..])
  {
    assert PackableKey(keys[0]);
  }

  lemma LaterSlices(p: seq<byte>, at: nat, m: nat)
    requires at + 33 + m <= |p|
    ensures p[at..][0] == p[at] && p[at..][1..1 + m] == p[at + 1..at + 1 + m]
    ensures p[at..][1 + m..33 + m] == p[at + 1 + m..at + 33 + m] && p[at..][33 + m..] == p[at + 33 + m..]
  {}

  // --- Packing -----------------------------------------------------------------------

  /** The first reason pack_payload finds to refuse a wallet. */
  function Refusal(w: Wallet): Option<Error>
  {
    match KeyRefusal(w.imported)
    case Some(e) => Some(e)
    case None =>
      if |w.imported| > 255 then Some(TooManyKeys)
      else if |w.entropy| !in {0, 16, 32} then Some(EntropySize)
      else None
  }

  function KeyRefusal(keys: seq<Imported>): (r: Option<Error>)
    ensures r == None <==> forall im :: im in keys ==> PackableKey(im)
  {
    if keys == [] then None
    else if |keys[0].name| > 255 then
      assert !PackableKey(keys[0]);
      Some(LabelTooLong)
    else if |keys[0].key| != 32 then
      assert !PackableKey(keys[0]);
      Some(KeyNot32)
    else KeyRefusal(keys[1..])
  }

  /** A wallet can be packed exactly when every label has at most 255 bytes and every key 32, there are
      at most 255 keys, and the entropy has none, 16 or 32 bytes; the keys are found wanting first, then
      their number, then the entropy. */
  lemma RefusedExactly(w: Wallet)
    ensures Packable(w) <==> Refusal(w) == None
    ensures var keysFit := forall i :: 0 <= i < |w.imported| ==> |w.imported[i].name| < 256 && |w.imported[i].key| == 32;
      && (Packable(w) <==> keysFit && |w.imported| < 256 && (w.entropy == [] || |w.entropy| == 16 || |w.entropy| == 32))
      && (Refusal(w) in {Some(LabelTooLong), Some(KeyNot32)} <==> !keysFit)
      && (Refusal(w) == Some(TooManyKeys) <==> keysFit && |w.imported| > 255)
      && (Refusal(w) == Some(EntropySize) <==>
            keysFit && |w.imported| < 256 && w.entropy != [] && |w.entropy| != 16 && |w.entropy| != 32)
  {
    KeyRefusalKinds(w.imported);
    assert forall i :: 0 <= i < |w.imported| ==> w.imported[i] in w.imported;
  }

  lemma {:induction false} KeyRefusalKinds(keys: seq<Imported>)
    ensures KeyRefusal(keys) in {None, Some(LabelTooLong), Some(KeyNot32)}
  {
    if keys != [] { KeyRefusalKinds(keys[1..]); }
  }

  /** memcpy to the write pointer. */
  method Copy(out: array<byte>, at: nat, src: seq<byte>)
    requires at + |src| <= out.Length
    modifies out
    ensures out[..at] == old(out[..at]) && out[at..at + |src|] == src
    ensures out[..at + |src|] == old(out[..at]) + src
  {
    forall i | 0 <= i < |src| { out[at + i] := src[i]; }
    assert out[..at + |src|] == out[..at] + out[at..at + |src|];
  }

  method PackPayload(w: Wallet) returns (r: Result<seq<byte>, Error>)
    ensures Refusal(w).Some? ==> r == Err(Refusal(w).value)
    ensures Packable(w) <==> r.Ok?
    ensures Packable(w) ==> r == Ok(Packed(w))
  {
    var keys := MeasureKeys(w.imported);
    if keys.Err? { return Err(keys.error); }
    var n := 1 + 1 + |w.entropy| + 1 + keys.value;
    if |w.imported| > 255 { return Err(TooManyKeys); }
    if |w.entropy| != 0 && |w.entropy| != 16 && |w.entropy| != 32 { return Err(EntropySize); }
    var out := new byte[n];
    var p := WriteHead(out, w);
    ghost var head := out[..p];
    WriteKeys(out, p, w.imported);
    assert out[..] == head + KeysBytes(w.imported);
    Regroup([PAYLOAD_VERSION, |w.entropy|] + w.entropy, [|w.imported|], KeysBytes(w.imported));
    r := Ok(out[..]);
  }

  lemma Regroup(a: seq<byte>, b: seq<byte>, c: seq<byte>)
    ensures a + b + c == a + (b + c)
  {}

  /** Everything before the keys. */
  method WriteHead(out: array<byte>, w: Wallet) returns (p: nat)
    requires |w.entropy| <= 255 && |w.imported| <= 255 && 3 + |w.entropy| <= out.Length
    modifies out
    ensures p == 3 + |w.entropy|
    ensures out[..p] == [PAYLOAD_VERSION, |w.entropy|] + w.entropy + [|w.imported|]
  {
    out[0] := PAYLOAD_VERSION;
    out[1] := |w.entropy|;
    assert out[..2] == [PAYLOAD_VERSION, |w.entropy|];
    Copy(out, 2, w.entropy);
    p := 2 + |w.entropy|;
    Copy(out, p, [|w.imported|]);
    p := p + 1;
  }

  /** The first loop: what the keys will take, or why one cannot be packed. */
  method MeasureKeys(keys: seq<Imported>) returns (r: Result<nat, Error>)
    ensures KeyRefusal(keys).Some? ==> r == Err(KeyRefusal(keys).value)
    ensures KeyRefusal(keys).None? ==> r == Ok(|KeysBytes(keys)|)
  {
    var n := 0;
    for i := 0 to |keys|
      invariant KeyRefusal(keys) == KeyRefusal(keys[i..])
      invariant forall im :: im in keys[..i] ==> PackableKey(im)
      invariant n == |KeysBytes(keys[..i])|
    {
      var im := keys[i];
      assert keys[i..][0] == im && keys[i..][1..] == keys[i + 1..];
      if |im.name| > 255 { return Err(LabelTooLong); }
      if |im.key| != 32 { return Err(KeyNot32); }
      KeysBytesSnoc(keys, i);
      n := n + 1 + |im.name| + 32;
    }
    assert keys[..|keys|] == keys;
    r := Ok(n);
  }

  /** The second loop: each key behind its length byte, the write pointer moving on. */
  method WriteKeys(out: array<byte>, start: nat, keys: seq<Imported>)
    requires forall im :: im in keys ==> PackableKey(im)
    requires start + |KeysBytes(keys)| == out.Length
    modifies out
    ensures out[..] == old(out[..start]) + KeysBytes(keys)
  {
    ghost var head := out[..start];
    var p := start;
    for i := 0 to |keys|
      invariant p == start + |KeysBytes(keys[..i])| <= out.Length
      invariant out[..p] == head + KeysBytes(keys[..i])
    {
      KeysBytesSnoc(keys, i);
      KeysBytesPrefix(keys, i + 1);
      WriteKey(out, p, keys[i]);
      p := p + 1 + |keys[i].name| + 32;
      assert head + KeysBytes(keys[..i]) + KeyBytes(keys[i]) == head + KeysBytes(keys[..i + 1]);
    }
    assert keys[..|keys|] == keys;
    assert out[..p] == out[..];
  }

  method WriteKey(out: array<byte>, p: nat, im: Imported)
    requires PackableKey(im) && p + |KeyBytes(im)| <= out.Length
    modifies out
    ensures out[..p + |KeyBytes(im)|] == old(out[..p]) + KeyBytes(im)
  {
    ghost var head := out[..p];
    Copy(out, p, [|im.name|]);
    Copy(out, p + 1, im.name);
    Copy(out, p + 1 + |im.name|, im.key);
    assert head + [|im.name|] + im.name + im.key == head + KeyBytes(im);
  }

  lemma {:induction false} KeysBytesAppend(a: seq<Imported>, b: seq<Imported>)
    requires forall im :: im in a + b ==> PackableKey(im)
    ensures forall im :: im in a ==> PackableKey(im)
    ensures forall im :: im in b ==> PackableKey(im)
    ensures KeysBytes(a + b) == KeysBytes(a) + KeysBytes(b)
  {
    assert forall im :: im in a || im in b ==> im in a + b;
    if a == [] {
      assert a + b == b;
    } else {
      assert (a + b)[1..] == a[1..] + b;
      KeysBytesAppend(a[1..], b);
    }
  }

  lemma KeysBytesSnoc(keys: seq<Imported>, i: nat)
    requires i < |keys| && PackableKey(keys[i])
    requires forall im :: im in keys[..i] ==> PackableKey(im)
    ensures forall im :: im in keys[..i + 1] ==> PackableKey(im)
    ensures KeysBytes(keys[..i + 1]) == KeysBytes(keys[..i]) + KeyBytes(keys[i])
  {
    assert keys[..i + 1] == keys[..i] + [keys[i]];
    KeysBytesAppend(keys[..i], [keys[i]]);
    assert KeysBytes([keys[i]]) == KeyBytes(keys[i]) + KeysBytes([]);
  }

  lemma KeysBytesPrefix(keys: seq<Imported>, i: nat)
    requires i <= |keys| && forall im :: im in keys ==> PackableKey(im)
    ensures |KeysBytes(keys[..i])| <= |KeysBytes(keys)|
  {
    assert keys == keys[..i] + keys[i..];
    KeysBytesAppend(keys[..i], keys[i..]);
  }

  // --- Unpacking ---------------------------------------------------------------------

  /** Reading `count` keys off the front of the remaining bytes. */
  function UnpackKeys(rest: seq<byte>, count: nat): Result<seq<Imported>, Error>
  {
    if count == 0 then Ok([])
    else if |rest| < 1 then Err(Truncated)
    else
      var l: nat := rest[0];
      if |rest| - 1 < l + 32 then Err(Truncated)
      else
        match UnpackKeys(rest[33 + l..], count - 1)
        case Err(e) => Err(e)
        case Ok(keys) => Ok([Imported(rest[1..1 + l], rest[1 + l..33 + l])] + keys)
  }

  function Unpack(payload: seq<byte>): Result<Wallet, Error>
  {
    if |payload| < 2 then Err(Truncated)
    else if payload[0] != PAYLOAD_VERSION then Err(UnknownVersion)
    else
      var ent: nat := payload[1];
      if |payload| - 2 < ent + 1 then Err(Truncated)
      else
        match UnpackKeys(payload[3 + ent..], payload[2 + ent])
        case Err(e) => Err(e)
        case Ok(keys) => Ok(Wallet(payload[2..2 + ent], keys))
  }

  /** unpack_payload: one read pointer, every access behind a length check. */
  method UnpackPayload(payload: seq<byte>) returns (r: Result<Wallet, Error>)
    ensures r == Unpack(payload)
  {
    var p := 0;
    if |payload| - p < 2 { return Err(Truncated); }
    if payload[p] != PAYLOAD_VERSION { return Err(UnknownVersion); }
    p := p + 1;
    var ent: nat := payload[p];
    p := p + 1;
    var entropy: seq<byte> := [];
    if ent != 0 {
      if |payload| - p < ent { return Err(Truncated); }
      entropy := payload[p..p + ent];
      p := p + ent;
    }
    if |payload| - p < 1 { return Err(Truncated); }
    var count: nat := payload[p];
    p := p + 1;
    assert payload[2..2 + ent] == entropy;
    var keys := ReadKeys(payload, p, count);
    if keys.Err? { return Err(keys.error); }
    r := Ok(Wallet(entropy, keys.value));
  }

  method ReadKeys(payload: seq<byte>, start: nat, count: nat) returns (r: Result<seq<Imported>, Error>)
    requires start <= |payload|
    ensures r == UnpackKeys(payload[start..], count)
  {
    var p := start;
    var imported: seq<Imported> := [];
    ghost var all := UnpackKeys(payload[p..], count);
    PrependNothing(all);
    for i := 0 to count
      invariant p <= |payload|
      invariant all == Prepend(imported, UnpackKeys(payload[p..], count - i))
    {
      if |payload| - p < 1 { return Err(Truncated); }
      var nameLen: nat := payload[p];
      if |payload| - p > nameLen + 32 { KeyStep(payload, p, count - i); }
      p := p + 1;
      if |payload| - p < nameLen + 32 { return Err(Truncated); }
      var name := payload[p..p + nameLen];
      p := p + nameLen;
      var key := payload[p..p + 32];
      p := p + 32;
      PrependOne(imported, Imported(name, key), UnpackKeys(payload[p..], count - i - 1));
      imported := imported + [Imported(name, key)];
    }
    PrependNone(imported);
    r := Ok(imported);
  }

  /** One key read at pointer p, as a step of the specification. */
  lemma KeyStep(payload: seq<byte>, p: nat, k: nat)
    requires p < |payload| && k > 0 && |payload| - p > payload[p] as nat + 32
    ensures var l: nat := payload[p];
      UnpackKeys(payload[p..], k)
      == Prepend([Imported(payload[p + 1..p + 1 + l], payload[p + 1 + l..p + 33 + l])],
                 UnpackKeys(payload[p + 33 + l..], k - 1))
  {
    var l: nat := payload[p];
    var rest := payload[p..];
    assert rest[1..1 + l] == payload[p + 1..p + 1 + l];
    assert rest[1 + l..33 + l] == payload[p + 1 + l..p + 33 + l];
    assert rest[33 + l..] == payload[p + 33 + l..];
  }

  lemma PrependNone(front: seq<Imported>)
    ensures Prepend(front, Ok([])) == Ok(front)
  {
    assert front + [] == front;
  }

  lemma PrependNothing(r: Result<seq<Imported>, Error>)
    ensures Prepend([], r) == r
  {
    if r.Ok? { assert [] + r.value == r.value; }
  }

  lemma PrependOne(front: seq<Imported>, im: Imported, r: Result<seq<Imported>, Error>)
    ensures Prepend(front, Prepend([im], r)) == Prepend(front + [im], r)
  {
    if r.Ok? { assert front + ([im] + r.value) == front + [im] + r.value; }
  }

  ghost function Prepend(front: seq<Imported>, r: Result<seq<Imported>, Error>): Result<seq<Imported>, Error>
  {
    match r
    case Err(e) => Err(e)
    case Ok(keys) => Ok(front + keys)
  }

  // --- The codec is exact ------------------------------------------------------------

  /** Where the parts of a key lie. */
  lemma FirstKeyParts(im: Imported, tail: seq<byte>)
    requires PackableKey(im)
    ensures var rest, l := KeyBytes(im) + tail, |im.name|;
      && |rest| == 33 + l + |tail| && rest[0] == l
      && rest[1..1 + l] == im.name && rest[1 + l..33 + l] == im.key && rest[33 + l..] == tail
  {
    var l := |im.name|;
    var len: seq<byte> := [l];
    assert KeyBytes(im) + tail == len + (im.name + (im.key + tail));
    Middle(len, im.name, im.key + tail);
    assert KeyBytes(im) + tail == (len + im.name) + (im.key + tail);
    Middle(len + im.name, im.key, tail);
  }

  lemma {:induction false} KeysReadBack(keys: seq<Imported>, more: seq<byte>)
    requires forall im :: im in keys ==> PackableKey(im)
    ensures UnpackKeys(KeysBytes(keys) + more, |keys|) == Ok(keys)
  {
    if keys != [] {
      var im, tail := keys[0], KeysBytes(keys[1..]) + more;
      var l := |im.name|;
      var rest := KeyBytes(im) + tail;
      assert KeysBytes(keys) + more == rest;
      FirstKeyParts(im, tail);
      KeysReadBack(keys[1..], more);
      assert [im] + keys[1..] == keys;
    }
  }

  lemma {:induction false} KeysWriteBack(rest: seq<byte>, count: nat)
    requires UnpackKeys(rest, count).Ok?
    ensures var keys := UnpackKeys(rest, count).value;
      && |keys| == count
      && (forall im :: im in keys ==> PackableKey(im))
      && KeysBytes(keys) <= rest
  {
    if count > 0 {
      var l: nat := rest[0];
      var im := Imported(rest[1..1 + l], rest[1 + l..33 + l]);
      var tail := UnpackKeys(rest[33 + l..], count - 1).value;
      KeysWriteBack(rest[33 + l..], count - 1);
      assert ([im] + tail)[1..] == tail;
      assert KeyBytes(im) + rest[33 + l..] == rest;
      PrefixAfter(KeyBytes(im), KeysBytes(tail), rest[33 + l..]);
    }
  }

  lemma PrefixAfter(head: seq<byte>, a: seq<byte>, b: seq<byte>)
    requires a <= b
    ensures head + a <= head + b
  {
    assert b == a + b[|a|..];
    assert head + b == (head + a) + b[|a|..];
  }

  lemma PackedReadsBack(w: Wallet, more: seq<byte>)
    requires Packable(w)
    ensures Unpack(Packed(w) + more) == Ok(w)
  {
    var ent := |w.entropy|;
    var payload := Packed(w) + more;
    assert payload == [PAYLOAD_VERSION, ent] + w.entropy
                    + ([|w.imported|] + (KeysBytes(w.imported) + more));
    assert payload[2..2 + ent] == w.entropy;
    assert payload[3 + ent..] == KeysBytes(w.imported) + more;
    KeysReadBack(w.imported, more);
  }

  lemma PayloadParts(payload: seq<byte>, ent: nat)
    requires 3 + ent <= |payload|
    ensures payload == payload[..2 + ent] + ([payload[2 + ent]] + payload[3 + ent..])
    ensures payload[..2 + ent] == [payload[0], payload[1]] + payload[2..2 + ent]
  {}

  lemma UnpackedWritesBack(payload: seq<byte>)
    requires Unpack(payload).Ok? && Packable(Unpack(payload).value)
    ensures Packed(Unpack(payload).value) <= payload
  {
    var w := Unpack(payload).value;
    var ent: nat := payload[1];
    var rest := payload[3 + ent..];
    KeysWriteBack(rest, payload[2 + ent]);
    PayloadParts(payload, ent);
    PrefixAfter([|w.imported|], KeysBytes(w.imported), rest);
    PrefixAfter(payload[..2 + ent], [|w.imported|] + KeysBytes(w.imported), [payload[2 + ent]] + rest);
  }

  /** For a wallet that can be packed, a payload unpacks to it exactly when the packed wallet
      is where the payload starts; what follows it is never looked at. */
  lemma UnpackReadsExactlyThePacked(payload: seq<byte>, w: Wallet)
    requires Packable(w)
    ensures Unpack(payload) == Ok(w) <==> Packed(w) <= payload
  {
    if Packed(w) <= payload {
      assert payload == Packed(w) + payload[|Packed(w)|..];
      PackedReadsBack(w, payload[|Packed(w)|..]);
    }
    if Unpack(payload) == Ok(w) { UnpackedWritesBack(payload); }
  }
}
