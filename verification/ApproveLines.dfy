/** What an approve line of the ledger says: its id, its family, its digest and its signer can be read
    back, so that the lines on disk name the signatures one by one. */
module ApproveLines {
  import opened Bytes
  import opened Text
  import opened AuditLog
  import opened TrustPlane
  import opened TrustPlaneSafety
  import opened TrustPlaneTheorems
  import opened LedgerOnDisk
  import D = DerivePath
  import Replies

  // --- Any record --------------------------------------------------------------------

  /** A record is the hash over the chain and the event in lower-case hex, a space, and the event. */
  lemma RecordSpelled(h: Hash, prev: Digest, event: seq<byte>, i: nat)
    requires i < 32
    ensures var r, d, digits := AuditLog.Record(h, prev, event), h(prev + event), Ascii("0123456789abcdef");
      && |r| == 65 + |event| && r[64] == 32 && r[65..] == event
      && r[2 * i] == digits[d[i] / 16] && r[2 * i + 1] == digits[d[i] % 16]
  {
    HexSpelled(h(prev + event), i);
  }

  lemma {:induction false} HexSpelled(data: seq<byte>, i: nat)
    requires i < |data|
    ensures var digits := Ascii("0123456789abcdef");
      ToHex(data)[2 * i] == digits[data[i] / 16] && ToHex(data)[2 * i + 1] == digits[data[i] % 16]
  {
    if i > 0 {
      HexSpelled(data[1..], i - 1);
    } else {
      DigitSpelled(data[0] / 16);
      DigitSpelled(data[0] % 16);
    }
  }

  lemma DigitSpelled(n: nat)
    requires n < 16
    ensures HexDigit(n) == Ascii("0123456789abcdef")[n]
  {
    var digits := "0123456789abcdef";
    assert n < 10 ==> digits[n] == '0' + n as char;
    assert n >= 10 ==> digits[n] == 'a' + (n - 10) as char;
  }

  // --- The line ----------------------------------------------------------------------

  /** "digest=<hex> signer=<address>" */
  function Tail(digest: seq<byte>, signer: seq<byte>): seq<byte>
  {
    Ascii("digest=") + (ToHex(digest) + ([32] + (Ascii("signer=") + signer)))
  }

  /** "kind=<kind> " for the families that have one, then the rest. */
  function Kinded(family: D.Family, tail: seq<byte>): seq<byte>
  {
    match family
    case Eth => tail
    case Sol => Ascii("kind=sol-transfer") + ([32] + tail)
    case Btc => Ascii("kind=btc-send") + ([32] + tail)
  }

  /** "proposal.approve id=<id> [kind=<kind> ]digest=<hex> signer=<address>" */
  function ApproveLine(id: nat, family: D.Family, digest: seq<byte>, signer: seq<byte>): seq<byte>
  {
    Ascii("proposal.approve id=") + (Ascii(Decimal(id)) + ([32] + Kinded(family, Tail(digest, signer))))
  }

  /** The line a signature is recorded with. */
  function LineOf(i: Issue): seq<byte>
  {
    ApproveLine(i.id, Replies.SignedFamily(i.over), i.signature.digest, i.signature.signer)
  }

  /** A word after a space. */
  lemma Spaced(word: string, spaced: string)
    requires spaced == " " + word
    ensures Ascii(spaced) == [32] + Ascii(word)
  {
    assert ByteOf(' ') == 32;
  }

  /** The events' own text, with the kind as bytes. */
  lemma LineParts(i: Issue, kind: seq<byte>)
    requires Ascii(KindText(i.over)) == kind
    ensures Line(ApproveLogged(i))
         == Ascii("proposal.approve id=")
            + (Ascii(Decimal(i.id)) + kind + Ascii(" digest=") + ToHex(i.signature.digest) + Ascii(" signer=")
               + i.signature.signer)
  {}

  lemma KindIs(over: seq<byte>)
    ensures KindText(over) == match Replies.SignedFamily(over)
                              case Eth => "" case Sol => " kind=sol-transfer" case Btc => " kind=btc-send"
  {}

  lemma WithoutKind(tag: seq<byte>, id: seq<byte>, digest: seq<byte>, hex: seq<byte>, word: seq<byte>, signer: seq<byte>)
    ensures tag + (id + [] + ([32] + digest) + hex + ([32] + word) + signer)
         == tag + (id + ([32] + (digest + (hex + ([32] + (word + signer))))))
  {}

  lemma WithKind(tag: seq<byte>, id: seq<byte>, kind: seq<byte>, digest: seq<byte>, hex: seq<byte>,
                 word: seq<byte>, signer: seq<byte>)
    ensures tag + (id + ([32] + kind) + ([32] + digest) + hex + ([32] + word) + signer)
         == tag + (id + ([32] + (kind + ([32] + (digest + (hex + ([32] + (word + signer))))))))
  {}

  lemma LineIsTheEvents(i: Issue)
    ensures Line(ApproveLogged(i)) == LineOf(i)
  {
    KindIs(i.over);
    Spaced("digest=", " digest=");
    Spaced("signer=", " signer=");
    match Replies.SignedFamily(i.over)
    case Eth => PlainLine(i);
    case Sol => KindLine(i, "kind=sol-transfer", " kind=sol-transfer");
    case Btc => KindLine(i, "kind=btc-send", " kind=btc-send");
  }

  lemma PlainLine(i: Issue)
    requires KindText(i.over) == "" && Replies.SignedFamily(i.over) == D.Eth
    requires Ascii(" digest=") == [32] + Ascii("digest=") && Ascii(" signer=") == [32] + Ascii("signer=")
    ensures Line(ApproveLogged(i)) == LineOf(i)
  {
    LineParts(i, []);
    WithoutKind(Ascii("proposal.approve id="), Ascii(Decimal(i.id)), Ascii("digest="), ToHex(i.signature.digest),
                Ascii("signer="), i.signature.signer);
  }

  lemma KindLine(i: Issue, word: string, spaced: string)
    requires KindText(i.over) == spaced == " " + word
    requires forall tail :: Kinded(Replies.SignedFamily(i.over), tail) == Ascii(word) + ([32] + tail)
    requires Ascii(" digest=") == [32] + Ascii("digest=") && Ascii(" signer=") == [32] + Ascii("signer=")
    ensures Line(ApproveLogged(i)) == LineOf(i)
  {
    Spaced(word, spaced);
    LineParts(i, [32] + Ascii(word));
    WithKind(Ascii("proposal.approve id="), Ascii(Decimal(i.id)), Ascii(word), Ascii("digest="),
             ToHex(i.signature.digest), Ascii("signer="), i.signature.signer);
  }

  // --- Reading it back ---------------------------------------------------------------

  /** What stands before the first space, and what after it. */
  lemma AtFirstSpace(a: seq<byte>, x: seq<byte>, b: seq<byte>, y: seq<byte>)
    requires 32 !in a && 32 !in b && a + ([32] + x) == b + ([32] + y)
    ensures a == b && x == y
  {
    var s := a + ([32] + x);
    assert s[|a|] == 32 && s[|b|] == 32;
    assert |a| == |b|;
    assert s[..|a|] == a && s[..|b|] == b && s[|a| + 1..] == x && s[|b| + 1..] == y;
  }

  lemma SamePrefix(p: seq<byte>, x: seq<byte>, y: seq<byte>)
    requires p + x == p + y
    ensures x == y
  {
    assert (p + x)[|p|..] == x && (p + y)[|p|..] == y;
  }

  lemma DigitsHaveNoSpace(n: nat)
    ensures 32 !in Ascii(Decimal(n))
  {
    var d := Decimal(n);
    forall i | 0 <= i < |d| ensures ByteOf(d[i]) != 32 { assert d[i] in d; }
  }

  lemma {:induction false} HexHasNoSpace(data: seq<byte>)
    ensures 32 !in ToHex(data)
  {
    if data != [] { HexHasNoSpace(data[1..]); }
  }

  lemma {:induction false} AsciiInjective(s: string, t: string)
    requires Ascii(s) == Ascii(t) && (forall c :: c in s ==> IsDigit(c)) && (forall c :: c in t ==> IsDigit(c))
    ensures s == t
  {
    forall i | 0 <= i < |s| ensures s[i] == t[i] {
      assert Ascii(s)[i] == Ascii(t)[i];
      assert s[i] in s && t[i] in t;
    }
  }

  lemma TailReads(digest: seq<byte>, signer: seq<byte>, digest': seq<byte>, signer': seq<byte>)
    requires Tail(digest, signer) == Tail(digest', signer')
    ensures digest == digest' && signer == signer'
  {
    SamePrefix(Ascii("digest="), ToHex(digest) + ([32] + (Ascii("signer=") + signer)),
               ToHex(digest') + ([32] + (Ascii("signer=") + signer')));
    HexHasNoSpace(digest);
    HexHasNoSpace(digest');
    AtFirstSpace(ToHex(digest), Ascii("signer=") + signer, ToHex(digest'), Ascii("signer=") + signer');
    SamePrefix(Ascii("signer="), signer, signer');
    HexIsExact(ToHex(digest), digest);
    HexIsExact(ToHex(digest), digest');
  }

  /** The word before the first space tells the families that have one. */
  lemma WordReads(word: string, tail: seq<byte>, word': string, tail': seq<byte>)
    requires Plainly(word) && Plainly(word') && Ascii(word) + ([32] + tail) == Ascii(word') + ([32] + tail')
    ensures |word| == |word'| && tail == tail'
  {
    AtFirstSpace(Ascii(word), tail, Ascii(word'), tail');
  }

  predicate Plainly(word: string) { 32 !in Ascii(word) }

  lemma KindWords()
    ensures Plainly("kind=sol-transfer") && Plainly("kind=btc-send")
  {}

  lemma FirstLetters(digest: seq<byte>, signer: seq<byte>, tail: seq<byte>)
    ensures Tail(digest, signer)[0] == 100
    ensures Kinded(D.Sol, tail)[0] == 107 && Kinded(D.Btc, tail)[0] == 107
  {}

  lemma KindedReads(f: D.Family, digest: seq<byte>, signer: seq<byte>,
                    f': D.Family, digest': seq<byte>, signer': seq<byte>)
    requires Kinded(f, Tail(digest, signer)) == Kinded(f', Tail(digest', signer'))
    ensures f == f' && Tail(digest, signer) == Tail(digest', signer')
  {
    var t, t' := Tail(digest, signer), Tail(digest', signer');
    FirstLetters(digest, signer, t);
    FirstLetters(digest', signer', t');
    KindWords();
    if f != D.Eth && f' != D.Eth {
      var word := if f == D.Sol then "kind=sol-transfer" else "kind=btc-send";
      var word' := if f' == D.Sol then "kind=sol-transfer" else "kind=btc-send";
      WordReads(word, t, word', t');
    }
  }

  /** A line says one thing: id, family, digest and signer can be read off it. */
  lemma LineReads(id: nat, f: D.Family, digest: seq<byte>, signer: seq<byte>,
                  id': nat, f': D.Family, digest': seq<byte>, signer': seq<byte>)
    requires ApproveLine(id, f, digest, signer) == ApproveLine(id', f', digest', signer')
    ensures id == id' && f == f' && digest == digest' && signer == signer'
  {
    var rest, rest' := Kinded(f, Tail(digest, signer)), Kinded(f', Tail(digest', signer'));
    var d, d' := Ascii(Decimal(id)), Ascii(Decimal(id'));
    SamePrefix(Ascii("proposal.approve id="), d + ([32] + rest), d' + ([32] + rest'));
    DigitsHaveNoSpace(id);
    DigitsHaveNoSpace(id');
    AtFirstSpace(d, rest, d', rest');
    AsciiInjective(Decimal(id), Decimal(id'));
    DecimalInjective(id, id');
    KindedReads(f, digest, signer, f', digest', signer');
    TailReads(digest, signer, digest', signer');
  }

  // --- The lines on disk -------------------------------------------------------------

  function ApproveLinesIn(lines: seq<seq<byte>>): seq<seq<byte>>
  {
    if lines == [] then []
    else
      var n := |lines| - 1;
      ApproveLinesIn(lines[..n]) + if IsApproveLine(lines[n]) then [lines[n]] else []
  }

  function LinesOf(issues: seq<Issue>): (r: seq<seq<byte>>)
    ensures |r| == |issues| && forall k :: 0 <= k < |r| ==> r[k] == LineOf(issues[k])
  {
    if issues == [] then [] else LinesOf(issues[..|issues| - 1]) + [LineOf(issues[|issues| - 1])]
  }

  lemma LinesOfSnoc(issues: seq<Issue>, i: Issue)
    ensures LinesOf(issues + [i]) == LinesOf(issues) + [LineOf(i)]
  {
    assert (issues + [i])[..|issues|] == issues;
  }

  lemma {:induction false} LedgerLines(before: seq<seq<byte>>, ledger: seq<Event>)
    ensures ApproveLinesIn(before + Texts(ledger)) == ApproveLinesIn(before) + LinesOf(Recorded(ledger))
  {
    var old_ := ApproveLinesIn(before);
    if ledger == [] {
      assert before + Texts(ledger) == before && old_ + [] == old_;
    } else {
      var n := |ledger| - 1;
      var front, e := ledger[..n], ledger[n];
      MapSnoc(Line, before, ledger);
      LedgerLines(before, front);
      ApproveLinesAreApprovals(e);
      if e.ApproveLogged? {
        LineIsTheEvents(e.issue);
        LinesOfSnoc(Recorded(front), e.issue);
        Associative(old_, LinesOf(Recorded(front)), [LineOf(e.issue)]);
      } else {
        assert Recorded(front) + [] == Recorded(front);
      }
    }
  }

  /** While no write has failed, the approve lines a run has added to the ledger on disk name, in order,
      the signatures it has recorded: id, family, digest and signer; back at recv these are the
      signatures it has replied with. */
  lemma LedgerNamesSignatures(h: Hash, cfg: Config, prior: seq<byte>, actions: seq<Action>, cuts: seq<nat>)
    requires Events(h, prior).Some? && Terminated(prior) && SingleLineSigners(cfg)
    requires |cuts| == |Writes(cfg, actions)| && !Run(cfg, actions).torn
    ensures var s, after := Run(cfg, actions), Events(h, Disk(h, prior, Writes(cfg, actions), cuts).content);
      var before := Events(h, prior).value;
      && after.Some?
      && ApproveLinesIn(after.value) == ApproveLinesIn(before) + LinesOf(Recorded(s.ledger))
      && (s.loop.AtRecv? ==> ApproveLinesIn(after.value) == ApproveLinesIn(before) + LinesOf(Released(s.replies)))
  {
    LedgerCountsSignatures(h, cfg, prior, actions, cuts);
    LedgerLines(Events(h, prior).value, Run(cfg, actions).ledger);
    SignApproveAudit(cfg, actions);
  }
}
