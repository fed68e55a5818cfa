/** The trust plane's events as the lines they become, and the ledger file after a run: the
    third leg of the identity can be counted on disk. */
module LedgerOnDisk {
  import opened Bytes
  import opened Text
  import opened ProposalQueue
  import opened Protocol
  import opened TrustPlane
  import opened TrustPlaneSafety
  import opened TrustPlaneTheorems
  import opened AuditLog
  import E = Envelope
  import D = DerivePath

  // --- The text of an event ----------------------------------------------------------

  /** The words an event's line begins with. */
  function Tag(e: Event): string
  {
    match e
    case SubmitBadMac => "proposal.submit.badmac"
    case SubmitLogged(_, _, _) => "proposal.submit id="
    case AutoLock(_) => "autolock reason="
    case ApproveBadPass(_) => "proposal.approve.badpass id="
    case SignFailed(_) => "proposal.sign.fail id="
    case ApproveLogged(_) => "proposal.approve id="
    case DenyLogged(_) => "proposal.deny id="
    case RevealSeed => "vault.reveal.seed"
    case RevealKey => "vault.reveal.key"
    case RevealBadPass => "vault.reveal.badpass"
  }

  function IdText(n: nat): seq<byte> { Ascii(Decimal(n)) }

  /** How an approve record names the family, after the id. */
  function KindText(payload: seq<byte>): string
  {
    match E.ParseProposal(payload)
    case Err(_) => ""
    case Ok(body) =>
      match D.PresetFamily(body.preset)
      case Eth => ""
      case Btc => " kind=btc-send"
      case Sol => " kind=sol-transfer"
  }

  function Details(e: Event): seq<byte>
  {
    match e
    case SubmitLogged(id, prov, size) =>
      IdText(id) + Ascii(if prov == Ui then " prov=ui" else " prov=anon") + Ascii(" bytes=") + IdText(size)
    case AutoLock(reason) => Ascii(if reason.Suspend? then "suspend" else "session-lock")
    case ApproveBadPass(id) => IdText(id)
    case SignFailed(id) => IdText(id)
    case ApproveLogged(i) =>
      IdText(i.id) + Ascii(KindText(i.over)) + Ascii(" digest=") + ToHex(i.signature.digest)
      + Ascii(" signer=") + i.signature.signer
    case DenyLogged(id) => IdText(id)
    case _ => []
  }

  function Line(e: Event): seq<byte> { Ascii(Tag(e)) + Details(e) }

  function MapSeq<A, B>(f: A -> B, s: seq<A>): (r: seq<B>)
    ensures |r| == |s| && forall i :: 0 <= i < |r| ==> r[i] == f(s[i])
  {
    if s == [] then [] else MapSeq(f, s[..|s| - 1]) + [f(s[|s| - 1])]
  }

  function Texts(events: seq<Event>): seq<seq<byte>> { MapSeq(Line, events) }

  const APPROVE_TAG: string := "proposal.approve id="

  predicate IsApproveLine(line: seq<byte>) { StartsWith(line, Ascii(APPROVE_TAG)) }

  lemma Differs(tag: string, details: seq<byte>, prefix: string, at: nat)
    requires at < |tag| && at < |prefix| && ByteOf(tag[at]) != ByteOf(prefix[at])
    ensures !StartsWith(Ascii(tag) + details, Ascii(prefix))
  {
    var line, p := Ascii(tag) + details, Ascii(prefix);
    assert line[at] == ByteOf(tag[at]);
    if |p| <= |line| { assert line[..|p|][at] == line[at]; }
  }

  lemma Agrees(tag: string, details: seq<byte>)
    ensures StartsWith(Ascii(tag) + details, Ascii(tag))
  {
    assert (Ascii(tag) + details)[..|tag|] == Ascii(tag);
  }

  /** Of all the lines the process writes, exactly the approve records begin like one. */
  lemma ApproveLinesAreApprovals(e: Event)
    ensures IsApproveLine(Line(e)) <==> e.ApproveLogged?
  {
    var d := Details(e);
    match e
    case ApproveLogged(_) => Agrees("proposal.approve id=", d);
    case SubmitBadMac => Differs("proposal.submit.badmac", d, APPROVE_TAG, 9);
    case SubmitLogged(_, _, _) => Differs("proposal.submit id=", d, APPROVE_TAG, 9);
    case AutoLock(_) => Differs("autolock reason=", d, APPROVE_TAG, 0);
    case ApproveBadPass(_) => Differs("proposal.approve.badpass id=", d, APPROVE_TAG, 16);
    case SignFailed(_) => Differs("proposal.sign.fail id=", d, APPROVE_TAG, 9);
    case DenyLogged(_) => Differs("proposal.deny id=", d, APPROVE_TAG, 9);
    case RevealSeed => Differs("vault.reveal.seed", d, APPROVE_TAG, 0);
    case RevealKey => Differs("vault.reveal.key", d, APPROVE_TAG, 0);
    case RevealBadPass => Differs("vault.reveal.badpass", d, APPROVE_TAG, 0);
  }

  // --- Every line can be recorded ----------------------------------------------------

  /** Signer texts are addresses; none has a line break in it. */
  ghost predicate SingleLineSigners(cfg: Config)
  {
    forall w, body, salt: nat ::
      cfg.sign(w, body, salt).Some? ==> NEWLINE !in cfg.sign(w, body, salt).value.signer
  }

  predicate Plain(s: string) { forall i :: 0 <= i < |s| ==> ByteOf(s[i]) != 10 }

  lemma PlainHasNoNewline(s: string)
    requires Plain(s)
    ensures NEWLINE !in Ascii(s)
  {}

  lemma IdTextHasNoNewline(n: nat)
    ensures NEWLINE !in IdText(n)
  {
    var d := Decimal(n);
    forall i | 0 <= i < |d| ensures ByteOf(d[i]) != 10 { assert d[i] in d; }
  }

  lemma PipeTagIsPlain(e: Event)
    requires e.SubmitBadMac? || e.SubmitLogged? || e.AutoLock?
    ensures Tag(e) != [] && Plain(Tag(e))
  {}

  lemma ApproveTagIsPlain(e: Event)
    requires e.ApproveBadPass? || e.ApproveLogged?
    ensures Tag(e) != [] && Plain(Tag(e))
  {}

  lemma VerdictTagIsPlain(e: Event)
    requires e.SignFailed? || e.DenyLogged?
    ensures Tag(e) != [] && Plain(Tag(e))
  {}

  lemma RevealTagIsPlain(e: Event)
    requires e.RevealSeed? || e.RevealKey? || e.RevealBadPass?
    ensures Tag(e) != [] && Plain(Tag(e))
  {}

  lemma TagIsPlain(e: Event)
    ensures Tag(e) != [] && Plain(Tag(e))
  {
    if e.SubmitBadMac? || e.SubmitLogged? || e.AutoLock? { PipeTagIsPlain(e); }
    else if e.ApproveBadPass? || e.ApproveLogged? { ApproveTagIsPlain(e); }
    else if e.SignFailed? || e.DenyLogged? { VerdictTagIsPlain(e); }
    else { RevealTagIsPlain(e); }
  }

  predicate NoBreak(b: seq<byte>) { NEWLINE !in b }

  lemma JoinNoBreak(a: seq<byte>, b: seq<byte>)
    requires NoBreak(a) && NoBreak(b)
    ensures NoBreak(a + b)
  {}

  lemma SubmitDetailsNoBreak(id: nat, prov: Provenance, size: nat)
    ensures NoBreak(Details(SubmitLogged(id, prov, size)))
  {
    var p := if prov == Ui then " prov=ui" else " prov=anon";
    IdTextHasNoNewline(id);
    IdTextHasNoNewline(size);
    PlainHasNoNewline(p);
    PlainHasNoNewline(" bytes=");
    JoinNoBreak(IdText(id), Ascii(p));
    JoinNoBreak(IdText(id) + Ascii(p), Ascii(" bytes="));
    JoinNoBreak(IdText(id) + Ascii(p) + Ascii(" bytes="), IdText(size));
  }

  lemma KindTextIsPlain(payload: seq<byte>)
    ensures Plain(KindText(payload))
  {}

  lemma ApproveDetailsNoBreak(i: Issue)
    requires NoBreak(i.signature.signer)
    ensures NoBreak(Details(ApproveLogged(i)))
  {
    var id, kind, digest := IdText(i.id), Ascii(KindText(i.over)), ToHex(i.signature.digest);
    IdTextHasNoNewline(i.id);
    KindTextIsPlain(i.over);
    PlainHasNoNewline(KindText(i.over));
    PlainHasNoNewline(" digest=");
    HexHasNoNewline(i.signature.digest);
    PlainHasNoNewline(" signer=");
    JoinNoBreak(id, kind);
    JoinNoBreak(id + kind, Ascii(" digest="));
    JoinNoBreak(id + kind + Ascii(" digest="), digest);
    JoinNoBreak(id + kind + Ascii(" digest=") + digest, Ascii(" signer="));
    JoinNoBreak(id + kind + Ascii(" digest=") + digest + Ascii(" signer="), i.signature.signer);
  }

  lemma DetailsNoBreak(e: Event)
    requires e.ApproveLogged? ==> NoBreak(e.issue.signature.signer)
    ensures NoBreak(Details(e))
  {
    match e
    case SubmitLogged(id, prov, size) => SubmitDetailsNoBreak(id, prov, size);
    case AutoLock(reason) => PlainHasNoNewline(if reason.Suspend? then "suspend" else "session-lock");
    case ApproveBadPass(id) => IdTextHasNoNewline(id);
    case SignFailed(id) => IdTextHasNoNewline(id);
    case ApproveLogged(i) => ApproveDetailsNoBreak(i);
    case DenyLogged(id) => IdTextHasNoNewline(id);
    case _ =>
  }

  lemma LineIsRecordable(e: Event)
    requires e.ApproveLogged? ==> NoBreak(e.issue.signature.signer)
    ensures Recordable(Line(e))
  {
    TagIsPlain(e);
    PlainHasNoNewline(Tag(e));
    DetailsNoBreak(e);
    JoinNoBreak(Ascii(Tag(e)), Details(e));
  }

  // --- Counting ----------------------------------------------------------------------

  function CountApprovals(lines: seq<seq<byte>>): nat
  {
    if lines == [] then 0
    else CountApprovals(lines[..|lines| - 1]) + if IsApproveLine(lines[|lines| - 1]) then 1 else 0
  }

  lemma MapSnoc<A, B>(f: A -> B, before: seq<B>, s: seq<A>)
    requires s != []
    ensures var all, n := before + MapSeq(f, s), |s| - 1;
      |all| > 0 && all[..|all| - 1] == before + MapSeq(f, s[..n]) && all[|all| - 1] == f(s[n])
  {
    var n := |s| - 1;
    assert before + MapSeq(f, s) == (before + MapSeq(f, s[..n])) + [f(s[n])];
  }

  lemma {:induction false} CountIsRecorded(before: seq<seq<byte>>, ledger: seq<Event>)
    ensures CountApprovals(before + Texts(ledger)) == CountApprovals(before) + |Recorded(ledger)|
  {
    var all := before + Texts(ledger);
    if ledger == [] {
      assert all == before;
    } else {
      var n := |ledger| - 1;
      MapSnoc(Line, before, ledger);
      CountIsRecorded(before, ledger[..n]);
      ApproveLinesAreApprovals(ledger[n]);
    }
  }

  // --- The file, from the writes -----------------------------------------------------

  /** One append the process attempted, whether it succeeded, and how many bytes of the line a
      failed one left behind. */
  datatype Write = Write(event: Event, ok: bool)

  /** The append a step makes, if it makes one. */
  function Attempted(s: Plane, a: Action): Option<Write>
  {
    match a
    case Record(ok) =>
      (match s.loop
       case BadPassphrase(id) => Some(Write(ApproveBadPass(id), ok))
       case SignRefused(id) => Some(Write(SignFailed(id), ok))
       case ResolvedAs(i) => Some(Write(ApproveLogged(i), ok))
       case DenyResolved(id) => Some(Write(DenyLogged(id), ok))
       case Revealing(w) =>
         if w.entropy == [] && w.imported == [] then None
         else Some(Write(if w.entropy != [] then RevealSeed else RevealKey, ok))
       case RevealRefused => Some(Write(RevealBadPass, ok))
       case _ => None)
    case PipeRecord(ok) =>
      (match s.pipe
       case MacRefused => Some(Write(SubmitBadMac, ok))
       case Queued(id, prov, size) => Some(Write(SubmitLogged(id, prov, size), ok))
       case _ => None)
    case FireRecord(ok) => if s.watcher.Locking? then Some(Write(AutoLock(s.watcher.reason), ok)) else None
    case _ => None
  }

  /** All appends of a run, in order. */
  function Writes(cfg: Config, actions: seq<Action>): seq<Write>
  {
    if actions == [] then []
    else
      var front, a := actions[..|actions| - 1], actions[|actions| - 1];
      var s := Run(cfg, front);
      Writes(cfg, front)
      + if Next(cfg, s, a).Some? && Attempted(s, a).Some? then [Attempted(s, a).value] else []
  }

  predicate AllOk(writes: seq<Write>) { forall w :: w in writes ==> w.ok }

  /** The events whose append succeeded. */
  function Kept(writes: seq<Write>): seq<Event>
  {
    if writes == [] then []
    else
      var n := |writes| - 1;
      Kept(writes[..n]) + if writes[n].ok then [writes[n].event] else []
  }

  /** The file, and the chain the process continues. */
  datatype Media = Media(content: seq<byte>, chain: Digest)

  /** After one append: the record is there and the chain moved on; or up to `cut` bytes of its line
      are there and the chain is where it was. */
  function AfterWrite(h: Hash, m: Media, w: Write, cut: nat): Media
  {
    var after := Appended(h, m.content, m.chain, Line(w.event));
    if w.ok then Media(after, ChainStep(h, m.chain, Line(w.event)))
    else m.(content := if |m.content| + cut < |after| then after[..|m.content| + cut] else after)
  }

  /** After a session's appends on `prior`. */
  function Disk(h: Hash, prior: seq<byte>, writes: seq<Write>, cuts: seq<nat>): Media
    requires |cuts| == |writes|
  {
    if writes == [] then Media(prior, TailDigest(prior))
    else
      var n := |writes| - 1;
      AfterWrite(h, Disk(h, prior, writes[..n], cuts[..n]), writes[n], cuts[n])
  }

  /** A ledger that starts on `prior` and gets every event recorded. */
  function Ledger(h: Hash, prior: seq<byte>, events: seq<Event>): seq<byte>
  {
    AppendAll(h, prior, TailDigest(prior), Texts(events))
  }

  lemma StepWrites(cfg: Config, s: Plane, a: Action)
    requires Next(cfg, s, a).Some?
    ensures var t, w := Next(cfg, s, a).value, Attempted(s, a);
      && t.ledger == s.ledger + (if w.Some? && w.value.ok then [w.value.event] else [])
      && (t.torn <==> s.torn || (w.Some? && !w.value.ok))
  {
    assert s.ledger + [] == s.ledger;
    if a.Receive? && s.loop.AtRecv? && a.frame.Some? && a.frame.value != [] {
      DispatchWritesNothing(s, DecodeRequest(a.frame.value));
    }
  }

  lemma DispatchWritesNothing(s: Plane, q: Request)
    ensures Dispatch(s, q).ledger == s.ledger && Dispatch(s, q).torn == s.torn
  {}

  /** The appends of a run are what its ledger and its torn flag say. */
  lemma {:induction false} WritesAreTheLedger(cfg: Config, actions: seq<Action>)
    ensures Kept(Writes(cfg, actions)) == Run(cfg, actions).ledger
    ensures AllOk(Writes(cfg, actions)) <==> !Run(cfg, actions).torn
  {
    if actions != [] {
      var front, a := actions[..|actions| - 1], actions[|actions| - 1];
      WritesAreTheLedger(cfg, front);
      var s, writes := Run(cfg, front), Writes(cfg, front);
      assert writes + [] == writes;
      if Next(cfg, s, a).Some? {
        StepWrites(cfg, s, a);
        if Attempted(s, a).Some? { assert (writes + [Attempted(s, a).value])[..|writes|] == writes; }
      }
    }
  }

  lemma {:induction false} AppendAllSnoc(h: Hash, content: seq<byte>, chain: Digest, events: seq<seq<byte>>, e: seq<byte>)
    ensures AppendAll(h, content, chain, events + [e])
         == Appended(h, AppendAll(h, content, chain, events), Chain(h, chain, events), e)
    decreases events
  {
    if events == [] {
      assert [e][1..] == [];
    } else {
      var next := ChainStep(h, chain, events[0]);
      assert (events + [e])[1..] == events[1..] + [e];
      AppendAllSnoc(h, Appended(h, content, chain, events[0]), next, events[1..], e);
      ChainFront(h, chain, events[0], events[1..]);
      assert [events[0]] + events[1..] == events;
    }
  }

  lemma LedgerSnoc(h: Hash, prior: seq<byte>, events: seq<Event>, e: Event)
    ensures Ledger(h, prior, events + [e])
         == Appended(h, Ledger(h, prior, events), Chain(h, TailDigest(prior), Texts(events)), Line(e))
    ensures Chain(h, TailDigest(prior), Texts(events + [e]))
         == ChainStep(h, Chain(h, TailDigest(prior), Texts(events)), Line(e))
  {
    var texts := Texts(events);
    assert (events + [e])[..|events|] == events;
    assert Texts(events + [e]) == texts + [Line(e)];
    AppendAllSnoc(h, prior, TailDigest(prior), texts, Line(e));
    assert (texts + [Line(e)])[..|texts|] == texts;
  }

  lemma WriteGrows(h: Hash, m: Media, w: Write, cut: nat)
    ensures m.content <= AfterWrite(h, m, w, cut).content
  {}

  /** Where no append failed, the file is the ledger of all events. */
  lemma {:induction false} DiskWhenAllOk(h: Hash, prior: seq<byte>, writes: seq<Write>, cuts: seq<nat>)
    requires |cuts| == |writes| && AllOk(writes)
    ensures Disk(h, prior, writes, cuts)
         == Media(Ledger(h, prior, Kept(writes)), Chain(h, TailDigest(prior), Texts(Kept(writes))))
  {
    if writes != [] {
      var n := |writes| - 1;
      assert AllOk(writes[..n]) && writes[n].ok;
      DiskWhenAllOk(h, prior, writes[..n], cuts[..n]);
      LedgerSnoc(h, prior, Kept(writes[..n]), writes[n].event);
    }
  }

  lemma KeptGrows(writes: seq<Write>)
    requires writes != []
    ensures Kept(writes[..|writes| - 1]) <= Kept(writes)
  {}

  /** The number of events recorded before the first append that failed. */
  function Unbroken(writes: seq<Write>): (m: nat)
    ensures m <= |Kept(writes)|
  {
    if AllOk(writes) then |Kept(writes)|
    else
      KeptGrows(writes);
      Unbroken(writes[..|writes| - 1])
  }

  /** The file begins with the ledger of every event up to the first failed append. */
  lemma {:induction false} DiskHoldsLedger(h: Hash, prior: seq<byte>, writes: seq<Write>, cuts: seq<nat>)
    requires |cuts| == |writes|
    ensures Ledger(h, prior, Kept(writes)[..Unbroken(writes)]) <= Disk(h, prior, writes, cuts).content
  {
    var m := Unbroken(writes);
    if AllOk(writes) {
      assert Kept(writes)[..m] == Kept(writes);
      DiskWhenAllOk(h, prior, writes, cuts);
    } else {
      var n := |writes| - 1;
      DiskHoldsLedger(h, prior, writes[..n], cuts[..n]);
      var before := Disk(h, prior, writes[..n], cuts[..n]);
      WriteGrows(h, before, writes[n], cuts[n]);
      KeptGrows(writes);
      assert Kept(writes)[..m] == Kept(writes[..n])[..m];
      PrefixTransitive(Ledger(h, prior, Kept(writes)[..m]), before.content, Disk(h, prior, writes, cuts).content);
    }
  }

  lemma PrefixTransitive(a: seq<byte>, b: seq<byte>, c: seq<byte>)
    requires a <= b && b <= c
    ensures a <= c
  {}

  lemma DiskSnoc(h: Hash, prior: seq<byte>, writes: seq<Write>, cuts: seq<nat>, w: Write, cut: nat)
    requires |cuts| == |writes|
    ensures Disk(h, prior, writes + [w], cuts + [cut]) == AfterWrite(h, Disk(h, prior, writes, cuts), w, cut)
  {
    var n := |writes|;
    assert (writes + [w])[..n] == writes && (cuts + [cut])[..n] == cuts;
  }

  /** What a failed append leaves is the record, cut. */
  lemma CutRecord(h: Hash, m: Media, e: Event, content: seq<byte>)
    requires m.content <= content <= Appended(h, m.content, m.chain, Line(e))
    ensures AfterWrite(h, m, Write(e, false), |content| - |m.content|) == m.(content := content)
  {
    assert Appended(h, m.content, m.chain, Line(e))[..|content|] == content;
  }

  /** What an opened log stands on. */
  ghost predicate StandsOn(log: Log, m: Media)
    reads log, log.chain, log.file
  {
    log.Valid() && log.file.Bytes() == m.content
    && (if log.loaded then log.chain[..] == m.chain
        else log.chain[..] == GENESIS && m.chain == TailDigest(m.content))
  }

  /** One event through Log.Append. */
  method WriteEvent(log: Log, e: Event, ghost m: Media) returns (w: Write, ghost cut: nat)
    requires StandsOn(log, m) && Recordable(Line(e))
    modifies log, log.chain, log.file
    ensures w.event == e && StandsOn(log, AfterWrite(log.hash, m, w, cut))
  {
    var r, prev := log.Append(Line(e));
    w := Write(e, r.Ok?);
    cut := |log.file.Bytes()| - |m.content|;
    if r.Err? { CutRecord(log.hash, m, e, log.file.Bytes()); }
  }

  /** The writes are of these events, in order. */
  predicate Names(writes: seq<Write>, events: seq<Event>)
  {
    |writes| == |events| && forall i :: 0 <= i < |events| ==> writes[i].event == events[i]
  }

  lemma NamesSnoc(writes: seq<Write>, events: seq<Event>, n: nat, w: Write)
    requires n < |events| && Names(writes, events[..n]) && w.event == events[n]
    ensures Names(writes + [w], events[..n + 1])
  {}

  /** The process at its log: every event through Log.Append, which reloads the tail first; the
      file is what the writes make of it. */
  method WriteEvents(log: Log, events: seq<Event>) returns (writes: seq<Write>, ghost cuts: seq<nat>)
    requires log.Valid() && !log.loaded && log.chain[..] == GENESIS
    requires forall e :: e in events ==> Recordable(Line(e))
    modifies log, log.chain, log.file
    ensures Names(writes, events) && |cuts| == |writes|
    ensures log.file.Bytes() == Disk(log.hash, old(log.file.Bytes()), writes, cuts).content
  {
    writes, cuts := [], [];
    ghost var prior := log.file.Bytes();
    for n := 0 to |events|
      invariant Names(writes, events[..n]) && |cuts| == |writes|
      invariant StandsOn(log, Disk(log.hash, prior, writes, cuts))
    {
      assert events[n] in events;
      ghost var media := Disk(log.hash, prior, writes, cuts);
      var w, cut := WriteEvent(log, events[n], media);
      DiskSnoc(log.hash, prior, writes, cuts, w, cut);
      NamesSnoc(writes, events, n, w);
      writes := writes + [w];
      cuts := cuts + [cut];
    }
    assert events[..|events|] == events;
  }

  // --- The count on disk -------------------------------------------------------------

  lemma RecordedIn(ledger: seq<Event>, k: nat)
    requires k < |ledger| && ledger[k].ApproveLogged?
    ensures ledger[k].issue in Recorded(ledger)
  {
    if k < |ledger| - 1 { RecordedIn(ledger[..|ledger| - 1], k); }
  }

  lemma SessionIsRecordable(cfg: Config, actions: seq<Action>)
    requires SingleLineSigners(cfg)
    ensures forall e :: e in Run(cfg, actions).ledger ==> Recordable(Line(e))
  {
    var s := Run(cfg, actions);
    RunKeepsInv(cfg, actions);
    var claimed := Claimed(s);
    forall k | 0 <= k < |s.ledger| ensures Recordable(Line(s.ledger[k])) {
      var e := s.ledger[k];
      if e.ApproveLogged? {
        RecordedIn(s.ledger, k);
        var j :| 0 <= j < |Recorded(s.ledger)| && Recorded(s.ledger)[j] == e.issue;
        assert claimed[j] == e.issue;
        assert OverQueuedBytes(cfg, s.items, claimed[j]);
      }
      LineIsRecordable(e);
    }
  }

  lemma LedgerVerifies(h: Hash, prior: seq<byte>, events: seq<Event>)
    requires Events(h, prior).Some? && Terminated(prior)
    requires forall e :: e in events ==> Recordable(Line(e))
    ensures Events(h, Ledger(h, prior, events)) == Some(Events(h, prior).value + Texts(events))
    ensures CountApprovals(Events(h, prior).value + Texts(events))
         == CountApprovals(Events(h, prior).value) + |Recorded(events)|
  {
    var texts := Texts(events);
    forall line | line in texts ensures Recordable(line) {
      var i :| 0 <= i < |texts| && texts[i] == line;
      assert line == Line(events[i]);
    }
    AppendAllVerifies(h, prior, TailDigest(prior), texts);
    CountIsRecorded(Events(h, prior).value, events);
  }

  /** The ledger on disk after any run: while no write has failed it verifies, holds the old lines
      and then the run's, and as many approve records were added as there are approved proposals
      back at recv, that is as many as signature replies were issued. After a failed write it
      still begins with a ledger that verifies and holds the old lines and then every event
      recorded before the failure. */
  lemma LedgerCountsSignatures(h: Hash, cfg: Config, prior: seq<byte>, actions: seq<Action>, cuts: seq<nat>)
    requires Events(h, prior).Some? && Terminated(prior) && SingleLineSigners(cfg)
    requires |cuts| == |Writes(cfg, actions)|
    ensures var s, file := Run(cfg, actions), Disk(h, prior, Writes(cfg, actions), cuts).content;
      var before := Events(h, prior).value;
      && (!s.torn ==>
            var after := Events(h, file);
            && after == Some(before + Texts(s.ledger))
            && CountApprovals(after.value) == CountApprovals(before) + |Recorded(s.ledger)|
            && (s.loop.AtRecv? ==> CountApprovals(after.value) - CountApprovals(before) == |ApprovedIds(s.items)|))
      && (s.torn ==>
            var m := Unbroken(Writes(cfg, actions));
            && m <= |s.ledger| && Ledger(h, prior, s.ledger[..m]) <= file
            && Events(h, Ledger(h, prior, s.ledger[..m])) == Some(before + Texts(s.ledger[..m])))
  {
    var s, writes := Run(cfg, actions), Writes(cfg, actions);
    SessionIsRecordable(cfg, actions);
    WritesAreTheLedger(cfg, actions);
    if s.torn {
      DiskHoldsLedger(h, prior, writes, cuts);
      LedgerVerifies(h, prior, s.ledger[..Unbroken(writes)]);
    } else {
      DiskWhenAllOk(h, prior, writes, cuts);
      LedgerVerifies(h, prior, s.ledger);
      SignApproveAudit(cfg, actions);
    }
  }
}
