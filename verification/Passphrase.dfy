/** What the passphrase buys: a request that spends one opens the vault exactly once, and what it is
    answered with is what that opening allows. No signature and no secret leaves without one. */
module Passphrase {
  import opened Bytes
  import opened Text
  import opened ProposalQueue
  import opened Protocol
  import opened TrustPlane
  import opened TrustPlaneSafety
  import opened TrustPlaneTheorems
  import opened Vault
  import Identity

  // --- Openings ----------------------------------------------------------------------

  predicate Spends(q: Request) { q.Unlock? || q.Approve? || q.Reveal? }

  /** The n-th action of the run examines a passphrase, for the k-th request that was read. */
  ghost predicate Opens(cfg: Config, actions: seq<Action>, n: nat, k: nat)
  {
    n < |actions| && actions[n].OpenVault?
    && var s := Run(cfg, actions[..n]);
       s.alive && s.loop.Verifying? && |s.requests| == k + 1 && s.loop.request == s.requests[k]
  }

  /** Which kind of root secret a wallet has: entropy, an ed25519 key, or another key. */
  function KindOf(w: Wallet): byte
  {
    if w.entropy != [] then 0
    else if w.imported != [] && w.imported[0].name == Ascii("ed25519") then 2 else 1
  }

  /** What a reveal shows of a wallet: its entropy, or else its first key. */
  predicate RootOf(w: Wallet, kind: byte, secret: seq<byte>)
  {
    kind == KindOf(w)
    && if w.entropy != [] then secret == w.entropy else w.imported != [] && secret == w.imported[0].key
  }

  /** What a request may be answered with, once the vault has opened to this wallet, or not. */
  predicate Allowed(q: Request, vault: Option<Wallet>, r: Reply)
  {
    match q
    case Unlock(_) => r == if vault.Some? then Done else Failure
    case Approve(id, _) =>
      r == Failure || (vault.Some? && r.Signed? && r.issue.id == id && r.issue.wallet == vault.value)
    case Reveal(_) => r == Failure || (vault.Some? && r.RootSecret? && RootOf(vault.value, r.kind, r.secret))
    case _ => false
  }

  /** Where the loop may be on the way to such an answer. */
  predicate OnTheWay(q: Request, vault: Option<Wallet>, l: Loop)
  {
    match l
    case AtHolder(Commit(w)) => q.Unlock? && vault == Some(w)
    case AtHolder(Drop) => q.Unlock? && vault == None
    case BadPassphrase(id) => q.Approve? && q.id == id && vault == None
    case Verified(id, w) => q.Approve? && q.id == id && vault == Some(w)
    case Fetched(id, w, _) => q.Approve? && q.id == id && vault == Some(w)
    case SignRefused(id) => q.Approve? && q.id == id && vault.Some?
    case SignedOff(i) => q.Approve? && q.id == i.id && vault == Some(i.wallet)
    case ResolvedAs(i) => q.Approve? && q.id == i.id && vault == Some(i.wallet)
    case Revealing(w) => q.Reveal? && vault == Some(w)
    case RevealRefused => q.Reveal?
    case Replying(r) => Allowed(q, vault, r)
    case _ => false
  }

  // --- The invariant -----------------------------------------------------------------

  /** The k-th request has been opened for, and the reply is one it may get. */
  ghost predicate Settled(cfg: Config, actions: seq<Action>, k: nat, q: Request, r: Reply)
  {
    exists n: nat :: Opens(cfg, actions, n, k) && Allowed(q, actions[n].wallet, r)
  }

  /** The k-th request, in progress, has been opened for, and the loop is on the way to its reply. */
  ghost predicate Underway(cfg: Config, actions: seq<Action>, k: nat, q: Request, l: Loop)
  {
    exists n: nat :: Opens(cfg, actions, n, k) && OnTheWay(q, actions[n].wallet, l)
  }

  ghost predicate AllSettled(cfg: Config, actions: seq<Action>, s: Plane)
  {
    forall k: nat :: k < |s.replies| && k < |s.requests| && Spends(s.requests[k]) ==>
      Settled(cfg, actions, k, s.requests[k], s.replies[k])
  }

  ghost predicate LastUnderway(cfg: Config, actions: seq<Action>, s: Plane)
  {
    s.requests != [] && !s.loop.AtRecv? && Spends(s.requests[|s.requests| - 1]) ==>
      var k := |s.requests| - 1;
      if s.loop.Verifying? then s.loop.request == s.requests[k]
      else Underway(cfg, actions, k, s.requests[k], s.loop)
  }

  // --- One step of the loop ----------------------------------------------------------

  lemma OpenedIsOnTheWay(s: Plane, q: Request, stall: nat, w: Option<Wallet>)
    requires Spends(q)
    ensures var t := Opened(s, q, stall, w);
      t.requests == s.requests && t.replies == s.replies && OnTheWay(q, w, t.loop)
  {}

  lemma RootIsShown(w: Wallet)
    requires w.entropy != [] || w.imported != []
    ensures RootOf(w, Identity.RevealKind(w), if w.entropy != [] then w.entropy else w.imported[0].key)
  {
    KindIsRevealed(w);
  }

  lemma KindIsRevealed(w: Wallet)
    ensures Identity.RevealKind(w) == KindOf(w)
  {
    assert Ascii("ed25519") == Identity.ED25519_LABEL;
  }

  lemma RevealOnTheWay(s: Plane, q: Request, w: Wallet, ok: bool)
    requires s.loop == Revealing(w) && q.Reveal?
    ensures var t := RevealStep(s, w, ok);
      t.requests == s.requests && t.replies == s.replies && OnTheWay(q, Some(w), t.loop)
  {
    if w.entropy != [] || w.imported != [] { RootIsShown(w); }
  }

  lemma RecordOnTheWay(s: Plane, q: Request, vault: Option<Wallet>, ok: bool)
    requires OnTheWay(q, vault, s.loop) && RecordStep(s, ok).Some?
    ensures var t := RecordStep(s, ok).value;
      t.requests == s.requests && t.replies == s.replies && OnTheWay(q, vault, t.loop)
  {
    if s.loop.Revealing? { RevealOnTheWay(s, q, s.loop.wallet, ok); }
  }

  lemma ReadOnTheWay(s: Plane, q: Request, vault: Option<Wallet>)
    requires OnTheWay(q, vault, s.loop) && QueueRead(s).Some?
    ensures var t := QueueRead(s).value;
      t.requests == s.requests && t.replies == s.replies && OnTheWay(q, vault, t.loop)
  {}

  lemma SignOnTheWay(cfg: Config, s: Plane, q: Request, vault: Option<Wallet>, salt: nat)
    requires OnTheWay(q, vault, s.loop) && s.loop.Fetched?
    ensures var t := SignedStep(cfg, s, s.loop.id, s.loop.wallet, s.loop.payload, salt);
      t.requests == s.requests && t.replies == s.replies && OnTheWay(q, vault, t.loop)
  {}

  lemma HeldIsAllowed(s: Plane, q: Request, vault: Option<Wallet>, address: Option<seq<byte>>)
    requires OnTheWay(q, vault, s.loop) && s.loop.AtHolder?
    ensures var t := Held(s, s.loop.op, address);
      && t.loop.AtRecv? && t.requests == s.requests
      && |t.replies| == |s.replies| + 1 && t.replies[..|s.replies|] == s.replies
      && Allowed(q, vault, t.replies[|s.replies|])
  {}

  /** Once a passphrase has been examined, the loop stays on the way until it has answered. */
  lemma StaysOnTheWay(cfg: Config, s: Plane, q: Request, vault: Option<Wallet>, a: Action)
    requires OnTheWay(q, vault, s.loop) && LoopNext(cfg, s, a).Some?
    ensures Onward(s, q, vault, LoopNext(cfg, s, a).value)
  {
    match a
    case TakeHolder(address) => HeldIsAllowed(s, q, vault, address);
    case ReadQueue => ReadOnTheWay(s, q, vault);
    case SignNow(salt) => SignOnTheWay(cfg, s, q, vault, salt);
    case Record(ok) => RecordOnTheWay(s, q, vault, ok);
    case ResolveNow =>
    case Send(fits) =>
  }

  // --- Every run ---------------------------------------------------------------------

  lemma OpensStays(cfg: Config, front: seq<Action>, a: Action, n: nat, k: nat)
    requires Opens(cfg, front, n, k)
    ensures Opens(cfg, front + [a], n, k) && (front + [a])[n] == front[n]
  {
    assert (front + [a])[..n] == front[..n];
  }

  lemma SettledStays(cfg: Config, front: seq<Action>, a: Action, s: Plane)
    requires AllSettled(cfg, front, s)
    ensures AllSettled(cfg, front + [a], s)
  {
    forall k: nat | k < |s.replies| && k < |s.requests| && Spends(s.requests[k])
      ensures Settled(cfg, front + [a], k, s.requests[k], s.replies[k])
    {
      var n: nat :| Opens(cfg, front, n, k) && Allowed(s.requests[k], front[n].wallet, s.replies[k]);
      OpensStays(cfg, front, a, n, k);
    }
  }

  lemma UnderwayStays(cfg: Config, front: seq<Action>, a: Action, s: Plane)
    requires LastUnderway(cfg, front, s)
    ensures LastUnderway(cfg, front + [a], s)
  {
    if s.requests != [] && !s.loop.AtRecv? && Spends(s.requests[|s.requests| - 1]) && !s.loop.Verifying? {
      var k := |s.requests| - 1;
      var n: nat :| Opens(cfg, front, n, k) && OnTheWay(s.requests[k], front[n].wallet, s.loop);
      OpensStays(cfg, front, a, n, k);
    }
  }

  /** The other two threads, and what does not happen, change nothing of this. */
  lemma SameKeeps(cfg: Config, front: seq<Action>, a: Action, s: Plane, t: Plane)
    requires AllSettled(cfg, front, s) && LastUnderway(cfg, front, s)
    requires t.requests == s.requests && t.replies == s.replies && t.loop == s.loop
    ensures AllSettled(cfg, front + [a], t) && LastUnderway(cfg, front + [a], t)
  {
    SettledStays(cfg, front, a, s);
    UnderwayStays(cfg, front, a, s);
  }

  lemma DispatchVerifies(s: Plane, q: Request)
    requires Spends(q)
    ensures Dispatch(s, q).loop.Verifying? && Dispatch(s, q).loop.request == q
  {}

  lemma DispatchReads(s: Plane, q: Request)
    ensures Dispatch(s, q).requests == s.requests + [q] && Dispatch(s, q).replies == s.replies
  {}

  lemma ReceiveKeeps(cfg: Config, front: seq<Action>, s: Plane, frame: Option<seq<byte>>)
    requires AllSettled(cfg, front, s) && LastUnderway(cfg, front, s)
    requires |s.requests| == |s.replies|
    ensures var t, all := Received(s, frame), front + [Receive(frame)];
      AllSettled(cfg, all, t) && LastUnderway(cfg, all, t)
  {
    SettledStays(cfg, front, Receive(frame), s);
    UnderwayStays(cfg, front, Receive(frame), s);
    if frame.Some? && frame.value != [] {
      var q := DecodeRequest(frame.value);
      DispatchReads(s, q);
      if Spends(q) { DispatchVerifies(s, q); }
      var t := Dispatch(s, q);
      forall k: nat | k < |t.replies| && k < |t.requests| && Spends(t.requests[k])
        ensures Settled(cfg, front + [Receive(frame)], k, t.requests[k], t.replies[k])
      {
        assert t.requests[k] == s.requests[k];
      }
    }
  }

  lemma OpensLast(cfg: Config, front: seq<Action>, s: Plane, w: Option<Wallet>)
    requires s == Run(cfg, front) && s.alive && s.loop.Verifying? && s.requests != []
    requires s.loop.request == s.requests[|s.requests| - 1]
    ensures Opens(cfg, front + [OpenVault(w)], |front|, |s.requests| - 1)
    ensures (front + [OpenVault(w)])[|front|] == OpenVault(w)
  {
    assert (front + [OpenVault(w)])[..|front|] == front;
  }

  lemma OpenFrom(cfg: Config, front: seq<Action>, s: Plane, w: Option<Wallet>, t: Plane)
    requires s.requests != [] && AllSettled(cfg, front, s)
    requires Opens(cfg, front + [OpenVault(w)], |front|, |s.requests| - 1)
    requires (front + [OpenVault(w)])[|front|] == OpenVault(w)
    requires t.requests == s.requests && t.replies == s.replies
    requires OnTheWay(s.requests[|s.requests| - 1], w, t.loop)
    ensures AllSettled(cfg, front + [OpenVault(w)], t) && LastUnderway(cfg, front + [OpenVault(w)], t)
  {
    SettledStays(cfg, front, OpenVault(w), s);
  }

  lemma OpenKeeps(cfg: Config, front: seq<Action>, s: Plane, w: Option<Wallet>)
    requires s == Run(cfg, front) && s.alive && s.loop.Verifying? && s.requests != []
    requires AllSettled(cfg, front, s) && Spends(s.loop.request)
    requires s.loop.request == s.requests[|s.requests| - 1]
    ensures var t, all := Opened(s, s.loop.request, s.loop.stall, w), front + [OpenVault(w)];
      AllSettled(cfg, all, t) && LastUnderway(cfg, all, t)
  {
    OpenedIsOnTheWay(s, s.loop.request, s.loop.stall, w);
    OpensLast(cfg, front, s, w);
    OpenFrom(cfg, front, s, w, Opened(s, s.loop.request, s.loop.stall, w));
  }

  /** A step of a loop that is on the way to a reply, or has just given it. */
  predicate Onward(s: Plane, q: Request, vault: Option<Wallet>, t: Plane)
  {
    t.requests == s.requests
    && (|| (t.replies == s.replies && OnTheWay(q, vault, t.loop))
        || (t.loop.AtRecv? && |t.replies| == |s.replies| + 1 && t.replies[..|s.replies|] == s.replies
            && Allowed(q, vault, t.replies[|s.replies|])))
  }

  /** One more reply, allowed by its opening. */
  lemma SettledOneMore(cfg: Config, actions: seq<Action>, s: Plane, t: Plane, n: nat)
    requires AllSettled(cfg, actions, s) && t.requests == s.requests && |s.requests| == |s.replies| + 1
    requires |t.replies| == |s.replies| + 1 && t.replies[..|s.replies|] == s.replies
    requires Opens(cfg, actions, n, |s.replies|)
    requires Allowed(s.requests[|s.replies|], actions[n].wallet, t.replies[|s.replies|])
    ensures AllSettled(cfg, actions, t)
  {
    forall j: nat | j < |t.replies| && j < |t.requests| && Spends(t.requests[j])
      ensures Settled(cfg, actions, j, t.requests[j], t.replies[j])
    {
      if j < |s.replies| { assert t.replies[j] == s.replies[j]; }
    }
  }

  lemma OnwardFrom(cfg: Config, front: seq<Action>, s: Plane, a: Action, t: Plane, n: nat)
    requires s.requests != [] && Spends(s.requests[|s.requests| - 1]) && |s.requests| == |s.replies| + 1
    requires AllSettled(cfg, front, s) && Opens(cfg, front, n, |s.requests| - 1)
    requires Onward(s, s.requests[|s.requests| - 1], front[n].wallet, t)
    ensures AllSettled(cfg, front + [a], t) && LastUnderway(cfg, front + [a], t)
  {
    OpensStays(cfg, front, a, n, |s.requests| - 1);
    SettledStays(cfg, front, a, s);
    if t.replies != s.replies { SettledOneMore(cfg, front + [a], s, t, n); }
  }

  lemma OnwardKeeps(cfg: Config, front: seq<Action>, s: Plane, a: Action)
    requires !s.loop.AtRecv? && !s.loop.Verifying? && LoopNext(cfg, s, a).Some?
    requires s.requests != [] && Spends(s.requests[|s.requests| - 1]) && |s.requests| == |s.replies| + 1
    requires AllSettled(cfg, front, s) && LastUnderway(cfg, front, s)
    ensures var t := LoopNext(cfg, s, a).value;
      AllSettled(cfg, front + [a], t) && LastUnderway(cfg, front + [a], t)
  {
    var k := |s.requests| - 1;
    var n: nat :| Opens(cfg, front, n, k) && OnTheWay(s.requests[k], front[n].wallet, s.loop);
    StaysOnTheWay(cfg, s, s.requests[k], front[n].wallet, a);
    OnwardFrom(cfg, front, s, a, LoopNext(cfg, s, a).value, n);
  }

  /** A request that spends none: its reply needs no opening. */
  lemma FreeKeeps(cfg: Config, front: seq<Action>, s: Plane, t: Plane, a: Action)
    requires AllSettled(cfg, front, s) && s.requests != [] && |s.requests| == |s.replies| + 1
    requires !Spends(s.requests[|s.requests| - 1]) && t.requests == s.requests
    requires t.replies == s.replies || exists r: Reply :: t.replies == s.replies + [r]
    ensures AllSettled(cfg, front + [a], t) && LastUnderway(cfg, front + [a], t)
  {
    SettledStays(cfg, front, a, s);
    forall j: nat | j < |t.replies| && j < |t.requests| && Spends(t.requests[j])
      ensures Settled(cfg, front + [a], j, t.requests[j], t.replies[j])
    {
      assert j < |s.replies| && t.replies[j] == s.replies[j];
    }
  }

  lemma LoopKeeps(cfg: Config, front: seq<Action>, s: Plane, a: Action)
    requires s == Run(cfg, front) && s.alive && LoopNext(cfg, s, a).Some? && Paired(s)
    requires AllSettled(cfg, front, s) && LastUnderway(cfg, front, s)
    ensures var t := LoopNext(cfg, s, a).value;
      AllSettled(cfg, front + [a], t) && LastUnderway(cfg, front + [a], t)
  {
    if s.loop.AtRecv? {
      ReceiveKeeps(cfg, front, s, a.frame);
    } else if s.loop.Verifying? {
      OpenKeeps(cfg, front, s, a.wallet);
    } else if Spends(s.requests[|s.requests| - 1]) {
      OnwardKeeps(cfg, front, s, a);
    } else {
      LoopShaped(cfg, s, a);
      FreeKeeps(cfg, front, s, LoopNext(cfg, s, a).value, a);
    }
  }

  lemma {:induction false} RunSettles(cfg: Config, actions: seq<Action>)
    ensures AllSettled(cfg, actions, Run(cfg, actions)) && LastUnderway(cfg, actions, Run(cfg, actions))
  {
    if actions != [] {
      var front, a := actions[..|actions| - 1], actions[|actions| - 1];
      assert actions == front + [a];
      RunSettles(cfg, front);
      RunKeepsInv(cfg, front);
      var s := Run(cfg, front);
      if Next(cfg, s, a).None? {
        SameKeeps(cfg, front, a, s, s);
      } else if a.PipeMessage? || a.PipeRecord? || a.PipeSend? {
        PipeQuiet(cfg, s, a);
        SameKeeps(cfg, front, a, s, Next(cfg, s, a).value);
      } else if a.Fire? || a.FireRecord? {
        WatcherQuiet(s, a);
        SameKeeps(cfg, front, a, s, Next(cfg, s, a).value);
      } else {
        LoopKeeps(cfg, front, s, a);
      }
    }
  }

  // --- One opening a request ---------------------------------------------------------

  /** k + 1 requests have been read, and the last of them is done with its passphrase; or more. */
  predicate Past(s: Plane, k: nat)
  {
    |s.requests| > k + 1 || (|s.requests| == k + 1 && !s.loop.Verifying?)
  }

  lemma PastStays(cfg: Config, s: Plane, a: Action, k: nat)
    requires Past(s, k) && Next(cfg, s, a).Some?
    ensures Past(Next(cfg, s, a).value, k)
  {
    VerifiesOnce(cfg, s, a);
  }

  lemma OpenedIsPast(cfg: Config, s: Plane, a: Action, k: nat)
    requires s.alive && s.loop.Verifying? && a.OpenVault? && |s.requests| == k + 1
    ensures Next(cfg, s, a).Some? && Past(Next(cfg, s, a).value, k)
  {
    VerifiesOnce(cfg, s, a);
  }

  lemma PastFurther(cfg: Config, actions: seq<Action>, k: nat, m: nat)
    requires m < |actions| && Past(Run(cfg, actions[..m]), k)
    ensures Past(Run(cfg, actions[..m + 1]), k)
  {
    assert actions[..m + 1][..m] == actions[..m];
    var s := Run(cfg, actions[..m]);
    if Next(cfg, s, actions[m]).Some? { PastStays(cfg, s, actions[m], k); }
  }

  lemma PastOpening(cfg: Config, actions: seq<Action>, n: nat, k: nat)
    requires Opens(cfg, actions, n, k)
    ensures Past(Run(cfg, actions[..n + 1]), k)
  {
    assert actions[..n + 1][..n] == actions[..n];
    OpenedIsPast(cfg, Run(cfg, actions[..n]), actions[n], k);
  }

  /** After an opening, its request is not examined again. */
  lemma {:induction false} NotAgain(cfg: Config, actions: seq<Action>, n: nat, k: nat, m: nat)
    requires Opens(cfg, actions, n, k) && n <= m < |actions|
    ensures Past(Run(cfg, actions[..m + 1]), k)
    decreases m
  {
    if m == n {
      PastOpening(cfg, actions, n, k);
    } else {
      NotAgain(cfg, actions, n, k, m - 1);
      PastFurther(cfg, actions, k, m);
    }
  }

  /** A step that does not read a request does not start to verify, and one that examines a
      passphrase ends the verifying. */
  lemma VerifiesOnce(cfg: Config, s: Plane, a: Action)
    requires Next(cfg, s, a).Some?
    ensures var t := Next(cfg, s, a).value;
      && |t.requests| >= |s.requests|
      && (|t.requests| == |s.requests| && t.loop.Verifying? ==> s.loop.Verifying? && !a.OpenVault?)
  {
    if s.loop.AtRecv? && a.Receive? && a.frame.Some? && a.frame.value != [] {
      DispatchReads(s, DecodeRequest(a.frame.value));
    }
  }

  lemma OpensOnce(cfg: Config, actions: seq<Action>, n: nat, m: nat, k: nat)
    requires Opens(cfg, actions, n, k) && Opens(cfg, actions, m, k)
    ensures n == m
  {
    if n < m { NotAgain(cfg, actions, n, k, m - 1); }
    if m < n { NotAgain(cfg, actions, m, k, n - 1); }
  }

  // --- What it means -----------------------------------------------------------------

  /** The passphrase decides: the reply to a request that spends one is what the one opening made
      for it allows. A failed opening answers Failure; a signature is by the wallet that opened,
      for the id that was asked; a secret is the root of the wallet that opened. */
  lemma PassphraseDecides(cfg: Config, actions: seq<Action>, k: nat) returns (n: nat)
    requires var s := Run(cfg, actions);
      k < |s.replies| && k < |s.requests| && Spends(s.requests[k])
    ensures var s := Run(cfg, actions);
      && Opens(cfg, actions, n, k) && Allowed(s.requests[k], actions[n].wallet, s.replies[k])
      && forall m: nat :: Opens(cfg, actions, m, k) ==> m == n
  {
    RunSettles(cfg, actions);
    var s := Run(cfg, actions);
    assert Settled(cfg, actions, k, s.requests[k], s.replies[k]);
    n :| Opens(cfg, actions, n, k) && Allowed(s.requests[k], actions[n].wallet, s.replies[k]);
    forall m: nat | Opens(cfg, actions, m, k) ensures m == n { OpensOnce(cfg, actions, n, m, k); }
  }

  /** Whatever else happens, a request whose passphrase does not open the vault is refused. */
  lemma WrongPassphraseIsRefused(cfg: Config, actions: seq<Action>, n: nat, k: nat)
    requires Opens(cfg, actions, n, k) && actions[n].wallet == None && k < |Run(cfg, actions).replies|
    ensures Run(cfg, actions).replies[k] == Failure
  {
    var s := Run(cfg, actions);
    RunKeepsInv(cfg, actions);
    OpenedForSpending(cfg, actions, n, k);
    var m := PassphraseDecides(cfg, actions, k);
    OpensOnce(cfg, actions, n, m, k);
  }

  lemma {:induction false} RequestsStay(cfg: Config, actions: seq<Action>, n: nat)
    requires n <= |actions|
    ensures Run(cfg, actions[..n]).requests <= Run(cfg, actions).requests
    decreases |actions|
  {
    if n == |actions| {
      assert actions[..n] == actions;
    } else {
      var front, a := actions[..|actions| - 1], actions[|actions| - 1];
      assert front[..n] == actions[..n];
      RequestsStay(cfg, front, n);
      if Next(cfg, Run(cfg, front), a).Some? { RequestsGrow(cfg, Run(cfg, front), a); }
    }
  }

  lemma RequestsGrow(cfg: Config, s: Plane, a: Action)
    requires Next(cfg, s, a).Some?
    ensures s.requests <= Next(cfg, s, a).value.requests
  {
    StepShaped(cfg, s, a);
  }

  lemma OpenedForSpending(cfg: Config, actions: seq<Action>, n: nat, k: nat)
    requires Opens(cfg, actions, n, k)
    ensures k < |Run(cfg, actions).requests| && Spends(Run(cfg, actions).requests[k])
  {
    RunKeepsInv(cfg, actions[..n]);
    RequestsStay(cfg, actions, n);
  }

  /** Where a signature stands: replied, or in the request in progress. */
  lemma ClaimedWhere(cfg: Config, s: Plane, j: nat)
    requires Agreement(cfg, s) && j < |Claimed(s)|
    ensures if j < |Released(s.replies)| then Claimed(s)[j] == Released(s.replies)[j]
            else s.loop == ResolvedAs(Claimed(s)[j]) || s.loop == Replying(Signed(Claimed(s)[j]))
  {}

  lemma InProgressOpened(cfg: Config, actions: seq<Action>, i: Issue) returns (n: nat, k: nat)
    requires var s := Run(cfg, actions); s.loop == ResolvedAs(i) || s.loop == Replying(Signed(i))
    ensures var s := Run(cfg, actions);
      && Opens(cfg, actions, n, k) && k < |s.requests|
      && s.requests[k].Approve? && s.requests[k].id == i.id && actions[n] == OpenVault(Some(i.wallet))
  {
    RunKeepsInv(cfg, actions);
    RunSettles(cfg, actions);
    var s := Run(cfg, actions);
    k := |s.requests| - 1;
    assert Serves(s.loop, s.requests[k]);
    n :| Opens(cfg, actions, n, k) && OnTheWay(s.requests[k], actions[n].wallet, s.loop);
  }

  lemma RepliedOpened(cfg: Config, actions: seq<Action>, j: nat) returns (n: nat, k: nat)
    requires j < |Released(Run(cfg, actions).replies)|
    ensures var s := Run(cfg, actions);
      var i := Released(s.replies)[j];
      && Opens(cfg, actions, n, k) && k < |s.requests|
      && s.requests[k].Approve? && s.requests[k].id == i.id && actions[n] == OpenVault(Some(i.wallet))
  {
    k := ReleasedAt(Run(cfg, actions).replies, j);
    RepliesAnswerRequests(cfg, actions);
    n := PassphraseDecides(cfg, actions, k);
  }

  /** Every signature there is, replied, recorded or only resolved, has its own opening: an approve of
      its proposal was being examined, and the vault opened to the wallet that signed. */
  lemma SignedOnlyOpened(cfg: Config, actions: seq<Action>, j: nat) returns (n: nat, k: nat)
    requires j < |Claimed(Run(cfg, actions))|
    ensures var s := Run(cfg, actions);
      var i := Claimed(s)[j];
      && Opens(cfg, actions, n, k) && k < |s.requests|
      && s.requests[k].Approve? && s.requests[k].id == i.id && actions[n] == OpenVault(Some(i.wallet))
  {
    RunKeepsInv(cfg, actions);
    ClaimedWhere(cfg, Run(cfg, actions), j);
    if j < |Released(Run(cfg, actions).replies)| {
      n, k := RepliedOpened(cfg, actions, j);
    } else {
      n, k := InProgressOpened(cfg, actions, Claimed(Run(cfg, actions))[j]);
    }
  }

  lemma {:induction false} ReleasedAt(replies: seq<Reply>, j: nat) returns (k: nat)
    requires j < |Released(replies)|
    ensures k < |replies| && replies[k].Signed? && replies[k].issue == Released(replies)[j]
  {
    var last := |replies| - 1;
    if j < |Released(replies[..last])| { k := ReleasedAt(replies[..last], j); } else { k := last; }
  }

  /** Different signatures have different openings. */
  lemma OpeningsDiffer(cfg: Config, actions: seq<Action>, i: nat, j: nat)
    returns (n: nat, k: nat, m: nat, l: nat)
    requires i < j < |Claimed(Run(cfg, actions))|
    ensures Opens(cfg, actions, n, k) && Opens(cfg, actions, m, l) && n != m
    ensures actions[n].wallet == Some(Claimed(Run(cfg, actions))[i].wallet)
    ensures actions[m].wallet == Some(Claimed(Run(cfg, actions))[j].wallet)
  {
    n, k := SignedOnlyOpened(cfg, actions, i);
    m, l := SignedOnlyOpened(cfg, actions, j);
    ClaimedOnce(cfg, actions, i, j);
    assert k != l;
  }

  lemma ClaimedOnce(cfg: Config, actions: seq<Action>, i: nat, j: nat)
    requires i < j < |Claimed(Run(cfg, actions))|
    ensures Claimed(Run(cfg, actions))[i].id != Claimed(Run(cfg, actions))[j].id
  {
    RunKeepsInv(cfg, actions);
    var s := Run(cfg, actions);
    assert Ids(Claimed(s))[i] != Ids(Claimed(s))[j];
  }
}
