/** What the password loop answers beyond signatures: whether the wallet is open, which proposals are
    pending, and which were denied; each said from outside the loop, by the run so far. */
module LoopAnswers {
  import opened Bytes
  import opened ProposalQueue
  import opened Protocol
  import opened TrustPlane
  import opened TrustPlaneSafety
  import opened TrustPlaneTheorems
  import opened Vault
  import Passphrase

  lemma RunSnoc(cfg: Config, front: seq<Action>, a: Action) returns (s: Plane, t: Plane)
    ensures s == Run(cfg, front) && t == Run(cfg, front + [a])
    ensures t == if Next(cfg, s, a).Some? then Next(cfg, s, a).value else s
  {
    assert (front + [a])[..|front|] == front;
    s, t := Run(cfg, front), Run(cfg, front + [a]);
  }

  // --- The wallet in hand ------------------------------------------------------------

  /** The outcome of the last time a passphrase was examined. */
  function LastOpening(cfg: Config, actions: seq<Action>): Option<Wallet>
  {
    if actions == [] then None
    else
      var front, a := actions[..|actions| - 1], actions[|actions| - 1];
      var s := Run(cfg, front);
      if s.alive && s.loop.Verifying? && a.OpenVault? then a.wallet else LastOpening(cfg, front)
  }

  /** What the reply to a request makes of the wallet in hand. */
  function AfterReply(q: Request, r: Reply, before: Option<Wallet>, opening: Option<Wallet>): Option<Wallet>
  {
    match q
    case Unlock(_) => if r == Done then opening else None
    case Lock => None
    case Shutdown => None
    case _ => before
  }

  /** The wallet in hand, told from the requests, the replies and the lock events of the run. */
  function InHand(cfg: Config, actions: seq<Action>): Option<Wallet>
  {
    if actions == [] then None
    else
      var front, a := actions[..|actions| - 1], actions[|actions| - 1];
      var s, t, before := Run(cfg, front), Run(cfg, actions), InHand(cfg, front);
      if a.Fire? then (if s.alive && s.watcher.Watching? then None else before)
      else if |s.replies| < |t.replies| && |s.replies| < |s.requests| then
        AfterReply(s.requests[|s.replies|], t.replies[|s.replies|], before, LastOpening(cfg, front))
      else before
  }

  /** The loop commits the wallet that the last opening yielded. */
  predicate CommitsLast(s: Plane, opening: Option<Wallet>)
  {
    s.loop.AtHolder? && s.loop.op.Commit? ==> opening == Some(s.loop.op.wallet)
  }

  lemma NoNewCommit(cfg: Config, s: Plane, a: Action)
    requires Next(cfg, s, a).Some? && !(s.loop.Verifying? && a.OpenVault?)
    ensures var t := Next(cfg, s, a).value;
      t.loop.AtHolder? && t.loop.op.Commit? ==> t.loop == s.loop
  {
    if s.loop.AtRecv? && a.Receive? && a.frame.Some? && a.frame.value != [] {
      DispatchCommitsNothing(s, DecodeRequest(a.frame.value));
    }
  }

  lemma DispatchCommitsNothing(s: Plane, q: Request)
    ensures Dispatch(s, q).loop.AtHolder? ==> !Dispatch(s, q).loop.op.Commit?
    ensures Dispatch(s, q).holder == s.holder && Dispatch(s, q).replies == s.replies
  {}

  lemma OpeningCommits(s: Plane, q: Request, stall: nat, w: Option<Wallet>)
    ensures var t := Opened(s, q, stall, w);
      CommitsLast(t, w) && t.holder == s.holder && t.replies == s.replies
  {}

  lemma {:induction false} RunCommitsLast(cfg: Config, actions: seq<Action>)
    ensures CommitsLast(Run(cfg, actions), LastOpening(cfg, actions))
  {
    if actions != [] {
      var front, a := actions[..|actions| - 1], actions[|actions| - 1];
      RunCommitsLast(cfg, front);
      var s := Run(cfg, front);
      if s.alive && s.loop.Verifying? && a.OpenVault? {
        OpeningCommits(s, s.loop.request, s.loop.stall, a.wallet);
      } else if Next(cfg, s, a).Some? {
        NoNewCommit(cfg, s, a);
      }
    }
  }

  /** The step at the holder: what it makes of the wallet is what the reply says. */
  lemma HeldFollows(s: Plane, op: HolderOp, address: Option<seq<byte>>, q: Request, opening: Option<Wallet>)
    requires s.loop == AtHolder(op) && Serves(s.loop, q) && CommitsLast(s, opening)
    ensures var t := Held(s, op, address);
      && |t.replies| == |s.replies| + 1
      && t.holder == AfterReply(q, t.replies[|s.replies|], s.holder, opening)
      && (t.replies[|s.replies|].StateIs? ==> t.replies[|s.replies|].unlocked == s.holder.Some?)
      && (t.replies[|s.replies|].AddressIs? ==>
            s.holder.Some? && t.replies[|s.replies|].kind == Passphrase.KindOf(s.holder.value))
  {}

  lemma LoopHolds(cfg: Config, s: Plane, a: Action)
    requires LoopNext(cfg, s, a).Some? && !a.TakeHolder?
    ensures LoopNext(cfg, s, a).value.holder == s.holder
    ensures var t := LoopNext(cfg, s, a).value;
      |s.replies| < |t.replies| ==> s.loop.Replying? && t.replies == s.replies + [s.loop.reply]
  {
    if s.loop.AtRecv? && a.Receive? && a.frame.Some? && a.frame.value != [] {
      DispatchCommitsNothing(s, DecodeRequest(a.frame.value));
    }
  }

  predicate MovesWallet(q: Request) { q.Unlock? || q.Lock? || q.Shutdown? }

  /** Such a request is answered at the holder and nowhere else. */
  predicate AnsweredAtHolder(s: Plane)
  {
    s.requests != [] && !s.loop.AtRecv? && MovesWallet(s.requests[|s.requests| - 1]) ==>
      s.loop.Verifying? || s.loop.AtHolder?
  }

  lemma DispatchToHolder(s: Plane, q: Request)
    requires MovesWallet(q)
    ensures Dispatch(s, q).loop.Verifying? || Dispatch(s, q).loop.AtHolder?
  {}

  lemma OpenedToHolder(s: Plane, q: Request, stall: nat, w: Option<Wallet>)
    requires q.Unlock?
    ensures Opened(s, q, stall, w).loop.AtHolder? && Opened(s, q, stall, w).requests == s.requests
  {}

  lemma ToHolderKept(cfg: Config, s: Plane, a: Action)
    requires Paired(s) && AnsweredAtHolder(s) && LoopNext(cfg, s, a).Some?
    ensures AnsweredAtHolder(LoopNext(cfg, s, a).value)
  {
    if s.loop.AtRecv? {
      if a.frame.Some? && a.frame.value != [] {
        var q := DecodeRequest(a.frame.value);
        Passphrase.DispatchReads(s, q);
        if MovesWallet(q) { DispatchToHolder(s, q); }
      }
    } else if s.loop.Verifying? {
      if s.loop.request.Unlock? { OpenedToHolder(s, s.loop.request, s.loop.stall, a.wallet); }
      Passphrase.OpenedIsOnTheWay(s, s.loop.request, s.loop.stall, a.wallet);
    } else if !MovesWallet(s.requests[|s.requests| - 1]) {
      LoopShaped(cfg, s, a);
    }
  }

  lemma {:induction false} RunAnswersAtHolder(cfg: Config, actions: seq<Action>)
    ensures AnsweredAtHolder(Run(cfg, actions))
  {
    if actions != [] {
      var front, a := actions[..|actions| - 1], actions[|actions| - 1];
      RunAnswersAtHolder(cfg, front);
      RunKeepsInv(cfg, front);
      var s := Run(cfg, front);
      if Next(cfg, s, a).Some? {
        if a.PipeMessage? || a.PipeRecord? || a.PipeSend? { PipeQuiet(cfg, s, a); }
        else if a.Fire? || a.FireRecord? { WatcherQuiet(s, a); }
        else { ToHolderKept(cfg, s, a); }
      }
    }
  }

  /** One step of the loop, and the wallet in hand. */
  lemma LoopFollows(cfg: Config, s: Plane, a: Action, opening: Option<Wallet>)
    requires Paired(s) && AnsweredAtHolder(s) && CommitsLast(s, opening) && LoopNext(cfg, s, a).Some?
    ensures var t := LoopNext(cfg, s, a).value;
      t.holder == if |s.replies| < |t.replies| && |s.replies| < |s.requests|
                  then AfterReply(s.requests[|s.replies|], t.replies[|s.replies|], s.holder, opening) else s.holder
  {
    if a.TakeHolder? {
      HeldFollows(s, s.loop.op, a.address, s.requests[|s.requests| - 1], opening);
    } else {
      LoopHolds(cfg, s, a);
    }
  }

  lemma OthersHold(cfg: Config, s: Plane, a: Action)
    requires Next(cfg, s, a).Some? && (a.PipeMessage? || a.PipeRecord? || a.PipeSend? || a.FireRecord? || a.Fire?)
    ensures var t := Next(cfg, s, a).value;
      t.replies == s.replies
      && t.holder == if a.Fire? && s.watcher.Watching? then None else s.holder
  {}

  /** The holder is what the run so far makes of it: the wallet the last successful unlock opened, and
      none after a lock, a shutdown, a failed unlock or a lock event, until the next. */
  lemma {:induction false} HolderIsInHand(cfg: Config, actions: seq<Action>)
    ensures Run(cfg, actions).holder == InHand(cfg, actions)
  {
    if actions != [] {
      var front, a := actions[..|actions| - 1], actions[|actions| - 1];
      HolderIsInHand(cfg, front);
      RunKeepsInv(cfg, front);
      RunAnswersAtHolder(cfg, front);
      RunCommitsLast(cfg, front);
      var s := Run(cfg, front);
      if Next(cfg, s, a).Some? {
        if a.PipeMessage? || a.PipeRecord? || a.PipeSend? || a.Fire? || a.FireRecord? {
          OthersHold(cfg, s, a);
        } else {
          LoopFollows(cfg, s, a, LastOpening(cfg, front));
        }
      }
    }
  }

  /** A status reply says whether a wallet is in hand, and an address is told only of the one that is,
      with its kind. */
  lemma StatusTellsTheTruth(cfg: Config, front: seq<Action>, a: Action)
    requires |Run(cfg, front).replies| < |Run(cfg, front + [a]).replies|
    ensures var r := Run(cfg, front + [a]).replies[|Run(cfg, front).replies|];
      && (r.StateIs? ==> r.unlocked == InHand(cfg, front).Some?)
      && (r.AddressIs? ==>
            InHand(cfg, front).Some? && r.kind == Passphrase.KindOf(InHand(cfg, front).value))
  {
    var s, t := RunSnoc(cfg, front, a);
    RunKeepsInv(cfg, front);
    HolderIsInHand(cfg, front);
    RunCommitsLast(cfg, front);
    NoStatusElsewhere(cfg, front);
    if a.PipeMessage? || a.PipeRecord? || a.PipeSend? || a.Fire? || a.FireRecord? {
      OthersHold(cfg, s, a);
    } else if a.TakeHolder? {
      HeldFollows(s, s.loop.op, a.address, s.requests[|s.requests| - 1], LastOpening(cfg, front));
    } else {
      LoopHolds(cfg, s, a);
    }
  }

  /** These replies are made at the holder. */
  predicate NoStatus(s: Plane)
  {
    s.loop.Replying? ==> !s.loop.reply.StateIs? && !s.loop.reply.AddressIs?
  }

  lemma NoStatusKept(cfg: Config, s: Plane, a: Action)
    requires NoStatus(s) && LoopNext(cfg, s, a).Some?
    ensures NoStatus(LoopNext(cfg, s, a).value)
  {
    if s.loop.AtRecv? && a.Receive? && a.frame.Some? && a.frame.value != [] {
      DispatchNoStatus(s, DecodeRequest(a.frame.value));
    }
  }

  lemma DispatchNoStatus(s: Plane, q: Request)
    ensures NoStatus(Dispatch(s, q))
  {}

  lemma {:induction false} NoStatusElsewhere(cfg: Config, actions: seq<Action>)
    ensures NoStatus(Run(cfg, actions))
  {
    if actions != [] {
      var front, a := actions[..|actions| - 1], actions[|actions| - 1];
      NoStatusElsewhere(cfg, front);
      var s := Run(cfg, front);
      if Next(cfg, s, a).Some? {
        if a.PipeMessage? || a.PipeRecord? || a.PipeSend? { PipeQuiet(cfg, s, a); }
        else if a.Fire? || a.FireRecord? { WatcherQuiet(s, a); }
        else { NoStatusKept(cfg, s, a); }
      }
    }
  }

  // --- The list of pending proposals -------------------------------------------------

  /** The n-th action of the run reads the k-th request. */
  ghost predicate Reads(cfg: Config, actions: seq<Action>, n: nat, k: nat)
  {
    n < |actions|
    && |Run(cfg, actions[..n]).requests| == k && |Run(cfg, actions[..n + 1]).requests| == k + 1
  }

  /** These items, and then these ids, are the pending proposals of the queue, in order, the items
      with the provenance the queue has for them. */
  ghost predicate Lists(queue: seq<Proposal>, items: seq<(nat, Provenance)>, ids: seq<nat>)
  {
    && |items| + |ids| == |PendingIds(queue)|
    && (forall i :: 0 <= i < |items| ==>
          && items[i].0 == PendingIds(queue)[i]
          && Lookup(queue, items[i].0).Some? && items[i].1 == Lookup(queue, items[i].0).value.provenance)
    && ids == PendingIds(queue)[|items|..]
  }

  lemma ListsMore(queue: seq<Proposal>, now: seq<Proposal>, items: seq<(nat, Provenance)>, ids: seq<nat>)
    requires Numbered(queue) && Evolves(queue, now) && Lists(queue, items, ids) && ids != []
    ensures Lookup(now, ids[0]).Some?
    ensures Lists(queue, items + [(ids[0], Lookup(now, ids[0]).value.provenance)], ids[1..])
  {
    PendingIdsExact(queue);
    assert ids[0] in PendingIds(queue);
    assert now[ids[0] - 1] == queue[ids[0] - 1].(state := now[ids[0] - 1].state);
  }

  /** The k-th request, when it was read, found these pending. */
  ghost predicate ListedFor(cfg: Config, actions: seq<Action>, k: nat, items: seq<(nat, Provenance)>, ids: seq<nat>)
  {
    exists n: nat :: Reads(cfg, actions, n, k) && Lists(Run(cfg, actions[..n]).items, items, ids)
  }

  ghost predicate LoopLists(cfg: Config, actions: seq<Action>, s: Plane)
  {
    match s.loop
    case Listing(ids, done) => s.requests != [] && ListedFor(cfg, actions, |s.requests| - 1, done, ids)
    case Replying(PendingList(items)) =>
      s.requests != [] && ListedFor(cfg, actions, |s.requests| - 1, items, [])
    case _ => true
  }

  ghost predicate RepliesList(cfg: Config, actions: seq<Action>, s: Plane)
  {
    forall k: nat :: k < |s.replies| && s.replies[k].PendingList? ==>
      ListedFor(cfg, actions, k, s.replies[k].items, [])
  }

  lemma ReadsStays(cfg: Config, front: seq<Action>, a: Action, n: nat, k: nat)
    requires Reads(cfg, front, n, k)
    ensures Reads(cfg, front + [a], n, k) && (front + [a])[..n] == front[..n]
  {
    assert (front + [a])[..n] == front[..n] && (front + [a])[..n + 1] == front[..n + 1];
  }

  lemma ListedStays(cfg: Config, front: seq<Action>, a: Action, k: nat, items: seq<(nat, Provenance)>, ids: seq<nat>)
    requires ListedFor(cfg, front, k, items, ids)
    ensures ListedFor(cfg, front + [a], k, items, ids)
  {
    var n: nat :| Reads(cfg, front, n, k) && Lists(Run(cfg, front[..n]).items, items, ids);
    ReadsStays(cfg, front, a, n, k);
  }

  lemma EvolvedSince(cfg: Config, actions: seq<Action>, n: nat)
    requires n <= |actions|
    ensures Numbered(Run(cfg, actions[..n]).items)
    ensures Evolves(Run(cfg, actions[..n]).items, Run(cfg, actions).items)
  {
    RunKeepsInv(cfg, actions[..n]);
    assert actions[..n] + actions[n..] == actions;
    RunEvolves(cfg, actions[..n], actions[n..]);
  }

  lemma ListedMore(cfg: Config, front: seq<Action>, k: nat, items: seq<(nat, Provenance)>, ids: seq<nat>)
    requires ListedFor(cfg, front, k, items, ids) && ids != []
    ensures var now := Run(cfg, front).items;
      && Lookup(now, ids[0]).Some?
      && ListedFor(cfg, front, k, items + [(ids[0], Lookup(now, ids[0]).value.provenance)], ids[1..])
  {
    var n: nat :| Reads(cfg, front, n, k) && Lists(Run(cfg, front[..n]).items, items, ids);
    EvolvedSince(cfg, front, n);
    ListsMore(Run(cfg, front[..n]).items, Run(cfg, front).items, items, ids);
  }

  lemma ListsNone(queue: seq<Proposal>)
    ensures Lists(queue, [], PendingIds(queue))
  {}

  lemma ReadsLast(cfg: Config, front: seq<Action>, a: Action)
    requires |Run(cfg, front + [a]).requests| == |Run(cfg, front).requests| + 1
    ensures Reads(cfg, front + [a], |front|, |Run(cfg, front).requests|) && (front + [a])[..|front|] == front
  {
    var all, n := front + [a], |front|;
    assert all[..n] == front && all[..n + 1] == all;
  }

  lemma ListedFirst(cfg: Config, front: seq<Action>, a: Action)
    requires |Run(cfg, front + [a]).requests| == |Run(cfg, front).requests| + 1
    ensures ListedFor(cfg, front + [a], |Run(cfg, front).requests|, [], PendingIds(Run(cfg, front).items))
  {
    ReadsLast(cfg, front, a);
    ListsNone(Run(cfg, front).items);
  }

  /** How the loop gets to its list. */
  lemma ListSteps(cfg: Config, s: Plane, a: Action)
    requires LoopNext(cfg, s, a).Some?
    ensures var t := LoopNext(cfg, s, a).value;
      && (t.loop.Listing? ==>
            || (s.loop.AtRecv? && t.loop == Listing(PendingIds(s.items), [])
                && |t.requests| == |s.requests| + 1)
            || (s.loop.Listing? && s.loop.ids != [] && t.requests == s.requests && Lookup(s.items, s.loop.ids[0]).Some?
                && t.loop == Listing(s.loop.ids[1..],
                     s.loop.done + [(s.loop.ids[0], Lookup(s.items, s.loop.ids[0]).value.provenance)])))
      && (t.loop.Replying? && t.loop.reply.PendingList? ==>
            t.requests == s.requests && (t.loop == s.loop || s.loop == Listing([], t.loop.reply.items)))
  {
    if s.loop.AtRecv? && a.Receive? && a.frame.Some? && a.frame.value != [] {
      DispatchLists(s, DecodeRequest(a.frame.value));
    }
  }

  lemma DispatchLists(s: Plane, q: Request)
    ensures var t := Dispatch(s, q);
      && t.requests == s.requests + [q] && !t.loop.AtRecv?
      && (t.loop.Listing? ==> t.loop == Listing(PendingIds(s.items), []))
      && (t.loop.Replying? ==> !t.loop.reply.PendingList?)
  {}

  lemma RepliesGrow(cfg: Config, s: Plane, a: Action)
    requires LoopNext(cfg, s, a).Some?
    ensures RepliesOneMore(s, LoopNext(cfg, s, a).value)
    ensures |LoopNext(cfg, s, a).value.replies| > |s.replies| ==> !s.loop.AtRecv?
  {
    if a.TakeHolder? {
    } else {
      LoopHolds(cfg, s, a);
      if s.loop.AtRecv? && a.Receive? && a.frame.Some? && a.frame.value != [] {
        DispatchCommitsNothing(s, DecodeRequest(a.frame.value));
      }
    }
  }

  lemma LoopListsKept(cfg: Config, front: seq<Action>, a: Action)
    requires var s := Run(cfg, front);
      s.alive && LoopNext(cfg, s, a).Some? && LoopLists(cfg, front, s)
      && Run(cfg, front + [a]) == LoopNext(cfg, s, a).value
    ensures LoopLists(cfg, front + [a], Run(cfg, front + [a]))
  {
    var s := Run(cfg, front);
    var t := LoopNext(cfg, s, a).value;
    ListSteps(cfg, s, a);
    if t.loop.Listing? {
      if s.loop.AtRecv? {
        ListedFirst(cfg, front, a);
      } else {
        ListedMore(cfg, front, |s.requests| - 1, s.loop.done, s.loop.ids);
        ListedStays(cfg, front, a, |s.requests| - 1, t.loop.done, t.loop.ids);
      }
    } else if t.loop.Replying? && t.loop.reply.PendingList? {
      ListedStays(cfg, front, a, |s.requests| - 1, t.loop.reply.items, []);
    }
  }

  /** The loop's latest reply, if it is a list, is the one it was about to give. */
  predicate RepliesOneMore(s: Plane, t: Plane)
  {
    t.replies == s.replies
    || (|t.replies| == |s.replies| + 1 && t.replies[..|s.replies|] == s.replies && t.requests == s.requests
        && (t.replies[|s.replies|].PendingList? ==> s.loop == Replying(t.replies[|s.replies|])))
  }

  lemma RepliesListKept(cfg: Config, front: seq<Action>, a: Action, s: Plane, t: Plane)
    requires LoopLists(cfg, front, s) && RepliesList(cfg, front, s) && RepliesOneMore(s, t)
    requires |t.replies| > |s.replies| ==> |s.requests| == |s.replies| + 1
    ensures RepliesList(cfg, front + [a], t)
  {
    forall k: nat | k < |t.replies| && t.replies[k].PendingList?
      ensures ListedFor(cfg, front + [a], k, t.replies[k].items, [])
    {
      if k < |s.replies| { assert t.replies[k] == s.replies[k]; }
      ListedStays(cfg, front, a, k, t.replies[k].items, []);
    }
  }

  lemma SameLists(cfg: Config, front: seq<Action>, a: Action, s: Plane, t: Plane)
    requires LoopLists(cfg, front, s) && RepliesList(cfg, front, s)
    requires t.loop == s.loop && t.requests == s.requests && t.replies == s.replies
    ensures LoopLists(cfg, front + [a], t) && RepliesList(cfg, front + [a], t)
  {
    match s.loop {
      case Listing(ids, done) => ListedStays(cfg, front, a, |s.requests| - 1, done, ids);
      case Replying(PendingList(items)) => ListedStays(cfg, front, a, |s.requests| - 1, items, []);
      case _ =>
    }
    forall k: nat | k < |t.replies| && t.replies[k].PendingList?
      ensures ListedFor(cfg, front + [a], k, t.replies[k].items, [])
    {
      ListedStays(cfg, front, a, k, t.replies[k].items, []);
    }
  }

  lemma {:induction false} RunLists(cfg: Config, actions: seq<Action>)
    ensures LoopLists(cfg, actions, Run(cfg, actions)) && RepliesList(cfg, actions, Run(cfg, actions))
  {
    if actions != [] {
      var front, a := actions[..|actions| - 1], actions[|actions| - 1];
      assert actions == front + [a];
      RunLists(cfg, front);
      RunKeepsInv(cfg, front);
      var s, t := RunSnoc(cfg, front, a);
      if Next(cfg, s, a).None? {
        SameLists(cfg, front, a, s, s);
      } else if a.PipeMessage? || a.PipeRecord? || a.PipeSend? {
        PipeQuiet(cfg, s, a);
        SameLists(cfg, front, a, s, t);
      } else if a.Fire? || a.FireRecord? {
        WatcherQuiet(s, a);
        SameLists(cfg, front, a, s, t);
      } else {
        LoopListsKept(cfg, front, a);
        RepliesGrow(cfg, s, a);
        RepliesListKept(cfg, front, a, s, t);
      }
    }
  }

  /** A pending list is the queue's, as it was when the request for it was read: exactly the proposals
      pending then, in order, each with its provenance. */
  lemma PendingListIsTheQueues(cfg: Config, actions: seq<Action>, k: nat) returns (n: nat)
    requires k < |Run(cfg, actions).replies| && Run(cfg, actions).replies[k].PendingList?
    ensures var items := Run(cfg, actions).replies[k].items;
      && Reads(cfg, actions, n, k)
      && var queue := Run(cfg, actions[..n]).items;
         && (forall id: nat :: IsPending(queue, id) <==> exists i :: 0 <= i < |items| && items[i].0 == id)
         && (forall i, j :: 0 <= i < j < |items| ==> items[i].0 < items[j].0)
         && (forall i :: 0 <= i < |items| ==>
               Lookup(queue, items[i].0).Some? && items[i].1 == Lookup(queue, items[i].0).value.provenance)
  {
    RunLists(cfg, actions);
    var items := Run(cfg, actions).replies[k].items;
    n :| Reads(cfg, actions, n, k) && Lists(Run(cfg, actions[..n]).items, items, []);
    var queue := Run(cfg, actions[..n]).items;
    RunKeepsInv(cfg, actions[..n]);
    PendingIdsExact(queue);
    forall id: nat ensures IsPending(queue, id) <==> exists i :: 0 <= i < |items| && items[i].0 == id {
      if IsPending(queue, id) {
        var i :| 0 <= i < |PendingIds(queue)| && PendingIds(queue)[i] == id;
        assert items[i].0 == id;
      }
    }
  }
}
