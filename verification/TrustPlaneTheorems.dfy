/** The guarantees of the trust plane, for every run and every interleaving. */
module TrustPlaneTheorems {
  import opened Bytes
  import opened ProposalQueue
  import opened Protocol
  import opened TrustPlane
  import opened TrustPlaneSafety

  /** The ids of the approved proposals, ascending. */
  function ApprovedIds(items: seq<Proposal>): seq<nat>
  {
    if items == [] then []
    else
      var n := |items| - 1;
      ApprovedIds(items[..n]) + if items[n].state == Approved then [items[n].id] else []
  }

  lemma {:induction false} ApprovedIdsExact(items: seq<Proposal>)
    requires Numbered(items)
    ensures forall id: nat :: id in ApprovedIds(items) <==> IsApproved(items, id)
    ensures Distinct(ApprovedIds(items))
  {
    if items != [] {
      var n := |items| - 1;
      ApprovedIdsExact(items[..n]);
      forall id: nat ensures id in ApprovedIds(items) <==> IsApproved(items, id) {
        assert id in ApprovedIds(items[..n]) <==> IsApproved(items[..n], id);
        if 1 <= id <= n { assert items[..n][id - 1] == items[id - 1]; }
      }
      var front, all := ApprovedIds(items[..n]), ApprovedIds(items);
      forall j, k | 0 <= j < k < |all| ensures all[j] != all[k] {
        assert all[j] == front[j] && IsApproved(items[..n], front[j]);
      }
    }
  }

  /** Lists without repetition and with the same members are equally long. */
  lemma {:induction false} SameMembersSameLength(a: seq<nat>, b: seq<nat>)
    requires Distinct(a) && Distinct(b) && forall x: nat :: x in a <==> x in b
    ensures |a| == |b|
  {
    var head := if b == [] then 0 else b[0];
    assert head in a <==> head in b;
    if a != [] {
      var x := a[0];
      assert x in b;
      var k :| 0 <= k < |b| && b[k] == x;
      var rest := b[..k] + b[k + 1..];
      forall y: nat ensures y in a[1..] <==> y in rest {
        if y in a[1..] {
          var j :| 0 <= j < |a[1..]| && a[1..][j] == y;
          assert a[j + 1] == y && y != x && y in b;
          var m :| 0 <= m < |b| && b[m] == y;
          assert rest[if m < k then m else m - 1] == y;
        }
        if y in rest {
          var j :| 0 <= j < |rest| && rest[j] == y;
          assert b[if j < k then j else j + 1] == y;
          assert y in a && y != x;
        }
      }
      SameMembersSameLength(a[1..], rest);
    }
  }

  /** Sign, approve, audit: whenever the password loop is back at recv, the signature replies
      issued, the approve records written and the approved proposals are the same in number and
      match id by id, each id once; and each signature is one over the queue's own bytes. */
  lemma SignApproveAudit(cfg: Config, actions: seq<Action>)
    ensures var s := Run(cfg, actions);
      s.loop.AtRecv? ==>
        var released := Released(s.replies);
        && Recorded(s.ledger) == released
        && Distinct(Ids(released))
        && (forall id: nat :: id in Ids(released) <==> id in ApprovedIds(s.items))
        && |ApprovedIds(s.items)| == |released|
        && (forall k :: 0 <= k < |released| ==> OverQueuedBytes(cfg, s.items, released[k]))
  {
    var s := Run(cfg, actions);
    RunKeepsInv(cfg, actions);
    if s.loop.AtRecv? {
      ApprovedIdsExact(s.items);
      SameMembersSameLength(ApprovedIds(s.items), Ids(Released(s.replies)));
    }
  }

  /** At every point, also where the process stopped in the middle of an approval: no signature
      reply without its record, no record without its verdict, and at most one step between. */
  lemma NeverAheadOfTheLedger(cfg: Config, actions: seq<Action>)
    ensures var s := Run(cfg, actions);
      var released, recorded := Released(s.replies), Recorded(s.ledger);
      && released <= recorded
      && |ApprovedIds(s.items)| <= |released| + 1
      && (forall k :: 0 <= k < |recorded| ==> IsApproved(s.items, recorded[k].id))
      && Distinct(Ids(recorded))
      && |recorded| <= |ApprovedIds(s.items)|
  {
    var s := Run(cfg, actions);
    RunKeepsInv(cfg, actions);
    ApprovedIdsExact(s.items);
    var released, recorded := Released(s.replies), Recorded(s.ledger);
    var claimed := Claimed(s);
    assert ApprovedExactly(cfg, s.items, claimed);
    SameMembersSameLength(ApprovedIds(s.items), Ids(claimed));
    assert recorded <= claimed;
    forall k | 0 <= k < |recorded| ensures IsApproved(s.items, recorded[k].id) {
      assert Ids(claimed)[k] == recorded[k].id;
    }
    assert Ids(recorded) == Ids(claimed)[..|recorded|];
  }

  /** The verdict whose outcome the source ignores is never refused: what was checked pending
      before signing is still pending when it is resolved. */
  lemma ResolveNeverFails(cfg: Config, actions: seq<Action>)
    ensures var s := Run(cfg, actions);
      s.loop.SignedOff? ==> IsPending(s.items, s.loop.issue.id) && OverQueuedBytes(cfg, s.items, s.loop.issue)
  {
    RunKeepsInv(cfg, actions);
  }

  /** What a fetch showed for an id is exactly what was, or is about to be, signed under it. */
  lemma FetchedIsWhatIsSigned(cfg: Config, actions: seq<Action>, k: nat, j: nat)
    requires k < |Run(cfg, actions).replies| && Run(cfg, actions).replies[k].Body?
    requires j < |Recorded(Run(cfg, actions).ledger)|
    requires Run(cfg, actions).replies[k].id == Recorded(Run(cfg, actions).ledger)[j].id
    ensures Run(cfg, actions).replies[k].payload == Recorded(Run(cfg, actions).ledger)[j].over
  {
    var s := Run(cfg, actions);
    RunKeepsInv(cfg, actions);
    assert Shows(s.items, s.replies[k]);
    assert Recorded(s.ledger) <= Claimed(s);
    assert ApprovedExactly(cfg, s.items, Claimed(s));
    assert OverQueuedBytes(cfg, s.items, Claimed(s)[j]);
  }

  /** The queue only evolves: what a later state of a run holds grew out of what an earlier one
      held, payload and provenance unchanged and every verdict final. */
  lemma {:induction false} RunEvolves(cfg: Config, before: seq<Action>, more: seq<Action>)
    ensures Evolves(Run(cfg, before).items, Run(cfg, before + more).items)
  {
    if more == [] {
      assert before + more == before;
      QueueStepsEvolve(Run(cfg, before).items, 0, Denied, [], Ui);
    } else {
      var n := |more| - 1;
      assert before + more == (before + more[..n]) + [more[n]];
      RunEvolves(cfg, before, more[..n]);
      OneStepEvolves(cfg, before + more[..n], more[n]);
      EvolvesTransitive(Run(cfg, before).items, Run(cfg, before + more[..n]).items, Run(cfg, before + more).items);
    }
  }

  lemma OneStepEvolves(cfg: Config, actions: seq<Action>, a: Action)
    ensures Evolves(Run(cfg, actions).items, Run(cfg, actions + [a]).items)
  {
    var s := Run(cfg, actions);
    RunKeepsInv(cfg, actions);
    assert (actions + [a])[..|actions|] == actions;
    QueueStepsEvolve(s.items, 0, Denied, [], Ui);
    if Next(cfg, s, a).Some? { InvKept(cfg, s, a); }
  }

  /** All the trust plane ever does to the queue is to add a submission or to resolve one. */
  lemma PlaneMovesTheQueue(cfg: Config, s: Plane, a: Action)
    requires Next(cfg, s, a).Some?
    ensures var t := Next(cfg, s, a).value;
      || t.items == s.items
      || (a.PipeMessage? && DecodePipe(cfg.mac, a.msg).Submission?
          && var r := DecodePipe(cfg.mac, a.msg); t.items == Submitted(s.items, r.payload, r.provenance))
      || (s.loop.AtRecv? && exists id: nat :: t.items == Resolved(s.items, id, Denied))
      || (s.loop.SignedOff? && t.items == Resolved(s.items, s.loop.issue.id, Approved))
  {
    if s.loop.AtRecv? && a.Receive? && a.frame.Some? && a.frame.value != [] {
      var q := DecodeRequest(a.frame.value);
      if q.Deny? && IsPending(s.items, q.id) {
        assert Dispatch(s, q).items == Resolved(s.items, q.id, Denied);
      }
    }
  }

  /** The loop never meets a state it cannot act in: in particular the proposal behind a listed
      id is always there. It waits only for the holder mutex. */
  lemma LoopIsNeverStuck(cfg: Config, actions: seq<Action>) returns (a: Action)
    ensures var s := Run(cfg, actions);
      s.alive && !(s.loop.AtHolder? && s.watcher.Locking?) ==> LoopNext(cfg, s, a).Some?
  {
    RunKeepsInv(cfg, actions);
    a := GoOn(cfg, Run(cfg, actions));
  }

  lemma GoOn(cfg: Config, s: Plane) returns (a: Action)
    requires LoopKnows(cfg, s)
    ensures (s.loop.AtHolder? && s.watcher.Locking?) || LoopNext(cfg, s, a).Some?
  {
    match s.loop
    case AtRecv => a := Receive(None);
    case Verifying(_, _) => a := OpenVault(None);
    case AtHolder(_) => a := TakeHolder(None);
    case Replying(_) => a := Send(true);
    case Verified(_, _) => a := ReadQueue;
    case Listing(ids, _) =>
      assert ids != [] ==> ids[0] in ids;
      a := ReadQueue;
    case Fetched(_, _, _) => a := SignNow(0);
    case SignedOff(_) => a := ResolveNow;
    case _ => a := Record(true);
  }

  /** Every request that was read is answered once, in order, with a reply of its own kind; only
      the one in progress may still be open. So the i-th reply answers the i-th request. */
  lemma RepliesAnswerRequests(cfg: Config, actions: seq<Action>)
    ensures var s := Run(cfg, actions);
      && |s.replies| <= |s.requests| <= |s.replies| + 1
      && (s.loop.AtRecv? ==> |s.requests| == |s.replies|)
      && forall k :: 0 <= k < |s.replies| ==> Answers(s.requests[k], s.replies[k])
  {
    RunKeepsInv(cfg, actions);
  }

  // --- The passphrase meter ----------------------------------------------------------

  /** Seconds stalled over n failed verifications in a row. */
  function StallBound(n: nat): nat
  {
    if n < 3 then 0
    else if n <= 13 then (n - 3) * (n - 2) / 2
    else 55 + 10 * (n - 13)
  }

  lemma StallBoundStep(n: nat)
    ensures StallBound(n + 1) == StallBound(n) + Delay(n)
  {
    if 3 <= n < 13 {
      assert (n - 2) * (n - 1) == (n - 3) * (n - 2) + 2 * (n - 2);
    }
  }

  lemma {:induction false} StallClosedForm(attempts: seq<Attempt>)
    requires forall k :: 0 <= k < |attempts| ==> attempts[k].stall == Delay(BadRun(attempts[..k]))
    ensures StallOfRun(attempts) == StallBound(BadRun(attempts))
  {
    if attempts != [] && !attempts[|attempts| - 1].success {
      var front := attempts[..|attempts| - 1];
      forall k | 0 <= k < |front| ensures front[k].stall == Delay(BadRun(front[..k])) {
        assert attempts[..k] == front[..k];
      }
      StallClosedForm(front);
      StallBoundStep(BadRun(front));
    }
  }

  /** Mixed freely over unlock, approve and reveal, with anything between: the meter counts the
      failed verifications since the last successful one, and they have stalled the closed sum
      in total. A failing ledger write under a reveal counts as one more failure. */
  lemma MeterBound(cfg: Config, actions: seq<Action>)
    ensures var s := Run(cfg, actions);
      s.badPass == BadRun(s.attempts) && StallOfRun(s.attempts) == StallBound(s.badPass)
  {
    RunKeepsInv(cfg, actions);
    StallClosedForm(Run(cfg, actions).attempts);
  }
}
