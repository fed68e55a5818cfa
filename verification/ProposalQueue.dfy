/** The proposal queue of keyd/proposals.hpp: a list scanned by id, shared by two threads. */
module ProposalQueue {
  import opened Bytes

  datatype State = Pending | Approved | Denied | Unknown
  datatype Provenance = Anonymous | Ui
  datatype Proposal = Proposal(id: nat, provenance: Provenance, state: State, payload: seq<byte>)

  // --- The queue as a map from id to proposal ----------------------------------------

  /** Ids are 1 to n, in the order of submission. */
  predicate Numbered(items: seq<Proposal>)
  {
    forall i :: 0 <= i < |items| ==> items[i].id == i + 1
  }

  /** The proposal an id names. */
  function Lookup(items: seq<Proposal>, id: nat): Option<Proposal>
  {
    if 1 <= id <= |items| then Some(items[id - 1]) else None
  }

  predicate IsPending(items: seq<Proposal>, id: nat)
  {
    Lookup(items, id).Some? && Lookup(items, id).value.state == Pending
  }

  predicate IsApproved(items: seq<Proposal>, id: nat)
  {
    Lookup(items, id).Some? && Lookup(items, id).value.state == Approved
  }

  predicate Distinct(ids: seq<nat>)
  {
    forall j, k :: 0 <= j < k < |ids| ==> ids[j] != ids[k]
  }

  function Submitted(items: seq<Proposal>, payload: seq<byte>, provenance: Provenance): (r: seq<Proposal>)
    ensures Numbered(items) ==> Numbered(r)
  {
    items + [Proposal(|items| + 1, provenance, Pending, payload)]
  }

  /** A verdict on a pending proposal; anything else changes nothing. */
  function Resolved(items: seq<Proposal>, id: nat, verdict: State): (r: seq<Proposal>)
    ensures Numbered(items) ==> Numbered(r)
  {
    if IsPending(items, id) then items[id - 1 := items[id - 1].(state := verdict)] else items
  }

  function PendingIds(items: seq<Proposal>): seq<nat>
  {
    if items == [] then []
    else
      var n := |items| - 1;
      PendingIds(items[..n]) + if items[n].state == Pending then [items[n].id] else []
  }

  /** The list of pending ids is ascending and names exactly the pending proposals. */
  lemma {:induction false} PendingIdsExact(items: seq<Proposal>)
    requires Numbered(items)
    ensures forall id: nat :: id in PendingIds(items) <==> IsPending(items, id)
    ensures forall i, j :: 0 <= i < j < |PendingIds(items)| ==> PendingIds(items)[i] < PendingIds(items)[j]
  {
    if items != [] {
      var n := |items| - 1;
      PendingIdsExact(items[..n]);
      forall id: nat ensures id in PendingIds(items) <==> IsPending(items, id) {
        assert id in PendingIds(items[..n]) <==> IsPending(items[..n], id);
        if 1 <= id <= n { assert items[..n][id - 1] == items[id - 1]; }
      }
      var front, all := PendingIds(items[..n]), PendingIds(items);
      forall i, j | 0 <= i < j < |all| ensures all[i] < all[j] {
        assert all[i] == front[i] && IsPending(items[..n], front[i]);
      }
    }
  }

  /** The list, read as a map from id to proposal. */
  function AsMap(items: seq<Proposal>): (m: map<nat, Proposal>)
    ensures forall id: nat :: id in m <==> Lookup(items, id).Some?
    ensures forall id: nat :: id in m ==> Lookup(items, id) == Some(m[id])
  {
    map id: nat | 1 <= id <= |items| && Lookup(items, id).Some? :: Lookup(items, id).value
  }

  /** A submission binds the next id and nothing else; a verdict rebinds a pending id to the same
      proposal with the verdict, and leaves the map alone for every other id. */
  lemma StepsRefineTheMap(items: seq<Proposal>, id: nat, verdict: State,
                          payload: seq<byte>, provenance: Provenance)
    requires Numbered(items)
    ensures var m, next := AsMap(items), |items| + 1;
      && (forall k: nat :: k in m <==> 1 <= k < next)
      && (forall k: nat :: k in m ==> m[k].id == k)
      && AsMap(Submitted(items, payload, provenance)) == m[next := Proposal(next, provenance, Pending, payload)]
      && AsMap(Resolved(items, id, verdict)) ==
           if id in m && m[id].state == Pending then m[id := m[id].(state := verdict)] else m
  {
    var m, next := AsMap(items), |items| + 1;
    var submitted, resolved := Submitted(items, payload, provenance), Resolved(items, id, verdict);
    assert AsMap(submitted).Keys == m.Keys + {next};
    assert AsMap(resolved).Keys == m.Keys;
  }

  // --- What every step keeps ---------------------------------------------------------

  /** How the queue may change over time: proposals are only added, and all of one but its
      state stays; a state moves from Pending to a verdict, once. */
  ghost predicate Evolves(a: seq<Proposal>, b: seq<Proposal>)
  {
    |a| <= |b|
    && forall i :: 0 <= i < |a| ==>
         b[i] == a[i].(state := b[i].state) && (a[i].state != Pending ==> b[i].state == a[i].state)
  }

  lemma EvolvesTransitive(a: seq<Proposal>, b: seq<Proposal>, c: seq<Proposal>)
    requires Evolves(a, b) && Evolves(b, c)
    ensures Evolves(a, c)
  {
    forall i | 0 <= i < |a|
      ensures c[i] == a[i].(state := c[i].state) && (a[i].state != Pending ==> c[i].state == a[i].state)
    {
      assert b[i] == a[i].(state := b[i].state) && c[i] == b[i].(state := c[i].state);
    }
  }

  lemma QueueStepsEvolve(items: seq<Proposal>, id: nat, verdict: State,
                         payload: seq<byte>, provenance: Provenance)
    ensures Evolves(items, items)
    ensures Evolves(items, Submitted(items, payload, provenance))
    ensures Evolves(items, Resolved(items, id, verdict))
  {}

  // --- The class ---------------------------------------------------------------------

  class Queue {
    var items: seq<Proposal>
    var nextId: nat

    ghost predicate Valid()
      reads this
    {
      Numbered(items) && nextId == |items|
    }

    constructor ()
      ensures Valid() && items == []
    {
      items, nextId := [], 0;
    }

    method Submit(payload: seq<byte>, provenance: Provenance) returns (id: nat)
      requires Valid()
      modifies this
      ensures Valid()
      ensures items == Submitted(old(items), payload, provenance)
      ensures Lookup(old(items), id) == None
      ensures Lookup(items, id) == Some(Proposal(id, provenance, Pending, payload))
    {
      nextId := nextId + 1;
      items := items + [Proposal(nextId, provenance, Pending, payload)];
      return items[|items| - 1].id;
    }

    method StateOf(id: nat) returns (s: State)
      requires Valid()
      ensures s == match Lookup(items, id) case None => Unknown case Some(p) => p.state
    {
      for i := 0 to |items|
        invariant forall j :: 0 <= j < i ==> items[j].id != id
      {
        if items[i].id == id { return items[i].state; }
      }
      AbsentId(items, id);
      return Unknown;
    }

    method Resolve(id: nat, verdict: State) returns (ok: bool)
      requires Valid()
      modifies this
      ensures Valid()
      ensures ok <==> IsPending(old(items), id)
      ensures items == Resolved(old(items), id, verdict)
    {
      for i := 0 to |items|
        invariant items == old(items) && Valid()
        invariant forall j :: 0 <= j < i ==> items[j].id != id || items[j].state != Pending
      {
        if items[i].id == id && items[i].state == Pending {
          items := items[i := items[i].(state := verdict)];
          return true;
        }
      }
      return false;
    }

    method ListPending() returns (out: seq<nat>)
      requires Valid()
      ensures out == PendingIds(items)
    {
      out := [];
      for i := 0 to |items|
        invariant out == PendingIds(items[..i])
      {
        assert items[..i + 1][..i] == items[..i];
        if items[i].state == Pending { out := out + [items[i].id]; }
      }
      assert items[..|items|] == items;
    }

    method Get(id: nat) returns (p: Option<Proposal>)
      requires Valid()
      ensures p == Lookup(items, id)
    {
      for i := 0 to |items|
        invariant forall j :: 0 <= j < i ==> items[j].id != id
      {
        if items[i].id == id { return Some(items[i]); }
      }
      AbsentId(items, id);
      return None;
    }
  }

  lemma AbsentId(items: seq<Proposal>, id: nat)
    requires Numbered(items) && forall j :: 0 <= j < |items| ==> items[j].id != id
    ensures Lookup(items, id) == None
  {
    assert forall j :: 0 <= j < |items| ==> items[j].id == j + 1;
  }
}
