/** Walks over the competition graph: who can reach a contest, and which contests a change can reach. */
module GraphWalks {
  import opened Wrappers
  import opened Lists
  import opened Ordering
  import opened Sorting
  import opened SortedSets
  import opened CompetitionGraph

  datatype WalkError = CyclicContest(contestId: string)

  // ---------------------------------------------------------------- the entrants who can reach a contest

  predicate NamesNode(slot: Slot, id: string) {
    slot == WinnerOf(id) || slot == LoserOf(id)
  }

  /** The entrants of a slot, where `resolving` are the contests whose entrants are being collected. */
  function SlotEntrants(nodes: seq<Node>, slot: Slot, resolving: set<string>): Result<seq<string>, WalkError>
    decreases NodeIdSet(nodes) - resolving, 1
  {
    match slot
    case EntrantSlot(id) => Success([id])
    case ByeSlot => Success([])
    case WinnerOf(id) => EntrantsFor(nodes, id, resolving)
    case LoserOf(id) => EntrantsFor(nodes, id, resolving)
  }

  function EntrantsFor(nodes: seq<Node>, id: string, resolving: set<string>): Result<seq<string>, WalkError>
    decreases NodeIdSet(nodes) - resolving, 0
  {
    if id in resolving then Failure(CyclicContest(id))
    else
      var node := NodeOf(nodes, id);
      if node.None? then Success([])
      else
        assert id in NodeIdSet(nodes) - resolving;
        var first := SlotEntrants(nodes, node.value.first, resolving + {id});
        if first.Failure? then first
        else
          var second := SlotEntrants(nodes, node.value.second, resolving + {id});
          if second.Failure? then second else Success(SortedUnique(first.value + second.value))
  }

  /** The walk as the program makes it, over one set of contests being resolved. */
  class EntrantWalk {
    var resolving: set<string>
    const nodes: seq<Node>

    constructor (nodes: seq<Node>)
      ensures this.nodes == nodes && resolving == {}
    {
      this.nodes := nodes;
      resolving := {};
    }

    method EntrantsForNode(id: string) returns (r: Result<seq<string>, WalkError>)
      modifies this
      ensures r == EntrantsFor(nodes, id, old(resolving))
      ensures r.Success? ==> resolving == old(resolving)
      decreases NodeIdSet(nodes) - resolving, 0
    {
      if id in resolving { return Failure(CyclicContest(id)); }
      var node := NodeOf(nodes, id);
      if node.None? { return Success([]); }
      assert id in NodeIdSet(nodes) - resolving;
      resolving := resolving + {id};
      var first := SlotEntrantsOf(node.value.first);
      if first.Failure? { return first; }
      var second := SlotEntrantsOf(node.value.second);
      if second.Failure? { return second; }
      resolving := resolving - {id};
      r := Success(SortedUnique(first.value + second.value));
    }

    method SlotEntrantsOf(slot: Slot) returns (r: Result<seq<string>, WalkError>)
      modifies this
      ensures r == SlotEntrants(nodes, slot, old(resolving))
      ensures r.Success? ==> resolving == old(resolving)
      decreases NodeIdSet(nodes) - resolving, 1
    {
      match slot {
        case EntrantSlot(id) => r := Success([id]);
        case ByeSlot => r := Success([]);
        case WinnerOf(id) => r := EntrantsForNode(id);
        case LoserOf(id) => r := EntrantsForNode(id);
      }
    }
  }

  /** A contest's slot takes an outcome of the other. */
  predicate Feeds(nodes: seq<Node>, id: string, source: string) {
    var node := NodeOf(nodes, id);
    node.Some? && (NamesNode(node.value.first, source) || NamesNode(node.value.second, source))
  }

  /** A walk from a contest back through the contests that feed it. */
  ghost predicate IsTrail(nodes: seq<Node>, trail: seq<string>) {
    trail != [] && forall i | 0 <= i < |trail| - 1 :: Feeds(nodes, trail[i], trail[i + 1])
  }

  ghost predicate Returns(trail: seq<string>) {
    exists i :: 0 <= i < |trail| - 1 && trail[i] == trail[|trail| - 1]
  }

  /** Some walk back from a contest returns to a contest it has passed. */
  ghost predicate CycleReachable(nodes: seq<Node>, id: string) {
    exists trail :: IsTrail(nodes, trail) && trail[0] == id && Returns(trail)
  }

  predicate HasEntrantSlot(nodes: seq<Node>, id: string, entrantId: string) {
    var node := NodeOf(nodes, id);
    node.Some? && (node.value.first == EntrantSlot(entrantId) || node.value.second == EntrantSlot(entrantId))
  }

  /** Some walk back from a contest ends at a contest with the entrant in a slot. */
  ghost predicate EntrantReachable(nodes: seq<Node>, id: string, entrantId: string) {
    exists trail :: IsTrail(nodes, trail) && trail[0] == id && HasEntrantSlot(nodes, trail[|trail| - 1], entrantId)
  }

  lemma {:induction false} FailureHasCycle(nodes: seq<Node>, trail: seq<string>)
    requires IsTrail(nodes, trail)
    requires EntrantsFor(nodes, trail[|trail| - 1], Elements(trail[..|trail| - 1])).Failure?
    ensures CycleReachable(nodes, trail[0])
    decreases NodeIdSet(nodes) - Elements(trail[..|trail| - 1])
  {
    var last := |trail| - 1;
    var id, resolving := trail[last], Elements(trail[..last]);
    if id in resolving {
      var i :| 0 <= i < last && trail[i] == id;
      assert Returns(trail);
    } else {
      var node := NodeOf(nodes, id).value;
      assert id in NodeIdSet(nodes) - resolving;
      assert trail[..last] + [id] == trail;
      assert Elements(trail) == resolving + {id};
      var slot := if SlotEntrants(nodes, node.first, resolving + {id}).Failure? then node.first else node.second;
      assert SlotEntrants(nodes, slot, resolving + {id}).Failure? && NamesNode(slot, slot.contestId);
      assert Feeds(nodes, id, slot.contestId);
      var longer := trail + [slot.contestId];
      assert longer[..|longer| - 1] == trail;
      FailureHasCycle(nodes, longer);
    }
  }

  /** When the walk succeeds, no trail repeats a contest, so trails are no longer than the contests left. */
  lemma {:induction false} TrailsBounded(nodes: seq<Node>, resolving: set<string>, trail: seq<string>)
    requires IsTrail(nodes, trail) && EntrantsFor(nodes, trail[0], resolving).Success?
    ensures |trail| <= |NodeIdSet(nodes) - resolving| + 1
    decreases |trail|
  {
    if |trail| > 1 {
      var id := trail[0];
      assert Feeds(nodes, trail[0], trail[1]);
      assert id in NodeIdSet(nodes) - resolving;
      assert NodeIdSet(nodes) - resolving == (NodeIdSet(nodes) - (resolving + {id})) + {id};
      TailIsTrail(nodes, trail);
      TrailsBounded(nodes, resolving + {id}, trail[1..]);
    }
  }

  lemma TailIsTrail(nodes: seq<Node>, trail: seq<string>)
    requires IsTrail(nodes, trail) && |trail| > 1
    ensures IsTrail(nodes, trail[1..])
  {
    forall i | 0 <= i < |trail[1..]| - 1 ensures Feeds(nodes, trail[1..][i], trail[1..][i + 1]) {
      assert Feeds(nodes, trail[i + 1], trail[i + 1 + 1]);
    }
  }

  /** A trail that returns can go round again. */
  lemma {:induction false} LongerTrail(nodes: seq<Node>, trail: seq<string>, length: nat) returns (longer: seq<string>)
    requires IsTrail(nodes, trail) && Returns(trail)
    ensures IsTrail(nodes, longer) && longer[0] == trail[0] && |longer| > length
    decreases length - |trail|
  {
    if |trail| > length {
      longer := trail;
    } else {
      var i :| 0 <= i < |trail| - 1 && trail[i] == trail[|trail| - 1];
      var round := trail + trail[i + 1..];
      forall k | 0 <= k < |round| - 1 ensures Feeds(nodes, round[k], round[k + 1]) {
        if k >= |trail| - 1 {
          var j := k - (|trail| - 1) + i;
          assert Feeds(nodes, trail[j], trail[j + 1]);
        }
      }
      assert round[i] == round[|round| - 1];
      assert Returns(round);
      longer := LongerTrail(nodes, round, length);
    }
  }

  /** The walk fails exactly when a cycle can be reached from the contest. */
  lemma WalkFailsIffCycle(nodes: seq<Node>, id: string)
    ensures EntrantsFor(nodes, id, {}).Failure? <==> CycleReachable(nodes, id)
  {
    if EntrantsFor(nodes, id, {}).Failure? {
      assert [id][..0] == [] && Elements([id][..0]) == {};
      FailureHasCycle(nodes, [id]);
    }
    if EntrantsFor(nodes, id, {}).Success? && CycleReachable(nodes, id) {
      var trail :| IsTrail(nodes, trail) && trail[0] == id && Returns(trail);
      var longer := LongerTrail(nodes, trail, |NodeIdSet(nodes) - {}| + 1);
      TrailsBounded(nodes, {}, longer);
    }
  }

  lemma {:induction false} CollectedAreReachable(nodes: seq<Node>, id: string, resolving: set<string>, entrantId: string)
    returns (trail: seq<string>)
    requires EntrantsFor(nodes, id, resolving).Success? && entrantId in EntrantsFor(nodes, id, resolving).value
    ensures IsTrail(nodes, trail) && trail[0] == id && HasEntrantSlot(nodes, trail[|trail| - 1], entrantId)
    decreases NodeIdSet(nodes) - resolving
  {
    assert NodeOf(nodes, id).Some?;
    var node := NodeOf(nodes, id).value;
    assert id in NodeIdSet(nodes) - resolving;
    var first, second := SlotEntrants(nodes, node.first, resolving + {id}), SlotEntrants(nodes, node.second, resolving + {id});
    SortedUniqueElements(first.value + second.value);
    var slot := if entrantId in first.value then node.first else node.second;
    if slot.EntrantSlot? {
      trail := [id];
    } else {
      var rest := CollectedAreReachable(nodes, slot.contestId, resolving + {id}, entrantId);
      trail := [id] + rest;
      assert Feeds(nodes, id, slot.contestId);
    }
  }

  lemma {:induction false} ReachableAreCollected(nodes: seq<Node>, trail: seq<string>, resolving: set<string>, entrantId: string)
    requires IsTrail(nodes, trail) && HasEntrantSlot(nodes, trail[|trail| - 1], entrantId)
    requires EntrantsFor(nodes, trail[0], resolving).Success?
    ensures entrantId in EntrantsFor(nodes, trail[0], resolving).value
    decreases |trail|
  {
    var id := trail[0];
    if |trail| > 1 { assert Feeds(nodes, trail[0], trail[1]); }
    var node := NodeOf(nodes, id).value;
    var first, second := SlotEntrants(nodes, node.first, resolving + {id}), SlotEntrants(nodes, node.second, resolving + {id});
    SortedUniqueElements(first.value + second.value);
    if |trail| > 1 {
      TailIsTrail(nodes, trail);
      ReachableAreCollected(nodes, trail[1..], resolving + {id}, entrantId);
    }
  }

  /** A walk that succeeds returns exactly the entrants that can reach the contest, sorted and once each. */
  lemma WalkCollectsReachable(nodes: seq<Node>, id: string)
    requires EntrantsFor(nodes, id, {}).Success?
    ensures var r := EntrantsFor(nodes, id, {}).value;
            && SortedBy(r, StringLeq) && Distinct(r)
            && forall e :: e in r <==> EntrantReachable(nodes, id, e)
  {
    var r := EntrantsFor(nodes, id, {}).value;
    if NodeOf(nodes, id).Some? {
      var node := NodeOf(nodes, id).value;
      SortedUniqueElements(SlotEntrants(nodes, node.first, {} + {id}).value + SlotEntrants(nodes, node.second, {} + {id}).value);
    }
    forall e ensures e in r <==> EntrantReachable(nodes, id, e) {
      if e in r { var trail := CollectedAreReachable(nodes, id, {}, e); }
      if EntrantReachable(nodes, id, e) {
        var trail :| IsTrail(nodes, trail) && trail[0] == id && HasEntrantSlot(nodes, trail[|trail| - 1], e);
        ReachableAreCollected(nodes, trail, {}, e);
      }
    }
  }

  // ---------------------------------------------------------------- the contests that a change can reach

  ghost predicate IsRoute(edges: seq<Edge>, route: seq<string>) {
    route != [] && forall i | 0 <= i < |route| - 1 :: Edge(route[i], route[i + 1]) in edges
  }

  /** A route over the graph's edges leads from one of these contests to the other. */
  ghost predicate Reachable(edges: seq<Edge>, directIds: seq<string>, id: string) {
    exists route :: IsRoute(edges, route) && route[0] in directIds && route[|route| - 1] == id
  }

  lemma ReachableFurther(edges: seq<Edge>, directIds: seq<string>, edge: Edge)
    requires edge in edges && Reachable(edges, directIds, edge.fromContestId)
    ensures Reachable(edges, directIds, edge.toContestId)
  {
    var route :| IsRoute(edges, route) && route[0] in directIds && route[|route| - 1] == edge.fromContestId;
    assert IsRoute(edges, route + [edge.toContestId]);
  }

  ghost predicate ClosedUnder(edges: seq<Edge>, ids: seq<string>) {
    forall edge | edge in edges && edge.fromContestId in ids :: edge.toContestId in ids
  }

  lemma {:induction false} RoutesStayInside(edges: seq<Edge>, ids: seq<string>, route: seq<string>)
    requires ClosedUnder(edges, ids) && IsRoute(edges, route) && route[0] in ids
    ensures route[|route| - 1] in ids
    decreases |route|
  {
    if |route| > 1 {
      var front := route[..|route| - 1];
      forall i | 0 <= i < |front| - 1 ensures Edge(front[i], front[i + 1]) in edges {
        assert Edge(route[i], route[i + 1]) in edges;
      }
      RoutesStayInside(edges, ids, front);
      assert Edge(route[|route| - 2], route[|route| - 2 + 1]) in edges;
    }
  }

  ghost function Known(edges: seq<Edge>, directIds: seq<string>): set<string> {
    Elements(directIds) + set edge | edge in edges :: edge.toContestId
  }

  /** Contests collected so far: all reachable, and among them the direct ones. */
  ghost predicate Collected(edges: seq<Edge>, directIds: seq<string>, affected: seq<string>) {
    && Distinct(affected)
    && Elements(directIds) <= Elements(affected) <= Known(edges, directIds)
    && forall id | id in affected :: Reachable(edges, directIds, id)
  }

  lemma CollectDirect(edges: seq<Edge>, directIds: seq<string>)
    ensures Collected(edges, directIds, Dedupe(directIds))
  {
    DedupeElements(directIds);
    forall id | id in Dedupe(directIds) ensures Reachable(edges, directIds, id) {
      assert IsRoute(edges, [id]) && [id][0] in directIds;
    }
  }

  lemma CollectOneMore(edges: seq<Edge>, directIds: seq<string>, affected: seq<string>, edge: Edge)
    requires Collected(edges, directIds, affected) && edge in edges
    requires edge.fromContestId in affected && edge.toContestId !in affected
    ensures Collected(edges, directIds, affected + [edge.toContestId])
    ensures Elements(affected + [edge.toContestId]) == Elements(affected) + {edge.toContestId}
  {
    ReachableFurther(edges, directIds, edge);
  }

  lemma CollectedAll(edges: seq<Edge>, directIds: seq<string>, affected: seq<string>)
    requires Collected(edges, directIds, affected) && ClosedUnder(edges, affected)
    ensures var r := SortBy(affected, StringLeq);
            && SortedBy(r, StringLeq) && Distinct(r)
            && forall id :: id in r <==> Reachable(edges, directIds, id)
  {
    var r := SortBy(affected, StringLeq);
    StringOrder();
    SortSorts(affected, StringLeq);
    SortKeepsElements(affected, StringLeq);
    SortKeepsDistinct(affected, StringLeq);
    forall id ensures id in r <==> Reachable(edges, directIds, id) {
      if Reachable(edges, directIds, id) {
        var route :| IsRoute(edges, route) && route[0] in directIds && route[|route| - 1] == id;
        assert route[0] in Elements(directIds);
        RoutesStayInside(edges, affected, route);
      }
    }
  }

  /** One pass over the edges, adding what they lead to from the contests collected before. */
  method OnePass(edges: seq<Edge>, directIds: seq<string>, before: seq<string>) returns (affected: seq<string>, changed: bool)
    requires Collected(edges, directIds, before)
    ensures Collected(edges, directIds, affected)
    ensures if changed then Elements(before) < Elements(affected) else affected == before && ClosedUnder(edges, affected)
  {
    affected, changed := before, false;
    for i := 0 to |edges|
      invariant Collected(edges, directIds, affected)
      invariant if changed then Elements(before) < Elements(affected) else affected == before && ClosedUnder(edges[..i], affected)
    {
      var edge := edges[i];
      if edge.fromContestId in affected && edge.toContestId !in affected {
        CollectOneMore(edges, directIds, affected, edge);
        assert edge.toContestId !in Elements(affected);
        affected := affected + [edge.toContestId];
        changed := true;
      }
    }
    assert edges[..|edges|] == edges;
  }

  /** The contests that can be reached from these, cycles included. */
  method AffectedScope(edges: seq<Edge>, directIds: seq<string>) returns (r: seq<string>)
    ensures SortedBy(r, StringLeq) && Distinct(r)
    ensures forall id :: id in r <==> Reachable(edges, directIds, id)
  {
    var affected := Dedupe(directIds);
    CollectDirect(edges, directIds);
    var changed := true;
    while changed
      invariant Collected(edges, directIds, affected)
      invariant !changed ==> ClosedUnder(edges, affected)
      decreases |Known(edges, directIds) - Elements(affected)|, changed
    {
      ghost var before := affected;
      affected, changed := OnePass(edges, directIds, affected);
      if changed { SmallerRest(Known(edges, directIds), Elements(before), Elements(affected)); }
    }
    CollectedAll(edges, directIds, affected);
    r := SortBy(affected, StringLeq);
  }

  lemma SmallerRest(all: set<string>, before: set<string>, after: set<string>)
    requires before < after <= all
    ensures |all - after| < |all - before|
  {
    assert all - before == (all - after) + (after - before);
    assert |all - before| == |all - after| + |after - before|;
    assert !(after <= before);
    assert exists x :: x in after && x !in before;
    assert after - before != {};
  }
}
