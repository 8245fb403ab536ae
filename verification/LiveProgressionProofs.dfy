/** Progression reaches a fixed point, and its slot walk resolves exactly what an unguarded walk would. */
module ProgressionFixedPoint {
  import opened Wrappers
  import opened Lists
  import opened Ordering
  import opened Sorting
  import opened Timestamps
  import opened LiveModel
  import opened CompetitionGraph
  import opened LiveProgression
  import SortedSets

  // ---------------------------------------------------------------- records that settle the same results

  predicate Waiting(state: LiveState, id: string) {
    id in state.contests && state.contests[id].status.Scheduled?
  }

  /** Two records of the same play, which may differ in the entrants of contests that have not started. */
  ghost predicate SettledAlike(s: LiveState, t: LiveState) {
    && s.definitions == t.definitions && s.contests == t.contests && s.ties == t.ties
    && forall id {:trigger Waiting(s, id)} :: ActualEntrants(s, id) == ActualEntrants(t, id) || Waiting(s, id)
  }

  lemma SameResult(s: LiveState, t: LiveState, id: string)
    requires SettledAlike(s, t)
    ensures ResultFor(s, id) == ResultFor(t, id)
  {
    assert ActualEntrants(s, id) == ActualEntrants(t, id) || Waiting(s, id);
  }

  lemma OverlaysSettleAlike(s: LiveState, t: LiveState, expected: Resolutions)
    requires SettledAlike(s, t)
    ensures SettledAlike(Overlay(s, expected), Overlay(t, expected))
  {
    var s', t' := Overlay(s, expected), Overlay(t, expected);
    forall id ensures ActualEntrants(s', id) == ActualEntrants(t', id) || Waiting(s', id) {
      assert ActualEntrants(s, id) == ActualEntrants(t, id) || Waiting(s, id);
    }
  }

  lemma {:induction false} SameGroupResults(s: LiveState, t: LiveState, ids: seq<string>)
    requires SettledAlike(s, t)
    ensures GroupResults(s, ids) == GroupResults(t, ids)
  {
    if ids != [] {
      SameGroupResults(s, t, ids[..|ids| - 1]);
      SameResult(s, t, ids[|ids| - 1]);
    }
  }

  lemma {:induction false} SameSlot(s: LiveState, t: LiveState, nodes: seq<Node>, slot: Slot, visited: set<string>)
    requires SettledAlike(s, t)
    ensures ResolveSlot(s, nodes, slot, visited) == ResolveSlot(t, nodes, slot, visited)
    decreases NodeIdSet(nodes) - visited
  {
    if slot.WinnerOf? || slot.LoserOf? {
      SameResult(s, t, slot.contestId);
      var source := NodeOf(nodes, slot.contestId);
      if slot.WinnerOf? && source.Some? && !source.value.isContest && slot.contestId !in visited {
        var candidates := Candidates(source.value);
        if |candidates| == 1 {
          assert slot.contestId in NodeIdSet(nodes) - visited;
          SameSlot(s, t, nodes, candidates[0], visited + {slot.contestId});
        }
      }
    }
  }

  lemma SameNode(s: LiveState, t: LiveState, nodes: seq<Node>, node: Node)
    requires SettledAlike(s, t)
    ensures ResolvedForNode(s, nodes, node) == ResolvedForNode(t, nodes, node)
  {
    SameSlot(s, t, nodes, node.first, {node.id});
    SameSlot(s, t, nodes, node.second, {node.id});
  }

  lemma {:induction false} SameNodes(competition: Competition, s: LiveState, t: LiveState, nodes: seq<Node>, ordered: seq<Node>)
    requires SettledAlike(s, t)
    ensures ExpectNodes(competition, s, nodes, ordered) == ExpectNodes(competition, t, nodes, ordered)
  {
    if ordered != [] {
      var front, last := ordered[..|ordered| - 1], ordered[|ordered| - 1];
      SameNodes(competition, s, t, nodes, front);
      var expected := ExpectNodes(competition, s, nodes, front);
      OverlaysSettleAlike(s, t, expected);
      SameNode(Overlay(s, expected), Overlay(t, expected), nodes, last);
    }
  }

  /** The expectations depend only on settled results. */
  lemma SameExpectations(competition: Competition, s: LiveState, t: LiveState)
    requires SettledAlike(s, t)
    ensures Expected(competition, s) == Expected(competition, t)
  {
    SameGroupResults(s, t, competition.groupContestIds);
    match ActualGraph(competition, s) {
      case Graph(nodes) => SameNodes(competition, s, t, nodes, ContestNodes(nodes));
      case _ =>
    }
  }

  // ---------------------------------------------------------------- what an advance does to the record

  /** Every list of resolutions is written in sorted order. */
  ghost predicate SortedResolutions(expected: Resolutions) {
    forall id | id in expected :: SortedEntrants(expected[id]) == expected[id]
  }

  /** Definitions list fixed entrants in sorted order, as the engine normalises them. */
  ghost predicate SortedFixtures(definitions: seq<Definition>) {
    forall d | d in definitions && d.fixedEntrantIds.Some? :: SortedEntrants(d.fixedEntrantIds.value) == d.fixedEntrantIds.value
  }

  lemma SortedPairSorted(a: string, b: string)
    ensures SortedEntrants(SortedPair(a, b)) == SortedPair(a, b)
  {
    StringLeqTotal(a, b);
    SortOfSorted(SortedPair(a, b), StringLeq);
  }

  lemma {:induction false} NodesResolveSorted(competition: Competition, state: LiveState, nodes: seq<Node>, ordered: seq<Node>)
    requires SortedFixtures(state.definitions)
    ensures SortedResolutions(ExpectNodes(competition, state, nodes, ordered))
  {
    if ordered != [] {
      var front, node := ordered[..|ordered| - 1], ordered[|ordered| - 1];
      NodesResolveSorted(competition, state, nodes, front);
      var overlay := Overlay(state, ExpectNodes(competition, state, nodes, front));
      var first, second := ResolveSlot(overlay, nodes, node.first, {node.id}), ResolveSlot(overlay, nodes, node.second, {node.id});
      if first.Some? && second.Some? { SortedPairSorted(first.value, second.value); }
    }
  }

  lemma ExpectationsSorted(competition: Competition, state: LiveState)
    requires SortedFixtures(state.definitions) && Expected(competition, state).Success?
    ensures SortedResolutions(Expected(competition, state).value)
  {
    match ActualGraph(competition, state) {
      case Graph(nodes) => NodesResolveSorted(competition, state, nodes, ContestNodes(nodes));
      case NoGraph =>
    }
  }

  predicate Differs(state: LiveState, expected: Resolutions, id: string) {
    id in expected && !(id in state.resolved && state.resolved[id] == expected[id])
  }

  function Restricted(expected: Resolutions, ids: seq<string>): Resolutions {
    map id | id in expected && id in ids :: expected[id]
  }

  /** The events of resolving these contests one after the other. */
  function Events(version: nat, expected: Resolutions, ids: seq<string>, occurredAt: Stamp): seq<Event>
    requires forall id | id in ids :: id in expected
  {
    seq(|ids|, i requires 0 <= i < |ids| => EntrantsResolved(version + 1 + i, ids[i], expected[ids[i]], occurredAt))
  }

  function Changed(state: LiveState, expected: Resolutions, ids: seq<string>): seq<string> {
    Filter(ids, id => Differs(state, expected, id))
  }

  /** The record after resolving these contests. */
  function After(state: LiveState, expected: Resolutions, ids: seq<string>): LiveState {
    state.(resolved := state.resolved + Restricted(expected, ids), version := state.version + |Changed(state, expected, ids)|)
  }

  predicate CanResolve(state: LiveState, expected: Resolutions, occurredAt: Stamp, id: string)
    requires id in expected
  {
    Resolvable(state, id, expected[id]) && occurredAt.Canonical?
  }

  /** One resolution, when it is needed and allowed. */
  function Resolved(state: LiveState, expected: Resolutions, id: string): LiveState
    requires id in expected
  {
    if Differs(state, expected, id) then state.(resolved := state.resolved[id := expected[id]], version := state.version + 1)
    else state
  }

  /** Resolving one contest leaves what every other contest needs as it was. */
  lemma OthersUnchanged(state: LiveState, expected: Resolutions, id: string, rest: seq<string>)
    requires id in expected && id !in rest
    ensures Changed(Resolved(state, expected, id), expected, rest) == Changed(state, expected, rest)
    ensures forall other | other in rest ::
              Differs(Resolved(state, expected, id), expected, other) <==> Differs(state, expected, other)
  {
    FilterAlike(rest, other => Differs(Resolved(state, expected, id), expected, other), other => Differs(state, expected, other));
  }

  lemma AfterFirst(state: LiveState, expected: Resolutions, ids: seq<string>)
    requires ids != [] && ids[0] in expected && ids[0] !in ids[1..]
    ensures Changed(state, expected, ids) == Changed(state, expected, [ids[0]]) + Changed(state, expected, ids[1..])
    ensures After(Resolved(state, expected, ids[0]), expected, ids[1..]) == After(state, expected, ids)
  {
    ChangedFirst(state, expected, ids);
    OthersUnchanged(state, expected, ids[0], ids[1..]);
    RestrictedFirst(state, expected, ids);
  }

  lemma ChangedFirst(state: LiveState, expected: Resolutions, ids: seq<string>)
    requires ids != []
    ensures Changed(state, expected, ids) == Changed(state, expected, [ids[0]]) + Changed(state, expected, ids[1..])
    ensures |Changed(state, expected, [ids[0]])| == if Differs(state, expected, ids[0]) then 1 else 0
  {
    FilterSingle(ids[0], id => Differs(state, expected, id));
  }

  lemma RestrictedFirst(state: LiveState, expected: Resolutions, ids: seq<string>)
    requires ids != [] && ids[0] in expected && ids[0] !in ids[1..]
    ensures Resolved(state, expected, ids[0]).resolved + Restricted(expected, ids[1..]) == state.resolved + Restricted(expected, ids)
  {
  }

  lemma EventsSplit(version: nat, expected: Resolutions, a: seq<string>, b: seq<string>, occurredAt: Stamp)
    requires forall id | id in a + b :: id in expected
    ensures (forall id | id in a :: id in expected) && forall id | id in b :: id in expected
    ensures Events(version, expected, a + b, occurredAt)
            == Events(version, expected, a, occurredAt) + Events(version + |a|, expected, b, occurredAt)
  {
    forall id | id in a ensures id in expected { assert id in a + b; }
    forall id | id in b ensures id in expected { assert id in a + b; }
  }

  /** Every change among these contests may be made. */
  ghost predicate Allowed(state: LiveState, expected: Resolutions, ids: seq<string>, occurredAt: Stamp)
    requires forall id | id in ids :: id in expected
  {
    forall id | id in ids && Differs(state, expected, id) :: CanResolve(state, expected, occurredAt, id)
  }

  lemma AllowedFirst(state: LiveState, expected: Resolutions, ids: seq<string>, occurredAt: Stamp)
    requires (forall id | id in ids :: id in expected) && ids != [] && ids[0] !in ids[1..]
    ensures Allowed(state, expected, ids, occurredAt)
            <==> (Differs(state, expected, ids[0]) ==> CanResolve(state, expected, occurredAt, ids[0]))
                 && Allowed(Resolved(state, expected, ids[0]), expected, ids[1..], occurredAt)
  {
    OthersUnchanged(state, expected, ids[0], ids[1..]);
    assert forall id :: id in ids <==> id == ids[0] || id in ids[1..];
    forall other | other in ids[1..]
      ensures CanResolve(Resolved(state, expected, ids[0]), expected, occurredAt, other) == CanResolve(state, expected, occurredAt, other)
    {
    }
  }

  /** The progress made by resolving these contests, when all of it is allowed. */
  function Advanced(progress: Progress, expected: Resolutions, ids: seq<string>, occurredAt: Stamp): Progress
    requires forall id | id in ids :: id in expected
  {
    Progress(After(progress.state, expected, ids),
             progress.events + Events(progress.state.version, expected, Changed(progress.state, expected, ids), occurredAt))
  }

  lemma AdvancedOne(progress: Progress, expected: Resolutions, id: string, occurredAt: Stamp)
    requires id in expected
    ensures Advanced(progress, expected, [id], occurredAt) == Progress(
              Resolved(progress.state, expected, id),
              progress.events + if Differs(progress.state, expected, id)
                                then [EntrantsResolved(progress.state.version + 1, id, expected[id], occurredAt)] else [])
  {
    var state := progress.state;
    FilterSingle(id, id => Differs(state, expected, id));
    assert Changed(state, expected, [id]) == if Differs(state, expected, id) then [id] else [];
    assert state.resolved + Restricted(expected, [id]) == Resolved(state, expected, id).resolved;
  }

  lemma AdvanceOneCharacterised(progress: Progress, expected: Resolutions, id: string, occurredAt: Stamp)
    requires SortedResolutions(expected) && id in expected
    ensures var r := AdvanceOne(progress, id, expected[id], occurredAt);
            && (r.Success? <==> (Differs(progress.state, expected, id) ==> CanResolve(progress.state, expected, occurredAt, id)))
            && (r.Success? ==> r.value == Advanced(progress, expected, [id], occurredAt))
  {
    AdvancedOne(progress, expected, id, occurredAt);
  }

  lemma AdvancedFirst(progress: Progress, expected: Resolutions, ids: seq<string>, occurredAt: Stamp)
    requires (forall id | id in ids :: id in expected) && ids != [] && ids[0] !in ids[1..]
    ensures var one := Advanced(progress, expected, [ids[0]], occurredAt);
            one.state == Resolved(progress.state, expected, ids[0])
            && Advanced(one, expected, ids[1..], occurredAt) == Advanced(progress, expected, ids, occurredAt)
  {
    AdvancedOne(progress, expected, ids[0], occurredAt);
    AfterFirst(progress.state, expected, ids);
    EventsAfterFirst(progress.state, expected, ids, occurredAt);
    AppendedTwice(progress.events, Events(progress.state.version, expected, Changed(progress.state, expected, [ids[0]]), occurredAt),
               Events(Resolved(progress.state, expected, ids[0]).version, expected,
                      Changed(Resolved(progress.state, expected, ids[0]), expected, ids[1..]), occurredAt));
  }

  lemma EventsAfterFirst(state: LiveState, expected: Resolutions, ids: seq<string>, occurredAt: Stamp)
    requires (forall id | id in ids :: id in expected) && ids != [] && ids[0] !in ids[1..]
    ensures var next := Resolved(state, expected, ids[0]);
            Events(state.version, expected, Changed(state, expected, ids), occurredAt)
            == Events(state.version, expected, Changed(state, expected, [ids[0]]), occurredAt)
               + Events(next.version, expected, Changed(next, expected, ids[1..]), occurredAt)
  {
    var id, rest := ids[0], ids[1..];
    FilterSingle(id, id => Differs(state, expected, id));
    OthersUnchanged(state, expected, id, rest);
    AfterFirst(state, expected, ids);
    EventsSplit(state.version, expected, Changed(state, expected, [id]), Changed(state, expected, rest), occurredAt);
  }

  lemma AdvanceOverFirst(progress: Progress, expected: Resolutions, ids: seq<string>, occurredAt: Stamp)
    requires (forall id | id in ids :: id in expected) && ids != []
    ensures var step := AdvanceOne(progress, ids[0], expected[ids[0]], occurredAt);
            AdvanceOver(progress, expected, ids, occurredAt)
            == if step.Failure? then step else AdvanceOver(step.value, expected, ids[1..], occurredAt)
  {
  }

  lemma NothingAdvanced(progress: Progress, expected: Resolutions, occurredAt: Stamp)
    ensures AdvanceOver(progress, expected, [], occurredAt) == Success(Advanced(progress, expected, [], occurredAt))
  {
    assert After(progress.state, expected, []) == progress.state;
    assert Changed(progress.state, expected, []) == [];
    assert Events(progress.state.version, expected, [], occurredAt) == [] && progress.events + [] == progress.events;
  }

  /** Resolving contests in turn succeeds exactly when each change is allowed, and records exactly those changes. */
  lemma {:induction false} AdvanceOverCharacterised(progress: Progress, expected: Resolutions, ids: seq<string>, occurredAt: Stamp)
    requires SortedResolutions(expected) && Distinct(ids) && forall id | id in ids :: id in expected
    ensures var r := AdvanceOver(progress, expected, ids, occurredAt);
            && (r.Success? <==> Allowed(progress.state, expected, ids, occurredAt))
            && (r.Success? ==> r.value == Advanced(progress, expected, ids, occurredAt))
    decreases |ids|
  {
    if ids == [] {
      NothingAdvanced(progress, expected, occurredAt);
    } else {
      AdvanceOverFirst(progress, expected, ids, occurredAt);
      AdvanceOneCharacterised(progress, expected, ids[0], occurredAt);
      AllowedFirst(progress.state, expected, ids, occurredAt);
      AdvancedFirst(progress, expected, ids, occurredAt);
      var step := AdvanceOne(progress, ids[0], expected[ids[0]], occurredAt);
      if step.Success? { AdvanceOverCharacterised(step.value, expected, ids[1..], occurredAt); }
    }
  }

  // ---------------------------------------------------------------- the fixed point

  /**
   * An advance succeeds exactly when the group results still give the planned topology, no resolution is left
   * without support, and every change is to an uncalled contest still waiting to start, drawn from its possible
   * entrants; it then makes exactly the changes that are needed, in identity order, one event and version each.
   */
  lemma AdvanceCharacterised(competition: Competition, initial: LiveState, occurredAt: Stamp)
    requires SortedFixtures(initial.definitions)
    ensures var expected, r := Expected(competition, initial), Advance(competition, initial, occurredAt);
            && (r.Success? <==> && expected.Success? && (forall id :: !Invalidated(initial, expected.value, id))
                                && Allowed(initial, expected.value, SortedKeys(expected.value.Keys), occurredAt))
            && (r.Success? ==>
                  r.value == Advanced(Progress(initial, []), expected.value, SortedKeys(expected.value.Keys), occurredAt))
  {
    var expected := Expected(competition, initial);
    if expected.Success? {
      ExpectationsSorted(competition, initial);
      AdvanceFromStart(initial, expected.value, occurredAt);
    }
  }

  lemma AdvanceFromStart(initial: LiveState, expected: Resolutions, occurredAt: Stamp)
    requires SortedResolutions(expected)
    ensures var keys := SortedKeys(expected.Keys);
            var r := AdvanceOver(Progress(initial, []), expected, keys, occurredAt);
            && (r.Success? <==> Allowed(initial, expected, keys, occurredAt))
            && (r.Success? ==> r.value == Advanced(Progress(initial, []), expected, keys, occurredAt))
  {
    AdvanceOverCharacterised(Progress(initial, []), expected, SortedKeys(expected.Keys), occurredAt);
  }

  lemma AfterSettlesAlike(initial: LiveState, expected: Resolutions, occurredAt: Stamp)
    requires Allowed(initial, expected, SortedKeys(expected.Keys), occurredAt)
    ensures var state := After(initial, expected, SortedKeys(expected.Keys));
            state.resolved == initial.resolved + expected && SettledAlike(initial, state)
  {
    var keys := SortedKeys(expected.Keys);
    var state := After(initial, expected, keys);
    assert Restricted(expected, keys) == expected;
    forall id ensures ActualEntrants(initial, id) == ActualEntrants(state, id) || Waiting(initial, id) {
      if Differs(initial, expected, id) {
        assert id in keys && CanResolve(initial, expected, occurredAt, id);
      }
    }
  }

  lemma AdvanceWritesExpectations(competition: Competition, initial: LiveState, occurredAt: Stamp)
    requires SortedFixtures(initial.definitions) && Advance(competition, initial, occurredAt).Success?
    ensures var expected, state := Expected(competition, initial), Advance(competition, initial, occurredAt).value.state;
            && expected.Success? && (forall id :: !Invalidated(initial, expected.value, id))
            && Expected(competition, state) == expected
            && state.definitions == initial.definitions
            && state.resolved == initial.resolved + expected.value
            && SettledAlike(initial, state)
  {
    AdvanceCharacterised(competition, initial, occurredAt);
    AfterSettlesAlike(initial, Expected(competition, initial).value, occurredAt);
    SameExpectations(competition, initial, Advance(competition, initial, occurredAt).value.state);
  }

  lemma AdvanceOfSettled(competition: Competition, initial: LiveState, state: LiveState, expected: Resolutions, occurredAt: Stamp)
    requires Expected(competition, state) == Success(expected) && state.definitions == initial.definitions
    requires state.resolved == initial.resolved + expected && forall id :: !Invalidated(initial, expected, id)
    ensures Advance(competition, state, occurredAt) == Success(Progress(state, []))
  {
    forall id ensures !Invalidated(state, expected, id) {
      assert !Invalidated(initial, expected, id);
    }
    NothingDiffers(state, expected, SortedKeys(expected.Keys), occurredAt);
  }

  /**
   * An advance reaches a fixed point: recomputing the expectations gives the same ones, they are what the
   * record holds, and advancing again changes nothing. The record verifies exactly when nothing resolved
   * before was beyond the expectations.
   */
  lemma AdvanceReachesFixedPoint(competition: Competition, initial: LiveState, occurredAt: Stamp)
    requires SortedFixtures(initial.definitions) && Advance(competition, initial, occurredAt).Success?
    ensures var expected, state := Expected(competition, initial).value, Advance(competition, initial, occurredAt).value.state;
            && Expected(competition, state) == Success(expected)
            && state.resolved == initial.resolved + expected
            && (forall later :: Advance(competition, state, later) == Success(Progress(state, [])))
            && (Verify(competition, state) <==> initial.resolved.Keys <= expected.Keys)
  {
    AdvanceWritesExpectations(competition, initial, occurredAt);
    var expected, state := Expected(competition, initial).value, Advance(competition, initial, occurredAt).value.state;
    forall later ensures Advance(competition, state, later) == Success(Progress(state, [])) {
      AdvanceOfSettled(competition, initial, state, expected, later);
    }
    MergeIsExpectation(initial.resolved, expected);
  }

  lemma MergeIsExpectation(resolved: Resolutions, expected: Resolutions)
    ensures resolved + expected == expected <==> resolved.Keys <= expected.Keys
  {
    assert (resolved + expected).Keys == resolved.Keys + expected.Keys;
  }

  lemma {:induction false} NothingDiffers(state: LiveState, expected: Resolutions, ids: seq<string>, occurredAt: Stamp)
    requires forall id | id in ids :: id in expected && id in state.resolved && state.resolved[id] == expected[id]
    ensures AdvanceOver(Progress(state, []), expected, ids, occurredAt) == Success(Progress(state, []))
    decreases |ids|
  {
    if ids != [] { NothingDiffers(state, expected, ids[1..], occurredAt); }
  }

  /** Every resolved contest is a defined one, which either needs its entrants resolved or has them fixed. */
  ghost predicate ResolutionsOwned(state: LiveState) {
    forall id | id in state.resolved ::
      var definition := DefinitionOf(state.definitions, id);
      definition.Some? && (definition.value.requiresResolution || definition.value.fixedEntrantIds.Some?)
  }

  /** Wherever every contest has fixed or resolved entrants, what an advance returns verifies. */
  lemma AdvanceVerifies(competition: Competition, initial: LiveState, occurredAt: Stamp)
    requires SortedFixtures(initial.definitions) && ResolutionsOwned(initial)
    requires Advance(competition, initial, occurredAt).Success?
    ensures Verify(competition, Advance(competition, initial, occurredAt).value.state)
  {
    AdvanceReachesFixedPoint(competition, initial, occurredAt);
    var expected := Expected(competition, initial).value;
    FixturesExpected(competition, initial);
    forall id | id in initial.resolved ensures id in expected {
      assert !Invalidated(initial, expected, id);
      assert DefinitionOf(initial.definitions, id).value in initial.definitions;
    }
  }

  /** A record whose every contest has its entrants fixed, in order, or waits to have them resolved. */
  ghost predicate Ready(state: LiveState) {
    && SortedFixtures(state.definitions) && ResolutionsOwned(state)
    && forall d | d in state.definitions :: d.requiresResolution || d.fixedEntrantIds.Some?
  }

  /** Whatever is resolved by an advance is a defined contest. */
  lemma AdvanceKeepsReady(competition: Competition, initial: LiveState, occurredAt: Stamp)
    requires Ready(initial) && Advance(competition, initial, occurredAt).Success?
    ensures Ready(Advance(competition, initial, occurredAt).value.state)
  {
    AdvanceWritesExpectations(competition, initial, occurredAt);
    AdvanceCharacterised(competition, initial, occurredAt);
    var expected, state := Expected(competition, initial).value, Advance(competition, initial, occurredAt).value.state;
    forall id | id in state.resolved
      ensures DefinitionOf(state.definitions, id).Some?
    {
      if id !in initial.resolved {
        assert id in SortedKeys(expected.Keys) && Differs(initial, expected, id);
        assert CanResolve(initial, expected, occurredAt, id);
      }
    }
  }

  /** A ready record verifies exactly when advancing it, at whatever time, changes nothing. */
  lemma VerifiesIffNothingToAdvance(competition: Competition, state: LiveState)
    requires Ready(state)
    ensures Verify(competition, state) <==> forall at :: Advance(competition, state, at) == Success(Progress(state, []))
  {
    if Verify(competition, state) {
      forall at ensures Advance(competition, state, at) == Success(Progress(state, [])) {
        assert state.resolved == state.resolved + state.resolved;
        AdvanceOfSettled(competition, state, state, state.resolved, at);
      }
    } else {
      var at := Canonical(0);
      if Advance(competition, state, at) == Success(Progress(state, [])) { AdvanceVerifies(competition, state, at); }
    }
  }

  lemma FixturesExpected(competition: Competition, state: LiveState)
    requires Expected(competition, state).Success?
    ensures FixedResolutions(state.definitions).Keys <= Expected(competition, state).value.Keys
  {
    match ActualGraph(competition, state) {
      case Graph(nodes) => NodesKeepFixtures(competition, state, nodes, ContestNodes(nodes));
      case NoGraph =>
    }
  }

  lemma {:induction false} NodesKeepFixtures(competition: Competition, state: LiveState, nodes: seq<Node>, ordered: seq<Node>)
    ensures FixedResolutions(state.definitions).Keys <= ExpectNodes(competition, state, nodes, ordered).Keys
  {
    if ordered != [] { NodesKeepFixtures(competition, state, nodes, ordered[..|ordered| - 1]); }
  }

  // ---------------------------------------------------------------- what each contest holds at the fixed point

  function NodeIds(nodes: seq<Node>): seq<string> {
    Map(nodes, (n: Node) => n.id)
  }

  lemma {:induction false} LaterNodesKeep(competition: Competition, state: LiveState, nodes: seq<Node>, ordered: seq<Node>,
                                          k: nat, id: string)
    requires k <= |ordered| && forall i | k <= i < |ordered| :: ordered[i].id != id
    ensures var before, after := ExpectNodes(competition, state, nodes, ordered[..k]), ExpectNodes(competition, state, nodes, ordered);
            (id in before <==> id in after) && (id in before ==> before[id] == after[id])
  {
    if k == |ordered| {
      assert ordered[..k] == ordered;
    } else {
      var front := ordered[..|ordered| - 1];
      assert front[..k] == ordered[..k];
      LaterNodesKeep(competition, state, nodes, front, k, id);
    }
  }

  /** No contest's node resolves it to other entrants than those it was fixed with. */
  ghost predicate FixturesHold(state: LiveState, expected: Resolutions) {
    var fixed := FixedResolutions(state.definitions);
    forall id | id in fixed && id in expected :: expected[id] == fixed[id]
  }

  lemma PartialExpectationsAgree(competition: Competition, state: LiveState, nodes: seq<Node>, ordered: seq<Node>, k: nat, id: string)
    requires k <= |ordered| && Distinct(NodeIds(ordered))
    requires FixturesHold(state, ExpectNodes(competition, state, nodes, ordered))
    requires id in ExpectNodes(competition, state, nodes, ordered[..k])
    ensures var expected := ExpectNodes(competition, state, nodes, ordered);
            id in expected && ExpectNodes(competition, state, nodes, ordered[..k])[id] == expected[id]
  {
    if i :| k <= i < |ordered| && ordered[i].id == id {
      assert NodeIds(ordered)[i] == id;
      forall j | 0 <= j < k ensures ordered[j].id != id {
        assert NodeIds(ordered)[j] == ordered[j].id;
      }
      assert ordered[..k][..0] == [];
      LaterNodesKeep(competition, state, nodes, ordered[..k], 0, id);
      NodesKeepFixtures(competition, state, nodes, ordered);
    } else {
      LaterNodesKeep(competition, state, nodes, ordered, k, id);
    }
  }

  lemma ContestNodesDistinct(nodes: seq<Node>)
    requires Distinct(NodeIds(nodes))
    ensures Distinct(NodeIds(ContestNodes(nodes)))
    ensures forall n :: n in ContestNodes(nodes) <==> n in nodes && n.isContest
  {
    var id := (n: Node) => n.id;
    var contests := Filter(nodes, (n: Node) => n.isContest);
    FilterKeepsDistinct(nodes, (n: Node) => n.isContest, id);
    SortKeepsImages(contests, NodeLeq, id);
    SortKeepsElements(contests, NodeLeq);
    SameMultisetDistinct(Map(contests, id), Map(SortBy(contests, NodeLeq), id));
    assert NodeIds(ContestNodes(nodes)) == Map(SortBy(contests, NodeLeq), id);
  }

  lemma SameMultisetDistinct(a: seq<string>, b: seq<string>)
    requires multiset(a) == multiset(b) && Distinct(a)
    ensures Distinct(b)
  {
    SortedSets.DistinctMultiplicity(a);
    SortedSets.DistinctMultiplicity(b);
  }

  /**
   * At the fixed point every contest outside the pools holds the sorted pair its slots give under the results
   * now on record, and a contest whose slots do not give two entrants holds nothing but a fixture or an entry
   * made before.
   */
  lemma ContestsHoldWhatTheirSlotsGive(competition: Competition, initial: LiveState, occurredAt: Stamp, nodes: seq<Node>, node: Node)
    requires SortedFixtures(initial.definitions) && Advance(competition, initial, occurredAt).Success?
    requires ActualGraph(competition, initial) == Graph(nodes) && Distinct(NodeIds(nodes))
    requires FixturesHold(initial, Expected(competition, initial).value)
    requires node in nodes && node.isContest && node.stageId !in competition.poolStages
    ensures var state := Advance(competition, initial, occurredAt).value.state;
            match ResolvedForNode(state, nodes, node)
            case Some(pair) => node.id in state.resolved && state.resolved[node.id] == pair
            case None => node.id in Expected(competition, initial).value ==> node.id in FixedResolutions(initial.definitions)
  {
    AdvanceWritesExpectations(competition, initial, occurredAt);
    var state := Advance(competition, initial, occurredAt).value.state;
    var ordered := ContestNodes(nodes);
    ContestNodesDistinct(nodes);
    var k :| 0 <= k < |ordered| && ordered[k] == node;
    OverlayAlike(competition, initial, nodes, ordered, k, state);
    SameNode(Overlay(initial, ExpectNodes(competition, initial, nodes, ordered[..k])), state, nodes, node);
    ExpectationOfNode(competition, initial, nodes, ordered, k);
  }

  /** A node decides the expectation of its own contest. */
  lemma ExpectationOfNode(competition: Competition, state: LiveState, nodes: seq<Node>, ordered: seq<Node>, k: nat)
    requires k < |ordered| && Distinct(NodeIds(ordered)) && ordered[k].stageId !in competition.poolStages
    ensures var expected, partial :=
              ExpectNodes(competition, state, nodes, ordered), ExpectNodes(competition, state, nodes, ordered[..k]);
            match ResolvedForNode(Overlay(state, partial), nodes, ordered[k])
            case Some(pair) => ordered[k].id in expected && expected[ordered[k].id] == pair
            case None => ordered[k].id in expected ==> ordered[k].id in FixedResolutions(state.definitions)
  {
    var id := ordered[k].id;
    assert ordered[..k + 1][..k] == ordered[..k];
    forall i | 0 <= i < |ordered| && i != k ensures ordered[i].id != id {
      assert NodeIds(ordered)[i] == ordered[i].id && NodeIds(ordered)[k] == id;
    }
    LaterNodesKeep(competition, state, nodes, ordered, k + 1, id);
    assert ordered[..k][..0] == [];
    LaterNodesKeep(competition, state, nodes, ordered[..k], 0, id);
  }

  lemma OverlayAlike(competition: Competition, initial: LiveState, nodes: seq<Node>, ordered: seq<Node>, k: nat, state: LiveState)
    requires SettledAlike(initial, state) && k <= |ordered| && Distinct(NodeIds(ordered))
    requires var expected := ExpectNodes(competition, initial, nodes, ordered);
             FixturesHold(initial, expected) && state.resolved == initial.resolved + expected
    ensures SettledAlike(Overlay(initial, ExpectNodes(competition, initial, nodes, ordered[..k])), state)
  {
    var partial := ExpectNodes(competition, initial, nodes, ordered[..k]);
    var overlay := Overlay(initial, partial);
    forall id ensures ActualEntrants(overlay, id) == ActualEntrants(state, id) || Waiting(overlay, id) {
      assert ActualEntrants(initial, id) == ActualEntrants(state, id) || Waiting(initial, id);
      if id in partial { PartialExpectationsAgree(competition, initial, nodes, ordered, k, id); }
    }
  }

  // ---------------------------------------------------------------- the slot walk

  datatype Walked = StillWalking | Nobody | Somebody(entrantId: string)

  function Walk(state: LiveState, nodes: seq<Node>, slot: Slot, steps: nat): Walked
    decreases steps
  {
    match slot
    case EntrantSlot(id) => Somebody(id)
    case ByeSlot => Nobody
    case LoserOf(id) =>
      var source := NodeOf(nodes, id);
      if source.None? || source.value.isContest then Reached(Outcome(state, slot)) else Nobody
    case WinnerOf(id) =>
      var source := NodeOf(nodes, id);
      if source.None? || source.value.isContest then Reached(Outcome(state, slot))
      else if |Candidates(source.value)| != 1 then Nobody
      else if steps == 0 then StillWalking
      else Walk(state, nodes, Candidates(source.value)[0], steps - 1)
  }

  function Reached(entrant: Option<string>): Walked {
    if entrant.Some? then Somebody(entrant.value) else Nobody
  }

  lemma {:induction false} WalkLonger(state: LiveState, nodes: seq<Node>, slot: Slot, steps: nat, longer: nat)
    requires steps <= longer && !Walk(state, nodes, slot, steps).StillWalking?
    ensures Walk(state, nodes, slot, longer) == Walk(state, nodes, slot, steps)
    decreases steps
  {
    if slot.WinnerOf? && NodeOf(nodes, slot.contestId).Some? && !NodeOf(nodes, slot.contestId).value.isContest {
      var candidates := Candidates(NodeOf(nodes, slot.contestId).value);
      if |candidates| == 1 { WalkLonger(state, nodes, candidates[0], steps - 1, longer - 1); }
    }
  }

  /** What the guarded walk finds, a walk without the guard finds. */
  lemma {:induction false} GuardedWalkIsWalk(state: LiveState, nodes: seq<Node>, slot: Slot, visited: set<string>) returns (steps: nat)
    requires ResolveSlot(state, nodes, slot, visited).Some?
    ensures Walk(state, nodes, slot, steps) == Somebody(ResolveSlot(state, nodes, slot, visited).value)
    decreases NodeIdSet(nodes) - visited
  {
    steps := 0;
    if slot.WinnerOf? && NodeOf(nodes, slot.contestId).Some? && !NodeOf(nodes, slot.contestId).value.isContest {
      assert slot.contestId in NodeIdSet(nodes) - visited;
      var rest := GuardedWalkIsWalk(state, nodes, Candidates(NodeOf(nodes, slot.contestId).value)[0], visited + {slot.contestId});
      steps := rest + 1;
    }
  }

  /**
   * A walk that ends after exactly `steps` byes never meets one of the byes in `visited`, whose own walks are
   * still going after as many steps.
   */
  lemma {:induction false} WalkIsGuardedWalk(state: LiveState, nodes: seq<Node>, slot: Slot, visited: set<string>, steps: nat)
    requires Walk(state, nodes, slot, steps).Somebody?
    requires steps > 0 ==> Walk(state, nodes, slot, steps - 1).StillWalking?
    requires forall v | v in visited :: Contested(nodes, v) || Walk(state, nodes, WinnerOf(v), steps).StillWalking?
    ensures ResolveSlot(state, nodes, slot, visited) == Some(Walk(state, nodes, slot, steps).entrantId)
    decreases steps
  {
    if slot.WinnerOf? && NodeOf(nodes, slot.contestId).Some? && !NodeOf(nodes, slot.contestId).value.isContest {
      var id := slot.contestId;
      assert id !in visited;
      forall v | v in visited + {id} ensures Contested(nodes, v) || Walk(state, nodes, WinnerOf(v), steps - 1).StillWalking? {
        if v in visited && !Contested(nodes, v) && !Walk(state, nodes, WinnerOf(v), steps - 1).StillWalking? {
          WalkLonger(state, nodes, WinnerOf(v), steps - 1, steps);
        }
      }
      WalkIsGuardedWalk(state, nodes, Candidates(NodeOf(nodes, id).value)[0], visited + {id}, steps - 1);
    }
  }

  /** A contest, or an identity the graph does not know. */
  predicate Contested(nodes: seq<Node>, id: string) {
    NodeOf(nodes, id).None? || NodeOf(nodes, id).value.isContest
  }

  lemma {:induction false} LeastSteps(state: LiveState, nodes: seq<Node>, slot: Slot, enough: nat) returns (steps: nat)
    requires !Walk(state, nodes, slot, enough).StillWalking?
    ensures Walk(state, nodes, slot, steps) == Walk(state, nodes, slot, enough)
    ensures steps > 0 ==> Walk(state, nodes, slot, steps - 1).StillWalking?
  {
    if enough == 0 || Walk(state, nodes, slot, enough - 1).StillWalking? {
      steps := enough;
    } else {
      WalkLonger(state, nodes, slot, enough - 1, enough);
      steps := LeastSteps(state, nodes, slot, enough - 1);
    }
  }

  /**
   * The guard on visited byes only cuts walks that never end: a contest's slot resolves to an entrant exactly
   * when following its byes, without any guard, reaches that entrant after some number of steps.
   */
  lemma GuardOnlyCutsCycles(state: LiveState, nodes: seq<Node>, node: Node, slot: Slot, entrantId: string)
    requires Contested(nodes, node.id)
    ensures ResolveSlot(state, nodes, slot, {node.id}) == Some(entrantId)
            <==> exists steps: nat :: Walk(state, nodes, slot, steps) == Somebody(entrantId)
  {
    if ResolveSlot(state, nodes, slot, {node.id}) == Some(entrantId) {
      var steps := GuardedWalkIsWalk(state, nodes, slot, {node.id});
    }
    if enough: nat :| Walk(state, nodes, slot, enough) == Somebody(entrantId) {
      var steps := LeastSteps(state, nodes, slot, enough);
      WalkIsGuardedWalk(state, nodes, slot, {node.id}, steps);
    }
  }
}
