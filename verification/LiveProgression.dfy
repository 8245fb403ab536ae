/**
 * Live progression: settled results resolve the entrants of later contests, through byes, standings and
 * qualification. Standings, qualification and graph building are parameters.
 */
module LiveProgression {
  import opened Wrappers
  import opened Lists
  import opened Ordering
  import opened Sorting
  import opened Timestamps
  import opened LiveModel
  import opened CompetitionGraph

  datatype ContestResult = ContestResult(
    contestId: string, entrants: (string, string), winnerId: string, loserId: string, scoreFor: (int, int), walkover: bool)

  /** What standings, qualification and graph building make of the group results. */
  datatype Built = NoGraph | TopologyChanged | Graph(nodes: seq<Node>)

  datatype Competition = Competition(
    poolStages: set<string>, groupContestIds: seq<string>, build: (seq<ContestResult>, seq<TieDecision>) -> Built)

  type Resolutions = map<string, seq<string>>

  datatype ProgressionError = TopologyHasChanged | InvalidationRequiresRepair | CommandRejected

  datatype Event = EntrantsResolved(sequence: nat, contestId: string, entrantIds: seq<string>, occurredAt: Stamp)

  datatype Progress = Progress(state: LiveState, events: seq<Event>)

  // ---------------------------------------------------------------- results

  predicate Terminal(status: ContestStatus) {
    status.Completed? || status.Walkover? || status.Retired?
  }

  function ActualEntrants(state: LiveState, id: string): seq<string> {
    if id in state.resolved then state.resolved[id]
    else
      var definition := DefinitionOf(state.definitions, id);
      if definition.Some? then definition.value.entrantIds else []
  }

  function ScoreOf(contest: Contest, entrantId: string): int {
    var own := Filter(contest.scores.GetOr([]), (s: Score) => s.entrantId == entrantId);
    if own == [] then 0 else own[0].value
  }

  /** The winner that a contest's status and scores name. */
  function RecordedWinner(contest: Contest): Option<string> {
    if !contest.status.Completed? then contest.winnerEntrantId
    else if contest.scores.None? || |contest.scores.value| != 2
            || contest.scores.value[0].value == contest.scores.value[1].value then None
    else
      var descending := SortBy(contest.scores.value, (l: Score, r: Score) => r.value <= l.value);
      SortKeepsElements(contest.scores.value, (l: Score, r: Score) => r.value <= l.value);
      Some(descending[0].entrantId)
  }

  function ResultFor(state: LiveState, id: string): Option<ContestResult> {
    var entrants := ActualEntrants(state, id);
    if id !in state.contests || |entrants| != 2 || !Terminal(state.contests[id].status) then None
    else
      var contest := state.contests[id];
      var winner := RecordedWinner(contest);
      if winner.None? || winner.value == "" || winner.value !in entrants then None
      else Some(ContestResult(
        id, (entrants[0], entrants[1]), winner.value, if entrants[0] != winner.value then entrants[0] else entrants[1],
        (ScoreOf(contest, entrants[0]), ScoreOf(contest, entrants[1])), contest.status.Walkover?))
  }

  function GroupResults(state: LiveState, ids: seq<string>): Option<seq<ContestResult>> {
    if ids == [] then Some([])
    else
      var front, last := GroupResults(state, ids[..|ids| - 1]), ResultFor(state, ids[|ids| - 1]);
      if front.None? || last.None? then None else Some(front.value + [last.value])
  }

  function ActualGraph(competition: Competition, state: LiveState): Built {
    var results := GroupResults(state, competition.groupContestIds);
    if results.None? then NoGraph else competition.build(results.value, state.ties)
  }

  // ---------------------------------------------------------------- slots

  function Outcome(state: LiveState, slot: Slot): Option<string>
    requires slot.WinnerOf? || slot.LoserOf?
  {
    var result := ResultFor(state, slot.contestId);
    if result.None? then None else Some(if slot.WinnerOf? then result.value.winnerId else result.value.loserId)
  }

  function Candidates(node: Node): seq<Slot> {
    Filter(node.Slots(), (s: Slot) => !s.ByeSlot?)
  }

  /** Who fills a slot. Byes are passed through, and a bye already visited resolves to nobody. */
  function ResolveSlot(state: LiveState, nodes: seq<Node>, slot: Slot, visited: set<string>): Option<string>
    decreases NodeIdSet(nodes) - visited
  {
    match slot
    case EntrantSlot(id) => Some(id)
    case ByeSlot => None
    case LoserOf(id) =>
      var source := NodeOf(nodes, id);
      if source.None? || source.value.isContest then Outcome(state, slot) else None
    case WinnerOf(id) =>
      var source := NodeOf(nodes, id);
      if source.None? || source.value.isContest then Outcome(state, slot)
      else if id in visited then None
      else
        var candidates := Candidates(source.value);
        if |candidates| != 1 then None
        else
          assert id in NodeIdSet(nodes) - visited;
          ResolveSlot(state, nodes, candidates[0], visited + {id})
  }

  function SortedPair(a: string, b: string): seq<string> {
    if StringLeq(a, b) then [a, b] else [b, a]
  }

  function ResolvedForNode(state: LiveState, nodes: seq<Node>, node: Node): Option<seq<string>> {
    var first := ResolveSlot(state, nodes, node.first, {node.id});
    var second := ResolveSlot(state, nodes, node.second, {node.id});
    if first.None? || second.None? || first == second then None else Some(SortedPair(first.value, second.value))
  }

  // ---------------------------------------------------------------- expected resolutions

  function FixedResolutions(definitions: seq<Definition>): (r: Resolutions)
    ensures forall id | id in r :: exists d :: d in definitions && d.contestId == id && d.fixedEntrantIds == Some(r[id])
    ensures forall d | d in definitions && d.fixedEntrantIds.Some? :: d.contestId in r
  {
    if definitions == [] then map[]
    else
      var front, last := FixedResolutions(definitions[..|definitions| - 1]), definitions[|definitions| - 1];
      if last.fixedEntrantIds.Some? then front[last.contestId := last.fixedEntrantIds.value] else front
  }

  function Overlay(state: LiveState, expected: Resolutions): LiveState {
    state.(resolved := state.resolved + expected)
  }

  predicate NodeLeq(a: Node, b: Node) {
    a.roundIndex < b.roundIndex || (a.roundIndex == b.roundIndex && StringLeq(a.id, b.id))
  }

  function ContestNodes(nodes: seq<Node>): seq<Node> {
    SortBy(Filter(nodes, (n: Node) => n.isContest), NodeLeq)
  }

  function ExpectNode(competition: Competition, state: LiveState, nodes: seq<Node>, node: Node, expected: Resolutions): Resolutions {
    if node.stageId in competition.poolStages then expected
    else
      var resolved := ResolvedForNode(Overlay(state, expected), nodes, node);
      if resolved.Some? then expected[node.id := resolved.value] else expected
  }

  /** The expectations after the nodes of `ordered`, each seeing those before it. */
  function ExpectNodes(competition: Competition, state: LiveState, nodes: seq<Node>, ordered: seq<Node>): Resolutions {
    if ordered == [] then FixedResolutions(state.definitions)
    else ExpectNode(competition, state, nodes, ordered[|ordered| - 1],
                    ExpectNodes(competition, state, nodes, ordered[..|ordered| - 1]))
  }

  function Expected(competition: Competition, state: LiveState): Result<Resolutions, ProgressionError> {
    match ActualGraph(competition, state)
    case TopologyChanged => Failure(TopologyHasChanged)
    case NoGraph => Success(FixedResolutions(state.definitions))
    case Graph(nodes) => Success(ExpectNodes(competition, state, nodes, ContestNodes(nodes)))
  }

  method ExpectedResolutions(competition: Competition, state: LiveState) returns (r: Result<Resolutions, ProgressionError>)
    ensures r == Expected(competition, state)
  {
    var expected := FixedResolutions(state.definitions);
    match ActualGraph(competition, state) {
      case TopologyChanged => return Failure(TopologyHasChanged);
      case NoGraph => return Success(expected);
      case Graph(nodes) =>
        var ordered := ContestNodes(nodes);
        for i := 0 to |ordered|
          invariant expected == ExpectNodes(competition, state, nodes, ordered[..i])
        {
          assert ordered[..i + 1][..i] == ordered[..i];
          var node := ordered[i];
          if node.stageId !in competition.poolStages {
            var resolved := ResolvedForNode(Overlay(state, expected), nodes, node);
            if resolved.Some? { expected := expected[node.id := resolved.value]; }
          }
        }
        assert ordered[..|ordered|] == ordered;
        return Success(expected);
    }
  }

  // ---------------------------------------------------------------- advancing

  predicate Resolvable(state: LiveState, id: string, entrantIds: seq<string>) {
    && id in state.contests && state.contests[id].status.Scheduled? && state.contests[id].calledAt.None?
    && DefinitionOf(state.definitions, id).Some?
    && |entrantIds| == 2 && entrantIds[0] != entrantIds[1]
    && forall e | e in entrantIds :: e in DefinitionOf(state.definitions, id).value.entrantIds
  }

  function SortedEntrants(entrantIds: seq<string>): seq<string> {
    SortBy(entrantIds, StringLeq)
  }

  /** What submitting a resolution command does to the record. */
  function Resolve(state: LiveState, id: string, entrantIds: seq<string>, occurredAt: Stamp): Result<Progress, ProgressionError> {
    if !(id in state.contests && state.contests[id].status.Scheduled? && state.contests[id].calledAt.None?)
    then Failure(InvalidationRequiresRepair)
    else if !occurredAt.Canonical? || !Resolvable(state, id, entrantIds) then Failure(CommandRejected)
    else
      var next := state.(resolved := state.resolved[id := SortedEntrants(entrantIds)], version := state.version + 1);
      Success(Progress(next, [EntrantsResolved(next.version, id, SortedEntrants(entrantIds), occurredAt)]))
  }

  function AdvanceOne(progress: Progress, id: string, entrantIds: seq<string>, occurredAt: Stamp): Result<Progress, ProgressionError> {
    if id in progress.state.resolved && progress.state.resolved[id] == entrantIds then Success(progress)
    else
      var step := Resolve(progress.state, id, entrantIds, occurredAt);
      if step.Failure? then Failure(step.error) else Success(Progress(step.value.state, progress.events + step.value.events))
  }

  function AdvanceOver(progress: Progress, expected: Resolutions, ids: seq<string>, occurredAt: Stamp): Result<Progress, ProgressionError>
    requires forall id | id in ids :: id in expected
    decreases |ids|
  {
    if ids == [] then Success(progress)
    else
      var step := AdvanceOne(progress, ids[0], expected[ids[0]], occurredAt);
      if step.Failure? then step else AdvanceOver(step.value, expected, ids[1..], occurredAt)
  }

  /** A contest that needs its entrants resolved keeps a resolution that results no longer support. */
  predicate Invalidated(state: LiveState, expected: Resolutions, id: string) {
    var definition := DefinitionOf(state.definitions, id);
    id in state.resolved && definition.Some? && definition.value.requiresResolution && id !in expected
  }

  /** The identities of a set of resolutions, in the order they are visited. */
  ghost function SortedKeys(keys: set<string>): (r: seq<string>)
    ensures SortedBy(r, StringLeq) && Distinct(r) && forall id :: id in r <==> id in keys
  {
    if keys == {} then []
    else
      LeastExists(keys);
      var least :| least in keys && forall id | id in keys :: StringLeq(least, id);
      [least] + SortedKeys(keys - {least})
  }

  lemma {:induction false} LeastExists(keys: set<string>)
    requires keys != {}
    ensures exists least :: least in keys && forall id | id in keys :: StringLeq(least, id)
  {
    var some :| some in keys;
    var rest := keys - {some};
    if rest == {} {
      assert keys == {some};
      StringLeqTotal(some, some);
    } else {
      LeastExists(rest);
      var least :| least in rest && forall id | id in rest :: StringLeq(least, id);
      StringLeqTotal(least, some);
      StringLeqTotal(some, some);
      var overall := if StringLeq(least, some) then least else some;
      forall id | id in keys ensures StringLeq(overall, id) {
        if id in rest && overall == some { StringLeqTransitive(some, least, id); }
      }
    }
  }

  ghost function Advance(competition: Competition, initial: LiveState, occurredAt: Stamp): Result<Progress, ProgressionError> {
    var expected := Expected(competition, initial);
    if expected.Failure? then Failure(expected.error)
    else if exists id :: Invalidated(initial, expected.value, id) then Failure(InvalidationRequiresRepair)
    else AdvanceOver(Progress(initial, []), expected.value, SortedKeys(expected.value.Keys), occurredAt)
  }

  method AdvanceLiveProgression(competition: Competition, initial: LiveState, occurredAt: Stamp)
    returns (r: Result<Progress, ProgressionError>)
    ensures r == Advance(competition, initial, occurredAt)
  {
    var expectation := ExpectedResolutions(competition, initial);
    if expectation.Failure? { return Failure(expectation.error); }
    var expected := expectation.value;
    if exists id :: id in initial.resolved && Invalidated(initial, expected, id) { return Failure(InvalidationRequiresRepair); }
    var state, events := initial, [];
    var rest := expected.Keys;
    while rest != {}
      invariant rest <= expected.Keys
      invariant AdvanceOver(Progress(state, events), expected, SortedKeys(rest), occurredAt)
                == Advance(competition, initial, occurredAt)
    {
      LeastExists(rest);
      var id :| id in rest && forall other :: other in rest ==> StringLeq(id, other);
      LeastComesFirst(rest, id);
      if !(id in state.resolved && state.resolved[id] == expected[id]) {
        var step := Resolve(state, id, expected[id], occurredAt);
        if step.Failure? { return Failure(step.error); }
        state, events := step.value.state, events + step.value.events;
      }
      rest := rest - {id};
    }
    return Success(Progress(state, events));
  }

  lemma LeastComesFirst(keys: set<string>, least: string)
    requires least in keys && forall id | id in keys :: StringLeq(least, id)
    ensures SortedKeys(keys) == [least] + SortedKeys(keys - {least})
  {
    StringLeqAntisymmetric(least, SortedKeys(keys)[0]);
  }

  predicate Verify(competition: Competition, state: LiveState) {
    Expected(competition, state) == Success(state.resolved)
  }
}
