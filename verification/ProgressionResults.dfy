/** Who meets in later contests, told from the statuses, scores and winners on record. */
module ProgressionResults {
  import opened Wrappers
  import opened Lists
  import opened Ordering
  import opened Sorting
  import opened Timestamps
  import opened LiveModel
  import opened CompetitionGraph
  import opened LiveProgression
  import opened ProgressionFixedPoint

  // ---------------------------------------------------------------- who won a contest

  /** The two entrants of a contest, in the order they are listed: as resolved, or else as planned. */
  predicate Enter(state: LiveState, id: string, first: string, second: string) {
    if id in state.resolved then state.resolved[id] == [first, second]
    else match DefinitionOf(state.definitions, id)
      case Some(d) => d.entrantIds == [first, second]
      case None => false
  }

  /** The contest is over, and this entrant has the strictly higher of two scores, or won without them. */
  predicate Beats(contest: Contest, winner: string) {
    match contest.status
    case Completed =>
      && contest.scores.Some? && |contest.scores.value| == 2
      && var s := contest.scores.value;
         || (s[0].entrantId == winner && s[0].value > s[1].value)
         || (s[1].entrantId == winner && s[1].value > s[0].value)
    case Walkover => contest.winnerEntrantId == Some(winner)
    case Retired => contest.winnerEntrantId == Some(winner)
    case Scheduled => false
    case InProgress => false
  }

  /** One of the two entrants of a finished contest beat the other. */
  predicate Won(state: LiveState, id: string, winner: string, loser: string) {
    && id in state.contests && winner != "" && winner != loser && Beats(state.contests[id], winner)
    && (Enter(state, id, winner, loser) || Enter(state, id, loser, winner))
  }

  /** What the record scores an entrant with: its first score, or nothing. */
  predicate Scores(contest: Contest, entrantId: string, value: int) {
    || (value == 0 && (contest.scores.None? || forall s | s in contest.scores.value :: s.entrantId != entrantId))
    || (contest.scores.Some? && exists k | 0 <= k < |contest.scores.value| ::
          contest.scores.value[k] == Score(entrantId, value)
          && forall j | 0 <= j < k :: contest.scores.value[j].entrantId != entrantId)
  }

  ghost predicate NoRepeatedPairs(state: LiveState) {
    forall id, e :: !Enter(state, id, e, e)
  }

  lemma RecordedWinnerBeats(contest: Contest, winner: string)
    ensures Terminal(contest.status) ==> (RecordedWinner(contest) == Some(winner) <==> Beats(contest, winner))
  {
    if contest.status.Completed? && contest.scores.Some? && |contest.scores.value| == 2 {
      var raw, leq := contest.scores.value, (l: Score, r: Score) => r.value <= l.value;
      HigherFirst(raw[0], raw[1]);
      assert raw == [raw[0], raw[1]];
    }
  }

  lemma HigherFirst(a: Score, b: Score)
    ensures SortBy([a, b], (l: Score, r: Score) => r.value <= l.value) == if b.value <= a.value then [a, b] else [b, a]
  {
    var leq := (l: Score, r: Score) => r.value <= l.value;
    assert [a, b][1..] == [b] && [b][1..] == [];
    assert SortBy([b], leq) == [b];
    assert Insert(a, [b], leq) == if leq(a, b) then [a] + [b] else [b] + Insert(a, [], leq);
  }

  lemma {:induction false} FirstScore(scores: seq<Score>, entrantId: string)
    ensures var own := Filter(scores, (s: Score) => s.entrantId == entrantId);
            if own == [] then forall s | s in scores :: s.entrantId != entrantId
            else exists k | 0 <= k < |scores| :: scores[k] == own[0] && scores[k].entrantId == entrantId
                                                && forall j | 0 <= j < k :: scores[j].entrantId != entrantId
  {
    if scores != [] {
      if scores[0].entrantId == entrantId {
        assert scores[0] == Filter(scores, (s: Score) => s.entrantId == entrantId)[0];
      } else {
        FirstScore(scores[1..], entrantId);
        var own := Filter(scores[1..], (s: Score) => s.entrantId == entrantId);
        assert Filter(scores, (s: Score) => s.entrantId == entrantId) == [] + own == own;
        if own != [] {
          var k :| 0 <= k < |scores[1..]| && scores[1..][k] == own[0] && scores[1..][k].entrantId == entrantId
                   && forall j | 0 <= j < k :: scores[1..][j].entrantId != entrantId;
          forall j | 0 <= j < k + 1 ensures scores[j].entrantId != entrantId {
            if j > 0 { assert scores[j] == scores[1..][j - 1]; }
          }
          assert scores[k + 1] == own[0];
        }
      }
    }
  }

  lemma ScoreIsRecorded(contest: Contest, entrantId: string)
    ensures Scores(contest, entrantId, ScoreOf(contest, entrantId))
  {
    FirstScore(contest.scores.GetOr([]), entrantId);
    var own := Filter(contest.scores.GetOr([]), (s: Score) => s.entrantId == entrantId);
    if own != [] {
      var all := contest.scores.GetOr([]);
      var k :| 0 <= k < |all| && all[k] == own[0] && all[k].entrantId == entrantId
               && forall j | 0 <= j < k :: all[j].entrantId != entrantId;
      assert all[k] == Score(entrantId, own[0].value);
    }
  }

  /** Progression reads a result exactly from a contest that somebody won, with its winner, loser, entrants and scores. */
  lemma ResultTellsWhoWon(state: LiveState, id: string)
    requires forall e :: !Enter(state, id, e, e)
    ensures ResultFor(state, id).Some? <==> exists winner, loser :: Won(state, id, winner, loser)
    ensures ResultFor(state, id).Some? ==>
              var r := ResultFor(state, id).value;
              && Won(state, id, r.winnerId, r.loserId) && r.contestId == id && Enter(state, id, r.entrants.0, r.entrants.1)
              && Scores(state.contests[id], r.entrants.0, r.scoreFor.0) && Scores(state.contests[id], r.entrants.1, r.scoreFor.1)
              && r.walkover == state.contests[id].status.Walkover?
    ensures forall winner, loser | Won(state, id, winner, loser) ::
              ResultFor(state, id).Some? && ResultFor(state, id).value.winnerId == winner && ResultFor(state, id).value.loserId == loser
  {
    var entrants := ActualEntrants(state, id);
    if |entrants| == 2 { assert entrants == [entrants[0], entrants[1]] && Enter(state, id, entrants[0], entrants[1]); }
    if id in state.contests {
      forall w ensures Terminal(state.contests[id].status) ==> (RecordedWinner(state.contests[id]) == Some(w) <==> Beats(state.contests[id], w)) {
        RecordedWinnerBeats(state.contests[id], w);
      }
      if ResultFor(state, id).Some? {
        ScoreIsRecorded(state.contests[id], entrants[0]);
        ScoreIsRecorded(state.contests[id], entrants[1]);
        var r := ResultFor(state, id).value;
        assert Won(state, id, r.winnerId, r.loserId);
      }
    }
    forall winner, loser | Won(state, id, winner, loser)
      ensures ResultFor(state, id).Some? && ResultFor(state, id).value.winnerId == winner && ResultFor(state, id).value.loserId == loser
    {
      assert entrants == [winner, loser] || entrants == [loser, winner];
      assert winner in entrants;
    }
  }

  // ---------------------------------------------------------------- who fills a slot

  /** A bye passes on the one slot of it that is not a bye. */
  predicate PassesOn(node: Node, slot: Slot) {
    || (node.first.ByeSlot? && !node.second.ByeSlot? && slot == node.second)
    || (node.second.ByeSlot? && !node.first.ByeSlot? && slot == node.first)
  }

  /** The entrant fills the slot: named by it, winner or loser of its contest, or passed on by this many byes. */
  ghost predicate Fills(state: LiveState, nodes: seq<Node>, slot: Slot, entrantId: string, byes: nat)
    decreases byes
  {
    match slot
    case EntrantSlot(id) => id == entrantId
    case ByeSlot => false
    case LoserOf(id) => Contested(nodes, id) && exists winner :: Won(state, id, winner, entrantId)
    case WinnerOf(id) =>
      if Contested(nodes, id) then exists loser :: Won(state, id, entrantId, loser)
      else byes > 0 && exists passed :: PassesOn(NodeOf(nodes, id).value, passed) && Fills(state, nodes, passed, entrantId, byes - 1)
  }

  ghost predicate Filled(state: LiveState, nodes: seq<Node>, slot: Slot, entrantId: string) {
    exists byes: nat :: Fills(state, nodes, slot, entrantId, byes)
  }

  lemma PassesOnIff(node: Node)
    ensures |Candidates(node)| == 1 <==> exists slot :: PassesOn(node, slot)
    ensures forall slot | PassesOn(node, slot) :: Candidates(node) == [slot]
  {
    var keep := (s: Slot) => !s.ByeSlot?;
    assert node.Slots() == [node.first] + [node.second];
    FilterSnoc([node.first], node.second, keep);
    FilterSingle(node.first, keep);
    if |Candidates(node)| == 1 { assert PassesOn(node, Candidates(node)[0]); }
  }

  lemma OutcomeIs(state: LiveState, slot: Slot, entrantId: string)
    requires NoRepeatedPairs(state) && (slot.WinnerOf? || slot.LoserOf?)
    ensures slot.WinnerOf? ==> (Outcome(state, slot) == Some(entrantId) <==> exists loser :: Won(state, slot.contestId, entrantId, loser))
    ensures slot.LoserOf? ==> (Outcome(state, slot) == Some(entrantId) <==> exists winner :: Won(state, slot.contestId, winner, entrantId))
  {
    ResultTellsWhoWon(state, slot.contestId);
  }

  lemma {:induction false} WalkFills(state: LiveState, nodes: seq<Node>, slot: Slot, entrantId: string, byes: nat)
    requires NoRepeatedPairs(state)
    ensures Walk(state, nodes, slot, byes) == Somebody(entrantId) <==> Fills(state, nodes, slot, entrantId, byes)
    decreases byes
  {
    if slot.WinnerOf? && !Contested(nodes, slot.contestId) {
      var node := NodeOf(nodes, slot.contestId).value;
      PassesOnIff(node);
      if |Candidates(node)| == 1 && byes > 0 {
        assert PassesOn(node, Candidates(node)[0]);
        WalkFills(state, nodes, Candidates(node)[0], entrantId, byes - 1);
      }
    } else if slot.WinnerOf? || slot.LoserOf? {
      OutcomeIs(state, slot, entrantId);
    }
  }

  /** A contest's slot resolves to exactly the entrant that fills it. */
  lemma SlotResolvesIffFilled(state: LiveState, nodes: seq<Node>, node: Node, slot: Slot, entrantId: string)
    requires NoRepeatedPairs(state) && Contested(nodes, node.id)
    ensures ResolveSlot(state, nodes, slot, {node.id}) == Some(entrantId) <==> Filled(state, nodes, slot, entrantId)
  {
    GuardOnlyCutsCycles(state, nodes, node, slot, entrantId);
    if byes: nat :| Walk(state, nodes, slot, byes) == Somebody(entrantId) {
      WalkFills(state, nodes, slot, entrantId, byes);
    }
    if byes: nat :| Fills(state, nodes, slot, entrantId, byes) {
      WalkFills(state, nodes, slot, entrantId, byes);
    }
  }

  // ---------------------------------------------------------------- what an advance leaves each contest with

  /** The pair in the order of its identities. */
  predicate SortedAs(pair: seq<string>, a: string, b: string) {
    (pair == [a, b] && StringLeq(a, b)) || (pair == [b, a] && StringLeq(b, a))
  }

  lemma PairResolves(state: LiveState, nodes: seq<Node>, node: Node)
    requires NoRepeatedPairs(state) && Contested(nodes, node.id)
    ensures ResolvedForNode(state, nodes, node).Some? <==>
              exists a, b :: Filled(state, nodes, node.first, a) && Filled(state, nodes, node.second, b) && a != b
    ensures forall a, b | Filled(state, nodes, node.first, a) && Filled(state, nodes, node.second, b) && a != b ::
              ResolvedForNode(state, nodes, node).Some? && SortedAs(ResolvedForNode(state, nodes, node).value, a, b)
  {
    forall slot, e ensures ResolveSlot(state, nodes, slot, {node.id}) == Some(e) <==> Filled(state, nodes, slot, e) {
      SlotResolvesIffFilled(state, nodes, node, slot, e);
    }
    forall a, b ensures StringLeq(a, b) || StringLeq(b, a) { StringLeqTotal(a, b); }
    if ResolvedForNode(state, nodes, node).Some? {
      var a := ResolveSlot(state, nodes, node.first, {node.id}).value;
      var b := ResolveSlot(state, nodes, node.second, {node.id}).value;
      assert Filled(state, nodes, node.first, a) && Filled(state, nodes, node.second, b);
    }
  }

  lemma ContestIsContested(nodes: seq<Node>, node: Node)
    requires node in nodes && node.isContest && Distinct(NodeIds(nodes))
    ensures Contested(nodes, node.id)
  {
    var found := NodeOf(nodes, node.id).value;
    var i :| 0 <= i < |nodes| && nodes[i] == node;
    var j :| 0 <= j < |nodes| && nodes[j] == found;
    assert NodeIds(nodes)[i] == NodeIds(nodes)[j];
  }

  /** No contest names one entrant twice. */
  ghost predicate TwoSided(state: LiveState) {
    && (forall id | id in state.resolved :: Distinct(state.resolved[id]))
    && forall d | d in state.definitions :: Distinct(d.entrantIds) && (d.fixedEntrantIds.Some? ==> Distinct(d.fixedEntrantIds.value))
  }

  lemma TwoSidedPairs(state: LiveState)
    requires TwoSided(state)
    ensures NoRepeatedPairs(state)
  {
    forall id, e ensures !Enter(state, id, e, e) {
      var pair := [e, e];
      assert pair[0] == pair[1];
    }
  }

  lemma {:induction false} ExpectationsTwoSided(competition: Competition, state: LiveState, nodes: seq<Node>, ordered: seq<Node>)
    requires TwoSided(state)
    ensures forall id | id in ExpectNodes(competition, state, nodes, ordered) ::
              Distinct(ExpectNodes(competition, state, nodes, ordered)[id])
  {
    if ordered != [] { ExpectationsTwoSided(competition, state, nodes, ordered[..|ordered| - 1]); }
  }

  lemma AdvanceStaysTwoSided(competition: Competition, initial: LiveState, occurredAt: Stamp)
    requires SortedFixtures(initial.definitions) && TwoSided(initial) && Advance(competition, initial, occurredAt).Success?
    ensures TwoSided(Advance(competition, initial, occurredAt).value.state)
  {
    AdvanceWritesExpectations(competition, initial, occurredAt);
    match ActualGraph(competition, initial) {
      case Graph(nodes) => ExpectationsTwoSided(competition, initial, nodes, ContestNodes(nodes));
      case NoGraph => ExpectationsTwoSided(competition, initial, [], []);
    }
  }

  /** Whoever fills the two slots of a contest meets there, and nobody else does. */
  ghost predicate MeetAsFilled(initial: LiveState, state: LiveState, nodes: seq<Node>, node: Node) {
    && (forall a, b | Filled(state, nodes, node.first, a) && Filled(state, nodes, node.second, b) && a != b ::
          node.id in state.resolved && SortedAs(state.resolved[node.id], a, b))
    && ((forall a, b :: !(Filled(state, nodes, node.first, a) && Filled(state, nodes, node.second, b) && a != b)) ==>
          node.id in state.resolved ==>
            || (exists d :: d in state.definitions && d.contestId == node.id && d.fixedEntrantIds.Some?)
            || (node.id in initial.resolved && forall d | DefinitionOf(state.definitions, node.id) == Some(d) :: !d.requiresResolution))
  }

  /**
   * After an advance, a contest outside the pools holds exactly the two entrants that fill its slots: the winner of the
   * contest a slot waits for, its loser, or who a bye passes on. Without two of them it holds nobody, unless it was fixed.
   */
  lemma ContestsHoldWinnersAndLosers(competition: Competition, initial: LiveState, occurredAt: Stamp, nodes: seq<Node>, node: Node)
    requires SortedFixtures(initial.definitions) && TwoSided(initial) && Advance(competition, initial, occurredAt).Success?
    requires ActualGraph(competition, initial) == Graph(nodes) && Distinct(NodeIds(nodes))
    requires FixturesHold(initial, Expected(competition, initial).value)
    requires node in nodes && node.isContest && node.stageId !in competition.poolStages
    ensures MeetAsFilled(initial, Advance(competition, initial, occurredAt).value.state, nodes, node)
  {
    var state := Advance(competition, initial, occurredAt).value.state;
    ContestsHoldWhatTheirSlotsGive(competition, initial, occurredAt, nodes, node);
    AdvanceWritesExpectations(competition, initial, occurredAt);
    AdvanceStaysTwoSided(competition, initial, occurredAt);
    TwoSidedPairs(state);
    ContestIsContested(nodes, node);
    PairResolves(state, nodes, node);
    assert !Invalidated(initial, Expected(competition, initial).value, node.id);
  }

  /**
   * So the winner of a finished contest advances to the slot that waits for its winner and the loser to the slot that waits
   * for its loser, and a contest waiting for one that is not over stays open.
   */
  lemma WinnersAndLosersAdvance(competition: Competition, initial: LiveState, occurredAt: Stamp, nodes: seq<Node>, node: Node,
                                slot: Slot, other: Slot)
    requires SortedFixtures(initial.definitions) && TwoSided(initial) && Advance(competition, initial, occurredAt).Success?
    requires ActualGraph(competition, initial) == Graph(nodes) && Distinct(NodeIds(nodes))
    requires FixturesHold(initial, Expected(competition, initial).value)
    requires node in nodes && node.isContest && node.stageId !in competition.poolStages
    requires (slot == node.first && other == node.second) || (slot == node.second && other == node.first)
    requires (slot.WinnerOf? || slot.LoserOf?) && Contested(nodes, slot.contestId)
    ensures AdvancesFrom(Advance(competition, initial, occurredAt).value.state, nodes, node, slot, other)
  {
    ContestsHoldWinnersAndLosers(competition, initial, occurredAt, nodes, node);
    MeetingAdvances(initial, Advance(competition, initial, occurredAt).value.state, nodes, node, slot, other);
  }

  /** The entrant meets whoever fills the other slot. */
  ghost predicate Joins(state: LiveState, nodes: seq<Node>, node: Node, entrantId: string, other: Slot) {
    forall b | Filled(state, nodes, other, b) && b != entrantId ::
      node.id in state.resolved && SortedAs(state.resolved[node.id], entrantId, b)
  }

  /** The contest's entrants are to be resolved. */
  predicate NeedsResolution(state: LiveState, id: string) {
    && DefinitionOf(state.definitions, id).Some? && DefinitionOf(state.definitions, id).value.requiresResolution
    && forall d | d in state.definitions && d.contestId == id :: d.fixedEntrantIds.None?
  }

  /** Who comes to a contest through a slot that waits for another contest. */
  ghost predicate AdvancesFrom(state: LiveState, nodes: seq<Node>, node: Node, slot: Slot, other: Slot)
    requires slot.WinnerOf? || slot.LoserOf?
  {
    && (forall winner, loser | Won(state, slot.contestId, winner, loser) ::
          Joins(state, nodes, node, if slot.WinnerOf? then winner else loser, other))
    && (Unsettled(state, slot.contestId) && NeedsResolution(state, node.id) ==> node.id !in state.resolved)
  }

  lemma FillingJoins(initial: LiveState, state: LiveState, nodes: seq<Node>, node: Node, slot: Slot, other: Slot, entrantId: string)
    requires MeetAsFilled(initial, state, nodes, node) && Filled(state, nodes, slot, entrantId)
    requires (slot == node.first && other == node.second) || (slot == node.second && other == node.first)
    ensures Joins(state, nodes, node, entrantId, other)
  {
  }

  lemma UnsettledStaysOpen(initial: LiveState, state: LiveState, nodes: seq<Node>, node: Node, slot: Slot)
    requires MeetAsFilled(initial, state, nodes, node) && (slot == node.first || slot == node.second)
    requires (forall e :: !Filled(state, nodes, slot, e)) && NeedsResolution(state, node.id)
    ensures node.id !in state.resolved
  {
  }

  lemma MeetingAdvances(initial: LiveState, state: LiveState, nodes: seq<Node>, node: Node, slot: Slot, other: Slot)
    requires MeetAsFilled(initial, state, nodes, node)
    requires (slot == node.first && other == node.second) || (slot == node.second && other == node.first)
    requires (slot.WinnerOf? || slot.LoserOf?) && Contested(nodes, slot.contestId)
    ensures AdvancesFrom(state, nodes, node, slot, other)
  {
    forall winner, loser | Won(state, slot.contestId, winner, loser)
      ensures Joins(state, nodes, node, if slot.WinnerOf? then winner else loser, other)
    {
      assert Fills(state, nodes, slot, if slot.WinnerOf? then winner else loser, 0);
      FillingJoins(initial, state, nodes, node, slot, other, if slot.WinnerOf? then winner else loser);
    }
    if Unsettled(state, slot.contestId) && NeedsResolution(state, node.id) {
      forall e ensures !Filled(state, nodes, slot, e) { NobodyFromUnsettled(state, nodes, slot, e); }
      UnsettledStaysOpen(initial, state, nodes, node, slot);
    }
  }

  /** The contest is not over. */
  predicate Unsettled(state: LiveState, id: string) {
    id in state.contests ==> state.contests[id].status.Scheduled? || state.contests[id].status.InProgress?
  }

  lemma NobodyFromUnsettled(state: LiveState, nodes: seq<Node>, slot: Slot, e: string)
    requires (slot.WinnerOf? || slot.LoserOf?) && Contested(nodes, slot.contestId) && Unsettled(state, slot.contestId)
    ensures !Filled(state, nodes, slot, e)
  {
  }

  // ---------------------------------------------------------------- what an advance leaves alone

  /** An advance changes the entrants only of contests that wait and were not called, to two of those they may have. */
  lemma AdvanceLeavesCalledContests(competition: Competition, initial: LiveState, occurredAt: Stamp, id: string)
    requires SortedFixtures(initial.definitions) && Advance(competition, initial, occurredAt).Success?
    ensures var state := Advance(competition, initial, occurredAt).value.state;
            && state.contests == initial.contests && state.definitions == initial.definitions && state.presence == initial.presence
            && state.ties == initial.ties && state.courts == initial.courts
            && (id in initial.resolved ==> id in state.resolved)
            && (id in state.resolved && !(id in initial.resolved && initial.resolved[id] == state.resolved[id]) ==>
                  && id in initial.contests && initial.contests[id].status.Scheduled? && initial.contests[id].calledAt.None?
                  && |state.resolved[id]| == 2 && state.resolved[id][0] != state.resolved[id][1]
                  && exists d :: d in initial.definitions && d.contestId == id && forall e | e in state.resolved[id] :: e in d.entrantIds)
  {
    AdvanceWritesExpectations(competition, initial, occurredAt);
    AdvanceCharacterised(competition, initial, occurredAt);
    var expected, state := Expected(competition, initial).value, Advance(competition, initial, occurredAt).value.state;
    if id in state.resolved && !(id in initial.resolved && initial.resolved[id] == state.resolved[id]) {
      assert id in SortedKeys(expected.Keys) && Differs(initial, expected, id);
      assert CanResolve(initial, expected, occurredAt, id);
      assert DefinitionOf(initial.definitions, id).value in initial.definitions;
    }
  }

  // ---------------------------------------------------------------- pools

  /** These results are read from these contests, in order. */
  ghost predicate ReadInOrder(state: LiveState, ids: seq<string>, results: seq<ContestResult>) {
    |results| == |ids| && forall i | 0 <= i < |ids| ::
      results[i].contestId == ids[i] && Won(state, ids[i], results[i].winnerId, results[i].loserId)
      && Enter(state, ids[i], results[i].entrants.0, results[i].entrants.1)
  }

  /** Somebody won the contest. */
  ghost predicate Decided(state: LiveState, id: string) {
    exists winner, loser :: Won(state, id, winner, loser)
  }

  lemma {:induction false} GroupResultsAre(state: LiveState, ids: seq<string>)
    requires NoRepeatedPairs(state)
    ensures GroupResults(state, ids).Some? <==> forall id | id in ids :: Decided(state, id)
    ensures GroupResults(state, ids).Some? ==> ReadInOrder(state, ids, GroupResults(state, ids).value)
  {
    if ids != [] {
      var front, last := ids[..|ids| - 1], ids[|ids| - 1];
      assert ids == front + [last];
      assert forall id :: id in ids <==> id in front || id == last;
      GroupResultsAre(state, front);
      ResultIfDecided(state, last);
      if GroupResults(state, ids).Some? {
        OneMoreRead(state, front, last, GroupResults(state, front).value, ResultFor(state, last).value);
      }
    }
  }

  lemma ResultIfDecided(state: LiveState, id: string)
    requires NoRepeatedPairs(state)
    ensures ResultFor(state, id).Some? <==> Decided(state, id)
    ensures ResultFor(state, id).Some? ==> ReadInOrder(state, [id], [ResultFor(state, id).value])
  {
    ResultTellsWhoWon(state, id);
  }

  lemma OneMoreRead(state: LiveState, front: seq<string>, last: string, results: seq<ContestResult>, result: ContestResult)
    requires ReadInOrder(state, front, results) && ReadInOrder(state, [last], [result])
    ensures ReadInOrder(state, front + [last], results + [result])
  {
    assert [last][0] == last && [result][0] == result;
  }

  /** Standings and qualification build the graph exactly once every pool contest is won, from those results in order. */
  lemma GraphWaitsForPools(competition: Competition, state: LiveState)
    requires NoRepeatedPairs(state)
    ensures (forall id | id in competition.groupContestIds :: Decided(state, id)) ==>
              exists results :: ReadInOrder(state, competition.groupContestIds, results)
                                && ActualGraph(competition, state) == competition.build(results, state.ties)
    ensures !(forall id | id in competition.groupContestIds :: Decided(state, id)) ==> ActualGraph(competition, state) == NoGraph
  {
    GroupResultsAre(state, competition.groupContestIds);
  }

  lemma {:induction false} OnlyOutsidePools(competition: Competition, state: LiveState, nodes: seq<Node>, ordered: seq<Node>, id: string)
    requires forall n | n in ordered && n.id == id :: n.stageId in competition.poolStages
    requires forall d | d in state.definitions && d.contestId == id :: d.fixedEntrantIds.None?
    ensures id !in ExpectNodes(competition, state, nodes, ordered)
  {
    if ordered != [] { OnlyOutsidePools(competition, state, nodes, ordered[..|ordered| - 1], id); }
  }

  /** An advance leaves pool contests as they were. */
  lemma PoolContestsStay(competition: Competition, initial: LiveState, occurredAt: Stamp, nodes: seq<Node>, id: string)
    requires SortedFixtures(initial.definitions) && Advance(competition, initial, occurredAt).Success?
    requires ActualGraph(competition, initial) == Graph(nodes)
    requires forall n | n in nodes && n.isContest && n.id == id :: n.stageId in competition.poolStages
    requires forall d | d in initial.definitions && d.contestId == id :: d.fixedEntrantIds.None?
    ensures var state := Advance(competition, initial, occurredAt).value.state;
            (id in state.resolved <==> id in initial.resolved) && (id in initial.resolved ==> state.resolved[id] == initial.resolved[id])
  {
    AdvanceWritesExpectations(competition, initial, occurredAt);
    SortKeepsElements(Filter(nodes, (n: Node) => n.isContest), NodeLeq);
    OnlyOutsidePools(competition, initial, nodes, ContestNodes(nodes), id);
  }
}
