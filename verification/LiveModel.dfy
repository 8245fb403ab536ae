/** The live record of play that repairs, progression, closure and views all read. Instants are milliseconds. */
module LiveModel {
  import opened Wrappers

  datatype ContestStatus = Scheduled | InProgress | Completed | Walkover | Retired

  datatype Score = Score(entrantId: string, value: int)

  datatype Contest = Contest(
    status: ContestStatus, calledAt: Option<int>, scores: Option<seq<Score>>, winnerEntrantId: Option<string>,
    absentEntrantId: Option<string>, actualCourtId: Option<string>, actualStart: Option<int>, actualEnd: Option<int>)

  datatype Definition = Definition(
    contestId: string, entrantIds: seq<string>, fixedEntrantIds: Option<seq<string>>, requiresResolution: bool,
    courtId: string, dependencyIds: seq<string>, scheduledStart: int, scheduledEnd: int)

  datatype Presence = CheckedIn | Late | NoShow | Withdrawn

  /** An organiser's decision of the order of entrants a standings policy leaves tied. */
  datatype TieDecision = TieDecision(policyId: string, poolId: string, order: seq<string>)

  datatype LiveState = LiveState(
    courts: seq<string>, definitions: seq<Definition>, contests: map<string, Contest>,
    resolved: map<string, seq<string>>, presence: map<string, Presence>, ties: seq<TieDecision>, version: nat)

  datatype Assignment = Assignment(contestId: string, resourceId: string, start: int, end: int)

  /** The first entrant that is not this one. */
  function Opponent(entrants: seq<string>, entrantId: string): Option<string> {
    if entrants == [] then None
    else if entrants[0] != entrantId then Some(entrants[0])
    else Opponent(entrants[1..], entrantId)
  }

  predicate Overlaps(leftStart: int, leftEnd: int, rightStart: int, rightEnd: int) {
    leftStart < rightEnd && rightStart < leftEnd
  }

  /** `new Map(list.map(x => [x.contestId, x])).get(id)`: the last definition under an id. */
  function DefinitionOf(definitions: seq<Definition>, id: string): (r: Option<Definition>)
    ensures r.Some? ==> r.value in definitions && r.value.contestId == id
    ensures r.None? ==> forall d | d in definitions :: d.contestId != id
  {
    if definitions == [] then None
    else if definitions[|definitions| - 1].contestId == id then Some(definitions[|definitions| - 1])
    else DefinitionOf(definitions[..|definitions| - 1], id)
  }

  /** The last assignment under an identity, as a map built from the list holds. */
  function AssignmentFor(plan: seq<Assignment>, id: string): (r: Option<Assignment>)
    ensures r.Some? ==> r.value in plan && r.value.contestId == id
    ensures r.None? ==> forall a | a in plan :: a.contestId != id
  {
    if plan == [] then None
    else if plan[|plan| - 1].contestId == id then Some(plan[|plan| - 1])
    else AssignmentFor(plan[..|plan| - 1], id)
  }
}

/** A competition graph: contests and byes, whose slots name entrants or the outcomes of other nodes. */
module CompetitionGraph {
  import opened Wrappers

  datatype Slot = EntrantSlot(entrantId: string) | WinnerOf(contestId: string) | LoserOf(contestId: string) | ByeSlot

  datatype Node = Node(
    id: string, stageId: string, divisionId: string, poolId: Option<string>, roundIndex: int, isContest: bool,
    first: Slot, second: Slot)
  {
    function Slots(): seq<Slot> {
      [first, second]
    }
  }

  /** `new Map(nodes.map(node => [node.id, node])).get(id)`: the last node under an id. */
  function NodeOf(nodes: seq<Node>, id: string): (r: Option<Node>)
    ensures r.Some? ==> r.value in nodes && r.value.id == id
    ensures r.None? ==> forall n | n in nodes :: n.id != id
  {
    if nodes == [] then None
    else if nodes[|nodes| - 1].id == id then Some(nodes[|nodes| - 1])
    else NodeOf(nodes[..|nodes| - 1], id)
  }

  ghost function NodeIdSet(nodes: seq<Node>): set<string> {
    set n | n in nodes :: n.id
  }

  datatype Edge = Edge(fromContestId: string, toContestId: string)
}
