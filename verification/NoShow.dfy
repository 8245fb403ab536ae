/** Turning a published plan into the record of play: who may play each contest, and who certainly does. */
module Activation {
  import opened Wrappers
  import opened Lists
  import opened Ordering
  import opened Sorting
  import opened SortedSets
  import opened LiveModel
  import opened CompetitionGraph
  import opened GraphWalks
  import LiveProgression
  import ProgressionFixedPoint

  datatype Planned = Planned(contestId: string, resourceId: string, start: int, end: int, possibleEntrantIds: seq<string>)

  datatype ActivationError = MissingAssignment(contestId: string) | Cyclic(contestId: string)

  function PlannedFor(schedule: seq<Planned>, id: string): (r: Option<Planned>)
    ensures r.Some? ==> r.value in schedule && r.value.contestId == id
  {
    if schedule == [] then None
    else if schedule[|schedule| - 1].contestId == id then Some(schedule[|schedule| - 1])
    else PlannedFor(schedule[..|schedule| - 1], id)
  }

  function SlotEntrantIds(node: Node): seq<string> {
    (if node.first.EntrantSlot? then [node.first.entrantId] else [])
    + if node.second.EntrantSlot? then [node.second.entrantId] else []
  }

  predicate Pooled(node: Node) {
    node.poolId.Some? && node.poolId.value != ""
  }

  /** The entrants named in a division's pools. */
  function PoolEntrants(nodes: seq<Node>, divisionId: string): seq<string> {
    if nodes == [] then []
    else
      (if nodes[0].divisionId == divisionId && Pooled(nodes[0]) then SlotEntrantIds(nodes[0]) else [])
      + PoolEntrants(nodes[1..], divisionId)
  }

  predicate IsContest(nodes: seq<Node>, id: string) {
    exists n :: n in nodes && n.isContest && n.id == id
  }

  /** The edges that make a contest wait for another. */
  predicate Waits(nodes: seq<Node>, edge: Edge) {
    IsContest(nodes, edge.fromContestId) && IsContest(nodes, edge.toContestId)
  }

  function Dependencies(nodes: seq<Node>, edges: seq<Edge>, id: string): seq<string> {
    SortedUnique(Map(Filter(edges, edge => Waits(nodes, edge) && edge.toContestId == id), (edge: Edge) => edge.fromContestId))
  }

  /** The contests each contest waits for, collected edge by edge. */
  method CollectDependencies(nodes: seq<Node>, edges: seq<Edge>) returns (dependencies: map<string, set<string>>)
    ensures forall id :: id in dependencies <==> exists edge :: edge in edges && Waits(nodes, edge) && edge.toContestId == id
    ensures forall id, source | id in dependencies ::
              source in dependencies[id] <==> source in Dependencies(nodes, edges, id)
  {
    dependencies := map[];
    for i := 0 to |edges|
      invariant forall id :: id in dependencies <==>
                  exists edge :: edge in edges[..i] && Waits(nodes, edge) && edge.toContestId == id
      invariant forall id, source | id in dependencies ::
                  source in dependencies[id] <==> Edge(source, id) in edges[..i] && Waits(nodes, Edge(source, id))
    {
      var edge := edges[i];
      assert edges[..i + 1] == edges[..i] + [edge];
      if Waits(nodes, edge) {
        var existing := if edge.toContestId in dependencies then dependencies[edge.toContestId] else {};
        dependencies := dependencies[edge.toContestId := existing + {edge.fromContestId}];
      }
    }
    assert edges[..|edges|] == edges;
    forall id, source | id in dependencies
      ensures source in dependencies[id] <==> source in Dependencies(nodes, edges, id)
    {
      DependencyListed(nodes, edges, id, source);
    }
  }

  lemma DependencyListed(nodes: seq<Node>, edges: seq<Edge>, id: string, source: string)
    ensures source in Dependencies(nodes, edges, id) <==> Edge(source, id) in edges && Waits(nodes, Edge(source, id))
  {
    var kept := Filter(edges, edge => Waits(nodes, edge) && edge.toContestId == id);
    var sources := Map(kept, (edge: Edge) => edge.fromContestId);
    SortedUniqueElements(sources);
    if source in sources {
      var i :| 0 <= i < |sources| && sources[i] == source;
      assert kept[i] == Edge(source, id) && kept[i] in kept;
    }
    if Edge(source, id) in kept {
      var i :| 0 <= i < |kept| && kept[i] == Edge(source, id);
      assert sources[i] == source;
    }
  }

  /** Both slots name their entrants, and no qualification can replace them. */
  predicate AuthoritativelyFixed(qualificationStageIds: set<string>, node: Node) {
    node.first.EntrantSlot? && node.second.EntrantSlot? && node.stageId !in qualificationStageIds
  }

  function DefinitionFor(nodes: seq<Node>, edges: seq<Edge>, schedule: seq<Planned>, qualificationStageIds: set<string>, node: Node)
    : Result<Definition, ActivationError>
  {
    var assignment := PlannedFor(schedule, node.id);
    if assignment.None? then Failure(MissingAssignment(node.id))
    else
      var fixed := AuthoritativelyFixed(qualificationStageIds, node);
      var reaching := EntrantsFor(nodes, node.id, {});
      if reaching.Failure? then Failure(Cyclic(reaching.error.contestId))
      else Success(Definition(
        node.id,
        SortedUnique(assignment.value.possibleEntrantIds + reaching.value
                     + if Pooled(node) then [] else PoolEntrants(nodes, node.divisionId)),
        if fixed then Some(SortBy([node.first.entrantId, node.second.entrantId], StringLeq)) else None, !fixed,
        assignment.value.resourceId, Dependencies(nodes, edges, node.id), assignment.value.start, assignment.value.end))
  }

  function DefinitionsFor(nodes: seq<Node>, edges: seq<Edge>, schedule: seq<Planned>, qualificationStageIds: set<string>,
                          contests: seq<Node>): (r: Result<seq<Definition>, ActivationError>)
    ensures r.Success? ==> |r.value| == |contests| && forall i | 0 <= i < |contests| ::
              DefinitionFor(nodes, edges, schedule, qualificationStageIds, contests[i]) == Success(r.value[i])
  {
    if contests == [] then Success([])
    else
      var first := DefinitionFor(nodes, edges, schedule, qualificationStageIds, contests[0]);
      if first.Failure? then Failure(first.error)
      else
        var rest := DefinitionsFor(nodes, edges, schedule, qualificationStageIds, contests[1..]);
        if rest.Failure? then rest else Success([first.value] + rest.value)
  }

  function LiveDefinition(nodes: seq<Node>, edges: seq<Edge>, schedule: seq<Planned>, qualificationStageIds: set<string>)
    : Result<seq<Definition>, ActivationError>
  {
    DefinitionsFor(nodes, edges, schedule, qualificationStageIds, Filter(nodes, (n: Node) => n.isContest))
  }

  /** The resolutions a record opens with: fixed entrants, or the listed ones of contests that need no resolution. */
  function InitialResolutions(definitions: seq<Definition>): (r: map<string, seq<string>>)
    ensures forall id | id in r :: exists d :: d in definitions && d.contestId == id && (d.fixedEntrantIds.Some? || !d.requiresResolution)
  {
    if definitions == [] then map[]
    else
      var front, last := InitialResolutions(definitions[..|definitions| - 1]), definitions[|definitions| - 1];
      if last.fixedEntrantIds.Some? then front[last.contestId := SortBy(last.fixedEntrantIds.value, StringLeq)]
      else if !last.requiresResolution then front[last.contestId := SortBy(last.entrantIds, StringLeq)]
      else front
  }

  function Activated(courts: seq<string>, definitions: seq<Definition>): LiveState {
    LiveState(courts, definitions,
              map d | d in definitions :: d.contestId := Contest(Scheduled, None, None, None, None, None, None, None),
              InitialResolutions(definitions), map[], [], 0)
  }

  lemma SortTwice(s: seq<string>)
    ensures SortBy(SortBy(s, StringLeq), StringLeq) == SortBy(s, StringLeq)
  {
    StringOrder();
    SortSorts(s, StringLeq);
    SortOfSorted(SortBy(s, StringLeq), StringLeq);
  }

  /**
   * What a record of play says of a contest: its planned court and times, the contests it waits for, every entrant
   * that is listed, can reach it or, outside the pools, may qualify from them, and the two entrants when fixed.
   */
  ghost predicate Defines(nodes: seq<Node>, edges: seq<Edge>, planned: Planned, qualificationStageIds: set<string>,
                          node: Node, d: Definition) {
    && d.contestId == node.id && d.courtId == planned.resourceId
    && d.scheduledStart == planned.start && d.scheduledEnd == planned.end
    && (forall source :: source in d.dependencyIds <==> Edge(source, node.id) in edges && Waits(nodes, Edge(source, node.id)))
    && SortedBy(d.entrantIds, StringLeq) && Distinct(d.entrantIds)
    && (forall e :: e in d.entrantIds <==>
          e in planned.possibleEntrantIds || EntrantReachable(nodes, node.id, e)
          || (!Pooled(node) && e in PoolEntrants(nodes, node.divisionId)))
    && (d.requiresResolution <==> !AuthoritativelyFixed(qualificationStageIds, node))
    && d.fixedEntrantIds == if d.requiresResolution then None
                            else Some(SortBy([node.first.entrantId, node.second.entrantId], StringLeq))
  }

  lemma DefinitionSays(nodes: seq<Node>, edges: seq<Edge>, schedule: seq<Planned>, qualificationStageIds: set<string>,
                       node: Node, d: Definition)
    requires DefinitionFor(nodes, edges, schedule, qualificationStageIds, node) == Success(d)
    ensures PlannedFor(schedule, node.id).Some?
    ensures Defines(nodes, edges, PlannedFor(schedule, node.id).value, qualificationStageIds, node, d)
  {
    WalkCollectsReachable(nodes, node.id);
    var pool := if Pooled(node) then [] else PoolEntrants(nodes, node.divisionId);
    SortedUniqueElements(PlannedFor(schedule, node.id).value.possibleEntrantIds + EntrantsFor(nodes, node.id, {}).value + pool);
    forall source
      ensures source in d.dependencyIds <==> Edge(source, node.id) in edges && Waits(nodes, Edge(source, node.id))
    {
      DependencyListed(nodes, edges, node.id, source);
    }
  }

  /**
   * Activation fails exactly when a contest has no planned slot or can reach a cycle; otherwise it defines every
   * contest once, as planned.
   */
  lemma ActivationDefinesEveryContest(nodes: seq<Node>, edges: seq<Edge>, schedule: seq<Planned>, qualificationStageIds: set<string>)
    ensures LiveDefinition(nodes, edges, schedule, qualificationStageIds).Failure? <==>
              exists n :: n in nodes && n.isContest && (PlannedFor(schedule, n.id).None? || CycleReachable(nodes, n.id))
    ensures LiveDefinition(nodes, edges, schedule, qualificationStageIds).Success? ==>
              var definitions := LiveDefinition(nodes, edges, schedule, qualificationStageIds).value;
              var contests := Filter(nodes, (n: Node) => n.isContest);
              |definitions| == |contests| && forall i | 0 <= i < |contests| ::
                && PlannedFor(schedule, contests[i].id).Some?
                && Defines(nodes, edges, PlannedFor(schedule, contests[i].id).value, qualificationStageIds, contests[i], definitions[i])
  {
    var contests := Filter(nodes, (n: Node) => n.isContest);
    DefinitionsFail(nodes, edges, schedule, qualificationStageIds, contests);
    if LiveDefinition(nodes, edges, schedule, qualificationStageIds).Success? {
      var definitions := LiveDefinition(nodes, edges, schedule, qualificationStageIds).value;
      forall i | 0 <= i < |contests|
        ensures PlannedFor(schedule, contests[i].id).Some?
        ensures Defines(nodes, edges, PlannedFor(schedule, contests[i].id).value, qualificationStageIds, contests[i], definitions[i])
      {
        DefinitionSays(nodes, edges, schedule, qualificationStageIds, contests[i], definitions[i]);
      }
    }
  }

  lemma {:induction false} DefinitionsFail(nodes: seq<Node>, edges: seq<Edge>, schedule: seq<Planned>,
                                           qualificationStageIds: set<string>, contests: seq<Node>)
    ensures DefinitionsFor(nodes, edges, schedule, qualificationStageIds, contests).Failure? <==>
              exists n :: n in contests && (PlannedFor(schedule, n.id).None? || CycleReachable(nodes, n.id))
  {
    if contests != [] {
      DefinitionsFail(nodes, edges, schedule, qualificationStageIds, contests[1..]);
      WalkFailsIffCycle(nodes, contests[0].id);
      assert forall n :: n in contests <==> n == contests[0] || n in contests[1..];
    }
  }

  /** A record activated from a published plan is one that progression keeps verified. */
  lemma ActivatedRecordProgresses(nodes: seq<Node>, edges: seq<Edge>, schedule: seq<Planned>, qualificationStageIds: set<string>,
                                  courts: seq<string>)
    requires LiveDefinition(nodes, edges, schedule, qualificationStageIds).Success?
    ensures var state := Activated(courts, LiveDefinition(nodes, edges, schedule, qualificationStageIds).value);
            ProgressionFixedPoint.Ready(state)
  {
    var definitions := LiveDefinition(nodes, edges, schedule, qualificationStageIds).value;
    var contests := Filter(nodes, (n: Node) => n.isContest);
    forall d | d in definitions
      ensures d.fixedEntrantIds.Some? <==> !d.requiresResolution
      ensures d.fixedEntrantIds.Some? ==> LiveProgression.SortedEntrants(d.fixedEntrantIds.value) == d.fixedEntrantIds.value
    {
      var i :| 0 <= i < |definitions| && definitions[i] == d;
      assert DefinitionFor(nodes, edges, schedule, qualificationStageIds, contests[i]) == Success(d);
      if d.fixedEntrantIds.Some? { SortTwice([contests[i].first.entrantId, contests[i].second.entrantId]); }
    }
  }
}
