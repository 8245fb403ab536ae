/**
 * Repairing the plan around a closed court or an overrunning contest: the affected contests become a small
 * scheduling problem, and a solution of it is merged back into the whole plan.
 */
module CourtOutage {
  import opened Wrappers
  import opened Lists
  import opened Numbers
  import opened Ordering
  import opened Sorting
  import opened Texts
  import opened LiveModel

  datatype Incident = Outage | Overrun(sourceContestId: string)

  datatype Request = Request(courtId: string, incident: Incident, closureStartsAt: Option<int>, proposedAt: int, expectedReopenAt: int)
  {
    function ClosureStart(): int {
      closureStartsAt.GetOr(proposedAt)
    }
  }

  datatype Window = Window(startMinute: int, endMinute: int)

  datatype Resource = Resource(id: string, calendars: seq<Window>, closures: seq<Window>)

  datatype Task = Task(
    id: string, durationMinutes: int, eligibleResourceIds: seq<string>, dependencyIds: seq<string>, participantIds: seq<string>)

  datatype Placement = Placement(taskId: string, resourceId: string, startMinute: int, endMinute: int)

  datatype Problem = Problem(tasks: seq<Task>, resources: seq<Resource>, minimumRestMinutes: int)

  /** The published plan a repair starts from; `calendars` is absent when the schedule model does not compile. */
  datatype Artifacts = Artifacts(
    origin: int, finish: int, restMinutes: nat, possibleEntrants: map<string, seq<string>>,
    calendars: Option<map<string, seq<Window>>>)

  datatype Derived = Derived(problem: Problem, baseline: seq<Placement>, pinnedTaskIds: seq<string>, affectedIds: seq<string>)

  datatype RepairError =
    | InvalidRequest | UnknownCourt | ConflictsCommunicatedPromise | OverrunRequiresMatchingContest
    | OutageRequiresInProgressAuthority | NoAffectedContest | ScheduleModelUnavailable | MissingContestRecord

  const MINUTE: int := 60_000

  /** `Math.round((instant - origin) / 60_000)`, which rounds halves up. */
  function Minute(origin: int, instant: int): int {
    (instant - origin + 30_000) / MINUTE
  }

  function Entrants(live: LiveState, artifacts: Artifacts, id: string): Option<seq<string>> {
    if id in live.resolved then Some(live.resolved[id])
    else if id in artifacts.possibleEntrants then Some(artifacts.possibleEntrants[id])
    else None
  }

  predicate IsAffected(live: LiveState, request: Request, a: Assignment) {
    && a.resourceId == request.courtId
    && a.contestId in live.contests && live.contests[a.contestId].status.Scheduled?
    && Overlaps(a.start, a.end, request.ClosureStart(), request.expectedReopenAt)
  }

  function Affected(live: LiveState, request: Request, current: seq<Assignment>): seq<Assignment> {
    Filter(current, a => IsAffected(live, request, a))
  }

  function Ids(plan: seq<Assignment>): (r: seq<string>)
    ensures |r| == |plan| && forall i | 0 <= i < |plan| :: r[i] == plan[i].contestId
  {
    Map(plan, (a: Assignment) => a.contestId)
  }

  /** The contests in progress on the closed court. */
  function InProgressOn(live: LiveState, courtId: string): set<string> {
    set id | id in live.contests && live.contests[id].status.InProgress?
             && (if live.contests[id].actualCourtId.Some? then live.contests[id].actualCourtId
                 else var d := DefinitionOf(live.definitions, id); if d.Some? then Some(d.value.courtId) else None)
                == Some(courtId)
  }

  /** An overrunning contest keeps its players and court until its reported end, not its planned one. */
  function Occupied(request: Request, a: Assignment): Assignment {
    if request.incident == Overrun(a.contestId) && request.expectedReopenAt > a.end
    then a.(end := request.expectedReopenAt) else a
  }

  function Busy(live: LiveState, request: Request, current: seq<Assignment>): seq<Assignment> {
    var affected := Ids(Affected(live, request, current));
    Map(Filter(current, (a: Assignment) => a.contestId !in affected), a => Occupied(request, a))
  }

  function AffectedParticipants(live: LiveState, artifacts: Artifacts, affected: seq<Assignment>): (r: set<string>)
    ensures forall a, e | a in affected && e in Entrants(live, artifacts, a.contestId).GetOr([]) :: e in r
  {
    if affected == [] then {}
    else (set e | e in Entrants(live, artifacts, affected[0].contestId).GetOr([]))
         + AffectedParticipants(live, artifacts, affected[1..])
  }

  predicate SharesParticipant(live: LiveState, artifacts: Artifacts, participants: set<string>, a: Assignment) {
    exists e :: e in Entrants(live, artifacts, a.contestId).GetOr([]) && e in participants
  }

  function ParticipantBusy(live: LiveState, artifacts: Artifacts, request: Request, current: seq<Assignment>): seq<Assignment> {
    var participants := AffectedParticipants(live, artifacts, Affected(live, request, current));
    Filter(Busy(live, request, current), a => SharesParticipant(live, artifacts, participants, a))
  }

  function MinuteWindow(origin: int, start: int, end: int): Window {
    Window(Minute(origin, start), Minute(origin, end))
  }

  predicate NonEmpty(w: Window) {
    w.endMinute > w.startMinute
  }

  /** One court of the problem: its calendar from the closure on, closed where other contests or the outage hold it. */
  function CourtResource(artifacts: Artifacts, request: Request, busy: seq<Assignment>, id: string): Resource {
    var origin := artifacts.origin;
    var from := Minute(origin, Max(origin, request.ClosureStart()));
    var windows := if artifacts.calendars.Some? && id in artifacts.calendars.value then artifacts.calendars.value[id] else [];
    var occupied := Map(Filter(busy, (a: Assignment) => a.resourceId == id), (a: Assignment) => MinuteWindow(origin, a.start, a.end));
    var outage := if id == request.courtId
                  then [MinuteWindow(origin, request.ClosureStart(), request.expectedReopenAt)] else [];
    Resource(id,
             Filter(Map(windows, (w: Window) => Window(Max(w.startMinute, from), Min(w.endMinute, Minute(origin, artifacts.finish)))),
                    NonEmpty),
             Filter(occupied + outage, NonEmpty))
  }

  function CourtResources(live: LiveState, artifacts: Artifacts, request: Request, busy: seq<Assignment>): seq<Resource> {
    Filter(Map(live.courts, id => CourtResource(artifacts, request, busy, id)), (r: Resource) => r.calendars != [])
  }

  function SortedEntrants(live: LiveState, artifacts: Artifacts, id: string): seq<string> {
    SortBy(Entrants(live, artifacts, id).GetOr([]), StringLeq)
  }

  function AffectedTask(live: LiveState, artifacts: Artifacts, affectedIds: seq<string>, resourceIds: seq<string>, a: Assignment): Task {
    var definition := DefinitionOf(live.definitions, a.contestId);
    Task(a.contestId, (a.end - a.start + 30_000) / MINUTE, resourceIds,
         Filter(if definition.Some? then definition.value.dependencyIds else [], id => id in affectedIds),
         SortedEntrants(live, artifacts, a.contestId))
  }

  function PinnedResourceId(id: string): string {
    "pinned-contest:" + id
  }

  function PinnedPlacement(origin: int, a: Assignment): Placement {
    Placement(a.contestId, PinnedResourceId(a.contestId), Minute(origin, a.start), Minute(origin, a.end))
  }

  function PinnedTask(live: LiveState, artifacts: Artifacts, a: Assignment): Task {
    var p := PinnedPlacement(artifacts.origin, a);
    Task(a.contestId, p.endMinute - p.startMinute, [p.resourceId], [], SortedEntrants(live, artifacts, a.contestId))
  }

  function PinnedResource(origin: int, a: Assignment): Resource {
    Resource(PinnedResourceId(a.contestId), [MinuteWindow(origin, a.start, a.end)], [])
  }

  /** Why no repair can be derived, in the order the checks are made. */
  function Refusal(live: LiveState, artifacts: Artifacts, affected: seq<Assignment>, request: Request): Option<RepairError> {
    var inProgress := InProgressOn(live, request.courtId);
    if request.ClosureStart() < artifacts.origin || request.expectedReopenAt <= request.ClosureStart()
       || request.expectedReopenAt > artifacts.finish then Some(InvalidRequest)
    else if request.courtId !in live.courts then Some(UnknownCourt)
    else if exists a :: a in affected && a.contestId in live.contests && live.contests[a.contestId].calledAt.Some?
      then Some(ConflictsCommunicatedPromise)
    else if request.incident.Overrun? && inProgress != {request.incident.sourceContestId} then Some(OverrunRequiresMatchingContest)
    else if request.incident.Outage? && inProgress != {} then Some(OutageRequiresInProgressAuthority)
    else if affected == [] then Some(NoAffectedContest)
    else if exists a :: a in affected && Entrants(live, artifacts, a.contestId).None? then Some(MissingContestRecord)
    else if artifacts.calendars.None? then Some(ScheduleModelUnavailable)
    else if exists a :: a in affected && DefinitionOf(live.definitions, a.contestId).None? then Some(MissingContestRecord)
    else None
  }

  function RepairProblem(live: LiveState, artifacts: Artifacts, current: seq<Assignment>, request: Request): Result<Derived, RepairError> {
    var refusal := Refusal(live, artifacts, Affected(live, request, current), request);
    if refusal.Some? then Failure(refusal.value) else Success(Derive(live, artifacts, current, request))
  }

  function Derive(live: LiveState, artifacts: Artifacts, current: seq<Assignment>, request: Request): Derived {
    var affected := Affected(live, request, current);
    var resources := CourtResources(live, artifacts, request, Busy(live, request, current));
    var pinned := ParticipantBusy(live, artifacts, request, current);
    var resourceIds := Map(resources, (r: Resource) => r.id);
    Derived(
      Problem(Map(affected, a => AffectedTask(live, artifacts, Ids(affected), resourceIds, a))
              + Map(pinned, a => PinnedTask(live, artifacts, a)),
              resources + Map(pinned, a => PinnedResource(artifacts.origin, a)),
              artifacts.restMinutes),
      Map(affected, (a: Assignment) => Placement(a.contestId, a.resourceId, Minute(artifacts.origin, a.start), Minute(artifacts.origin, a.end)))
      + Map(pinned, a => PinnedPlacement(artifacts.origin, a)),
      SortBy(Ids(pinned), StringLeq),
      SortBy(Ids(affected), StringLeq))
  }

  // ---------------------------------------------------------------- what the solver promises

  function FindResource(resources: seq<Resource>, id: string): Option<Resource> {
    if resources == [] then None
    else if resources[0].id == id then Some(resources[0])
    else FindResource(resources[1..], id)
  }

  predicate ResourceAllows(resources: seq<Resource>, p: Placement) {
    var resource := FindResource(resources, p.resourceId);
    && resource.Some?
    && (exists w :: w in resource.value.calendars && w.startMinute <= p.startMinute && p.endMinute <= w.endMinute)
    && (forall w :: w in resource.value.closures ==> !Overlaps(w.startMinute, w.endMinute, p.startMinute, p.endMinute))
  }

  ghost predicate PlacedAsAsked(problem: Problem, p: Placement) {
    exists t :: t in problem.tasks && t.id == p.taskId && p.resourceId in t.eligibleResourceIds
                && p.endMinute == p.startMinute + t.durationMinutes
  }

  ghost predicate Compatible(problem: Problem, p: Placement, q: Placement) {
    && !(p.resourceId == q.resourceId && Overlaps(p.startMinute, p.endMinute, q.startMinute, q.endMinute))
    && (forall t, u, e | t in problem.tasks && u in problem.tasks && t.id == p.taskId && u.id == q.taskId
                         && e in t.participantIds && e in u.participantIds ::
          || p.startMinute >= q.endMinute + problem.minimumRestMinutes
          || q.startMinute >= p.endMinute + problem.minimumRestMinutes)
  }

  /** A placement starts after every dependency of its task has ended. */
  ghost predicate AfterDependencies(problem: Problem, solution: seq<Placement>, p: Placement) {
    forall t, d | t in problem.tasks && t.id == p.taskId && d in t.dependencyIds ::
      exists q :: q in solution && q.taskId == d && p.startMinute >= q.endMinute
  }

  /** A pinned task is placed where the baseline has it. */
  ghost predicate KeepsPin(derived: Derived, p: Placement) {
    forall b | b in derived.baseline && p.taskId == b.taskId && b.taskId in derived.pinnedTaskIds ::
      p.resourceId == b.resourceId && p.startMinute == b.startMinute
  }

  /**
   * A released solution: the problem has distinct tasks, and no hard violation remains (every task is placed
   * once, on an eligible open resource, for its duration, after its dependencies, apart from every other
   * placement, and pinned tasks are where the baseline has them).
   */
  ghost predicate Feasible(derived: Derived, solution: seq<Placement>) {
    var problem := derived.problem;
    && Distinct(Map(problem.tasks, (t: Task) => t.id))
    && |solution| == |problem.tasks| && Distinct(Map(solution, (p: Placement) => p.taskId))
    && (forall p {:trigger PlacedAsAsked(problem, p)} | p in solution :: PlacedAsAsked(problem, p))
    && (forall p {:trigger ResourceAllows(problem.resources, p)} | p in solution :: ResourceAllows(problem.resources, p))
    && (forall p {:trigger AfterDependencies(problem, solution, p)} | p in solution :: AfterDependencies(problem, solution, p))
    && (forall p {:trigger KeepsPin(derived, p)} | p in solution :: KeepsPin(derived, p))
    && (forall i, j {:trigger Compatible(problem, solution[i], solution[j])} | 0 <= i < j < |solution| ::
          Compatible(problem, solution[i], solution[j]))
  }

  predicate Sensible(w: Window) {
    0 <= w.startMinute < w.endMinute
  }

  predicate TaskAccepted(problem: Problem, t: Task) {
    && NonBlank(t.id) && t.durationMinutes > 0 && t.eligibleResourceIds != []
    && (forall id | id in t.eligibleResourceIds :: exists r :: r in problem.resources && r.id == id)
    && forall id | id in t.dependencyIds :: exists u :: u in problem.tasks && u.id == id
  }

  predicate ResourceAccepted(r: Resource) {
    NonBlank(r.id) && r.calendars != [] && forall w | w in r.calendars + r.closures :: Sensible(w)
  }

  predicate BaselineAccepted(problem: Problem, p: Placement) {
    exists t :: t in problem.tasks && t.id == p.taskId && 0 <= p.startMinute && p.endMinute == p.startMinute + t.durationMinutes
  }

  /** Tasks can be put in an order in which each follows what it depends on. */
  ghost predicate Acyclic(problem: Problem) {
    exists rank: string -> nat :: Ordered(problem, rank)
  }

  predicate Ordered(problem: Problem, rank: string -> nat) {
    forall t, id | t in problem.tasks && id in t.dependencyIds :: rank(id) < rank(t.id)
  }

  /** A problem and baseline that the solver does not reject before it searches. */
  ghost predicate Accepted(derived: Derived) {
    var problem := derived.problem;
    && problem.minimumRestMinutes >= 0
    && Distinct(Map(problem.tasks, (t: Task) => t.id)) && Distinct(Map(problem.resources, (r: Resource) => r.id))
    && (forall t {:trigger TaskAccepted(problem, t)} | t in problem.tasks :: TaskAccepted(problem, t))
    && (forall r {:trigger ResourceAccepted(r)} | r in problem.resources :: ResourceAccepted(r))
    && Acyclic(problem)
    && |derived.baseline| == |problem.tasks| && Distinct(Map(derived.baseline, (p: Placement) => p.taskId))
    && (forall p {:trigger BaselineAccepted(problem, p)} | p in derived.baseline :: BaselineAccepted(problem, p))
    && Distinct(derived.pinnedTaskIds) && forall id | id in derived.pinnedTaskIds :: exists t :: t in problem.tasks && t.id == id
  }

  // ---------------------------------------------------------------- merging the answer back

  function PlacementFor(solution: seq<Placement>, id: string): (r: Option<Placement>)
    ensures r.Some? ==> r.value in solution && r.value.taskId == id
    ensures r.None? ==> forall p | p in solution :: p.taskId != id
  {
    if solution == [] then None
    else if solution[|solution| - 1].taskId == id then Some(solution[|solution| - 1])
    else PlacementFor(solution[..|solution| - 1], id)
  }

  function Merged(origin: int, derived: Derived, solution: seq<Placement>, a: Assignment): Assignment {
    var repaired := PlacementFor(solution, a.contestId);
    if a.contestId in derived.affectedIds && repaired.Some?
    then Assignment(a.contestId, repaired.value.resourceId,
                    origin + repaired.value.startMinute * MINUTE, origin + repaired.value.endMinute * MINUTE)
    else a
  }

  predicate PlanLeq(a: Assignment, b: Assignment) {
    a.start < b.start || (a.start == b.start && StringLeq(a.contestId, b.contestId))
  }

  function Merge(origin: int, derived: Derived, current: seq<Assignment>, solution: seq<Placement>): seq<Assignment> {
    SortBy(Map(current, a => Merged(origin, derived, solution, a)), PlanLeq)
  }
}
