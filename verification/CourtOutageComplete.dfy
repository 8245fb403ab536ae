/** When a repair is derived, and that every acceptable rearrangement of the affected contests solves its problem. */
module CourtOutageComplete {
  import opened Wrappers
  import opened Lists
  import opened Ordering
  import opened Sorting
  import opened LiveModel
  import opened CourtOutage
  import opened CourtOutageSoundness
  import opened CourtOutageHours

  // ---------------------------------------------------------------- exactly when a repair is derived

  /** The contest waits to start on the closed court, in a slot that reaches into the closure. */
  predicate Hit(live: LiveState, request: Request, a: Assignment) {
    && a.resourceId == request.courtId
    && a.contestId in live.contests && live.contests[a.contestId].status.Scheduled?
    && a.start < request.expectedReopenAt && a.end > request.ClosureStart()
  }

  /** The contest is in progress on this court: where it was put, or else where it was planned. */
  predicate PlaysOn(live: LiveState, courtId: string, id: string) {
    && id in live.contests && live.contests[id].status.InProgress?
    && match live.contests[id].actualCourtId
       case Some(court) => court == courtId
       case None =>
         match DefinitionOf(live.definitions, id)
         case Some(d) => d.courtId == courtId
         case None => false
  }

  /** The affected contest was not called, and the record and plan know it. */
  predicate MayMove(live: LiveState, artifacts: Artifacts, id: string) {
    && id in live.contests && live.contests[id].calledAt.None? && DefinitionOf(live.definitions, id).Some?
    && (id in live.resolved || id in artifacts.possibleEntrants)
  }

  lemma HitIsAffected(live: LiveState, request: Request, a: Assignment)
    ensures Hit(live, request, a) <==> IsAffected(live, request, a)
  {
  }

  lemma InProgressIs(live: LiveState, courtId: string)
    ensures forall id :: id in InProgressOn(live, courtId) <==> PlaysOn(live, courtId, id)
  {
  }

  /**
   * A repair is derived exactly for a closure within the plan of a declared court, of which some contest waits in the
   * closure and none of those was called, with nothing else in progress there: nothing at all for an outage, and for an
   * overrun just the contest it is about.
   */
  lemma RepairDerivedIff(live: LiveState, artifacts: Artifacts, current: seq<Assignment>, request: Request)
    ensures RepairProblem(live, artifacts, current, request).Success? <==>
              && artifacts.origin <= request.ClosureStart() < request.expectedReopenAt <= artifacts.finish
              && request.courtId in live.courts && artifacts.calendars.Some?
              && (exists a :: a in current && Hit(live, request, a))
              && (forall a | a in current && Hit(live, request, a) :: MayMove(live, artifacts, a.contestId))
              && (forall id :: PlaysOn(live, request.courtId, id) <==> request.incident == Overrun(id))
  {
    var affected := Affected(live, request, current);
    forall a ensures a in affected <==> a in current && Hit(live, request, a) { HitIsAffected(live, request, a); }
    InProgressFits(live, request);
    NotRefusedIff(live, artifacts, affected, request);
  }

  lemma NotRefusedIff(live: LiveState, artifacts: Artifacts, affected: seq<Assignment>, request: Request)
    requires forall a | a in affected :: a.contestId in live.contests
    ensures Refusal(live, artifacts, affected, request).None? <==>
              && artifacts.origin <= request.ClosureStart() < request.expectedReopenAt <= artifacts.finish
              && request.courtId in live.courts && artifacts.calendars.Some?
              && (exists a :: a in affected) && (forall a | a in affected :: MayMove(live, artifacts, a.contestId))
              && InProgressOn(live, request.courtId) == AboutContests(request)
  {
    if affected != [] { assert affected[0] in affected; }
  }

  /** The contests that may be in progress on the court. */
  function AboutContests(request: Request): set<string> {
    if request.incident.Overrun? then {request.incident.sourceContestId} else {}
  }

  lemma InProgressFits(live: LiveState, request: Request)
    ensures InProgressOn(live, request.courtId) == AboutContests(request) <==>
              forall id :: PlaysOn(live, request.courtId, id) <==> request.incident == Overrun(id)
  {
    InProgressIs(live, request.courtId);
    forall id ensures id in AboutContests(request) <==> request.incident == Overrun(id) {
    }
  }

  // ---------------------------------------------------------------- solutions, task by task

  /** Two placements leave the minimum between their shared participants and do not hold one resource at once. */
  predicate Apart(problem: Problem, t: Task, p: Placement, u: Task, q: Placement) {
    && !(p.resourceId == q.resourceId && Overlaps(p.startMinute, p.endMinute, q.startMinute, q.endMinute))
    && ((exists e :: e in t.participantIds && e in u.participantIds) ==>
          || p.startMinute >= q.endMinute + problem.minimumRestMinutes
          || q.startMinute >= p.endMinute + problem.minimumRestMinutes)
  }

  /** The placement of one task by itself. */
  predicate Fits(derived: Derived, i: nat, p: Placement)
    requires i < |derived.problem.tasks| && |derived.baseline| == |derived.problem.tasks|
  {
    var t, b := derived.problem.tasks[i], derived.baseline[i];
    && p.taskId == t.id == b.taskId && p.resourceId in t.eligibleResourceIds && p.endMinute == p.startMinute + t.durationMinutes
    && ResourceAllows(derived.problem.resources, p)
    && (t.id in derived.pinnedTaskIds ==> p.resourceId == b.resourceId && p.startMinute == b.startMinute)
  }

  ghost predicate Waited(derived: Derived, solution: seq<Placement>, i: nat)
    requires i < |derived.problem.tasks| && |solution| == |derived.problem.tasks|
  {
    forall d | d in derived.problem.tasks[i].dependencyIds ::
      exists j | 0 <= j < |solution| :: solution[j].taskId == d && solution[i].startMinute >= solution[j].endMinute
  }

  /** A placement for each task in turn, each fitting, waiting for its dependencies, and apart from the others. */
  ghost predicate InTurn(derived: Derived, solution: seq<Placement>) {
    var tasks := derived.problem.tasks;
    && |derived.baseline| == |tasks| == |solution| && Distinct(Map(tasks, (t: Task) => t.id))
    && (forall i {:trigger Fits(derived, i, solution[i])} | 0 <= i < |tasks| :: Fits(derived, i, solution[i]))
    && (forall i {:trigger Waited(derived, solution, i)} | 0 <= i < |tasks| :: Waited(derived, solution, i))
    && (forall i, j {:trigger Apart(derived.problem, tasks[i], solution[i], tasks[j], solution[j])} | 0 <= i < j < |tasks| ::
          Apart(derived.problem, tasks[i], solution[i], tasks[j], solution[j]))
  }

  lemma SameTask(tasks: seq<Task>, t: Task, i: nat)
    requires Distinct(Map(tasks, (t: Task) => t.id)) && i < |tasks| && t in tasks && t.id == tasks[i].id
    ensures t == tasks[i]
  {
    var k :| 0 <= k < |tasks| && tasks[k] == t;
    var ids := Map(tasks, (t: Task) => t.id);
    assert ids[k] == ids[i];
  }

  lemma InTurnPlaces(derived: Derived, solution: seq<Placement>, i: nat)
    requires InTurn(derived, solution) && i < |solution|
    ensures PlacedAsAsked(derived.problem, solution[i]) && ResourceAllows(derived.problem.resources, solution[i])
    ensures KeepsPin(derived, solution[i])
  {
    assert Fits(derived, i, solution[i]);
    assert derived.problem.tasks[i] in derived.problem.tasks;
    forall b | b in derived.baseline && solution[i].taskId == b.taskId && b.taskId in derived.pinnedTaskIds
      ensures solution[i].resourceId == b.resourceId && solution[i].startMinute == b.startMinute
    {
      var k :| 0 <= k < |derived.baseline| && derived.baseline[k] == b;
      assert Fits(derived, k, solution[k]);
      SameTask(derived.problem.tasks, derived.problem.tasks[k], i);
      SameIndex(derived.problem.tasks, k, i);
    }
  }

  lemma SameIndex(tasks: seq<Task>, k: nat, i: nat)
    requires Distinct(Map(tasks, (t: Task) => t.id)) && k < |tasks| && i < |tasks| && tasks[k].id == tasks[i].id
    ensures k == i
  {
    var ids := Map(tasks, (t: Task) => t.id);
    assert ids[k] == tasks[k].id && ids[i] == tasks[i].id;
  }

  lemma InTurnWaits(derived: Derived, solution: seq<Placement>, i: nat)
    requires InTurn(derived, solution) && i < |solution|
    ensures AfterDependencies(derived.problem, solution, solution[i])
  {
    assert Fits(derived, i, solution[i]) && Waited(derived, solution, i);
    forall t, d | t in derived.problem.tasks && t.id == solution[i].taskId && d in t.dependencyIds
      ensures exists q :: q in solution && q.taskId == d && solution[i].startMinute >= q.endMinute
    {
      SameTask(derived.problem.tasks, t, i);
      var j :| 0 <= j < |solution| && solution[j].taskId == d && solution[i].startMinute >= solution[j].endMinute;
      assert solution[j] in solution;
    }
  }

  lemma InTurnApart(derived: Derived, solution: seq<Placement>, i: nat, j: nat)
    requires InTurn(derived, solution) && i < j < |solution|
    ensures Compatible(derived.problem, solution[i], solution[j])
  {
    var tasks := derived.problem.tasks;
    assert Fits(derived, i, solution[i]) && Fits(derived, j, solution[j]);
    assert Apart(derived.problem, tasks[i], solution[i], tasks[j], solution[j]);
    forall t, u, e | t in tasks && u in tasks && t.id == solution[i].taskId && u.id == solution[j].taskId
                     && e in t.participantIds && e in u.participantIds
      ensures || solution[i].startMinute >= solution[j].endMinute + derived.problem.minimumRestMinutes
              || solution[j].startMinute >= solution[i].endMinute + derived.problem.minimumRestMinutes
    {
      SameTask(tasks, t, i);
      SameTask(tasks, u, j);
    }
  }

  /** Placing every task in turn solves the problem. */
  lemma InTurnSolves(derived: Derived, solution: seq<Placement>)
    requires InTurn(derived, solution)
    ensures Feasible(derived, solution)
  {
    var tasks := derived.problem.tasks;
    var ids := Map(solution, (p: Placement) => p.taskId);
    forall i | 0 <= i < |solution| ensures ids[i] == Map(tasks, (t: Task) => t.id)[i] {
      assert Fits(derived, i, solution[i]);
    }
    assert ids == Map(tasks, (t: Task) => t.id);
    forall p | p in solution
      ensures PlacedAsAsked(derived.problem, p) && ResourceAllows(derived.problem.resources, p)
      ensures AfterDependencies(derived.problem, solution, p) && KeepsPin(derived, p)
    {
      var i :| 0 <= i < |solution| && solution[i] == p;
      InTurnPlaces(derived, solution, i);
      InTurnWaits(derived, solution, i);
    }
    forall i, j | 0 <= i < j < |solution| ensures Compatible(derived.problem, solution[i], solution[j]) {
      InTurnApart(derived, solution, i, j);
    }
  }

  // ---------------------------------------------------------------- acceptable rearrangements

  /** The affected contest in its new slot: as long as before, on a court that is open, free and not closed. */
  predicate MovesTo(live: LiveState, artifacts: Artifacts, current: seq<Assignment>, request: Request, a: Assignment, p: Placement) {
    var origin := artifacts.origin;
    && p.taskId == a.contestId && (p.endMinute - p.startMinute) * MINUTE == a.end - a.start
    && p.resourceId in live.courts && DeclaredOpen(artifacts, p.resourceId, p.startMinute, p.endMinute)
    && Minute(origin, request.ClosureStart()) <= p.startMinute && p.endMinute <= Minute(origin, artifacts.finish)
    && CourtFree(live, origin, request, current, p) && OffClosure(origin, request, p)
  }

  /** The minutes leave the hard rest. */
  predicate RestedMinutes(rest: nat, start: int, end: int, otherStart: int, otherEnd: int) {
    start >= otherEnd + rest || otherStart >= end + rest
  }

  /** The new slot leaves the hard rest from a contest that stays and shares an entrant, an overrunning one until its reported end. */
  ghost predicate RestsFromStaying(live: LiveState, artifacts: Artifacts, current: seq<Assignment>, request: Request, p: Placement) {
    forall b | b in current && !IsAffected(live, request, b) && Shares(live, artifacts, p.taskId, b.contestId) ::
      RestedMinutes(artifacts.restMinutes, p.startMinute, p.endMinute,
                    Minute(artifacts.origin, b.start), Minute(artifacts.origin, HeldUntil(request, b)))
  }

  /** The contest stays, and shares an entrant with an affected one. */
  ghost predicate Bound(live: LiveState, artifacts: Artifacts, current: seq<Assignment>, request: Request, b: Assignment) {
    && b in current && !IsAffected(live, request, b)
    && exists a :: a in current && IsAffected(live, request, a) && Shares(live, artifacts, a.contestId, b.contestId)
  }

  /** The contests that stay, and share entrants with affected ones and each other, are rested as they are. */
  ghost predicate StayingRested(live: LiveState, artifacts: Artifacts, current: seq<Assignment>, request: Request) {
    forall b, c | Bound(live, artifacts, current, request, b) && Bound(live, artifacts, current, request, c)
                  && b.contestId != c.contestId && Shares(live, artifacts, b.contestId, c.contestId) ::
      RestedMinutes(artifacts.restMinutes, Minute(artifacts.origin, b.start), Minute(artifacts.origin, HeldUntil(request, b)),
                    Minute(artifacts.origin, c.start), Minute(artifacts.origin, HeldUntil(request, c)))
  }

  /** The two do not hold a court at once, and are rested if they share an entrant. */
  ghost predicate PairKept(live: LiveState, artifacts: Artifacts, p: Placement, q: Placement) {
    && !(p.resourceId == q.resourceId && Overlaps(p.startMinute, p.endMinute, q.startMinute, q.endMinute))
    && (Shares(live, artifacts, p.taskId, q.taskId) ==>
          RestedMinutes(artifacts.restMinutes, p.startMinute, p.endMinute, q.startMinute, q.endMinute))
  }

  /** Two moved contests keep this between them, and come in the order they depend on each other. */
  ghost predicate KeptApart(live: LiveState, artifacts: Artifacts, p: Placement, q: Placement) {
    && PairKept(live, artifacts, p, q)
    && (DependsOn(live, p.taskId, q.taskId) ==> p.startMinute >= q.endMinute)
    && (DependsOn(live, q.taskId, p.taskId) ==> q.startMinute >= p.endMinute)
  }

  /** A new slot for each affected contest in turn that keeps everything a repair keeps. */
  ghost predicate Acceptable(live: LiveState, artifacts: Artifacts, current: seq<Assignment>, request: Request, moved: seq<Placement>) {
    var affected := Affected(live, request, current);
    && |moved| == |affected|
    && (forall i {:trigger MovesTo(live, artifacts, current, request, affected[i], moved[i])} | 0 <= i < |moved| ::
          MovesTo(live, artifacts, current, request, affected[i], moved[i]) && RestsFromStaying(live, artifacts, current, request, moved[i])
          && !DependsOn(live, moved[i].taskId, moved[i].taskId))
    && (forall i, j {:trigger KeptApart(live, artifacts, moved[i], moved[j])} | 0 <= i < j < |moved| ::
          KeptApart(live, artifacts, moved[i], moved[j]))
  }

  /** No court is named as the repair problem names what it pins. */
  predicate PlainCourts(live: LiveState, current: seq<Assignment>) {
    forall id, b | id in live.courts && b in current :: id != PinnedResourceId(b.contestId)
  }

  // ---------------------------------------------------------------- the problem, task by task

  function Pins(live: LiveState, artifacts: Artifacts, current: seq<Assignment>, request: Request): seq<Assignment> {
    ParticipantBusy(live, artifacts, request, current)
  }

  /** The first tasks are the affected contests'. */
  lemma AffectedTaskAt(live: LiveState, artifacts: Artifacts, current: seq<Assignment>, request: Request, i: nat)
    requires i < |Affected(live, request, current)|
    ensures var derived, affected := Derive(live, artifacts, current, request), Affected(live, request, current);
            && i < |derived.problem.tasks| == |derived.baseline|
            && derived.problem.tasks[i]
               == AffectedTask(live, artifacts, Ids(affected), CourtIds(live, artifacts, current, request), affected[i])
            && derived.baseline[i].taskId == affected[i].contestId
  {
  }

  /** The others are the pinned ones'. */
  lemma PinTaskAt(live: LiveState, artifacts: Artifacts, current: seq<Assignment>, request: Request, k: nat)
    requires k < |Pins(live, artifacts, current, request)|
    ensures var derived, i := Derive(live, artifacts, current, request), |Affected(live, request, current)| + k;
            && i < |derived.problem.tasks| == |derived.baseline|
            && derived.problem.tasks[i] == PinnedTask(live, artifacts, Pins(live, artifacts, current, request)[k])
            && derived.baseline[i] == PinnedPlacement(artifacts.origin, Pins(live, artifacts, current, request)[k])
  {
  }

  lemma TaskCount(live: LiveState, artifacts: Artifacts, current: seq<Assignment>, request: Request)
    ensures var derived := Derive(live, artifacts, current, request);
            |derived.problem.tasks| == |derived.baseline| == |Affected(live, request, current)| + |Pins(live, artifacts, current, request)|
  {
  }

  /** What every task says of its contest. */
  predicate Says(live: LiveState, artifacts: Artifacts, t: Task, b: Placement) {
    b.taskId == t.id && t.participantIds == SortedEntrants(live, artifacts, t.id)
  }

  lemma AffectedTaskSays(live: LiveState, artifacts: Artifacts, current: seq<Assignment>, request: Request, derived: Derived, i: nat)
    requires derived == Derive(live, artifacts, current, request) && i < |Affected(live, request, current)|
    ensures i < |derived.problem.tasks| == |derived.baseline| && Says(live, artifacts, derived.problem.tasks[i], derived.baseline[i])
  {
    AffectedTaskAt(live, artifacts, current, request, i);
  }

  lemma PinTaskSays(live: LiveState, artifacts: Artifacts, current: seq<Assignment>, request: Request, derived: Derived, i: nat, k: nat)
    requires derived == Derive(live, artifacts, current, request)
    requires k < |Pins(live, artifacts, current, request)| && i == |Affected(live, request, current)| + k
    ensures i < |derived.problem.tasks| == |derived.baseline| && Says(live, artifacts, derived.problem.tasks[i], derived.baseline[i])
    ensures derived.problem.tasks[i].dependencyIds == []
  {
    PinTaskAt(live, artifacts, current, request, k);
  }

  /** Each task in turn is an affected contest's or a pinned one's. */
  lemma TaskAt(live: LiveState, artifacts: Artifacts, current: seq<Assignment>, request: Request, derived: Derived, i: nat)
    requires derived == Derive(live, artifacts, current, request) && i < |derived.problem.tasks|
    ensures |derived.baseline| == |derived.problem.tasks| && Says(live, artifacts, derived.problem.tasks[i], derived.baseline[i])
    ensures i >= |Affected(live, request, current)| ==> derived.problem.tasks[i].dependencyIds == []
  {
    TaskCount(live, artifacts, current, request);
    if i < |Affected(live, request, current)| {
      AffectedTaskSays(live, artifacts, current, request, derived, i);
    } else {
      PinTaskSays(live, artifacts, current, request, derived, i, i - |Affected(live, request, current)|);
    }
  }

  lemma PinIs(live: LiveState, artifacts: Artifacts, current: seq<Assignment>, request: Request, c: Assignment)
    returns (b: Assignment)
    requires SoundPlan(artifacts.origin, current) && c in Pins(live, artifacts, current, request)
    ensures Bound(live, artifacts, current, request, b) && c == b.(end := HeldUntil(request, b))
  {
    BusyIs(live, current, request, c);
    b :| b in current && !IsAffected(live, request, b) && c == b.(end := HeldUntil(request, b));
    var participants := AffectedParticipants(live, artifacts, Affected(live, request, current));
    var e :| e in Entrants(live, artifacts, c.contestId).GetOr([]) && e in participants;
    var a := ParticipantOf(live, artifacts, Affected(live, request, current), e);
    assert Shares(live, artifacts, a.contestId, b.contestId);
  }

  lemma {:induction false} ParticipantOf(live: LiveState, artifacts: Artifacts, affected: seq<Assignment>, e: string) returns (a: Assignment)
    requires e in AffectedParticipants(live, artifacts, affected)
    ensures a in affected && e in Entrants(live, artifacts, a.contestId).GetOr([])
  {
    if e in Entrants(live, artifacts, affected[0].contestId).GetOr([]) {
      a := affected[0];
    } else {
      a := ParticipantOf(live, artifacts, affected[1..], e);
    }
  }

  lemma IdsKept(plan: seq<Assignment>, request: Request)
    ensures Ids(Map(plan, a => Occupied(request, a))) == Ids(plan)
  {
  }

  lemma PinsDistinct(live: LiveState, artifacts: Artifacts, current: seq<Assignment>, request: Request)
    requires SoundPlan(artifacts.origin, current)
    ensures Distinct(Ids(Affected(live, request, current))) && Distinct(Ids(Pins(live, artifacts, current, request)))
  {
    var id := (a: Assignment) => a.contestId;
    var affectedIds := Ids(Affected(live, request, current));
    var staying := Filter(current, (a: Assignment) => a.contestId !in affectedIds);
    var participants := AffectedParticipants(live, artifacts, Affected(live, request, current));
    FilterKeepsDistinct(current, a => IsAffected(live, request, a), id);
    FilterKeepsDistinct(current, (a: Assignment) => a.contestId !in affectedIds, id);
    IdsKept(staying, request);
    FilterKeepsDistinct(Busy(live, request, current), a => SharesParticipant(live, artifacts, participants, a), id);
  }

  function PinnedTasks(live: LiveState, artifacts: Artifacts, pins: seq<Assignment>): seq<Task> {
    Map(pins, a => PinnedTask(live, artifacts, a))
  }

  function AffectedTasks(live: LiveState, artifacts: Artifacts, affected: seq<Assignment>, courtIds: seq<string>): seq<Task> {
    Map(affected, a => AffectedTask(live, artifacts, Ids(affected), courtIds, a))
  }

  lemma TasksAre(live: LiveState, artifacts: Artifacts, current: seq<Assignment>, request: Request)
    ensures Derive(live, artifacts, current, request).problem.tasks
            == AffectedTasks(live, artifacts, Affected(live, request, current), CourtIds(live, artifacts, current, request))
               + PinnedTasks(live, artifacts, Pins(live, artifacts, current, request))
  {
  }

  lemma IdsTogether(a: seq<Task>, b: seq<Task>)
    ensures Map(a + b, (t: Task) => t.id) == Map(a, (t: Task) => t.id) + Map(b, (t: Task) => t.id)
  {
  }

  lemma TasksNameContests(live: LiveState, artifacts: Artifacts, affected: seq<Assignment>, courtIds: seq<string>, pins: seq<Assignment>)
    ensures Map(AffectedTasks(live, artifacts, affected, courtIds), (t: Task) => t.id) == Ids(affected)
    ensures Map(PinnedTasks(live, artifacts, pins), (t: Task) => t.id) == Ids(pins)
  {
  }

  lemma TaskIds(live: LiveState, artifacts: Artifacts, current: seq<Assignment>, request: Request)
    ensures Map(Derive(live, artifacts, current, request).problem.tasks, (t: Task) => t.id)
            == Ids(Affected(live, request, current)) + Ids(Pins(live, artifacts, current, request))
  {
    var affected, pins := Affected(live, request, current), Pins(live, artifacts, current, request);
    var courtIds := CourtIds(live, artifacts, current, request);
    TasksAre(live, artifacts, current, request);
    IdsTogether(AffectedTasks(live, artifacts, affected, courtIds), PinnedTasks(live, artifacts, pins));
    TasksNameContests(live, artifacts, affected, courtIds, pins);
  }

  lemma DistinctTogether(a: seq<string>, b: seq<string>)
    requires Distinct(a) && Distinct(b) && forall i, j | 0 <= i < |a| && 0 <= j < |b| :: a[i] != b[j]
    ensures Distinct(a + b)
  {
  }

  lemma TasksDistinct(live: LiveState, artifacts: Artifacts, current: seq<Assignment>, request: Request)
    requires SoundPlan(artifacts.origin, current)
    ensures Distinct(Map(Derive(live, artifacts, current, request).problem.tasks, (t: Task) => t.id))
  {
    var affected, pins := Affected(live, request, current), Pins(live, artifacts, current, request);
    PinsDistinct(live, artifacts, current, request);
    TaskIds(live, artifacts, current, request);
    forall i, j | 0 <= i < |affected| && 0 <= j < |pins| ensures Ids(affected)[i] != Ids(pins)[j] {
      assert affected[i] in affected && pins[j] in pins;
      PinnedIsUnaffected(live, artifacts, current, request, affected[i], pins[j]);
    }
    DistinctTogether(Ids(affected), Ids(pins));
  }

  lemma PinnedIds(live: LiveState, artifacts: Artifacts, current: seq<Assignment>, request: Request, a: Assignment)
    requires SoundPlan(artifacts.origin, current) && a in current && IsAffected(live, request, a)
    ensures a.contestId !in Derive(live, artifacts, current, request).pinnedTaskIds
  {
    var pins := Pins(live, artifacts, current, request);
    SortKeepsElements(Ids(pins), StringLeq);
    if a.contestId in Ids(pins) {
      var i :| 0 <= i < |pins| && Ids(pins)[i] == a.contestId;
      assert pins[i] in pins;
      PinnedIsUnaffected(live, artifacts, current, request, a, pins[i]);
    }
  }

  lemma MovedFits(live: LiveState, artifacts: Artifacts, current: seq<Assignment>, request: Request, derived: Derived, i: nat, p: Placement)
    requires derived == Derive(live, artifacts, current, request)
    requires SoundPlan(artifacts.origin, current) && artifacts.origin <= request.ClosureStart()
    requires i < |Affected(live, request, current)| && MovesTo(live, artifacts, current, request, Affected(live, request, current)[i], p)
    ensures i < |derived.problem.tasks| == |derived.baseline| && Fits(derived, i, p)
  {
    var affected, a := Affected(live, request, current), Affected(live, request, current)[i];
    assert a in affected;
    AffectedTaskAt(live, artifacts, current, request, i);
    MovedIsLet(live, artifacts, current, request, a, p);
    PinnedIds(live, artifacts, current, request, a);
    MovedTaskFits(live, artifacts, Ids(affected), CourtIds(live, artifacts, current, request), a, derived, i, p);
  }

  lemma MovedTaskFits(live: LiveState, artifacts: Artifacts, affectedIds: seq<string>, courtIds: seq<string>, a: Assignment,
                      derived: Derived, i: nat, p: Placement)
    requires i < |derived.problem.tasks| == |derived.baseline| && derived.baseline[i].taskId == a.contestId
    requires derived.problem.tasks[i] == AffectedTask(live, artifacts, affectedIds, courtIds, a)
    requires p.taskId == a.contestId && p.resourceId in courtIds && (p.endMinute - p.startMinute) * MINUTE == a.end - a.start
    requires ResourceAllows(derived.problem.resources, p) && a.contestId !in derived.pinnedTaskIds
    ensures Fits(derived, i, p)
  {
    WholeLength(a.end - a.start, p.endMinute - p.startMinute);
    TaskFits(derived, i, p);
  }

  lemma MovedIsLet(live: LiveState, artifacts: Artifacts, current: seq<Assignment>, request: Request, a: Assignment, p: Placement)
    requires SoundPlan(artifacts.origin, current) && artifacts.origin <= request.ClosureStart()
    requires a in current && IsAffected(live, request, a) && MovesTo(live, artifacts, current, request, a, p)
    ensures p.resourceId in CourtIds(live, artifacts, current, request)
    ensures ResourceAllows(Derive(live, artifacts, current, request).problem.resources, p)
  {
    assert OnMinutes(artifacts.origin, a);
    LetsExactlyOpenCourts(live, artifacts, current, request, a, p);
    OnlyItsTask(live, artifacts, current, request, a, p.resourceId);
  }

  lemma TaskFits(derived: Derived, i: nat, p: Placement)
    requires i < |derived.problem.tasks| == |derived.baseline|
    requires p.taskId == derived.problem.tasks[i].id == derived.baseline[i].taskId && ResourceAllows(derived.problem.resources, p)
    requires p.resourceId in derived.problem.tasks[i].eligibleResourceIds
    requires p.endMinute == p.startMinute + derived.problem.tasks[i].durationMinutes
    requires p.taskId in derived.pinnedTaskIds ==> p == derived.baseline[i]
    ensures Fits(derived, i, p)
  {
  }

  lemma WholeLength(length: int, minutes: int)
    requires minutes * MINUTE == length
    ensures (length + 30_000) / MINUTE == minutes
  {
  }

  lemma {:induction false} FindBehind(front: seq<Resource>, rest: seq<Resource>, id: string)
    requires forall r | r in front :: r.id != id
    ensures FindResource(front + rest, id) == FindResource(rest, id)
  {
    if front == [] {
      assert front + rest == rest;
    } else {
      assert (front + rest)[1..] == front[1..] + rest;
      FindBehind(front[1..], rest, id);
    }
  }

  lemma {:induction false} FindPin(origin: int, pins: seq<Assignment>, k: nat)
    requires k < |pins| && Distinct(Ids(pins))
    ensures FindResource(Map(pins, a => PinnedResource(origin, a)), PinnedResourceId(pins[k].contestId)) == Some(PinnedResource(origin, pins[k]))
  {
    var resources := Map(pins, a => PinnedResource(origin, a));
    assert resources[0] == PinnedResource(origin, pins[0]);
    if k > 0 {
      assert Ids(pins)[0] != Ids(pins)[k];
      DifferentPins(pins[0].contestId, pins[k].contestId);
      assert resources[1..] == Map(pins[1..], a => PinnedResource(origin, a));
      forall i, j | 0 <= i < j < |pins[1..]| ensures Ids(pins[1..])[i] != Ids(pins[1..])[j] {
        assert Ids(pins)[i + 1] != Ids(pins)[j + 1];
      }
      FindPin(origin, pins[1..], k - 1);
    }
  }

  lemma DifferentPins(id: string, other: string)
    requires id != other
    ensures PinnedResourceId(id) != PinnedResourceId(other)
  {
    assert PinnedResourceId(id)[15..] == id && PinnedResourceId(other)[15..] == other;
  }

  lemma PinPlaced(live: LiveState, artifacts: Artifacts, current: seq<Assignment>, request: Request, k: nat)
    requires SoundPlan(artifacts.origin, current) && PlainCourts(live, current) && k < |Pins(live, artifacts, current, request)|
    ensures ResourceAllows(Derive(live, artifacts, current, request).problem.resources,
                           PinnedPlacement(artifacts.origin, Pins(live, artifacts, current, request)[k]))
  {
    var pins, busy := Pins(live, artifacts, current, request), Busy(live, request, current);
    var courts, id := CourtResources(live, artifacts, request, busy), PinnedResourceId(pins[k].contestId);
    assert pins[k] in pins;
    var b := PinIs(live, artifacts, current, request, pins[k]);
    forall r | r in courts ensures r.id != id { CourtResourceOf(live, artifacts, request, busy, r); }
    FindBehind(courts, Map(pins, a => PinnedResource(artifacts.origin, a)), id);
    PinsDistinct(live, artifacts, current, request);
    FindPin(artifacts.origin, pins, k);
    PinOffered(artifacts.origin, pins[k]);
  }

  lemma PinOffered(origin: int, c: Assignment)
    ensures Offers(PinnedResource(origin, c), PinnedPlacement(origin, c))
  {
    assert PinnedResource(origin, c).calendars[0] in PinnedResource(origin, c).calendars;
  }

  lemma PinnedTaskFits(live: LiveState, artifacts: Artifacts, derived: Derived, i: nat, c: Assignment)
    requires i < |derived.problem.tasks| == |derived.baseline|
    requires derived.problem.tasks[i] == PinnedTask(live, artifacts, c) && derived.baseline[i] == PinnedPlacement(artifacts.origin, c)
    requires ResourceAllows(derived.problem.resources, PinnedPlacement(artifacts.origin, c))
    ensures Fits(derived, i, PinnedPlacement(artifacts.origin, c))
  {
  }

  lemma PinFits(live: LiveState, artifacts: Artifacts, current: seq<Assignment>, request: Request, derived: Derived,
                pins: seq<Assignment>, k: nat)
    requires derived == Derive(live, artifacts, current, request) && pins == Pins(live, artifacts, current, request) && k < |pins|
    requires SoundPlan(artifacts.origin, current) && PlainCourts(live, current)
    ensures var i := |Affected(live, request, current)| + k;
            i < |derived.problem.tasks| == |derived.baseline| && Fits(derived, i, PinnedPlacement(artifacts.origin, pins[k]))
  {
    PinTaskAt(live, artifacts, current, request, k);
    PinPlaced(live, artifacts, current, request, k);
    PinnedTaskFits(live, artifacts, derived, |Affected(live, request, current)| + k, pins[k]);
  }

  // ---------------------------------------------------------------- an acceptable rearrangement solves the problem

  /** The pinned contests where they are. */
  function PinnedSlots(origin: int, pins: seq<Assignment>): (r: seq<Placement>)
    ensures |r| == |pins| && forall k | 0 <= k < |pins| :: r[k] == PinnedPlacement(origin, pins[k])
  {
    Map(pins, a => PinnedPlacement(origin, a))
  }

  /** The moved contests in their new slots, and the pinned ones where they are. */
  function Answer(live: LiveState, artifacts: Artifacts, current: seq<Assignment>, request: Request, moved: seq<Placement>): seq<Placement> {
    moved + PinnedSlots(artifacts.origin, Pins(live, artifacts, current, request))
  }

  lemma MovedAt(live: LiveState, artifacts: Artifacts, current: seq<Assignment>, request: Request, moved: seq<Placement>, i: nat)
    requires Acceptable(live, artifacts, current, request, moved) && i < |moved|
    ensures i < |Affected(live, request, current)| && MovesTo(live, artifacts, current, request, Affected(live, request, current)[i], moved[i])
    ensures RestsFromStaying(live, artifacts, current, request, moved[i]) && !DependsOn(live, moved[i].taskId, moved[i].taskId)
    ensures moved[i].taskId == Affected(live, request, current)[i].contestId && moved[i].resourceId in live.courts
  {
    assert MovesTo(live, artifacts, current, request, Affected(live, request, current)[i], moved[i]);
  }

  /** These placements fit the tasks from the nth on. */
  ghost predicate FitFrom(derived: Derived, n: nat, placements: seq<Placement>) {
    && n + |placements| <= |derived.problem.tasks| == |derived.baseline|
    && forall k {:trigger placements[k]} | 0 <= k < |placements| :: Fits(derived, n + k, placements[k])
  }

  lemma AllMovedFit(live: LiveState, artifacts: Artifacts, current: seq<Assignment>, request: Request, derived: Derived, moved: seq<Placement>)
    requires derived == Derive(live, artifacts, current, request)
    requires SoundPlan(artifacts.origin, current) && artifacts.origin <= request.ClosureStart()
    requires Acceptable(live, artifacts, current, request, moved)
    ensures FitFrom(derived, 0, moved)
  {
    TaskCount(live, artifacts, current, request);
    forall k | 0 <= k < |moved| ensures Fits(derived, 0 + k, moved[k]) {
      MovedAt(live, artifacts, current, request, moved, k);
      MovedFits(live, artifacts, current, request, derived, k, moved[k]);
    }
  }

  lemma AllPinsFit(live: LiveState, artifacts: Artifacts, current: seq<Assignment>, request: Request, derived: Derived, pinned: seq<Placement>)
    requires derived == Derive(live, artifacts, current, request)
    requires pinned == PinnedSlots(artifacts.origin, Pins(live, artifacts, current, request))
    requires SoundPlan(artifacts.origin, current) && PlainCourts(live, current)
    ensures FitFrom(derived, |Affected(live, request, current)|, pinned)
  {
    TaskCount(live, artifacts, current, request);
    forall k | 0 <= k < |pinned| ensures Fits(derived, |Affected(live, request, current)| + k, pinned[k]) {
      PinFits(live, artifacts, current, request, derived, Pins(live, artifacts, current, request), k);
    }
  }

  lemma TogetherFit(derived: Derived, moved: seq<Placement>, pinned: seq<Placement>)
    requires FitFrom(derived, 0, moved) && FitFrom(derived, |moved|, pinned)
    ensures FitFrom(derived, 0, moved + pinned)
  {
    var all := moved + pinned;
    forall k | 0 <= k < |all| ensures Fits(derived, 0 + k, all[k]) {
      if k < |moved| {
        assert all[k] == moved[k];
      } else {
        assert all[k] == pinned[k - |moved|];
      }
    }
  }

  lemma AnswerFits(live: LiveState, artifacts: Artifacts, current: seq<Assignment>, request: Request, derived: Derived, moved: seq<Placement>)
    requires derived == Derive(live, artifacts, current, request)
    requires SoundPlan(artifacts.origin, current) && artifacts.origin <= request.ClosureStart() && PlainCourts(live, current)
    requires Acceptable(live, artifacts, current, request, moved)
    ensures FitFrom(derived, 0, Answer(live, artifacts, current, request, moved))
  {
    var pinned := PinnedSlots(artifacts.origin, Pins(live, artifacts, current, request));
    AllMovedFit(live, artifacts, current, request, derived, moved);
    AllPinsFit(live, artifacts, current, request, derived, pinned);
    TogetherFit(derived, moved, pinned);
  }

  lemma SlotWaits(live: LiveState, artifacts: Artifacts, current: seq<Assignment>, request: Request, derived: Derived,
                  moved: seq<Placement>, answer: seq<Placement>, i: nat)
    requires derived == Derive(live, artifacts, current, request) && Acceptable(live, artifacts, current, request, moved)
    requires i < |derived.problem.tasks| == |answer| && moved <= answer
    ensures Waited(derived, answer, i)
  {
    forall d | d in derived.problem.tasks[i].dependencyIds
      ensures exists j | 0 <= j < |answer| :: answer[j].taskId == d && answer[i].startMinute >= answer[j].endMinute
    {
      TaskWaitsFor(live, artifacts, current, request, derived, i, d);
      var j := MovedBefore(live, artifacts, current, request, moved, i, d);
      assert answer[j] == moved[j] && answer[i] == moved[i];
    }
  }

  /** Only moved contests wait, for moved contests that they depend on. */
  lemma TaskWaitsFor(live: LiveState, artifacts: Artifacts, current: seq<Assignment>, request: Request, derived: Derived, i: nat, d: string)
    requires derived == Derive(live, artifacts, current, request) && i < |derived.problem.tasks| && d in derived.problem.tasks[i].dependencyIds
    ensures i < |Affected(live, request, current)| && d in Ids(Affected(live, request, current))
    ensures DependsOn(live, Affected(live, request, current)[i].contestId, d)
  {
    TaskAt(live, artifacts, current, request, derived, i);
    AffectedTaskAt(live, artifacts, current, request, i);
  }

  lemma MovedBefore(live: LiveState, artifacts: Artifacts, current: seq<Assignment>, request: Request, moved: seq<Placement>, i: nat, d: string)
    returns (j: nat)
    requires Acceptable(live, artifacts, current, request, moved) && i < |moved| && d in Ids(Affected(live, request, current))
    requires DependsOn(live, Affected(live, request, current)[i].contestId, d)
    ensures j < |moved| && moved[j].taskId == d && moved[i].startMinute >= moved[j].endMinute
  {
    var ids := Ids(Affected(live, request, current));
    j :| 0 <= j < |ids| && ids[j] == d;
    MovedAt(live, artifacts, current, request, moved, i);
    MovedAt(live, artifacts, current, request, moved, j);
    if i < j { assert KeptApart(live, artifacts, moved[i], moved[j]); }
    else if j < i { assert KeptApart(live, artifacts, moved[j], moved[i]); }
  }

  lemma ApartIf(live: LiveState, artifacts: Artifacts, problem: Problem, t: Task, p: Placement, u: Task, q: Placement)
    requires problem.minimumRestMinutes == artifacts.restMinutes
    requires t.participantIds == SortedEntrants(live, artifacts, p.taskId) && u.participantIds == SortedEntrants(live, artifacts, q.taskId)
    requires PairKept(live, artifacts, p, q)
    ensures Apart(problem, t, p, u, q)
  {
    SortKeepsElements(Entrants(live, artifacts, p.taskId).GetOr([]), StringLeq);
    SortKeepsElements(Entrants(live, artifacts, q.taskId).GetOr([]), StringLeq);
  }

  /** A moved contest and a pinned one. */
  lemma MovedFromPin(live: LiveState, artifacts: Artifacts, current: seq<Assignment>, request: Request, p: Placement, c: Assignment)
    requires SoundPlan(artifacts.origin, current) && PlainCourts(live, current) && c in Pins(live, artifacts, current, request)
    requires p.resourceId in live.courts && RestsFromStaying(live, artifacts, current, request, p)
    ensures PairKept(live, artifacts, p, PinnedPlacement(artifacts.origin, c))
  {
    var b := PinIs(live, artifacts, current, request, c);
  }

  /** Two pinned contests. */
  lemma PinFromPin(live: LiveState, artifacts: Artifacts, current: seq<Assignment>, request: Request, c: Assignment, c': Assignment)
    requires SoundPlan(artifacts.origin, current) && StayingRested(live, artifacts, current, request) && c.contestId != c'.contestId
    requires c in Pins(live, artifacts, current, request) && c' in Pins(live, artifacts, current, request)
    ensures PairKept(live, artifacts, PinnedPlacement(artifacts.origin, c), PinnedPlacement(artifacts.origin, c'))
  {
    var b := PinIs(live, artifacts, current, request, c);
    var b' := PinIs(live, artifacts, current, request, c');
    DifferentPins(c.contestId, c'.contestId);
  }

  lemma PinsPair(live: LiveState, artifacts: Artifacts, current: seq<Assignment>, request: Request, i: nat, j: nat)
    requires SoundPlan(artifacts.origin, current) && StayingRested(live, artifacts, current, request)
    requires i < j < |Pins(live, artifacts, current, request)|
    ensures PairKept(live, artifacts, PinnedPlacement(artifacts.origin, Pins(live, artifacts, current, request)[i]),
                     PinnedPlacement(artifacts.origin, Pins(live, artifacts, current, request)[j]))
  {
    var pins := Pins(live, artifacts, current, request);
    PinsDistinct(live, artifacts, current, request);
    assert pins[i] in pins && pins[j] in pins && Ids(pins)[i] != Ids(pins)[j];
    PinFromPin(live, artifacts, current, request, pins[i], pins[j]);
  }

  lemma MovedPinPair(live: LiveState, artifacts: Artifacts, current: seq<Assignment>, request: Request, moved: seq<Placement>, i: nat, j: nat)
    requires SoundPlan(artifacts.origin, current) && PlainCourts(live, current)
    requires Acceptable(live, artifacts, current, request, moved) && i < |moved| && j < |Pins(live, artifacts, current, request)|
    ensures PairKept(live, artifacts, moved[i], PinnedPlacement(artifacts.origin, Pins(live, artifacts, current, request)[j]))
  {
    MovedAt(live, artifacts, current, request, moved, i);
    assert Pins(live, artifacts, current, request)[j] in Pins(live, artifacts, current, request);
    MovedFromPin(live, artifacts, current, request, moved[i], Pins(live, artifacts, current, request)[j]);
  }

  lemma TogetherKept(live: LiveState, artifacts: Artifacts, moved: seq<Placement>, pinned: seq<Placement>, i: nat, j: nat)
    requires forall i, j | 0 <= i < j < |moved| :: PairKept(live, artifacts, moved[i], moved[j])
    requires forall i, k | 0 <= i < |moved| && 0 <= k < |pinned| :: PairKept(live, artifacts, moved[i], pinned[k])
    requires forall i, j | 0 <= i < j < |pinned| :: PairKept(live, artifacts, pinned[i], pinned[j])
    requires i < j < |moved| + |pinned|
    ensures PairKept(live, artifacts, (moved + pinned)[i], (moved + pinned)[j])
  {
  }

  lemma AllKept(live: LiveState, artifacts: Artifacts, current: seq<Assignment>, request: Request, moved: seq<Placement>, pinned: seq<Placement>)
    requires SoundPlan(artifacts.origin, current) && PlainCourts(live, current) && StayingRested(live, artifacts, current, request)
    requires Acceptable(live, artifacts, current, request, moved)
    requires pinned == PinnedSlots(artifacts.origin, Pins(live, artifacts, current, request))
    ensures forall i, j | 0 <= i < j < |moved| :: PairKept(live, artifacts, moved[i], moved[j])
    ensures forall i, k | 0 <= i < |moved| && 0 <= k < |pinned| :: PairKept(live, artifacts, moved[i], pinned[k])
    ensures forall i, j | 0 <= i < j < |pinned| :: PairKept(live, artifacts, pinned[i], pinned[j])
  {
    forall i, j | 0 <= i < j < |moved| ensures PairKept(live, artifacts, moved[i], moved[j]) {
      assert KeptApart(live, artifacts, moved[i], moved[j]);
    }
    forall i, k | 0 <= i < |moved| && 0 <= k < |pinned| ensures PairKept(live, artifacts, moved[i], pinned[k]) {
      MovedPinPair(live, artifacts, current, request, moved, i, k);
    }
    forall i, j | 0 <= i < j < |pinned| ensures PairKept(live, artifacts, pinned[i], pinned[j]) {
      PinsPair(live, artifacts, current, request, i, j);
    }
  }

  lemma SlotsApart(live: LiveState, artifacts: Artifacts, current: seq<Assignment>, request: Request, derived: Derived,
                   answer: seq<Placement>, i: nat, j: nat)
    requires derived == Derive(live, artifacts, current, request) && |derived.problem.tasks| == |derived.baseline| == |answer|
    requires i < j < |answer| && PairKept(live, artifacts, answer[i], answer[j])
    requires Fits(derived, i, answer[i]) && Fits(derived, j, answer[j])
    ensures Apart(derived.problem, derived.problem.tasks[i], answer[i], derived.problem.tasks[j], answer[j])
  {
    TaskAt(live, artifacts, current, request, derived, i);
    TaskAt(live, artifacts, current, request, derived, j);
    ApartIf(live, artifacts, derived.problem, derived.problem.tasks[i], answer[i], derived.problem.tasks[j], answer[j]);
  }

  /** Every acceptable rearrangement of the affected contests, with the pinned ones where they are, solves the problem. */
  lemma AcceptableSolves(live: LiveState, artifacts: Artifacts, current: seq<Assignment>, request: Request, derived: Derived,
                         moved: seq<Placement>, answer: seq<Placement>)
    requires derived == Derive(live, artifacts, current, request)
    requires SoundPlan(artifacts.origin, current) && artifacts.origin <= request.ClosureStart()
    requires PlainCourts(live, current) && StayingRested(live, artifacts, current, request)
    requires Acceptable(live, artifacts, current, request, moved)
    requires answer == Answer(live, artifacts, current, request, moved)
    ensures Feasible(derived, answer)
  {
    var tasks, pins := derived.problem.tasks, Pins(live, artifacts, current, request);
    var pinned := PinnedSlots(artifacts.origin, pins);
    TasksDistinct(live, artifacts, current, request);
    TaskCount(live, artifacts, current, request);
    AnswerFits(live, artifacts, current, request, derived, moved);
    AllKept(live, artifacts, current, request, moved, pinned);
    forall i | 0 <= i < |answer| ensures Fits(derived, i, answer[i]) && Waited(derived, answer, i) {
      assert Fits(derived, 0 + i, answer[i]);
      SlotWaits(live, artifacts, current, request, derived, moved, answer, i);
    }
    forall i, j | 0 <= i < j < |answer| ensures Apart(derived.problem, tasks[i], answer[i], tasks[j], answer[j]) {
      TogetherKept(live, artifacts, moved, pinned, i, j);
      SlotsApart(live, artifacts, current, request, derived, answer, i, j);
    }
    InTurnSolves(derived, answer);
  }

  // ---------------------------------------------------------------- every solution is an acceptable rearrangement

  /** The slots of the affected contests in a solution. */
  function SlotsIn(solution: seq<Placement>, affected: seq<Assignment>): (r: seq<Placement>)
    ensures |r| == |affected|
  {
    Map(affected, (a: Assignment) => PlacementFor(solution, a.contestId).GetOr(Placement(a.contestId, a.resourceId, 0, 0)))
  }

  /** Where a solution puts one affected contest. */
  lemma SlotIn(live: LiveState, artifacts: Artifacts, current: seq<Assignment>, request: Request, derived: Derived,
               solution: seq<Placement>, i: nat) returns (p: Placement)
    requires Reduced(live, artifacts, current, request, derived, solution) && i < |Affected(live, request, current)|
    ensures p in solution && p == SlotsIn(solution, Affected(live, request, current))[i]
    ensures p.taskId == Affected(live, request, current)[i].contestId
    ensures MovesTo(live, artifacts, current, request, Affected(live, request, current)[i], p)
  {
    var a := Affected(live, request, current)[i];
    assert a in Affected(live, request, current);
    p := AffectedPlaced(live, artifacts, current, request, derived, solution, a);
    assert OnMinutes(artifacts.origin, a);
    WholeMinutes(artifacts.origin, a);
    LastsAMinute(artifacts.origin, a);
    OnlyItsTask(live, artifacts, current, request, a, p.resourceId);
    LetsExactlyOpenCourts(live, artifacts, current, request, a, p);
  }

  lemma SlotRests(live: LiveState, artifacts: Artifacts, current: seq<Assignment>, request: Request, derived: Derived,
                  solution: seq<Placement>, a: Assignment, p: Placement)
    requires Reduced(live, artifacts, current, request, derived, solution) && a in Affected(live, request, current)
    requires p in solution && p.taskId == a.contestId
    ensures RestsFromStaying(live, artifacts, current, request, p)
  {
    forall b | b in current && !IsAffected(live, request, b) && Shares(live, artifacts, p.taskId, b.contestId)
      ensures RestedMinutes(artifacts.restMinutes, p.startMinute, p.endMinute,
                            Minute(artifacts.origin, b.start), Minute(artifacts.origin, HeldUntil(request, b)))
    {
      var c := StayingIsPinned(live, artifacts, current, request, a, b);
      var t := TaskOf(live, artifacts, current, request, a);
      var u, q := PinnedSlot(live, artifacts, current, request, derived, solution, c);
      PinnedIsUnaffected(live, artifacts, current, request, a, c);
      var e :| e in Entrants(live, artifacts, a.contestId).GetOr([]) && e in Entrants(live, artifacts, b.contestId).GetOr([]);
      TasksRested(derived, solution, t, u, p, q, e);
    }
  }

  lemma StayingIsPinned(live: LiveState, artifacts: Artifacts, current: seq<Assignment>, request: Request, a: Assignment, b: Assignment)
    returns (c: Assignment)
    requires SoundPlan(artifacts.origin, current) && a in current && IsAffected(live, request, a)
    requires b in current && !IsAffected(live, request, b) && Shares(live, artifacts, a.contestId, b.contestId)
    ensures c == b.(end := HeldUntil(request, b)) && c in ParticipantBusy(live, artifacts, request, current)
  {
    c := b.(end := HeldUntil(request, b));
    BusyIs(live, current, request, c);
    BusyIsPinned(live, artifacts, current, request, a, c);
  }

  lemma SolvedStayRested(live: LiveState, artifacts: Artifacts, current: seq<Assignment>, request: Request, derived: Derived,
                         solution: seq<Placement>)
    requires Reduced(live, artifacts, current, request, derived, solution)
    ensures StayingRested(live, artifacts, current, request)
  {
    forall b, c | Bound(live, artifacts, current, request, b) && Bound(live, artifacts, current, request, c)
                  && b.contestId != c.contestId && Shares(live, artifacts, b.contestId, c.contestId)
      ensures RestedMinutes(artifacts.restMinutes, Minute(artifacts.origin, b.start), Minute(artifacts.origin, HeldUntil(request, b)),
                            Minute(artifacts.origin, c.start), Minute(artifacts.origin, HeldUntil(request, c)))
    {
      var t, p := BoundSlot(live, artifacts, current, request, derived, solution, b);
      var u, q := BoundSlot(live, artifacts, current, request, derived, solution, c);
      var e :| e in Entrants(live, artifacts, b.contestId).GetOr([]) && e in Entrants(live, artifacts, c.contestId).GetOr([]);
      TasksRested(derived, solution, t, u, p, q, e);
    }
  }

  lemma BoundSlot(live: LiveState, artifacts: Artifacts, current: seq<Assignment>, request: Request, derived: Derived,
                  solution: seq<Placement>, b: Assignment) returns (t: Task, q: Placement)
    requires Reduced(live, artifacts, current, request, derived, solution) && Bound(live, artifacts, current, request, b)
    ensures t in derived.problem.tasks && t.id == b.contestId
    ensures forall e | e in Entrants(live, artifacts, b.contestId).GetOr([]) :: e in t.participantIds
    ensures q in solution && q.taskId == b.contestId
    ensures q.startMinute == Minute(artifacts.origin, b.start) && q.endMinute == Minute(artifacts.origin, HeldUntil(request, b))
  {
    var a :| a in current && IsAffected(live, request, a) && Shares(live, artifacts, a.contestId, b.contestId);
    var c := StayingIsPinned(live, artifacts, current, request, a, b);
    t, q := PinnedSlot(live, artifacts, current, request, derived, solution, c);
  }

  lemma SlotAfter(live: LiveState, artifacts: Artifacts, current: seq<Assignment>, request: Request, derived: Derived,
                  solution: seq<Placement>, a: Assignment, b: Assignment, p: Placement, q: Placement)
    requires Reduced(live, artifacts, current, request, derived, solution)
    requires a in Affected(live, request, current) && b in Affected(live, request, current)
    requires p in solution && q in solution && p.taskId == a.contestId && q.taskId == b.contestId
    ensures DependsOn(live, p.taskId, q.taskId) ==> p.startMinute >= q.endMinute
  {
    if DependsOn(live, a.contestId, b.contestId) {
      var t := DependencyListed(live, artifacts, current, request, a, b);
      assert AfterDependencies(derived.problem, solution, p);
      var r :| r in solution && r.taskId == b.contestId && p.startMinute >= r.endMinute;
      PlacedOnce(derived, solution, q, r);
    }
  }

  lemma SlotsKeptApart(live: LiveState, artifacts: Artifacts, current: seq<Assignment>, request: Request, derived: Derived,
                       solution: seq<Placement>, a: Assignment, b: Assignment, p: Placement, q: Placement)
    requires Reduced(live, artifacts, current, request, derived, solution)
    requires a in Affected(live, request, current) && b in Affected(live, request, current)
    requires p in solution && q in solution && p.taskId == a.contestId && q.taskId == b.contestId && p.taskId != q.taskId
    ensures KeptApart(live, artifacts, p, q)
  {
    SlotAfter(live, artifacts, current, request, derived, solution, a, b, p, q);
    SlotAfter(live, artifacts, current, request, derived, solution, b, a, q, p);
    PlacementsCompatible(derived, solution, p, q);
    if e :| e in Entrants(live, artifacts, a.contestId).GetOr([]) && e in Entrants(live, artifacts, b.contestId).GetOr([]) {
      AffectedRested(live, artifacts, current, request, derived, solution, a, b, p, q, e);
    }
  }

  /** The slots of the affected contests in any solution are an acceptable rearrangement. */
  lemma SolutionIsAcceptable(live: LiveState, artifacts: Artifacts, current: seq<Assignment>, request: Request, derived: Derived,
                             solution: seq<Placement>)
    requires Reduced(live, artifacts, current, request, derived, solution)
    ensures Acceptable(live, artifacts, current, request, SlotsIn(solution, Affected(live, request, current)))
  {
    var affected := Affected(live, request, current);
    var moved := SlotsIn(solution, affected);
    PinsDistinct(live, artifacts, current, request);
    forall i | 0 <= i < |moved|
      ensures affected[i] in affected && moved[i] in solution && moved[i].taskId == affected[i].contestId
      ensures MovesTo(live, artifacts, current, request, affected[i], moved[i]) && RestsFromStaying(live, artifacts, current, request, moved[i])
      ensures !DependsOn(live, moved[i].taskId, moved[i].taskId)
    {
      var p := SlotIn(live, artifacts, current, request, derived, solution, i);
      SlotRests(live, artifacts, current, request, derived, solution, affected[i], p);
      SlotAfter(live, artifacts, current, request, derived, solution, affected[i], affected[i], p, p);
      assert OnMinutes(artifacts.origin, affected[i]);
    }
    forall i, j | 0 <= i < j < |moved| ensures KeptApart(live, artifacts, moved[i], moved[j]) {
      assert Ids(affected)[i] != Ids(affected)[j];
      SlotsKeptApart(live, artifacts, current, request, derived, solution, affected[i], affected[j], moved[i], moved[j]);
    }
  }

  lemma AnswerMerges(live: LiveState, artifacts: Artifacts, current: seq<Assignment>, request: Request, derived: Derived,
                     moved: seq<Placement>, answer: seq<Placement>, i: nat)
    requires SoundPlan(artifacts.origin, current) && derived == Derive(live, artifacts, current, request) && Feasible(derived, answer)
    requires Acceptable(live, artifacts, current, request, moved) && moved <= answer && i < |moved|
    ensures InPlan(artifacts.origin, moved[i]) in Merge(artifacts.origin, derived, current, answer)
  {
    var a := Affected(live, request, current)[i];
    assert a in Affected(live, request, current) && moved[i] == answer[i] && answer[i] in answer;
    MovedAt(live, artifacts, current, request, moved, i);
    var p := AffectedPlaced(live, artifacts, current, request, derived, answer, a);
    PlacedOnce(derived, answer, p, moved[i]);
    AffectedIdentities(live, artifacts, current, request, a);
    MergedIfPlaced(artifacts.origin, derived, answer, a, p);
    MergedInPlan(artifacts.origin, derived, current, answer, a);
  }

  lemma AcceptableMerges(live: LiveState, artifacts: Artifacts, current: seq<Assignment>, request: Request, derived: Derived,
                         moved: seq<Placement>, answer: seq<Placement>)
    requires SoundPlan(artifacts.origin, current) && derived == Derive(live, artifacts, current, request) && Feasible(derived, answer)
    requires Acceptable(live, artifacts, current, request, moved)
    requires answer == Answer(live, artifacts, current, request, moved)
    ensures forall p | p in moved :: InPlan(artifacts.origin, p) in Merge(artifacts.origin, derived, current, answer)
  {
    forall p | p in moved ensures InPlan(artifacts.origin, p) in Merge(artifacts.origin, derived, current, answer) {
      var i :| 0 <= i < |moved| && moved[i] == p;
      AnswerMerges(live, artifacts, current, request, derived, moved, answer, i);
    }
  }

  /**
   * The reduction loses nothing. The slots that any solution gives the affected contests are an acceptable rearrangement, and
   * the contests that stay are then rested among themselves; where they are, and no court is named as a pinned contest is,
   * every acceptable rearrangement solves the problem and is what its solution merges into the plan.
   */
  lemma RepairReductionIsComplete(live: LiveState, artifacts: Artifacts, current: seq<Assignment>, request: Request, derived: Derived)
    requires SoundPlan(artifacts.origin, current) && RepairProblem(live, artifacts, current, request) == Success(derived)
    ensures (exists solution :: Feasible(derived, solution)) ==>
              StayingRested(live, artifacts, current, request) && exists moved :: Acceptable(live, artifacts, current, request, moved)
    ensures forall moved | StayingRested(live, artifacts, current, request) && PlainCourts(live, current)
                           && Acceptable(live, artifacts, current, request, moved) ::
              exists solution {:trigger Feasible(derived, solution)} :: Feasible(derived, solution)
                && forall p | p in moved :: InPlan(artifacts.origin, p) in Merge(artifacts.origin, derived, current, solution)
  {
    if solution :| Feasible(derived, solution) {
      RepairedIsReduced(live, artifacts, current, request, derived, solution);
      SolvedStayRested(live, artifacts, current, request, derived, solution);
      SolutionIsAcceptable(live, artifacts, current, request, derived, solution);
    }
    forall moved | StayingRested(live, artifacts, current, request) && PlainCourts(live, current)
                   && Acceptable(live, artifacts, current, request, moved)
      ensures exists solution {:trigger Feasible(derived, solution)} :: Feasible(derived, solution)
                && forall p | p in moved :: InPlan(artifacts.origin, p) in Merge(artifacts.origin, derived, current, solution)
    {
      var answer := Answer(live, artifacts, current, request, moved);
      AcceptableSolves(live, artifacts, current, request, derived, moved, answer);
      AcceptableMerges(live, artifacts, current, request, derived, moved, answer);
    }
  }

  // ---------------------------------------------------------------- what merging does to the plan

  /** The merged plan is in order of start and contest. */
  lemma MergedInOrder(origin: int, derived: Derived, current: seq<Assignment>, solution: seq<Placement>)
    ensures var plan := Merge(origin, derived, current, solution);
            forall i, j | 0 <= i < j < |plan| ::
              plan[i].start < plan[j].start || (plan[i].start == plan[j].start && StringLeq(plan[i].contestId, plan[j].contestId))
  {
    StringOrder();
    SortSorts(Map(current, a => Merged(origin, derived, solution, a)), PlanLeq);
  }

  lemma {:induction false} PlacementAt(solution: seq<Placement>, k: nat)
    requires k < |solution| && Distinct(Map(solution, (p: Placement) => p.taskId))
    ensures PlacementFor(solution, solution[k].taskId) == Some(solution[k])
  {
    var found := PlacementFor(solution, solution[k].taskId);
    assert solution[k] in solution;
    var i :| 0 <= i < |solution| && solution[i] == found.value;
    var ids := Map(solution, (p: Placement) => p.taskId);
    assert ids[i] == ids[k];
  }

  lemma BaselineAt(live: LiveState, artifacts: Artifacts, current: seq<Assignment>, request: Request, k: nat)
    requires k < |Affected(live, request, current)|
    ensures var a, baseline := Affected(live, request, current)[k], Derive(live, artifacts, current, request).baseline;
            && k < |baseline|
            && baseline[k] == Placement(a.contestId, a.resourceId, Minute(artifacts.origin, a.start), Minute(artifacts.origin, a.end))
  {
  }

  lemma BaselineOf(live: LiveState, artifacts: Artifacts, current: seq<Assignment>, request: Request, a: Assignment)
    requires SoundPlan(artifacts.origin, current) && a in Affected(live, request, current)
    ensures PlacementFor(Derive(live, artifacts, current, request).baseline, a.contestId)
            == Some(Placement(a.contestId, a.resourceId, Minute(artifacts.origin, a.start), Minute(artifacts.origin, a.end)))
  {
    var affected := Affected(live, request, current);
    var k :| 0 <= k < |affected| && affected[k] == a;
    BaselineAt(live, artifacts, current, request, k);
    BaselineIds(live, artifacts, current, request);
    TasksDistinct(live, artifacts, current, request);
    PlacementAt(Derive(live, artifacts, current, request).baseline, k);
  }

  lemma BaselineIds(live: LiveState, artifacts: Artifacts, current: seq<Assignment>, request: Request)
    ensures var derived := Derive(live, artifacts, current, request);
            Map(derived.baseline, (p: Placement) => p.taskId) == Map(derived.problem.tasks, (t: Task) => t.id)
  {
    var derived := Derive(live, artifacts, current, request);
    TaskCount(live, artifacts, current, request);
    forall i | 0 <= i < |derived.baseline| ensures derived.baseline[i].taskId == derived.problem.tasks[i].id {
      TaskAt(live, artifacts, current, request, derived, i);
    }
  }

  lemma MergedToItself(origin: int, derived: Derived, solution: seq<Placement>, a: Assignment)
    requires OnMinutes(origin, a)
    requires a.contestId in derived.affectedIds ==>
               PlacementFor(solution, a.contestId) == Some(Placement(a.contestId, a.resourceId, Minute(origin, a.start), Minute(origin, a.end)))
    ensures Merged(origin, derived, solution, a) == a
  {
    MinuteOfAligned(origin, a.start);
    MinuteOfAligned(origin, a.end);
  }

  lemma BaselineKeeps(live: LiveState, artifacts: Artifacts, current: seq<Assignment>, request: Request, derived: Derived, a: Assignment)
    requires derived == Derive(live, artifacts, current, request)
    requires SoundPlan(artifacts.origin, current) && a in current && OnMinutes(artifacts.origin, a)
    ensures Merged(artifacts.origin, derived, derived.baseline, a) == a
  {
    if a.contestId in derived.affectedIds {
      AffectedIdentities(live, artifacts, current, request, a);
      BaselineOf(live, artifacts, current, request, a);
    }
    MergedToItself(artifacts.origin, derived, derived.baseline, a);
  }

  lemma UnchangedIfKept(origin: int, derived: Derived, current: seq<Assignment>, solution: seq<Placement>)
    requires forall i | 0 <= i < |current| :: Merged(origin, derived, solution, current[i]) == current[i]
    ensures Merge(origin, derived, current, solution) == SortBy(current, PlanLeq)
  {
    assert Map(current, a => Merged(origin, derived, solution, a)) == current;
  }

  /** The baseline is the plan as it stands: merging it moves nothing. */
  lemma BaselineMergesToNoChange(live: LiveState, artifacts: Artifacts, current: seq<Assignment>, request: Request, derived: Derived)
    requires SoundPlan(artifacts.origin, current) && derived == Derive(live, artifacts, current, request)
    ensures Merge(artifacts.origin, derived, current, derived.baseline) == SortBy(current, PlanLeq)
  {
    forall i | 0 <= i < |current| ensures Merged(artifacts.origin, derived, derived.baseline, current[i]) == current[i] {
      assert current[i] in current && OnMinutes(artifacts.origin, current[i]);
      BaselineKeeps(live, artifacts, current, request, derived, current[i]);
    }
    UnchangedIfKept(artifacts.origin, derived, current, derived.baseline);
  }
}
