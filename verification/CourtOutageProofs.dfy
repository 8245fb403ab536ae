/** The repair problem is a sound reduction: a locally valid solution merges into a globally valid plan. */
module CourtOutageSoundness {
  import opened Wrappers
  import opened Lists
  import opened Numbers
  import opened Ordering
  import opened Sorting
  import opened LiveModel
  import opened CourtOutage
  import SortedSets

  predicate Aligned(origin: int, instant: int) {
    (instant - origin) % MINUTE == 0
  }

  /** Two slots do not hold one court at once. */
  predicate Clear(x: Assignment, y: Assignment) {
    !(x.resourceId == y.resourceId && Overlaps(x.start, x.end, y.start, y.end))
  }

  ghost predicate CourtsFree(plan: seq<Assignment>) {
    forall x, y {:trigger Clear(x, y)} | x in plan && y in plan && x.contestId != y.contestId :: Clear(x, y)
  }

  predicate OnMinutes(origin: int, a: Assignment) {
    Aligned(origin, a.start) && Aligned(origin, a.end) && a.start < a.end
  }

  /** A plan repairs may start from: one slot a contest, on whole minutes, with no two contests on one court at once. */
  ghost predicate SoundPlan(origin: int, plan: seq<Assignment>) {
    && Distinct(Ids(plan))
    && (forall a {:trigger OnMinutes(origin, a)} | a in plan :: OnMinutes(origin, a))
    && CourtsFree(plan)
  }

  /** Nothing is planned before the origin of the plan. */
  ghost predicate FromOrigin(origin: int, plan: seq<Assignment>) {
    forall a | a in plan :: origin <= a.start
  }

  /** A repair that was derived from a sound plan and solved. */
  ghost predicate Repaired(live: LiveState, artifacts: Artifacts, current: seq<Assignment>, request: Request,
                           derived: Derived, solution: seq<Placement>) {
    && SoundPlan(artifacts.origin, current)
    && RepairProblem(live, artifacts, current, request) == Success(derived)
    && Feasible(derived, solution)
  }

  /** The part of `Repaired` that the proofs use. */
  ghost predicate Reduced(live: LiveState, artifacts: Artifacts, current: seq<Assignment>, request: Request,
                          derived: Derived, solution: seq<Placement>) {
    && SoundPlan(artifacts.origin, current)
    && artifacts.origin <= request.ClosureStart() < request.expectedReopenAt
    && derived == Derive(live, artifacts, current, request)
    && Feasible(derived, solution)
  }

  lemma RepairedIsReduced(live: LiveState, artifacts: Artifacts, current: seq<Assignment>, request: Request,
                          derived: Derived, solution: seq<Placement>)
    requires Repaired(live, artifacts, current, request, derived, solution)
    ensures Reduced(live, artifacts, current, request, derived, solution)
  {
  }

  ghost predicate Shares(live: LiveState, artifacts: Artifacts, id: string, other: string) {
    exists e :: e in Entrants(live, artifacts, id).GetOr([]) && e in Entrants(live, artifacts, other).GetOr([])
  }

  ghost predicate RestedApart(x: Assignment, y: Assignment, restMinutes: nat) {
    x.start >= y.end + restMinutes * MINUTE || y.start >= x.end + restMinutes * MINUTE
  }

  /** Rounding an instant to the minute does not move it earlier. */
  predicate RoundsUp(origin: int, instant: int) {
    (instant - origin) % MINUTE == 0 || (instant - origin) % MINUTE >= 30_000
  }

  /** The slot that a placement stands for in the plan. */
  function InPlan(origin: int, p: Placement): Assignment {
    Assignment(p.taskId, p.resourceId, origin + p.startMinute * MINUTE, origin + p.endMinute * MINUTE)
  }

  // ---------------------------------------------------------------- minutes

  lemma MinuteOfAligned(origin: int, instant: int)
    requires Aligned(origin, instant)
    ensures origin + Minute(origin, instant) * MINUTE == instant
  {
  }

  lemma MinuteMonotone(origin: int, a: int, b: int)
    requires a <= b
    ensures Minute(origin, a) <= Minute(origin, b)
  {
  }

  lemma MinuteOfRoundedUp(origin: int, instant: int)
    ensures RoundsUp(origin, instant) <==> origin + Minute(origin, instant) * MINUTE >= instant
  {
  }

  /** Minute windows that do not overlap stand for instants that do not. */
  lemma MinutesApart(origin: int, s: int, e: int, s': int, e': int)
    requires !Overlaps(s, e, s', e')
    ensures !Overlaps(origin + s * MINUTE, origin + e * MINUTE, origin + s' * MINUTE, origin + e' * MINUTE)
  {
  }

  // ---------------------------------------------------------------- what a solution says of one contest

  lemma SameIdSameAssignment(plan: seq<Assignment>, a: Assignment, b: Assignment)
    requires Distinct(Ids(plan)) && a in plan && b in plan && a.contestId == b.contestId
    ensures a == b
  {
    var i :| 0 <= i < |plan| && plan[i] == a;
    var j :| 0 <= j < |plan| && plan[j] == b;
    assert Ids(plan)[i] == Ids(plan)[j];
  }

  lemma IdListed(plan: seq<Assignment>, a: Assignment)
    requires a in plan
    ensures a.contestId in Ids(plan)
  {
    var i :| 0 <= i < |plan| && plan[i] == a;
    assert Ids(plan)[i] == a.contestId;
  }

  /** Derived identities are those of the affected contests. */
  lemma AffectedIdentities(live: LiveState, artifacts: Artifacts, current: seq<Assignment>, request: Request, a: Assignment)
    requires Distinct(Ids(current)) && a in current
    ensures IsAffected(live, request, a) <==> a.contestId in Ids(Affected(live, request, current))
    ensures IsAffected(live, request, a) <==> a.contestId in Derive(live, artifacts, current, request).affectedIds
  {
    var affected := Affected(live, request, current);
    SortKeepsElements(Ids(affected), StringLeq);
    if IsAffected(live, request, a) { IdListed(affected, a); }
    if a.contestId in Ids(affected) {
      var i :| 0 <= i < |affected| && Ids(affected)[i] == a.contestId;
      SameIdSameAssignment(current, a, affected[i]);
    }
  }

  /** Every task of a feasible problem has a placement. */
  lemma EveryTaskPlaced(derived: Derived, solution: seq<Placement>, t: Task) returns (p: Placement)
    requires Feasible(derived, solution) && t in derived.problem.tasks
    ensures p in solution && p.taskId == t.id && PlacementFor(solution, t.id) == Some(p)
  {
    var tasks := derived.problem.tasks;
    var taskIds, placed := Map(tasks, (t: Task) => t.id), Map(solution, (p: Placement) => p.taskId);
    forall id | id in placed ensures id in taskIds {
      var i :| 0 <= i < |placed| && placed[i] == id;
      assert PlacedAsAsked(derived.problem, solution[i]);
      var u :| u in tasks && u.id == id;
      var j :| 0 <= j < |tasks| && tasks[j] == u;
      assert taskIds[j] == id;
    }
    DistinctFillsSameLength(placed, taskIds);
    var j :| 0 <= j < |tasks| && tasks[j] == t;
    assert taskIds[j] in Elements(taskIds);
    var i :| 0 <= i < |placed| && placed[i] == t.id;
    var found := PlacementFor(solution, t.id);
    assert solution[i] in solution;
    p := found.value;
  }

  /** A placement is made as its one task asks. */
  lemma PlacedForItsTask(derived: Derived, solution: seq<Placement>, t: Task, p: Placement)
    requires Feasible(derived, solution) && t in derived.problem.tasks && p in solution && p.taskId == t.id
    ensures p.resourceId in t.eligibleResourceIds && p.endMinute == p.startMinute + t.durationMinutes
  {
    var tasks := derived.problem.tasks;
    assert PlacedAsAsked(derived.problem, p);
    var u :| u in tasks && u.id == p.taskId && p.resourceId in u.eligibleResourceIds
             && p.endMinute == p.startMinute + u.durationMinutes;
    var i :| 0 <= i < |tasks| && tasks[i] == t;
    var j :| 0 <= j < |tasks| && tasks[j] == u;
    var taskIds := Map(tasks, (t: Task) => t.id);
    assert taskIds[i] == taskIds[j];
  }

  lemma {:induction false} FindResourceInFront(front: seq<Resource>, rest: seq<Resource>, id: string)
    requires exists r :: r in front && r.id == id
    ensures FindResource(front + rest, id).Some? && FindResource(front + rest, id).value in front
    ensures FindResource(front + rest, id).value.id == id
  {
    assert (front + rest)[0] == front[0];
    if front[0].id != id {
      assert (front + rest)[1..] == front[1..] + rest;
      var r :| r in front && r.id == id;
      assert r in front[1..];
      FindResourceInFront(front[1..], rest, id);
    }
  }

  /** What a feasible solution says of the slot of one affected contest. */
  ghost predicate Slot(live: LiveState, artifacts: Artifacts, current: seq<Assignment>, request: Request, a: Assignment, p: Placement) {
    var origin := artifacts.origin;
    && p.taskId == a.contestId
    && p.resourceId in live.courts
    && Minute(origin, request.ClosureStart()) <= p.startMinute
    && (p.endMinute - p.startMinute) * MINUTE == a.end - a.start
    && (forall b | b in Busy(live, request, current) && b.resourceId == p.resourceId && NonEmpty(MinuteWindow(origin, b.start, b.end)) ::
          !Overlaps(Minute(origin, b.start), Minute(origin, b.end), p.startMinute, p.endMinute))
    && (p.resourceId == request.courtId && NonEmpty(MinuteWindow(origin, request.ClosureStart(), request.expectedReopenAt)) ==>
          !Overlaps(Minute(origin, request.ClosureStart()), Minute(origin, request.expectedReopenAt), p.startMinute, p.endMinute))
  }

  lemma CourtAllows(artifacts: Artifacts, request: Request, busy: seq<Assignment>, id: string, p: Placement, w: Window)
    requires request.ClosureStart() >= artifacts.origin
    requires var r := CourtResource(artifacts, request, busy, id);
             && w in r.calendars && w.startMinute <= p.startMinute
             && forall c | c in r.closures :: !Overlaps(c.startMinute, c.endMinute, p.startMinute, p.endMinute)
    ensures Minute(artifacts.origin, request.ClosureStart()) <= p.startMinute
    ensures forall b | b in busy && b.resourceId == id && NonEmpty(MinuteWindow(artifacts.origin, b.start, b.end)) ::
              !Overlaps(Minute(artifacts.origin, b.start), Minute(artifacts.origin, b.end), p.startMinute, p.endMinute)
    ensures id == request.courtId && NonEmpty(MinuteWindow(artifacts.origin, request.ClosureStart(), request.expectedReopenAt)) ==>
              !Overlaps(Minute(artifacts.origin, request.ClosureStart()), Minute(artifacts.origin, request.expectedReopenAt),
                        p.startMinute, p.endMinute)
  {
    var r, origin := CourtResource(artifacts, request, busy, id), artifacts.origin;
    var mine := Filter(busy, (a: Assignment) => a.resourceId == id);
    var occupied := Map(mine, (a: Assignment) => MinuteWindow(origin, a.start, a.end));
    forall b | b in busy && b.resourceId == id && NonEmpty(MinuteWindow(origin, b.start, b.end))
      ensures !Overlaps(Minute(origin, b.start), Minute(origin, b.end), p.startMinute, p.endMinute)
    {
      var i :| 0 <= i < |mine| && mine[i] == b;
      assert occupied[i] in r.closures;
    }
    if id == request.courtId && NonEmpty(MinuteWindow(origin, request.ClosureStart(), request.expectedReopenAt)) {
      assert MinuteWindow(origin, request.ClosureStart(), request.expectedReopenAt) in r.closures;
    }
  }

  function CourtIds(live: LiveState, artifacts: Artifacts, current: seq<Assignment>, request: Request): seq<string> {
    Map(CourtResources(live, artifacts, request, Busy(live, request, current)), (r: Resource) => r.id)
  }

  /** An affected contest is placed, for its own duration, on one of the problem's courts. */
  lemma AffectedPlaced(live: LiveState, artifacts: Artifacts, current: seq<Assignment>, request: Request, derived: Derived,
                       solution: seq<Placement>, a: Assignment) returns (p: Placement)
    requires derived == Derive(live, artifacts, current, request) && Feasible(derived, solution)
    requires a in Affected(live, request, current)
    ensures p in solution && p.taskId == a.contestId && PlacementFor(solution, a.contestId) == Some(p)
    ensures p.resourceId in CourtIds(live, artifacts, current, request)
    ensures p.endMinute - p.startMinute == (a.end - a.start + 30_000) / MINUTE
    ensures ResourceAllows(derived.problem.resources, p)
  {
    var affected := Affected(live, request, current);
    var i :| 0 <= i < |affected| && affected[i] == a;
    var task := AffectedTask(live, artifacts, Ids(affected), CourtIds(live, artifacts, current, request), a);
    assert derived.problem.tasks[i] == task;
    p := EveryTaskPlaced(derived, solution, task);
    PlacedForItsTask(derived, solution, task, p);
  }

  /** A placement on one of the problem's courts respects that court's calendar and closures. */
  lemma PlacedOnCourt(live: LiveState, artifacts: Artifacts, current: seq<Assignment>, request: Request, derived: Derived, p: Placement)
    returns (w: Window)
    requires derived == Derive(live, artifacts, current, request) && ResourceAllows(derived.problem.resources, p)
    requires p.resourceId in CourtIds(live, artifacts, current, request)
    ensures p.resourceId in live.courts
    ensures var r := CourtResource(artifacts, request, Busy(live, request, current), p.resourceId);
            && w in r.calendars && w.startMinute <= p.startMinute && p.endMinute <= w.endMinute
            && forall c | c in r.closures :: !Overlaps(c.startMinute, c.endMinute, p.startMinute, p.endMinute)
  {
    var busy := Busy(live, request, current);
    var courts := CourtResources(live, artifacts, request, busy);
    var pinned := ParticipantBusy(live, artifacts, request, current);
    var k :| 0 <= k < |courts| && courts[k].id == p.resourceId;
    assert courts[k] in courts;
    FindResourceInFront(courts, Map(pinned, a => PinnedResource(artifacts.origin, a)), p.resourceId);
    var resource := FindResource(derived.problem.resources, p.resourceId).value;
    CourtResourceOf(live, artifacts, request, busy, resource);
    w :| w in resource.calendars && w.startMinute <= p.startMinute && p.endMinute <= w.endMinute;
  }

  lemma AffectedSlotPlaced(live: LiveState, artifacts: Artifacts, current: seq<Assignment>, request: Request, derived: Derived,
                           solution: seq<Placement>, a: Assignment) returns (p: Placement)
    requires derived == Derive(live, artifacts, current, request) && Feasible(derived, solution)
    requires artifacts.origin <= request.ClosureStart() && OnMinutes(artifacts.origin, a)
    requires a in Affected(live, request, current)
    ensures p in solution && PlacementFor(solution, a.contestId) == Some(p)
    ensures Slot(live, artifacts, current, request, a, p)
  {
    p := AffectedPlaced(live, artifacts, current, request, derived, solution, a);
    SlotOnCourt(live, artifacts, current, request, derived, a, p);
  }

  /** The slot of one affected contest in a solution, and in the merged plan. */
  lemma AffectedSlot(live: LiveState, artifacts: Artifacts, current: seq<Assignment>, request: Request, derived: Derived,
                     solution: seq<Placement>, a: Assignment) returns (p: Placement)
    requires Reduced(live, artifacts, current, request, derived, solution)
    requires a in current && IsAffected(live, request, a)
    ensures p in solution && Slot(live, artifacts, current, request, a, p)
    ensures Merged(artifacts.origin, derived, solution, a) == InPlan(artifacts.origin, p)
  {
    assert OnMinutes(artifacts.origin, a);
    p := AffectedSlotPlaced(live, artifacts, current, request, derived, solution, a);
    AffectedIdentities(live, artifacts, current, request, a);
    MergedIfPlaced(artifacts.origin, derived, solution, a, p);
  }

  lemma SlotOnCourt(live: LiveState, artifacts: Artifacts, current: seq<Assignment>, request: Request, derived: Derived,
                    a: Assignment, p: Placement)
    requires derived == Derive(live, artifacts, current, request) && ResourceAllows(derived.problem.resources, p)
    requires artifacts.origin <= request.ClosureStart() && OnMinutes(artifacts.origin, a)
    requires p.taskId == a.contestId && p.resourceId in CourtIds(live, artifacts, current, request)
    requires p.endMinute - p.startMinute == (a.end - a.start + 30_000) / MINUTE
    ensures Slot(live, artifacts, current, request, a, p)
  {
    var w := PlacedOnCourt(live, artifacts, current, request, derived, p);
    CourtAllows(artifacts, request, Busy(live, request, current), p.resourceId, p, w);
    WholeMinutes(artifacts.origin, a);
  }

  lemma WholeMinutes(origin: int, a: Assignment)
    requires OnMinutes(origin, a)
    ensures (a.end - a.start + 30_000) / MINUTE * MINUTE == a.end - a.start
  {
  }

  lemma MergedIfPlaced(origin: int, derived: Derived, solution: seq<Placement>, a: Assignment, p: Placement)
    requires a.contestId in derived.affectedIds && PlacementFor(solution, a.contestId) == Some(p)
    ensures Merged(origin, derived, solution, a) == InPlan(origin, p)
  {
  }

  lemma CourtResourceOf(live: LiveState, artifacts: Artifacts, request: Request, busy: seq<Assignment>, r: Resource)
    requires r in CourtResources(live, artifacts, request, busy)
    ensures r.id in live.courts && r == CourtResource(artifacts, request, busy, r.id)
  {
    var all := Map(live.courts, id => CourtResource(artifacts, request, busy, id));
    var k :| 0 <= k < |all| && all[k] == r;
    assert all[k] == CourtResource(artifacts, request, busy, live.courts[k]);
  }

  lemma UnaffectedIsBusy(live: LiveState, current: seq<Assignment>, request: Request, a: Assignment)
    requires a in current && a.contestId !in Ids(Affected(live, request, current))
    ensures Occupied(request, a) in Busy(live, request, current)
  {
    var affectedIds := Ids(Affected(live, request, current));
    var rest := Filter(current, (a: Assignment) => a.contestId !in affectedIds);
    var i :| 0 <= i < |rest| && rest[i] == a;
    assert Busy(live, request, current)[i] == Occupied(request, a);
  }

  lemma UnaffectedStays(live: LiveState, artifacts: Artifacts, current: seq<Assignment>, request: Request, derived: Derived,
                        solution: seq<Placement>, a: Assignment)
    requires Distinct(Ids(current)) && derived == Derive(live, artifacts, current, request)
    requires a in current && !IsAffected(live, request, a)
    ensures Merged(artifacts.origin, derived, solution, a) == a
    ensures Occupied(request, a) in Busy(live, request, current)
  {
    AffectedIdentities(live, artifacts, current, request, a);
    UnaffectedIsBusy(live, current, request, a);
  }

  /** Every slot of the merged plan is the merged form of one current slot. */
  lemma MergedFrom(artifacts: Artifacts, current: seq<Assignment>, derived: Derived, solution: seq<Placement>, x: Assignment)
    returns (a: Assignment)
    requires x in Merge(artifacts.origin, derived, current, solution)
    ensures a in current && x == Merged(artifacts.origin, derived, solution, a) && x.contestId == a.contestId
  {
    var all := Map(current, a => Merged(artifacts.origin, derived, solution, a));
    SortKeepsElements(all, PlanLeq);
    var i :| 0 <= i < |all| && all[i] == x;
    a := current[i];
  }

  // ---------------------------------------------------------------- courts

  lemma MovedAwayFromBusy(live: LiveState, artifacts: Artifacts, current: seq<Assignment>, request: Request, derived: Derived,
                          solution: seq<Placement>, a: Assignment, b: Assignment)
    requires Reduced(live, artifacts, current, request, derived, solution)
    requires a in current && b in current && IsAffected(live, request, a) && !IsAffected(live, request, b)
    ensures Clear(Merged(artifacts.origin, derived, solution, a), b)
  {
    var p := AffectedSlot(live, artifacts, current, request, derived, solution, a);
    UnaffectedStays(live, artifacts, current, request, derived, solution, b);
    assert OnMinutes(artifacts.origin, a) && OnMinutes(artifacts.origin, b);
    SlotOffBusy(live, artifacts, current, request, a, b, p);
  }

  lemma SlotOffBusy(live: LiveState, artifacts: Artifacts, current: seq<Assignment>, request: Request, a: Assignment, b: Assignment,
                    p: Placement)
    requires Slot(live, artifacts, current, request, a, p) && OnMinutes(artifacts.origin, a) && OnMinutes(artifacts.origin, b)
    requires Occupied(request, b) in Busy(live, request, current)
    ensures Clear(InPlan(artifacts.origin, p), b)
  {
    var origin, busy := artifacts.origin, Occupied(request, b);
    MinuteOfAligned(origin, b.start);
    MinuteOfAligned(origin, b.end);
    MinuteMonotone(origin, b.end, busy.end);
    if p.resourceId == b.resourceId {
      assert !Overlaps(Minute(origin, busy.start), Minute(origin, busy.end), p.startMinute, p.endMinute);
      MinutesApart(origin, Minute(origin, b.start), Minute(origin, b.end), p.startMinute, p.endMinute);
    }
  }

  lemma PlacementsCompatible(derived: Derived, solution: seq<Placement>, p: Placement, q: Placement)
    requires Feasible(derived, solution) && p in solution && q in solution && p.taskId != q.taskId
    ensures Compatible(derived.problem, p, q) || Compatible(derived.problem, q, p)
  {
    var i :| 0 <= i < |solution| && solution[i] == p;
    var j :| 0 <= j < |solution| && solution[j] == q;
    if i < j { assert Compatible(derived.problem, solution[i], solution[j]); }
    else { assert Compatible(derived.problem, solution[j], solution[i]); }
  }

  lemma MovedApart(live: LiveState, artifacts: Artifacts, current: seq<Assignment>, request: Request, derived: Derived,
                   solution: seq<Placement>, a: Assignment, b: Assignment)
    requires Reduced(live, artifacts, current, request, derived, solution)
    requires a in current && b in current && a.contestId != b.contestId
    requires IsAffected(live, request, a) && IsAffected(live, request, b)
    ensures Clear(Merged(artifacts.origin, derived, solution, a), Merged(artifacts.origin, derived, solution, b))
  {
    var p := AffectedSlot(live, artifacts, current, request, derived, solution, a);
    var q := AffectedSlot(live, artifacts, current, request, derived, solution, b);
    SlotsClear(artifacts.origin, derived, solution, p, q);
  }

  lemma SlotsClear(origin: int, derived: Derived, solution: seq<Placement>, p: Placement, q: Placement)
    requires Feasible(derived, solution) && p in solution && q in solution && p.taskId != q.taskId
    ensures Clear(InPlan(origin, p), InPlan(origin, q))
  {
    PlacementsCompatible(derived, solution, p, q);
  }

  /** No two contests of the merged plan hold one court at once. */
  lemma RepairKeepsCourtsFree(live: LiveState, artifacts: Artifacts, current: seq<Assignment>, request: Request,
                              derived: Derived, solution: seq<Placement>)
    requires Repaired(live, artifacts, current, request, derived, solution)
    ensures CourtsFree(Merge(artifacts.origin, derived, current, solution))
  {
    RepairedIsReduced(live, artifacts, current, request, derived, solution);
    var plan := Merge(artifacts.origin, derived, current, solution);
    forall x, y | x in plan && y in plan && x.contestId != y.contestId
      ensures Clear(x, y)
    {
      var a := MergedFrom(artifacts, current, derived, solution, x);
      var b := MergedFrom(artifacts, current, derived, solution, y);
      if IsAffected(live, request, a) && IsAffected(live, request, b) {
        MovedApart(live, artifacts, current, request, derived, solution, a, b);
      } else if IsAffected(live, request, a) {
        UnaffectedStays(live, artifacts, current, request, derived, solution, b);
        MovedAwayFromBusy(live, artifacts, current, request, derived, solution, a, b);
      } else if IsAffected(live, request, b) {
        UnaffectedStays(live, artifacts, current, request, derived, solution, a);
        MovedAwayFromBusy(live, artifacts, current, request, derived, solution, b, a);
      } else {
        UnaffectedStays(live, artifacts, current, request, derived, solution, a);
        UnaffectedStays(live, artifacts, current, request, derived, solution, b);
        assert Clear(a, b);
      }
    }
  }

  // ---------------------------------------------------------------- rest

  /** Both contests' tasks list the entrants they share. */
  lemma TaskOf(live: LiveState, artifacts: Artifacts, current: seq<Assignment>, request: Request, a: Assignment) returns (t: Task)
    requires a in Affected(live, request, current)
    ensures t in Derive(live, artifacts, current, request).problem.tasks && t.id == a.contestId
    ensures forall e | e in Entrants(live, artifacts, a.contestId).GetOr([]) :: e in t.participantIds
  {
    var affected := Affected(live, request, current);
    var resourceIds := Map(CourtResources(live, artifacts, request, Busy(live, request, current)), (r: Resource) => r.id);
    var i :| 0 <= i < |affected| && affected[i] == a;
    t := AffectedTask(live, artifacts, Ids(affected), resourceIds, a);
    assert Derive(live, artifacts, current, request).problem.tasks[i] == t;
    SortKeepsElements(Entrants(live, artifacts, a.contestId).GetOr([]), StringLeq);
  }

  /** A pinned contest's task lists its entrants, and the baseline has it where it is. */
  lemma PinnedInDerived(live: LiveState, artifacts: Artifacts, current: seq<Assignment>, request: Request, b: Assignment)
    requires b in ParticipantBusy(live, artifacts, request, current)
    ensures var derived := Derive(live, artifacts, current, request);
            PinnedTask(live, artifacts, b) in derived.problem.tasks && PinnedPlacement(artifacts.origin, b) in derived.baseline
  {
    var derived := Derive(live, artifacts, current, request);
    var pinned := ParticipantBusy(live, artifacts, request, current);
    var affected := Affected(live, request, current);
    var i :| 0 <= i < |pinned| && pinned[i] == b;
    assert derived.problem.tasks[|affected| + i] == PinnedTask(live, artifacts, b);
    assert derived.baseline[|affected| + i] == PinnedPlacement(artifacts.origin, b);
  }

  lemma PinnedTaskOf(live: LiveState, artifacts: Artifacts, current: seq<Assignment>, request: Request, b: Assignment) returns (t: Task)
    requires b in ParticipantBusy(live, artifacts, request, current)
    ensures var derived := Derive(live, artifacts, current, request);
            && t in derived.problem.tasks && t == PinnedTask(live, artifacts, b)
            && PinnedPlacement(artifacts.origin, b) in derived.baseline && b.contestId in derived.pinnedTaskIds
    ensures forall e | e in Entrants(live, artifacts, b.contestId).GetOr([]) :: e in t.participantIds
  {
    PinnedInDerived(live, artifacts, current, request, b);
    var pinned := ParticipantBusy(live, artifacts, request, current);
    t := PinnedTask(live, artifacts, b);
    SortKeepsElements(Entrants(live, artifacts, b.contestId).GetOr([]), StringLeq);
    IdListed(pinned, b);
    SortKeepsElements(Ids(pinned), StringLeq);
  }

  /** A feasible solution leaves a pinned contest where it is. */
  lemma PinnedSlot(live: LiveState, artifacts: Artifacts, current: seq<Assignment>, request: Request, derived: Derived,
                   solution: seq<Placement>, b: Assignment) returns (t: Task, q: Placement)
    requires derived == Derive(live, artifacts, current, request) && Feasible(derived, solution)
    requires b in ParticipantBusy(live, artifacts, request, current)
    ensures t in derived.problem.tasks && t.id == b.contestId
    ensures forall e | e in Entrants(live, artifacts, b.contestId).GetOr([]) :: e in t.participantIds
    ensures q in solution && q.taskId == b.contestId
    ensures q.startMinute == Minute(artifacts.origin, b.start) && q.endMinute == Minute(artifacts.origin, b.end)
  {
    t := PinnedTaskOf(live, artifacts, current, request, b);
    q := EveryTaskPlaced(derived, solution, t);
    PlacedForItsTask(derived, solution, t, q);
    assert KeepsPin(derived, q);
  }

  lemma BusyIsPinned(live: LiveState, artifacts: Artifacts, current: seq<Assignment>, request: Request, a: Assignment, b: Assignment)
    requires a in Affected(live, request, current) && b in Busy(live, request, current)
    requires Shares(live, artifacts, a.contestId, b.contestId)
    ensures b in ParticipantBusy(live, artifacts, request, current)
  {
    var participants := AffectedParticipants(live, artifacts, Affected(live, request, current));
    var e :| e in Entrants(live, artifacts, a.contestId).GetOr([]) && e in Entrants(live, artifacts, b.contestId).GetOr([]);
    assert e in participants;
    assert SharesParticipant(live, artifacts, participants, b);
  }

  lemma TasksRested(derived: Derived, solution: seq<Placement>, t: Task, u: Task, p: Placement, q: Placement, e: string)
    requires Feasible(derived, solution) && t in derived.problem.tasks && u in derived.problem.tasks
    requires p in solution && q in solution && p.taskId == t.id && q.taskId == u.id && t.id != u.id
    requires e in t.participantIds && e in u.participantIds
    ensures p.startMinute >= q.endMinute + derived.problem.minimumRestMinutes
            || q.startMinute >= p.endMinute + derived.problem.minimumRestMinutes
  {
    PlacementsCompatible(derived, solution, p, q);
  }

  /** A moved contest keeps the hard rest from another moved contest of a shared entrant. */
  lemma MovedRested(live: LiveState, artifacts: Artifacts, current: seq<Assignment>, request: Request, derived: Derived,
                    solution: seq<Placement>, a: Assignment, b: Assignment)
    requires Reduced(live, artifacts, current, request, derived, solution)
    requires a in current && b in current && a.contestId != b.contestId
    requires IsAffected(live, request, a) && IsAffected(live, request, b) && Shares(live, artifacts, a.contestId, b.contestId)
    ensures RestedApart(Merged(artifacts.origin, derived, solution, a), Merged(artifacts.origin, derived, solution, b), artifacts.restMinutes)
  {
    var p := AffectedSlot(live, artifacts, current, request, derived, solution, a);
    var q := AffectedSlot(live, artifacts, current, request, derived, solution, b);
    var e :| e in Entrants(live, artifacts, a.contestId).GetOr([]) && e in Entrants(live, artifacts, b.contestId).GetOr([]);
    AffectedRested(live, artifacts, current, request, derived, solution, a, b, p, q, e);
  }

  lemma AffectedRested(live: LiveState, artifacts: Artifacts, current: seq<Assignment>, request: Request, derived: Derived,
                       solution: seq<Placement>, a: Assignment, b: Assignment, p: Placement, q: Placement, e: string)
    requires derived == Derive(live, artifacts, current, request) && Feasible(derived, solution)
    requires a in Affected(live, request, current) && b in Affected(live, request, current)
    requires p in solution && q in solution && p.taskId == a.contestId && q.taskId == b.contestId && p.taskId != q.taskId
    requires e in Entrants(live, artifacts, a.contestId).GetOr([]) && e in Entrants(live, artifacts, b.contestId).GetOr([])
    ensures p.startMinute >= q.endMinute + artifacts.restMinutes || q.startMinute >= p.endMinute + artifacts.restMinutes
  {
    var t := TaskOf(live, artifacts, current, request, a);
    var u := TaskOf(live, artifacts, current, request, b);
    TasksRested(derived, solution, t, u, p, q, e);
  }

  lemma PinnedRested(live: LiveState, artifacts: Artifacts, current: seq<Assignment>, request: Request, derived: Derived,
                     solution: seq<Placement>, a: Assignment, b: Assignment, p: Placement, e: string)
    requires derived == Derive(live, artifacts, current, request) && Feasible(derived, solution)
    requires a in Affected(live, request, current) && b in Busy(live, request, current)
    requires p in solution && p.taskId == a.contestId && a.contestId != b.contestId
    requires e in Entrants(live, artifacts, a.contestId).GetOr([]) && e in Entrants(live, artifacts, b.contestId).GetOr([])
    ensures p.startMinute >= Minute(artifacts.origin, b.end) + artifacts.restMinutes
            || Minute(artifacts.origin, b.start) >= p.endMinute + artifacts.restMinutes
  {
    BusyIsPinned(live, artifacts, current, request, a, b);
    var t := TaskOf(live, artifacts, current, request, a);
    var u, q := PinnedSlot(live, artifacts, current, request, derived, solution, b);
    TasksRested(derived, solution, t, u, p, q, e);
  }

  /** A moved contest keeps the hard rest from every other contest of its entrants, as long as that one is occupied. */
  lemma MovedRestedFromBusy(live: LiveState, artifacts: Artifacts, current: seq<Assignment>, request: Request, derived: Derived,
                            solution: seq<Placement>, a: Assignment, b: Assignment)
    requires Reduced(live, artifacts, current, request, derived, solution)
    requires a in current && b in current && a.contestId != b.contestId
    requires IsAffected(live, request, a) && !IsAffected(live, request, b) && Shares(live, artifacts, a.contestId, b.contestId)
    ensures RestedApart(Merged(artifacts.origin, derived, solution, a), b, artifacts.restMinutes)
    ensures RoundsUp(artifacts.origin, request.expectedReopenAt) ==>
              RestedApart(Merged(artifacts.origin, derived, solution, a), Occupied(request, b), artifacts.restMinutes)
  {
    var p := AffectedSlot(live, artifacts, current, request, derived, solution, a);
    UnaffectedStays(live, artifacts, current, request, derived, solution, b);
    var e :| e in Entrants(live, artifacts, a.contestId).GetOr([]) && e in Entrants(live, artifacts, b.contestId).GetOr([]);
    PinnedRested(live, artifacts, current, request, derived, solution, a, Occupied(request, b), p, e);
    assert OnMinutes(artifacts.origin, b);
    RestInInstants(artifacts.origin, request, b, p, artifacts.restMinutes);
  }

  lemma RestInInstants(origin: int, request: Request, b: Assignment, p: Placement, rest: nat)
    requires Aligned(origin, b.start) && Aligned(origin, b.end)
    requires var busy := Occupied(request, b);
             p.startMinute >= Minute(origin, busy.end) + rest || Minute(origin, busy.start) >= p.endMinute + rest
    ensures var x := InPlan(origin, p);
            RestedApart(x, b, rest) && (RoundsUp(origin, request.expectedReopenAt) ==> RestedApart(x, Occupied(request, b), rest))
  {
    MinuteOfAligned(origin, b.start);
    MinuteOfAligned(origin, b.end);
    MinuteMonotone(origin, b.end, Occupied(request, b).end);
    MinuteOfRoundedUp(origin, request.expectedReopenAt);
  }

  // ---------------------------------------------------------------- the closure

  predicate OnClosedCourt(request: Request, a: Assignment) {
    a.resourceId == request.courtId && Overlaps(a.start, a.end, request.ClosureStart(), request.expectedReopenAt)
  }

  /** On the closed court, a moved contest starts no earlier than the minute the closure's end rounds to. */
  lemma MovedAfterClosure(live: LiveState, artifacts: Artifacts, current: seq<Assignment>, request: Request, derived: Derived,
                          solution: seq<Placement>, a: Assignment)
    requires Reduced(live, artifacts, current, request, derived, solution)
    requires a in current && IsAffected(live, request, a)
    ensures var x := Merged(artifacts.origin, derived, solution, a);
            x.resourceId == request.courtId ==>
              x.start >= artifacts.origin + Minute(artifacts.origin, request.expectedReopenAt) * MINUTE
  {
    var p := AffectedSlot(live, artifacts, current, request, derived, solution, a);
    assert OnMinutes(artifacts.origin, a);
    if p.resourceId == request.courtId { SlotAfterClosure(live, artifacts, current, request, a, p); }
  }

  lemma SlotAfterClosure(live: LiveState, artifacts: Artifacts, current: seq<Assignment>, request: Request, a: Assignment, p: Placement)
    requires Slot(live, artifacts, current, request, a, p) && a.start < a.end
    requires request.ClosureStart() < request.expectedReopenAt && p.resourceId == request.courtId
    ensures p.startMinute >= Minute(artifacts.origin, request.expectedReopenAt)
  {
    MinuteMonotone(artifacts.origin, request.ClosureStart(), request.expectedReopenAt);
  }

  ghost predicate AvoidsClosure(live: LiveState, request: Request, current: seq<Assignment>, plan: seq<Assignment>) {
    forall x, a | x in plan && a in current && a.contestId == x.contestId && IsAffected(live, request, a) ::
      !OnClosedCourt(request, x)
  }

  /** If the reopening time does not round to an earlier minute, no moved contest overlaps the closure. */
  lemma RepairAvoidsClosure(live: LiveState, artifacts: Artifacts, current: seq<Assignment>, request: Request,
                            derived: Derived, solution: seq<Placement>)
    requires Repaired(live, artifacts, current, request, derived, solution)
    requires RoundsUp(artifacts.origin, request.expectedReopenAt)
    ensures AvoidsClosure(live, request, current, Merge(artifacts.origin, derived, current, solution))
  {
    RepairedIsReduced(live, artifacts, current, request, derived, solution);
    MinuteOfRoundedUp(artifacts.origin, request.expectedReopenAt);
    var plan := Merge(artifacts.origin, derived, current, solution);
    forall x, a | x in plan && a in current && a.contestId == x.contestId && IsAffected(live, request, a)
      ensures !OnClosedCourt(request, x)
    {
      var b := MergedFrom(artifacts, current, derived, solution, x);
      SameIdSameAssignment(current, a, b);
      MovedAfterClosure(live, artifacts, current, request, derived, solution, a);
    }
  }

  // ---------------------------------------------------------------- the main results

  /** Every moved contest is rested from every other contest of its entrants. */
  ghost predicate RestKept(live: LiveState, artifacts: Artifacts, request: Request, current: seq<Assignment>, plan: seq<Assignment>) {
    forall x, y, a | x in plan && y in plan && a in current && a.contestId == x.contestId && IsAffected(live, request, a)
                     && x.contestId != y.contestId && Shares(live, artifacts, x.contestId, y.contestId) ::
      RestedApart(x, y, artifacts.restMinutes)
  }

  lemma RepairKeepsRest(live: LiveState, artifacts: Artifacts, current: seq<Assignment>, request: Request,
                        derived: Derived, solution: seq<Placement>)
    requires Repaired(live, artifacts, current, request, derived, solution)
    ensures RestKept(live, artifacts, request, current, Merge(artifacts.origin, derived, current, solution))
  {
    RepairedIsReduced(live, artifacts, current, request, derived, solution);
    var plan := Merge(artifacts.origin, derived, current, solution);
    forall x, y, a | x in plan && y in plan && a in current && a.contestId == x.contestId && IsAffected(live, request, a)
                     && x.contestId != y.contestId && Shares(live, artifacts, x.contestId, y.contestId)
      ensures RestedApart(x, y, artifacts.restMinutes)
    {
      MergedPairRested(live, artifacts, current, request, derived, solution, x, y, a);
    }
  }

  lemma MergedPairRested(live: LiveState, artifacts: Artifacts, current: seq<Assignment>, request: Request, derived: Derived,
                         solution: seq<Placement>, x: Assignment, y: Assignment, a: Assignment)
    requires Reduced(live, artifacts, current, request, derived, solution)
    requires var plan := Merge(artifacts.origin, derived, current, solution); x in plan && y in plan
    requires a in current && a.contestId == x.contestId && IsAffected(live, request, a)
    requires x.contestId != y.contestId && Shares(live, artifacts, x.contestId, y.contestId)
    ensures RestedApart(x, y, artifacts.restMinutes)
  {
    var a' := MergedFrom(artifacts, current, derived, solution, x);
    SameIdSameAssignment(current, a, a');
    var b := MergedFrom(artifacts, current, derived, solution, y);
    if IsAffected(live, request, b) {
      MovedRested(live, artifacts, current, request, derived, solution, a, b);
    } else {
      UnaffectedStays(live, artifacts, current, request, derived, solution, b);
      MovedRestedFromBusy(live, artifacts, current, request, derived, solution, a, b);
    }
  }

  /** Every moved contest is rested from the reported end of an overrunning contest of a shared entrant, too. */
  ghost predicate RestFromReportedEnd(live: LiveState, artifacts: Artifacts, request: Request, current: seq<Assignment>,
                                      plan: seq<Assignment>) {
    forall x, a, b | x in plan && a in current && b in current && a.contestId == x.contestId && IsAffected(live, request, a)
                     && request.incident == Overrun(b.contestId) && Shares(live, artifacts, x.contestId, b.contestId) ::
      RestedApart(x, b.(end := Max(b.end, request.expectedReopenAt)), artifacts.restMinutes)
  }

  /** The overrunning contest is in progress, so it is not moved. */
  lemma OverrunningIsUnaffected(live: LiveState, artifacts: Artifacts, current: seq<Assignment>, request: Request, b: Assignment)
    requires Refusal(live, artifacts, Affected(live, request, current), request).None? && request.incident == Overrun(b.contestId)
    ensures !IsAffected(live, request, b)
  {
    assert b.contestId in InProgressOn(live, request.courtId);
  }

  /** An overrunning contest's entrants are rested from its reported end too, if that end rounds to no earlier minute. */
  lemma RepairKeepsRestFromOverrun(live: LiveState, artifacts: Artifacts, current: seq<Assignment>, request: Request,
                                   derived: Derived, solution: seq<Placement>)
    requires Repaired(live, artifacts, current, request, derived, solution)
    requires RoundsUp(artifacts.origin, request.expectedReopenAt)
    ensures RestFromReportedEnd(live, artifacts, request, current, Merge(artifacts.origin, derived, current, solution))
  {
    RepairedIsReduced(live, artifacts, current, request, derived, solution);
    forall x, a, b | x in Merge(artifacts.origin, derived, current, solution) && a in current && b in current
                     && a.contestId == x.contestId && IsAffected(live, request, a)
                     && request.incident == Overrun(b.contestId) && Shares(live, artifacts, x.contestId, b.contestId)
      ensures RestedApart(x, b.(end := Max(b.end, request.expectedReopenAt)), artifacts.restMinutes)
    {
      OverrunningIsUnaffected(live, artifacts, current, request, b);
      MovedRestedFromOverrun(live, artifacts, current, request, derived, solution, x, a, b);
    }
  }

  lemma MovedRestedFromOverrun(live: LiveState, artifacts: Artifacts, current: seq<Assignment>, request: Request, derived: Derived,
                               solution: seq<Placement>, x: Assignment, a: Assignment, b: Assignment)
    requires Reduced(live, artifacts, current, request, derived, solution) && RoundsUp(artifacts.origin, request.expectedReopenAt)
    requires x in Merge(artifacts.origin, derived, current, solution) && a in current && b in current
    requires a.contestId == x.contestId && IsAffected(live, request, a) && !IsAffected(live, request, b)
    requires request.incident == Overrun(b.contestId) && Shares(live, artifacts, x.contestId, b.contestId)
    ensures RestedApart(x, b.(end := Max(b.end, request.expectedReopenAt)), artifacts.restMinutes)
  {
    var a' := MergedFrom(artifacts, current, derived, solution, x);
    SameIdSameAssignment(current, a, a');
    if a.contestId == b.contestId { SameIdSameAssignment(current, a, b); }
    MovedRestedFromBusy(live, artifacts, current, request, derived, solution, a, b);
  }

  /**
   * Only affected contests move: every other slot is in the merged plan as it was, the plan holds the same
   * contests, and a moved contest keeps its length and is played on a declared court.
   */
  ghost predicate OnlyAffectedMove(live: LiveState, request: Request, current: seq<Assignment>, plan: seq<Assignment>) {
    && multiset(Ids(plan)) == multiset(Ids(current))
    && (forall a | a in current && !IsAffected(live, request, a) :: a in plan)
    && (forall x, a | x in plan && a in current && a.contestId == x.contestId && IsAffected(live, request, a) ::
          x.end - x.start == a.end - a.start && x.resourceId in live.courts && x.start < x.end)
  }

  lemma RepairMovesOnlyAffected(live: LiveState, artifacts: Artifacts, current: seq<Assignment>, request: Request,
                                derived: Derived, solution: seq<Placement>)
    requires Repaired(live, artifacts, current, request, derived, solution)
    ensures OnlyAffectedMove(live, request, current, Merge(artifacts.origin, derived, current, solution))
  {
    RepairedIsReduced(live, artifacts, current, request, derived, solution);
    MergeKeepsContests(artifacts.origin, derived, current, solution);
    var plan := Merge(artifacts.origin, derived, current, solution);
    forall a | a in current && !IsAffected(live, request, a) ensures a in plan {
      UnaffectedStays(live, artifacts, current, request, derived, solution, a);
      MergedInPlan(artifacts.origin, derived, current, solution, a);
    }
    forall x, a | x in plan && a in current && a.contestId == x.contestId && IsAffected(live, request, a)
      ensures x.end - x.start == a.end - a.start && x.resourceId in live.courts && x.start < x.end
    {
      var a' := MergedFrom(artifacts, current, derived, solution, x);
      SameIdSameAssignment(current, a, a');
      assert OnMinutes(artifacts.origin, a);
      var p := AffectedSlot(live, artifacts, current, request, derived, solution, a);
    }
  }

  lemma MergeKeepsContests(origin: int, derived: Derived, current: seq<Assignment>, solution: seq<Placement>)
    ensures multiset(Ids(Merge(origin, derived, current, solution))) == multiset(Ids(current))
  {
    var all := Map(current, a => Merged(origin, derived, solution, a));
    SortKeepsImages(all, PlanLeq, (a: Assignment) => a.contestId);
    assert Ids(all) == Ids(current);
    assert Ids(SortBy(all, PlanLeq)) == Map(SortBy(all, PlanLeq), (a: Assignment) => a.contestId);
    assert Ids(all) == Map(all, (a: Assignment) => a.contestId);
  }

  lemma MergedInPlan(origin: int, derived: Derived, current: seq<Assignment>, solution: seq<Placement>, a: Assignment)
    requires a in current
    ensures Merged(origin, derived, solution, a) in Merge(origin, derived, current, solution)
  {
    var all := Map(current, a => Merged(origin, derived, solution, a));
    SortKeepsElements(all, PlanLeq);
    var i :| 0 <= i < |current| && current[i] == a;
    assert all[i] == Merged(origin, derived, solution, a);
  }

  /** A moved contest starts after every moved contest it depends on has ended. */
  ghost predicate DependenciesKept(live: LiveState, request: Request, current: seq<Assignment>, plan: seq<Assignment>) {
    forall x, y, a, b | x in plan && y in plan && a in current && b in current
                        && a.contestId == x.contestId && b.contestId == y.contestId
                        && IsAffected(live, request, a) && IsAffected(live, request, b) && DependsOn(live, x.contestId, y.contestId) ::
      x.start >= y.end
  }

  predicate DependsOn(live: LiveState, id: string, other: string) {
    var definition := DefinitionOf(live.definitions, id);
    definition.Some? && other in definition.value.dependencyIds
  }

  lemma DependencyListed(live: LiveState, artifacts: Artifacts, current: seq<Assignment>, request: Request, a: Assignment, b: Assignment)
    returns (t: Task)
    requires a in Affected(live, request, current) && b in Affected(live, request, current)
    requires DependsOn(live, a.contestId, b.contestId)
    ensures t in Derive(live, artifacts, current, request).problem.tasks && t.id == a.contestId && b.contestId in t.dependencyIds
  {
    var affected := Affected(live, request, current);
    IdListed(affected, b);
    var resourceIds := Map(CourtResources(live, artifacts, request, Busy(live, request, current)), (r: Resource) => r.id);
    var i :| 0 <= i < |affected| && affected[i] == a;
    t := AffectedTask(live, artifacts, Ids(affected), resourceIds, a);
    assert Derive(live, artifacts, current, request).problem.tasks[i] == t;
  }

  lemma PlacedOnce(derived: Derived, solution: seq<Placement>, p: Placement, q: Placement)
    requires Feasible(derived, solution) && p in solution && q in solution && p.taskId == q.taskId
    ensures p == q
  {
    var i :| 0 <= i < |solution| && solution[i] == p;
    var j :| 0 <= j < |solution| && solution[j] == q;
    var ids := Map(solution, (p: Placement) => p.taskId);
    assert ids[i] == ids[j];
  }

  lemma MovedAfterDependency(live: LiveState, artifacts: Artifacts, current: seq<Assignment>, request: Request, derived: Derived,
                             solution: seq<Placement>, a: Assignment, b: Assignment)
    requires Reduced(live, artifacts, current, request, derived, solution)
    requires a in current && b in current && IsAffected(live, request, a) && IsAffected(live, request, b)
    requires DependsOn(live, a.contestId, b.contestId)
    ensures Merged(artifacts.origin, derived, solution, a).start >= Merged(artifacts.origin, derived, solution, b).end
  {
    var p := AffectedSlot(live, artifacts, current, request, derived, solution, a);
    var q := AffectedSlot(live, artifacts, current, request, derived, solution, b);
    var t := DependencyListed(live, artifacts, current, request, a, b);
    assert AfterDependencies(derived.problem, solution, p);
    var r :| r in solution && r.taskId == b.contestId && p.startMinute >= r.endMinute;
    PlacedOnce(derived, solution, q, r);
  }

  lemma RepairKeepsDependencies(live: LiveState, artifacts: Artifacts, current: seq<Assignment>, request: Request,
                                derived: Derived, solution: seq<Placement>)
    requires Repaired(live, artifacts, current, request, derived, solution)
    ensures DependenciesKept(live, request, current, Merge(artifacts.origin, derived, current, solution))
  {
    RepairedIsReduced(live, artifacts, current, request, derived, solution);
    var plan := Merge(artifacts.origin, derived, current, solution);
    forall x, y, a, b | x in plan && y in plan && a in current && b in current
                        && a.contestId == x.contestId && b.contestId == y.contestId
                        && IsAffected(live, request, a) && IsAffected(live, request, b) && DependsOn(live, x.contestId, y.contestId)
      ensures x.start >= y.end
    {
      var a' := MergedFrom(artifacts, current, derived, solution, x);
      SameIdSameAssignment(current, a, a');
      var b' := MergedFrom(artifacts, current, derived, solution, y);
      SameIdSameAssignment(current, b, b');
      MovedAfterDependency(live, artifacts, current, request, derived, solution, a, b);
    }
  }

  lemma SlotOnMinutes(origin: int, a: Assignment, p: Placement)
    requires OnMinutes(origin, a) && InPlan(origin, p).end - InPlan(origin, p).start == a.end - a.start
    ensures OnMinutes(origin, InPlan(origin, p))
  {
    MultiplesAreWhole(p.startMinute);
    MultiplesAreWhole(p.endMinute);
    assert InPlan(origin, p).start - origin == p.startMinute * MINUTE && InPlan(origin, p).end - origin == p.endMinute * MINUTE;
  }

  lemma MultiplesAreWhole(minutes: int)
    ensures minutes * MINUTE % MINUTE == 0
  {
  }

  lemma SameIdsDistinct(plan: seq<Assignment>, current: seq<Assignment>)
    requires multiset(Ids(plan)) == multiset(Ids(current)) && Distinct(Ids(current))
    ensures Distinct(Ids(plan))
  {
    SortedSets.DistinctMultiplicity(Ids(plan));
    SortedSets.DistinctMultiplicity(Ids(current));
  }

  /** A merged plan is again one that repairs may start from. */
  lemma RepairKeepsPlanSound(live: LiveState, artifacts: Artifacts, current: seq<Assignment>, request: Request,
                             derived: Derived, solution: seq<Placement>)
    requires Repaired(live, artifacts, current, request, derived, solution)
    ensures SoundPlan(artifacts.origin, Merge(artifacts.origin, derived, current, solution))
  {
    RepairedIsReduced(live, artifacts, current, request, derived, solution);
    var plan := Merge(artifacts.origin, derived, current, solution);
    RepairKeepsCourtsFree(live, artifacts, current, request, derived, solution);
    MergeKeepsContests(artifacts.origin, derived, current, solution);
    SameIdsDistinct(plan, current);
    forall x | x in plan ensures OnMinutes(artifacts.origin, x) {
      var a := MergedFrom(artifacts, current, derived, solution, x);
      assert OnMinutes(artifacts.origin, a);
      if IsAffected(live, request, a) {
        var p := AffectedSlot(live, artifacts, current, request, derived, solution, a);
        SlotOnMinutes(artifacts.origin, a, p);
      } else {
        UnaffectedStays(live, artifacts, current, request, derived, solution, a);
      }
    }
  }

  /** A plan that starts at its origin still does. */
  lemma RepairKeepsOrigin(live: LiveState, artifacts: Artifacts, current: seq<Assignment>, request: Request,
                          derived: Derived, solution: seq<Placement>)
    requires Repaired(live, artifacts, current, request, derived, solution) && FromOrigin(artifacts.origin, current)
    ensures FromOrigin(artifacts.origin, Merge(artifacts.origin, derived, current, solution))
  {
    RepairedIsReduced(live, artifacts, current, request, derived, solution);
    MinuteMonotone(artifacts.origin, artifacts.origin, request.ClosureStart());
    forall x | x in Merge(artifacts.origin, derived, current, solution) ensures artifacts.origin <= x.start {
      var a := MergedFrom(artifacts, current, derived, solution, x);
      if IsAffected(live, request, a) {
        var p := AffectedSlot(live, artifacts, current, request, derived, solution, a);
      } else {
        UnaffectedStays(live, artifacts, current, request, derived, solution, a);
      }
    }
  }

  // ---------------------------------------------------------------- the live guard's closed-court findings

  /** The contests that `liveGuard` reports as overlapping the declared closure. */
  method ClosedCourtFindings(plan: seq<Assignment>, request: Request) returns (findings: seq<string>)
    ensures findings == Ids(Filter(plan, a => OnClosedCourt(request, a)))
  {
    findings := [];
    ghost var keep := (a: Assignment) => OnClosedCourt(request, a);
    for i := 0 to |plan|
      invariant findings == Ids(Filter(plan[..i], keep))
    {
      FilterSnoc(plan[..i], plan[i], keep);
      assert plan[..i + 1] == plan[..i] + [plan[i]];
      if OnClosedCourt(request, plan[i]) {
        assert Ids(Filter(plan[..i], keep) + [plan[i]]) == Ids(Filter(plan[..i], keep)) + [plan[i].contestId];
        findings := findings + [plan[i].contestId];
      } else {
        assert Filter(plan[..i], keep) + [] == Filter(plan[..i], keep);
      }
    }
    assert plan[..|plan|] == plan;
  }

  /**
   * After a repair whose reopening rounds to no earlier minute, the contests the guard reports on the closed
   * court are exactly the unaffected ones already scheduled across it: contests no longer waiting to start.
   */
  lemma ClosedCourtReportsOnlyStartedContests(live: LiveState, artifacts: Artifacts, current: seq<Assignment>, request: Request,
                                              derived: Derived, solution: seq<Placement>, id: string)
    requires Repaired(live, artifacts, current, request, derived, solution)
    requires RoundsUp(artifacts.origin, request.expectedReopenAt)
    ensures id in Ids(Filter(Merge(artifacts.origin, derived, current, solution), a => OnClosedCourt(request, a)))
            <==> exists a :: a in current && a.contestId == id && OnClosedCourt(request, a)
                             && !(id in live.contests && live.contests[id].status.Scheduled?)
  {
    var plan := Merge(artifacts.origin, derived, current, solution);
    var reported := Filter(plan, a => OnClosedCourt(request, a));
    RepairMovesOnlyAffected(live, artifacts, current, request, derived, solution);
    RepairAvoidsClosure(live, artifacts, current, request, derived, solution);
    RepairedIsReduced(live, artifacts, current, request, derived, solution);
    if id in Ids(reported) {
      var i :| 0 <= i < |reported| && Ids(reported)[i] == id;
      var x := reported[i];
      var a := MergedFrom(artifacts, current, derived, solution, x);
      if !IsAffected(live, request, a) { UnaffectedStays(live, artifacts, current, request, derived, solution, a); }
    }
    if a :| a in current && a.contestId == id && OnClosedCourt(request, a)
            && !(id in live.contests && live.contests[id].status.Scheduled?) {
      assert a in plan;
      IdListed(reported, a);
    }
  }

  ghost predicate ClosedCourtClear(request: Request, plan: seq<Assignment>) {
    Ids(Filter(plan, a => OnClosedCourt(request, a))) == []
  }

  lemma ClearMeansNobodyThere(request: Request, plan: seq<Assignment>)
    ensures ClosedCourtClear(request, plan) <==> forall x | x in plan :: !OnClosedCourt(request, x)
  {
    var there := Filter(plan, a => OnClosedCourt(request, a));
    if x :| x in plan && OnClosedCourt(request, x) { assert x in there; }
    if there != [] { assert there[0] in there; }
  }

  /**
   * However the reopening rounds, the guard has nothing to report on the closed court exactly when moved contests
   * keep out of the closure and no contest that stays is scheduled across it.
   */
  lemma GuardPassesIffClosureAvoided(live: LiveState, artifacts: Artifacts, current: seq<Assignment>, request: Request,
                                     derived: Derived, solution: seq<Placement>)
    requires Repaired(live, artifacts, current, request, derived, solution)
    ensures var plan := Merge(artifacts.origin, derived, current, solution);
            ClosedCourtClear(request, plan) <==>
              && AvoidsClosure(live, request, current, plan)
              && forall a | a in current && OnClosedCourt(request, a) :: IsAffected(live, request, a)
  {
    var plan := Merge(artifacts.origin, derived, current, solution);
    ClearMeansNobodyThere(request, plan);
    RepairMovesOnlyAffected(live, artifacts, current, request, derived, solution);
    RepairedIsReduced(live, artifacts, current, request, derived, solution);
    if AvoidsClosure(live, request, current, plan) && forall a | a in current && OnClosedCourt(request, a) :: IsAffected(live, request, a) {
      forall x | x in plan ensures !OnClosedCourt(request, x) {
        var a := MergedFrom(artifacts, current, derived, solution, x);
        if !IsAffected(live, request, a) { UnaffectedStays(live, artifacts, current, request, derived, solution, a); }
      }
    }
  }
}
