/**
 * Exactly when repairs keep moved contests out of a closure, and rested from a reported end: the repair problem rounds
 * instants to whole minutes, so an instant that rounds to an earlier minute lets a contest start before it.
 */
module CourtOutageRounding {
  import opened Wrappers
  import opened Lists
  import opened Numbers
  import opened Ordering
  import opened Sorting
  import opened Texts
  import opened LiveModel
  import opened CourtOutage
  import opened CourtOutageSoundness

  /** A repair of a plan from the origin on, of contests the record defines, whose problem the solver does not reject. */
  ghost predicate Repairable(live: LiveState, artifacts: Artifacts, current: seq<Assignment>, request: Request,
                             derived: Derived, solution: seq<Placement>) {
    && Repaired(live, artifacts, current, request, derived, solution)
    && FromOrigin(artifacts.origin, current) && Accepted(derived)
    && forall t | t in derived.problem.tasks :: DefinitionOf(live.definitions, t.id).Some?
  }

  /** Every repair of this closure, whatever the plan and the solution, keeps moved contests out of it. */
  ghost predicate ClosureAlwaysKept(origin: int, request: Request) {
    forall live, artifacts: Artifacts, current, derived, solution |
      artifacts.origin == origin && Repairable(live, artifacts, current, request, derived, solution) ::
      AvoidsClosure(live, request, current, Merge(origin, derived, current, solution))
  }

  /** Every repair around this overrun keeps the rest of its entrants from its reported end. */
  ghost predicate ReportedEndAlwaysKept(origin: int, request: Request) {
    forall live, artifacts: Artifacts, current, derived, solution |
      artifacts.origin == origin && Repairable(live, artifacts, current, request, derived, solution) ::
      RestFromReportedEnd(live, artifacts, request, current, Merge(origin, derived, current, solution))
  }

  /** Every such repair does that the live guard has nothing to report of on the closed court. */
  ghost predicate ReportedEndKeptWhenClear(origin: int, request: Request) {
    forall live, artifacts: Artifacts, current, derived, solution |
      && artifacts.origin == origin && Repairable(live, artifacts, current, request, derived, solution)
      && ClosedCourtClear(request, Merge(origin, derived, current, solution)) ::
      RestFromReportedEnd(live, artifacts, request, current, Merge(origin, derived, current, solution))
  }

  /** A request that is not refused for itself: it names its court and contest, and the closure is not empty. */
  predicate Incident(origin: int, request: Request) {
    && origin <= request.ClosureStart() < request.expectedReopenAt && NonBlank(request.courtId)
    && (request.incident.Overrun? ==> NonBlank(request.incident.sourceContestId))
  }

  predicate RoundsDown(origin: int, request: Request) {
    Incident(origin, request) && !RoundsUp(origin, request.expectedReopenAt)
  }

  // ---------------------------------------------------------------- a plan whose repair starts too early

  /** The minute that the end of the closure rounds to. */
  function LastMinute(origin: int, request: Request): int {
    Minute(origin, request.expectedReopenAt)
  }

  /** The minute that the closure starts in. */
  function FirstMinute(origin: int, request: Request): int {
    (request.ClosureStart() - origin) / MINUTE
  }

  /** The waiting contest is planned for the minute the closure starts in, unless an overrunning one needs it. */
  function WaitingMinute(origin: int, request: Request): int {
    if request.incident.Outage? || FirstMinute(origin, request) >= 1 then FirstMinute(origin, request) else LastMinute(origin, request)
  }

  /** The overrunning contest is planned for the minute before the closure where there is one. */
  function SourceMinute(origin: int, request: Request): int {
    if FirstMinute(origin, request) >= 1 then FirstMinute(origin, request) - 1 else if LastMinute(origin, request) >= 1 then 0 else 1
  }

  function OneMinute(origin: int, request: Request, id: string, minute: int): Assignment {
    Assignment(id, request.courtId, origin + minute * MINUTE, origin + minute * MINUTE + MINUTE)
  }

  function WaitingId(request: Request): string {
    match request.incident
    case Outage => "final"
    case Overrun(source) => source + ".next"
  }

  function WaitingSlot(origin: int, request: Request): Assignment {
    OneMinute(origin, request, WaitingId(request), WaitingMinute(origin, request))
  }

  function SourceSlot(origin: int, request: Request): Assignment
    requires request.incident.Overrun?
  {
    OneMinute(origin, request, request.incident.sourceContestId, SourceMinute(origin, request))
  }

  function InPlay(origin: int, request: Request): seq<Assignment> {
    if request.incident.Overrun? then [SourceSlot(origin, request)] else []
  }

  function PlanOf(origin: int, request: Request): seq<Assignment> {
    InPlay(origin, request) + [WaitingSlot(origin, request)]
  }

  const WAITING: Contest := Contest(Scheduled, None, None, None, None, None, None, None)

  function Playing(courtId: string): Contest {
    Contest(InProgress, None, None, None, None, Some(courtId), None, None)
  }

  function WaitingDefinition(origin: int, request: Request): Definition {
    var a := WaitingSlot(origin, request);
    Definition(a.contestId, ["left", "right"], None, true, a.resourceId, [], a.start, a.end)
  }

  /** The closure of an overrun starts when its contest was to end. */
  function SourceDefinition(request: Request, entrants: seq<string>): Definition
    requires request.incident.Overrun?
  {
    Definition(request.incident.sourceContestId, entrants, None, true, request.courtId, [],
               request.ClosureStart() - MINUTE, request.ClosureStart())
  }

  /** The record of a contest that waits and, for an overrun, of the one in play with these entrants. */
  function RecordOf(origin: int, request: Request, courts: seq<string>, inPlay: seq<string>): LiveState {
    var waiting := WaitingDefinition(origin, request);
    var contests, resolved := map[WaitingId(request) := WAITING], map[WaitingId(request) := ["left", "right"]];
    match request.incident
    case Outage => LiveState(courts, [waiting], contests, resolved, map[], [], 0)
    case Overrun(source) =>
      LiveState(courts, [SourceDefinition(request, inPlay), waiting], contests[source := Playing(request.courtId)],
                resolved[source := inPlay], map[], [], 0)
  }

  /** A plan model with one court open until a minute past the closure, and no rest between contests. */
  function OneOpenCourt(origin: int, courtId: string, last: int): Artifacts {
    Artifacts(origin, origin + (last + 1) * MINUTE, 0, map[], Some(map[courtId := [Window(0, last + 1)]]))
  }

  /** Where the minutes of the plan are. */
  lemma MinutesOfPlan(origin: int, request: Request)
    requires RoundsDown(origin, request)
    ensures var first, last := FirstMinute(origin, request), LastMinute(origin, request);
            && 0 <= first <= last && first <= Minute(origin, request.ClosureStart()) <= last
            && origin + last * MINUTE < request.expectedReopenAt <= origin + (last + 1) * MINUTE
            && origin + first * MINUTE <= request.ClosureStart() < origin + (Minute(origin, request.ClosureStart()) + 1) * MINUTE
    ensures var w, s := WaitingMinute(origin, request), SourceMinute(origin, request);
            && 0 <= w <= LastMinute(origin, request) && 0 <= s && (request.incident.Overrun? ==> s != w)
            && (LastMinute(origin, request) >= 1 ==> s < LastMinute(origin, request) && s <= Minute(origin, request.ClosureStart()))
            && (LastMinute(origin, request) < 1 ==> s == 1)
  {
    MinuteOfRoundedUp(origin, request.expectedReopenAt);
    MinuteMonotone(origin, origin, request.expectedReopenAt);
    MinuteMonotone(origin, request.ClosureStart(), request.expectedReopenAt);
  }

  lemma SlotIsWhole(origin: int, request: Request, id: string, minute: int)
    ensures var a := OneMinute(origin, request, id, minute);
            && OnMinutes(origin, a) && Minute(origin, a.start) == minute && Minute(origin, a.end) == minute + 1
  {
    MultiplesAreWhole(minute);
    MultiplesAreWhole(minute + 1);
    assert OneMinute(origin, request, id, minute).start - origin == minute * MINUTE;
    assert OneMinute(origin, request, id, minute).end - origin == (minute + 1) * MINUTE;
  }

  lemma WaitingReachesClosure(origin: int, request: Request)
    requires RoundsDown(origin, request)
    ensures var a := WaitingSlot(origin, request);
            && origin <= a.start && Overlaps(a.start, a.end, request.ClosureStart(), request.expectedReopenAt)
  {
    MinutesOfPlan(origin, request);
  }

  lemma OtherIdentity(request: Request)
    ensures request.incident.Overrun? ==> WaitingId(request) != request.incident.sourceContestId
  {
    if request.incident.Overrun? { assert |WaitingId(request)| == |request.incident.sourceContestId| + 5; }
  }

  lemma PlanIsSound(origin: int, request: Request)
    requires RoundsDown(origin, request)
    ensures SoundPlan(origin, PlanOf(origin, request)) && FromOrigin(origin, PlanOf(origin, request))
  {
    var plan := PlanOf(origin, request);
    MinutesOfPlan(origin, request);
    OtherIdentity(request);
    SlotIsWhole(origin, request, WaitingId(request), WaitingMinute(origin, request));
    if request.incident.Overrun? { SlotIsWhole(origin, request, request.incident.sourceContestId, SourceMinute(origin, request)); }
    forall x | x in plan ensures OnMinutes(origin, x) {
    }
    forall x, y | x in plan && y in plan && x.contestId != y.contestId ensures Clear(x, y) {
    }
  }

  lemma WaitingIsAffected(origin: int, request: Request, courts: seq<string>, inPlay: seq<string>)
    requires RoundsDown(origin, request)
    ensures var a, live := WaitingSlot(origin, request), RecordOf(origin, request, courts, inPlay);
            && IsAffected(live, request, a) && a.contestId in live.contests && live.contests[a.contestId] == WAITING
            && a in PlanOf(origin, request) && Affected(live, request, PlanOf(origin, request)) == [a]
            && Busy(live, request, PlanOf(origin, request)) == Map(InPlay(origin, request), b => Occupied(request, b))
  {
    var a, live := WaitingSlot(origin, request), RecordOf(origin, request, courts, inPlay);
    WaitingReachesClosure(origin, request);
    OtherIdentity(request);
    FilterSnoc(InPlay(origin, request), a, a => IsAffected(live, request, a));
    if request.incident.Overrun? { FilterSingle(SourceSlot(origin, request), a => IsAffected(live, request, a)); }
    OthersAreBusy(origin, request, live);
  }

  lemma OthersAreBusy(origin: int, request: Request, live: LiveState)
    requires Affected(live, request, PlanOf(origin, request)) == [WaitingSlot(origin, request)]
    ensures Busy(live, request, PlanOf(origin, request)) == Map(InPlay(origin, request), b => Occupied(request, b))
  {
    var a := WaitingSlot(origin, request);
    var ids := Ids(Affected(live, request, PlanOf(origin, request)));
    OtherIdentity(request);
    assert ids == [a.contestId];
    FilterSnoc(InPlay(origin, request), a, (a: Assignment) => a.contestId !in ids);
    if request.incident.Overrun? { FilterSingle(SourceSlot(origin, request), (a: Assignment) => a.contestId !in ids); }
    assert InPlay(origin, request) + [] == InPlay(origin, request);
  }

  lemma RecordInProgress(origin: int, request: Request, courts: seq<string>, inPlay: seq<string>)
    ensures var live := RecordOf(origin, request, courts, inPlay);
            InProgressOn(live, request.courtId)
            == if request.incident.Overrun? then {request.incident.sourceContestId} else {}
  {
    OtherIdentity(request);
  }

  predicate WaitsForNothing(live: LiveState, id: string) {
    DefinitionOf(live.definitions, id).Some? && DefinitionOf(live.definitions, id).value.dependencyIds == []
  }

  lemma TwoDefinitions(first: Definition, second: Definition)
    requires first.contestId != second.contestId
    ensures DefinitionOf([second], second.contestId) == Some(second)
    ensures DefinitionOf([first, second], first.contestId) == Some(first) && DefinitionOf([first, second], second.contestId) == Some(second)
  {
    assert [first, second][..1] == [first];
    assert DefinitionOf([first], first.contestId) == Some(first);
  }

  lemma WaitingDefined(origin: int, request: Request, courts: seq<string>, inPlay: seq<string>)
    ensures var live := RecordOf(origin, request, courts, inPlay);
            && WaitsForNothing(live, WaitingId(request))
            && WaitingId(request) in live.resolved && live.resolved[WaitingId(request)] == ["left", "right"]
            && (request.incident.Overrun? ==> DefinitionOf(live.definitions, request.incident.sourceContestId).Some?)
  {
    OtherIdentity(request);
    var waiting := WaitingDefinition(origin, request);
    match request.incident {
      case Outage => assert DefinitionOf([waiting], waiting.contestId) == Some(waiting);
      case Overrun(_) => TwoDefinitions(SourceDefinition(request, inPlay), waiting);
    }
  }

  /** Nothing stands in the way of deriving the repair. */
  lemma PlanDerives(origin: int, request: Request, courts: seq<string>, inPlay: seq<string>, openCourt: string)
    requires RoundsDown(origin, request) && request.courtId in courts
    ensures var live, plan := RecordOf(origin, request, courts, inPlay), PlanOf(origin, request);
            var artifacts := OneOpenCourt(origin, openCourt, LastMinute(origin, request));
            RepairProblem(live, artifacts, plan, request) == Success(Derive(live, artifacts, plan, request))
  {
    var a, live := WaitingSlot(origin, request), RecordOf(origin, request, courts, inPlay);
    MinutesOfPlan(origin, request);
    WaitingIsAffected(origin, request, courts, inPlay);
    RecordInProgress(origin, request, courts, inPlay);
    WaitingDefined(origin, request, courts, inPlay);
    NothingRefuses(live, OneOpenCourt(origin, openCourt, LastMinute(origin, request)), [a], request, a);
  }

  lemma NothingRefuses(live: LiveState, artifacts: Artifacts, affected: seq<Assignment>, request: Request, a: Assignment)
    requires artifacts.origin <= request.ClosureStart() < request.expectedReopenAt <= artifacts.finish
    requires request.courtId in live.courts && affected == [a]
    requires a.contestId in live.contests && live.contests[a.contestId].calledAt.None?
    requires InProgressOn(live, request.courtId) == if request.incident.Overrun? then {request.incident.sourceContestId} else {}
    requires a.contestId in live.resolved && artifacts.calendars.Some? && DefinitionOf(live.definitions, a.contestId).Some?
    ensures Refusal(live, artifacts, affected, request) == None
  {
  }

  // ---------------------------------------------------------------- its problem

  /** A court open from the closure to a minute past its rounded end, and free in that last minute. */
  predicate OpensAt(origin: int, request: Request, r: Resource, last: int) {
    && r.calendars == [Window(Minute(origin, request.ClosureStart()), last + 1)] && 0 <= Minute(origin, request.ClosureStart()) <= last
    && forall w | w in r.closures :: Sensible(w) && (w.endMinute <= last || last < w.startMinute)
  }

  /** The overrunning contest holds its court up to the minute its end rounds to, or after that minute. */
  lemma BusyBesideLast(origin: int, request: Request, courts: seq<string>, inPlay: seq<string>)
    requires RoundsDown(origin, request)
    ensures var live, last := RecordOf(origin, request, courts, inPlay), LastMinute(origin, request);
            forall b | b in Busy(live, request, PlanOf(origin, request)) ::
              && 0 <= Minute(origin, b.start) < Minute(origin, b.end)
              && (Minute(origin, b.end) <= last || last < Minute(origin, b.start))
  {
    WaitingIsAffected(origin, request, courts, inPlay);
    if request.incident.Overrun? { SourceHolds(origin, request); }
  }

  lemma SourceHolds(origin: int, request: Request)
    requires RoundsDown(origin, request) && request.incident.Overrun?
    ensures var b, last := Occupied(request, SourceSlot(origin, request)), LastMinute(origin, request);
            && b.contestId == request.incident.sourceContestId && Minute(origin, b.start) == SourceMinute(origin, request)
            && (last >= 1 ==> b.end == request.expectedReopenAt && Minute(origin, b.end) == last && Minute(origin, b.start) < last)
            && (last < 1 ==> Minute(origin, b.start) == 1 && Minute(origin, b.end) == 2)
  {
    MinutesOfPlan(origin, request);
    SlotIsWhole(origin, request, request.incident.sourceContestId, SourceMinute(origin, request));
  }

  lemma OpenCourt(origin: int, request: Request, busy: seq<Assignment>, courtId: string, last: int)
    requires RoundsDown(origin, request) && last == LastMinute(origin, request)
    requires forall b | b in busy :: 0 <= Minute(origin, b.start) < Minute(origin, b.end)
                                     && (Minute(origin, b.end) <= last || last < Minute(origin, b.start))
    ensures var r := CourtResource(OneOpenCourt(origin, courtId, last), request, busy, courtId);
            r.id == courtId && OpensAt(origin, request, r, last)
  {
    MinutesOfPlan(origin, request);
    OpenCalendar(origin, request, busy, courtId, last);
    ClosuresBesideLast(origin, request, OneOpenCourt(origin, courtId, last), busy, courtId, last);
  }

  lemma OpenCalendar(origin: int, request: Request, busy: seq<Assignment>, courtId: string, last: int)
    requires origin <= request.ClosureStart() && 0 <= Minute(origin, request.ClosureStart()) <= last
    ensures CourtResource(OneOpenCourt(origin, courtId, last), request, busy, courtId).calendars
            == [Window(Minute(origin, request.ClosureStart()), last + 1)]
  {
    var artifacts, from := OneOpenCourt(origin, courtId, last), Minute(origin, request.ClosureStart());
    MinuteOfAligned(origin, artifacts.finish);
    var clipped := Map([Window(0, last + 1)],
                       (w: Window) => Window(Max(w.startMinute, from), Min(w.endMinute, Minute(origin, artifacts.finish))));
    assert clipped == [Window(from, last + 1)];
    FilterSingle(Window(from, last + 1), NonEmpty);
  }

  lemma ClosuresBesideLast(origin: int, request: Request, artifacts: Artifacts, busy: seq<Assignment>, courtId: string, last: int)
    requires artifacts.origin == origin && 0 <= Minute(origin, request.ClosureStart())
    requires last == LastMinute(origin, request)
    requires forall b | b in busy :: 0 <= Minute(origin, b.start) < Minute(origin, b.end)
                                     && (Minute(origin, b.end) <= last || last < Minute(origin, b.start))
    ensures forall w | w in CourtResource(artifacts, request, busy, courtId).closures ::
              Sensible(w) && (w.endMinute <= last || last < w.startMinute)
  {
    var r := CourtResource(artifacts, request, busy, courtId);
    var here := Filter(busy, (a: Assignment) => a.resourceId == courtId);
    var occupied := Map(here, (a: Assignment) => MinuteWindow(origin, a.start, a.end));
    forall w | w in r.closures ensures Sensible(w) && (w.endMinute <= last || last < w.startMinute) {
      if w in occupied {
        var i :| 0 <= i < |occupied| && occupied[i] == w;
        assert here[i] in here;
      }
    }
  }

  predicate WaitingTask(request: Request, r: Resource, t: Task) {
    t.id == WaitingId(request) && t.durationMinutes == 1 && t.eligibleResourceIds == [r.id] && t.dependencyIds == []
  }

  /** Where the waiting contest is planned before the repair. */
  predicate PlannedAt(request: Request, first: Placement) {
    first.taskId == WaitingId(request) && 0 <= first.startMinute && first.endMinute == first.startMinute + 1
  }

  /** The problem of one affected contest on one open court: its task and that court, besides what is pinned. */
  lemma ProblemOf(request: Request, live: LiveState, artifacts: Artifacts, plan: seq<Assignment>, a: Assignment, r: Resource,
                  pinned: seq<Assignment>) returns (t: Task, first: Placement)
    requires Affected(live, request, plan) == [a] && a.contestId == WaitingId(request) && a.end == a.start + MINUTE
    requires WaitsForNothing(live, a.contestId)
    requires ParticipantBusy(live, artifacts, request, plan) == pinned && |pinned| <= 1 && artifacts.restMinutes == 0
    requires CourtResources(live, artifacts, request, Busy(live, request, plan)) == [r]
    ensures var derived := Derive(live, artifacts, plan, request);
            && derived.problem == Problem([t] + Map(pinned, b => PinnedTask(live, artifacts, b)),
                                          [r] + Map(pinned, b => PinnedResource(artifacts.origin, b)), 0)
            && derived.baseline == [first] + Map(pinned, b => PinnedPlacement(artifacts.origin, b))
            && derived.pinnedTaskIds == Ids(pinned) && derived.affectedIds == [WaitingId(request)]
    ensures WaitingTask(request, r, t)
    ensures first == Placement(a.contestId, a.resourceId, Minute(artifacts.origin, a.start), Minute(artifacts.origin, a.end))
  {
    var resourceIds := Map([r], (r: Resource) => r.id);
    t := AffectedTask(live, artifacts, Ids([a]), resourceIds, a);
    first := Placement(a.contestId, a.resourceId, Minute(artifacts.origin, a.start), Minute(artifacts.origin, a.end));
    TaskIsWaiting(request, live, artifacts, a, r);
    OneTask(live, artifacts, a, resourceIds);
    OneBaseline(artifacts, a);
    AlreadySorted(a, pinned);
  }

  lemma OneBaseline(artifacts: Artifacts, a: Assignment)
    ensures Map([a], (a: Assignment) =>
                       Placement(a.contestId, a.resourceId, Minute(artifacts.origin, a.start), Minute(artifacts.origin, a.end)))
            == [Placement(a.contestId, a.resourceId, Minute(artifacts.origin, a.start), Minute(artifacts.origin, a.end))]
  {
  }

  lemma OneTask(live: LiveState, artifacts: Artifacts, a: Assignment, resourceIds: seq<string>)
    ensures Map([a], a => AffectedTask(live, artifacts, Ids([a]), resourceIds, a)) == [AffectedTask(live, artifacts, Ids([a]), resourceIds, a)]
  {
  }

  lemma AlreadySorted(a: Assignment, pinned: seq<Assignment>)
    requires |pinned| <= 1
    ensures SortBy(Ids([a]), StringLeq) == [a.contestId] && SortBy(Ids(pinned), StringLeq) == Ids(pinned)
  {
    SortOfSorted(Ids([a]), StringLeq);
    SortOfSorted(Ids(pinned), StringLeq);
    assert Ids([a]) == [a.contestId];
  }

  lemma TaskIsWaiting(request: Request, live: LiveState, artifacts: Artifacts, a: Assignment, r: Resource)
    requires WaitsForNothing(live, a.contestId) && a.end == a.start + MINUTE && a.contestId == WaitingId(request)
    ensures WaitingTask(request, r, AffectedTask(live, artifacts, Ids([a]), Map([r], (r: Resource) => r.id), a))
  {
    assert Map([r], (r: Resource) => r.id) == [r.id];
  }

  lemma NonBlankTexts(request: Request)
    requires request.incident.Overrun? ==> NonBlank(request.incident.sourceContestId)
    ensures NonBlank(WaitingId(request))
  {
    match request.incident {
      case Outage => assert !IsSpace("final"[0]);
      case Overrun(source) =>
        var i :| 0 <= i < |source| && !IsSpace(source[i]);
        assert WaitingId(request)[i] == source[i];
    }
  }

  // ---------------------------------------------------------------- its solution, and what every solution does

  /** The waiting contest is placed at the minute the reopening rounds to. */
  function LatePlacement(request: Request, courtId: string, last: int): Placement {
    Placement(WaitingId(request), courtId, last, last + 1)
  }

  lemma LateAllowed(origin: int, request: Request, r: Resource, more: seq<Resource>, last: int)
    requires OpensAt(origin, request, r, last)
    ensures ResourceAllows([r] + more, LatePlacement(request, r.id, last))
  {
    assert FindResource([r] + more, r.id) == Some(r);
    assert r.calendars[0] in r.calendars;
  }

  lemma WaitingAccepted(origin: int, request: Request, problem: Problem, t: Task, r: Resource, first: Placement, last: int)
    requires t in problem.tasks && r in problem.resources && WaitingTask(request, r, t) && NonBlank(t.id) && NonBlank(r.id)
    requires OpensAt(origin, request, r, last) && PlannedAt(request, first)
    ensures TaskAccepted(problem, t) && ResourceAccepted(r) && BaselineAccepted(problem, first)
  {
  }

  /** Nothing is pinned: the solver accepts the problem, and the late placement alone solves it. */
  lemma LateSolves(origin: int, request: Request, derived: Derived, t: Task, r: Resource, first: Placement, last: int)
    requires derived.problem == Problem([t], [r], 0) && derived.pinnedTaskIds == [] && derived.baseline == [first]
    requires WaitingTask(request, r, t) && OpensAt(origin, request, r, last) && PlannedAt(request, first)
    requires NonBlank(t.id) && NonBlank(r.id)
    ensures Feasible(derived, [LatePlacement(request, r.id, last)]) && Accepted(derived)
  {
    var p := LatePlacement(request, r.id, last);
    LateAllowed(origin, request, r, [], last);
    assert [r] + [] == [r];
    assert t in derived.problem.tasks && r in derived.problem.resources;
    assert PlacedAsAsked(derived.problem, p);
    WaitingAccepted(origin, request, derived.problem, t, r, first, last);
    assert Ordered(derived.problem, _ => 0);
  }

  /** The overrunning contest is pinned up to the minute its end rounds to, and rest is not asked for. */
  lemma LateSolvesWithPin(origin: int, request: Request, live: LiveState, artifacts: Artifacts, derived: Derived, t: Task, r: Resource,
                          first: Placement, b: Assignment, last: int)
    requires derived.problem == Problem([t, PinnedTask(live, artifacts, b)], [r, PinnedResource(origin, b)], 0)
    requires derived.baseline == [first, PinnedPlacement(origin, b)] && derived.pinnedTaskIds == [b.contestId]
    requires WaitingTask(request, r, t) && OpensAt(origin, request, r, last) && artifacts.origin == origin && PlannedAt(request, first)
    requires b.contestId != t.id && PinnedResourceId(b.contestId) != r.id && Minute(origin, b.end) == last
    ensures Feasible(derived, [LatePlacement(request, r.id, last), PinnedPlacement(origin, b)])
  {
    var p, q := LatePlacement(request, r.id, last), PinnedPlacement(origin, b);
    LateAllowed(origin, request, r, [PinnedResource(origin, b)], last);
    assert [r] + [PinnedResource(origin, b)] == [r, PinnedResource(origin, b)];
    assert derived.problem.tasks[0] == t && derived.problem.tasks[1] == PinnedTask(live, artifacts, b);
    assert PlacedAsAsked(derived.problem, p) && PlacedAsAsked(derived.problem, q);
    PinAllowed(origin, r, b);
    PinKept(derived, first, p, q);
  }

  lemma PinAllowed(origin: int, r: Resource, b: Assignment)
    requires PinnedResourceId(b.contestId) != r.id
    ensures ResourceAllows([r, PinnedResource(origin, b)], PinnedPlacement(origin, b))
  {
    var pin := PinnedResource(origin, b);
    assert [r, pin][1..] == [pin];
    assert FindResource([pin], pin.id) == Some(pin);
    assert FindResource([r, pin], pin.id) == Some(pin);
    assert pin.calendars[0] in pin.calendars;
  }

  lemma PinKept(derived: Derived, first: Placement, p: Placement, q: Placement)
    requires derived.baseline == [first, q] && derived.pinnedTaskIds == [q.taskId]
    requires first.taskId == p.taskId != q.taskId
    ensures KeepsPin(derived, p) && KeepsPin(derived, q)
  {
  }

  lemma PinAccepted(origin: int, live: LiveState, artifacts: Artifacts, problem: Problem, b: Assignment)
    requires PinnedTask(live, artifacts, b) in problem.tasks && PinnedResource(origin, b) in problem.resources
    requires artifacts.origin == origin && NonBlank(b.contestId) && 0 <= Minute(origin, b.start) < Minute(origin, b.end)
    ensures TaskAccepted(problem, PinnedTask(live, artifacts, b)) && ResourceAccepted(PinnedResource(origin, b))
    ensures BaselineAccepted(problem, PinnedPlacement(origin, b))
  {
    assert !IsSpace(PinnedResourceId(b.contestId)[0]);
  }

  lemma AcceptedWithPin(origin: int, request: Request, live: LiveState, artifacts: Artifacts, derived: Derived, t: Task, r: Resource,
                        first: Placement, b: Assignment, last: int)
    requires derived.problem == Problem([t, PinnedTask(live, artifacts, b)], [r, PinnedResource(origin, b)], 0)
    requires derived.baseline == [first, PinnedPlacement(origin, b)] && derived.pinnedTaskIds == [b.contestId]
    requires WaitingTask(request, r, t) && OpensAt(origin, request, r, last) && artifacts.origin == origin && PlannedAt(request, first)
    requires b.contestId != t.id && PinnedResourceId(b.contestId) != r.id
    requires NonBlank(t.id) && NonBlank(r.id) && NonBlank(b.contestId) && 0 <= Minute(origin, b.start) < Minute(origin, b.end)
    ensures Accepted(derived)
  {
    var problem := derived.problem;
    assert problem.tasks[0] == t && problem.tasks[1] == PinnedTask(live, artifacts, b);
    assert problem.resources[0] == r && problem.resources[1] == PinnedResource(origin, b);
    WaitingAccepted(origin, request, problem, t, r, first, last);
    PinAccepted(origin, live, artifacts, problem, b);
    assert Ordered(problem, _ => 0);
  }

  /** Every solution places the waiting contest on the one open court, no later than the rounded end. */
  lemma EverySolutionIsEarly(live: LiveState, artifacts: Artifacts, current: seq<Assignment>, request: Request, derived: Derived,
                             solution: seq<Placement>, a: Assignment, r: Resource, last: int) returns (p: Placement)
    requires Reduced(live, artifacts, current, request, derived, solution)
    requires a in current && IsAffected(live, request, a) && a.end == a.start + MINUTE
    requires CourtResources(live, artifacts, request, Busy(live, request, current)) == [r]
    requires r == CourtResource(artifacts, request, Busy(live, request, current), r.id) && OpensAt(artifacts.origin, request, r, last)
    ensures InPlan(artifacts.origin, p) in Merge(artifacts.origin, derived, current, solution) && p.taskId == a.contestId
    ensures PlacementFor(solution, a.contestId) == Some(p)
    ensures p.resourceId == r.id && Minute(artifacts.origin, request.ClosureStart()) <= p.startMinute <= last
    ensures p.endMinute == p.startMinute + 1
  {
    p := AffectedPlaced(live, artifacts, current, request, derived, solution, a);
    OnlyCourtId(live, artifacts, current, request, r);
    PlacedInCalendar(live, artifacts, current, request, derived, p, r, last);
    AffectedIdentities(live, artifacts, current, request, a);
    MergedIfPlaced(artifacts.origin, derived, solution, a, p);
    MergedInPlan(artifacts.origin, derived, current, solution, a);
  }

  lemma OnlyCourtId(live: LiveState, artifacts: Artifacts, current: seq<Assignment>, request: Request, r: Resource)
    requires CourtResources(live, artifacts, request, Busy(live, request, current)) == [r]
    ensures CourtIds(live, artifacts, current, request) == [r.id]
  {
  }

  lemma PlacedInCalendar(live: LiveState, artifacts: Artifacts, current: seq<Assignment>, request: Request, derived: Derived,
                         p: Placement, r: Resource, last: int)
    requires derived == Derive(live, artifacts, current, request) && ResourceAllows(derived.problem.resources, p)
    requires p.resourceId in CourtIds(live, artifacts, current, request) && p.resourceId == r.id
    requires r == CourtResource(artifacts, request, Busy(live, request, current), r.id)
    requires r.calendars == [Window(Minute(artifacts.origin, request.ClosureStart()), last + 1)]
    ensures Minute(artifacts.origin, request.ClosureStart()) <= p.startMinute && p.endMinute <= last + 1
  {
    var w := PlacedOnCourt(live, artifacts, current, request, derived, p);
  }

  // ---------------------------------------------------------------- the closure: only its own court is open

  lemma NobodyShared(origin: int, request: Request, artifacts: Artifacts)
    requires RoundsDown(origin, request)
    ensures var live := RecordOf(origin, request, [request.courtId], ["other", "another"]);
            ParticipantBusy(live, artifacts, request, PlanOf(origin, request)) == []
  {
    var a, live := WaitingSlot(origin, request), RecordOf(origin, request, [request.courtId], ["other", "another"]);
    WaitingIsAffected(origin, request, [request.courtId], ["other", "another"]);
    WaitingDefined(origin, request, [request.courtId], ["other", "another"]);
    OnlyWaitingEntrants(live, artifacts, a);
    var participants := AffectedParticipants(live, artifacts, [a]);
    if request.incident.Overrun? {
      var b := Occupied(request, SourceSlot(origin, request));
      OtherIdentity(request);
      assert Entrants(live, artifacts, b.contestId) == Some(["other", "another"]);
      FilterSingle(b, b => SharesParticipant(live, artifacts, participants, b));
      assert Busy(live, request, PlanOf(origin, request)) == [b];
    }
  }

  lemma OnlyWaitingEntrants(live: LiveState, artifacts: Artifacts, a: Assignment)
    requires a.contestId in live.resolved && live.resolved[a.contestId] == ["left", "right"]
    ensures AffectedParticipants(live, artifacts, [a]) == {"left", "right"}
  {
    assert [a][1..] == [];
  }

  lemma OneCourtOpen(live: LiveState, artifacts: Artifacts, request: Request, busy: seq<Assignment>, courtId: string)
    requires live.courts == [courtId] && CourtResource(artifacts, request, busy, courtId).calendars != []
    ensures CourtResources(live, artifacts, request, busy) == [CourtResource(artifacts, request, busy, courtId)]
  {
    var r := CourtResource(artifacts, request, busy, courtId);
    assert Map(live.courts, id => CourtResource(artifacts, request, busy, id)) == [r];
    FilterSingle(r, (r: Resource) => r.calendars != []);
  }

  lemma WithoutPins(derived: Derived, t: Task, r: Resource, first: Placement)
    requires derived.problem == Problem([t] + [], [r] + [], 0) && derived.baseline == [first] + []
    ensures derived.problem == Problem([t], [r], 0) && derived.baseline == [first]
  {
  }

  /** The problem of the closure's plan, the solver's acceptance of it, and a solution. */
  lemma ClosureSolved(origin: int, request: Request, live: LiveState, artifacts: Artifacts, current: seq<Assignment>, r: Resource)
    requires RoundsDown(origin, request) && current == PlanOf(origin, request)
    requires live == RecordOf(origin, request, [request.courtId], ["other", "another"])
    requires artifacts == OneOpenCourt(origin, request.courtId, LastMinute(origin, request))
    requires CourtResources(live, artifacts, request, Busy(live, request, current)) == [r] && r.id == request.courtId
    requires OpensAt(origin, request, r, LastMinute(origin, request))
    ensures var derived := Derive(live, artifacts, current, request);
            && Feasible(derived, [LatePlacement(request, r.id, LastMinute(origin, request))]) && Accepted(derived)
            && forall t | t in derived.problem.tasks :: DefinitionOf(live.definitions, t.id).Some?
  {
    var a, last := WaitingSlot(origin, request), LastMinute(origin, request);
    var derived := Derive(live, artifacts, current, request);
    MinutesOfPlan(origin, request);
    WaitingIsAffected(origin, request, [request.courtId], ["other", "another"]);
    WaitingDefined(origin, request, [request.courtId], ["other", "another"]);
    NobodyShared(origin, request, artifacts);
    NonBlankTexts(request);
    SlotIsWhole(origin, request, WaitingId(request), WaitingMinute(origin, request));
    var t, first := ProblemOf(request, live, artifacts, current, a, r, []);
    WithoutPins(derived, t, r, first);
    LateSolves(origin, request, derived, t, r, first, last);
  }

  /** An accepted repair with a solution, each of whose solutions starts within the closure. */
  lemma RoundedDownReopeningIsOverlapped(origin: int, request: Request)
    returns (live: LiveState, artifacts: Artifacts, current: seq<Assignment>, derived: Derived, solution: seq<Placement>)
    requires RoundsDown(origin, request)
    ensures artifacts.origin == origin && Repairable(live, artifacts, current, request, derived, solution)
    ensures forall other | Feasible(derived, other) ::
              !AvoidsClosure(live, request, current, Merge(origin, derived, current, other))
  {
    var court, last, inPlay := request.courtId, LastMinute(origin, request), ["other", "another"];
    live, artifacts, current := RecordOf(origin, request, [court], inPlay), OneOpenCourt(origin, court, last), PlanOf(origin, request);
    derived, solution := Derive(live, artifacts, current, request), [LatePlacement(request, court, last)];
    PlanIsSound(origin, request);
    PlanDerives(origin, request, [court], inPlay, court);
    BusyBesideLast(origin, request, [court], inPlay);
    OpenCourt(origin, request, Busy(live, request, current), court, last);
    OneCourtOpen(live, artifacts, request, Busy(live, request, current), court);
    var r := CourtResource(artifacts, request, Busy(live, request, current), court);
    ClosureSolved(origin, request, live, artifacts, current, r);
    forall other | Feasible(derived, other)
      ensures !AvoidsClosure(live, request, current, Merge(origin, derived, current, other))
    {
      EveryRepairOverlaps(origin, request, live, artifacts, current, derived, other, r);
    }
  }

  lemma EveryRepairOverlaps(origin: int, request: Request, live: LiveState, artifacts: Artifacts, current: seq<Assignment>,
                            derived: Derived, solution: seq<Placement>, r: Resource)
    requires RoundsDown(origin, request) && artifacts.origin == origin && current == PlanOf(origin, request)
    requires live == RecordOf(origin, request, [request.courtId], ["other", "another"])
    requires Reduced(live, artifacts, current, request, derived, solution)
    requires CourtResources(live, artifacts, request, Busy(live, request, current)) == [r] && r.id == request.courtId
    requires r == CourtResource(artifacts, request, Busy(live, request, current), r.id)
    requires OpensAt(origin, request, r, LastMinute(origin, request))
    ensures !AvoidsClosure(live, request, current, Merge(origin, derived, current, solution))
  {
    var a := WaitingSlot(origin, request);
    WaitingIsAffected(origin, request, [request.courtId], ["other", "another"]);
    MinutesOfPlan(origin, request);
    var p := EverySolutionIsEarly(live, artifacts, current, request, derived, solution, a, r, LastMinute(origin, request));
    assert OnClosedCourt(request, InPlan(origin, p));
  }

  /** Moved contests stay out of a closure for every plan and solution exactly when its end rounds to no earlier minute. */
  lemma ClosureKeptIffReopeningRoundsUp(origin: int, request: Request)
    requires Incident(origin, request)
    ensures ClosureAlwaysKept(origin, request) <==> RoundsUp(origin, request.expectedReopenAt)
  {
    if RoundsUp(origin, request.expectedReopenAt) {
      forall live, artifacts: Artifacts, current, derived, solution |
        artifacts.origin == origin && Repairable(live, artifacts, current, request, derived, solution)
        ensures AvoidsClosure(live, request, current, Merge(origin, derived, current, solution))
      {
        RepairAvoidsClosure(live, artifacts, current, request, derived, solution);
      }
    } else {
      var live, artifacts, current, derived, solution := RoundedDownReopeningIsOverlapped(origin, request);
    }
  }

  // ---------------------------------------------------------------- the reported end: only another court is open

  /** A court that is neither the closed one nor the one the overrunning contest is pinned on. */
  function OtherCourt(request: Request): string
    requires request.incident.Overrun?
  {
    request.courtId + PinnedResourceId(request.incident.sourceContestId) + "'"
  }

  lemma OtherCourtDiffers(request: Request)
    requires request.incident.Overrun? && NonBlank(request.courtId)
    ensures OtherCourt(request) != request.courtId && OtherCourt(request) != PinnedResourceId(request.incident.sourceContestId)
    ensures NonBlank(OtherCourt(request))
  {
    assert |OtherCourt(request)| == |request.courtId| + |PinnedResourceId(request.incident.sourceContestId)| + 1;
    assert |PinnedResourceId(request.incident.sourceContestId)| == 15 + |request.incident.sourceContestId|;
    var i :| 0 <= i < |request.courtId| && !IsSpace(request.courtId[i]);
    assert OtherCourt(request)[i] == request.courtId[i];
  }

  lemma OtherCourtOpen(live: LiveState, artifacts: Artifacts, request: Request, busy: seq<Assignment>, closed: string, courtId: string)
    requires live.courts == [closed, courtId] && CourtResource(artifacts, request, busy, courtId).calendars != []
    requires artifacts.calendars.Some? && closed !in artifacts.calendars.value
    ensures CourtResources(live, artifacts, request, busy) == [CourtResource(artifacts, request, busy, courtId)]
  {
    var q, r := CourtResource(artifacts, request, busy, closed), CourtResource(artifacts, request, busy, courtId);
    assert Map(live.courts, id => CourtResource(artifacts, request, busy, id)) == [q] + [r];
    assert q.calendars == [];
    FilterSnoc([q], r, (r: Resource) => r.calendars != []);
    FilterSingle(q, (r: Resource) => r.calendars != []);
  }

  /** The overrunning contest shares the waiting one's entrants, so it is pinned. */
  lemma BothShared(origin: int, request: Request, courts: seq<string>, artifacts: Artifacts)
    requires RoundsDown(origin, request) && request.incident.Overrun?
    ensures var live := RecordOf(origin, request, courts, ["left", "right"]);
            && ParticipantBusy(live, artifacts, request, PlanOf(origin, request)) == [Occupied(request, SourceSlot(origin, request))]
            && Shares(live, artifacts, WaitingId(request), request.incident.sourceContestId)
  {
    var a, live := WaitingSlot(origin, request), RecordOf(origin, request, courts, ["left", "right"]);
    WaitingIsAffected(origin, request, courts, ["left", "right"]);
    WaitingDefined(origin, request, courts, ["left", "right"]);
    OnlyWaitingEntrants(live, artifacts, a);
    OtherIdentity(request);
    var participants := AffectedParticipants(live, artifacts, [a]);
    var b := Occupied(request, SourceSlot(origin, request));
    var both := ["left", "right"];
    assert both[0] in both && "left" in participants;
    assert Entrants(live, artifacts, b.contestId) == Some(both) == Entrants(live, artifacts, a.contestId);
    assert SharesParticipant(live, artifacts, participants, b);
    FilterSingle(b, b => SharesParticipant(live, artifacts, participants, b));
    assert Busy(live, request, PlanOf(origin, request)) == [b];
  }

  lemma WithOnePin(live: LiveState, artifacts: Artifacts, derived: Derived, t: Task, r: Resource, first: Placement, b: Assignment)
    requires derived.problem == Problem([t] + Map([b], b => PinnedTask(live, artifacts, b)),
                                        [r] + Map([b], b => PinnedResource(artifacts.origin, b)), 0)
    requires derived.baseline == [first] + Map([b], b => PinnedPlacement(artifacts.origin, b))
    requires derived.pinnedTaskIds == Ids([b])
    ensures derived.problem == Problem([t, PinnedTask(live, artifacts, b)], [r, PinnedResource(artifacts.origin, b)], 0)
    ensures derived.baseline == [first, PinnedPlacement(artifacts.origin, b)] && derived.pinnedTaskIds == [b.contestId]
  {
  }

  /** An overrun whose end rounds down to a minute after the first one of the plan. */
  predicate EndsTooEarly(origin: int, request: Request) {
    RoundsDown(origin, request) && request.incident.Overrun? && request.expectedReopenAt >= origin + MINUTE
  }

  lemma OverrunProblem(origin: int, request: Request, live: LiveState, artifacts: Artifacts, current: seq<Assignment>, r: Resource)
    returns (t: Task, first: Placement)
    requires EndsTooEarly(origin, request) && current == PlanOf(origin, request) && artifacts.origin == origin && artifacts.restMinutes == 0
    requires live == RecordOf(origin, request, [request.courtId, OtherCourt(request)], ["left", "right"])
    requires CourtResources(live, artifacts, request, Busy(live, request, current)) == [r]
    ensures var derived, b := Derive(live, artifacts, current, request), Occupied(request, SourceSlot(origin, request));
            && derived.problem == Problem([t, PinnedTask(live, artifacts, b)], [r, PinnedResource(origin, b)], 0)
            && derived.baseline == [first, PinnedPlacement(origin, b)] && derived.pinnedTaskIds == [b.contestId]
    ensures WaitingTask(request, r, t) && PlannedAt(request, first)
  {
    var a, b := WaitingSlot(origin, request), Occupied(request, SourceSlot(origin, request));
    var courts := [request.courtId, OtherCourt(request)];
    MinutesOfPlan(origin, request);
    WaitingIsAffected(origin, request, courts, ["left", "right"]);
    WaitingDefined(origin, request, courts, ["left", "right"]);
    BothShared(origin, request, courts, artifacts);
    SlotIsWhole(origin, request, WaitingId(request), WaitingMinute(origin, request));
    t, first := ProblemOf(request, live, artifacts, current, a, r, [b]);
    WithOnePin(live, artifacts, Derive(live, artifacts, current, request), t, r, first, b);
  }

  lemma OverrunSolved(origin: int, request: Request, live: LiveState, artifacts: Artifacts, current: seq<Assignment>, r: Resource)
    requires EndsTooEarly(origin, request) && current == PlanOf(origin, request)
    requires live == RecordOf(origin, request, [request.courtId, OtherCourt(request)], ["left", "right"])
    requires artifacts == OneOpenCourt(origin, OtherCourt(request), LastMinute(origin, request))
    requires CourtResources(live, artifacts, request, Busy(live, request, current)) == [r] && r.id == OtherCourt(request)
    requires OpensAt(origin, request, r, LastMinute(origin, request))
    ensures var derived := Derive(live, artifacts, current, request);
            var b := Occupied(request, SourceSlot(origin, request));
            && Feasible(derived, [LatePlacement(request, r.id, LastMinute(origin, request)), PinnedPlacement(origin, b)])
            && Accepted(derived)
            && forall t | t in derived.problem.tasks :: DefinitionOf(live.definitions, t.id).Some?
  {
    var t, first := OverrunProblem(origin, request, live, artifacts, current, r);
    WaitingDefined(origin, request, [request.courtId, OtherCourt(request)], ["left", "right"]);
    SourceHolds(origin, request);
    OverrunAccepted(origin, request, live, artifacts, Derive(live, artifacts, current, request), t, r, first,
                    Occupied(request, SourceSlot(origin, request)));
  }

  lemma OverrunAccepted(origin: int, request: Request, live: LiveState, artifacts: Artifacts, derived: Derived, t: Task, r: Resource,
                        first: Placement, b: Assignment)
    requires EndsTooEarly(origin, request) && artifacts.origin == origin && b.contestId == request.incident.sourceContestId
    requires derived.problem == Problem([t, PinnedTask(live, artifacts, b)], [r, PinnedResource(origin, b)], 0)
    requires derived.baseline == [first, PinnedPlacement(origin, b)] && derived.pinnedTaskIds == [b.contestId]
    requires WaitingTask(request, r, t) && PlannedAt(request, first) && r.id == OtherCourt(request)
    requires OpensAt(origin, request, r, LastMinute(origin, request))
    requires 0 <= Minute(origin, b.start) < Minute(origin, b.end) == LastMinute(origin, request)
    ensures Feasible(derived, [LatePlacement(request, r.id, LastMinute(origin, request)), PinnedPlacement(origin, b)]) && Accepted(derived)
  {
    OtherCourtDiffers(request);
    OtherIdentity(request);
    NonBlankTexts(request);
    LateSolvesWithPin(origin, request, live, artifacts, derived, t, r, first, b, LastMinute(origin, request));
    AcceptedWithPin(origin, request, live, artifacts, derived, t, r, first, b, LastMinute(origin, request));
  }

  /**
   * An accepted repair with a solution, each of whose solutions starts a contest of the overrunning contest's entrants
   * before its reported end; the overrunning contest itself is over by the closure, if that starts a minute after the origin.
   */
  lemma RoundedDownEndIsOverlapped(origin: int, request: Request)
    returns (live: LiveState, artifacts: Artifacts, current: seq<Assignment>, derived: Derived, solution: seq<Placement>)
    requires EndsTooEarly(origin, request)
    ensures artifacts.origin == origin && Repairable(live, artifacts, current, request, derived, solution)
    ensures forall other | Feasible(derived, other) ::
              !RestFromReportedEnd(live, artifacts, request, current, Merge(origin, derived, current, other))
    ensures request.ClosureStart() >= origin + MINUTE ==>
              forall other | Feasible(derived, other) :: ClosedCourtClear(request, Merge(origin, derived, current, other))
  {
    var court, last, inPlay := OtherCourt(request), LastMinute(origin, request), ["left", "right"];
    var b, courts := Occupied(request, SourceSlot(origin, request)), [request.courtId, court];
    live, artifacts, current := RecordOf(origin, request, courts, inPlay), OneOpenCourt(origin, court, last), PlanOf(origin, request);
    derived, solution := Derive(live, artifacts, current, request),
                         [LatePlacement(request, court, last), PinnedPlacement(origin, b)];
    PlanIsSound(origin, request);
    PlanDerives(origin, request, courts, inPlay, court);
    BusyBesideLast(origin, request, courts, inPlay);
    OpenCourt(origin, request, Busy(live, request, current), court, last);
    OtherCourtDiffers(request);
    OtherCourtOpen(live, artifacts, request, Busy(live, request, current), request.courtId, court);
    var r := CourtResource(artifacts, request, Busy(live, request, current), court);
    OverrunSolved(origin, request, live, artifacts, current, r);
    forall other | Feasible(derived, other)
      ensures !RestFromReportedEnd(live, artifacts, request, current, Merge(origin, derived, current, other))
      ensures request.ClosureStart() >= origin + MINUTE ==> ClosedCourtClear(request, Merge(origin, derived, current, other))
    {
      EveryRepairIsUnrested(origin, request, live, artifacts, current, derived, other, r);
      if request.ClosureStart() >= origin + MINUTE {
        EveryRepairIsClear(origin, request, live, artifacts, current, derived, other, r);
      }
    }
  }

  lemma EveryRepairIsUnrested(origin: int, request: Request, live: LiveState, artifacts: Artifacts, current: seq<Assignment>,
                              derived: Derived, solution: seq<Placement>, r: Resource)
    requires EndsTooEarly(origin, request) && artifacts.origin == origin && current == PlanOf(origin, request)
    requires live == RecordOf(origin, request, [request.courtId, OtherCourt(request)], ["left", "right"])
    requires artifacts.restMinutes == 0 && Reduced(live, artifacts, current, request, derived, solution)
    requires CourtResources(live, artifacts, request, Busy(live, request, current)) == [r]
    requires r == CourtResource(artifacts, request, Busy(live, request, current), r.id)
    requires OpensAt(origin, request, r, LastMinute(origin, request))
    ensures !RestFromReportedEnd(live, artifacts, request, current, Merge(origin, derived, current, solution))
  {
    var a, b := WaitingSlot(origin, request), SourceSlot(origin, request);
    var courts := [request.courtId, OtherCourt(request)];
    WaitingIsAffected(origin, request, courts, ["left", "right"]);
    BothShared(origin, request, courts, artifacts);
    MinutesOfPlan(origin, request);
    var p := EverySolutionIsEarly(live, artifacts, current, request, derived, solution, a, r, LastMinute(origin, request));
    StartsBeforeReportedEnd(origin, request, b, p);
    UnrestedPair(live, artifacts, request, current, Merge(origin, derived, current, solution), InPlan(origin, p), a, b);
  }

  lemma StartsBeforeReportedEnd(origin: int, request: Request, b: Assignment, p: Placement)
    requires origin + p.startMinute * MINUTE < request.expectedReopenAt && b.start < origin + p.endMinute * MINUTE
    ensures !RestedApart(InPlan(origin, p), b.(end := Max(b.end, request.expectedReopenAt)), 0)
  {
  }

  lemma UnrestedPair(live: LiveState, artifacts: Artifacts, request: Request, current: seq<Assignment>, plan: seq<Assignment>,
                     x: Assignment, a: Assignment, b: Assignment)
    requires x in plan && a in current && b in current && a.contestId == x.contestId && IsAffected(live, request, a)
    requires request.incident == Overrun(b.contestId) && Shares(live, artifacts, x.contestId, b.contestId)
    requires !RestedApart(x, b.(end := Max(b.end, request.expectedReopenAt)), artifacts.restMinutes)
    ensures !RestFromReportedEnd(live, artifacts, request, current, plan)
  {
  }

  lemma EveryRepairIsClear(origin: int, request: Request, live: LiveState, artifacts: Artifacts, current: seq<Assignment>,
                           derived: Derived, solution: seq<Placement>, r: Resource)
    requires EndsTooEarly(origin, request) && artifacts.origin == origin && current == PlanOf(origin, request)
    requires request.ClosureStart() >= origin + MINUTE
    requires live == RecordOf(origin, request, [request.courtId, OtherCourt(request)], ["left", "right"])
    requires Reduced(live, artifacts, current, request, derived, solution)
    requires CourtResources(live, artifacts, request, Busy(live, request, current)) == [r] && r.id == OtherCourt(request)
    requires r == CourtResource(artifacts, request, Busy(live, request, current), r.id)
    requires OpensAt(origin, request, r, LastMinute(origin, request))
    ensures ClosedCourtClear(request, Merge(origin, derived, current, solution))
  {
    var a, b := WaitingSlot(origin, request), SourceSlot(origin, request);
    WaitingIsAffected(origin, request, [request.courtId, OtherCourt(request)], ["left", "right"]);
    SourceStays(origin, request, [request.courtId, OtherCourt(request)], ["left", "right"]);
    OtherCourtDiffers(request);
    var p := EverySolutionIsEarly(live, artifacts, current, request, derived, solution, a, r, LastMinute(origin, request));
    MovedOnce(live, artifacts, current, request, derived, solution, a, p, Merged(origin, derived, solution, a));
    UnaffectedStays(live, artifacts, current, request, derived, solution, b);
    PairIsClear(artifacts, request, current, derived, solution, a, b);
  }

  lemma PairIsClear(artifacts: Artifacts, request: Request, current: seq<Assignment>, derived: Derived, solution: seq<Placement>,
                    a: Assignment, b: Assignment)
    requires current == [b] + [a]
    requires Merged(artifacts.origin, derived, solution, a).resourceId != request.courtId
    requires Merged(artifacts.origin, derived, solution, b) == b && !OnClosedCourt(request, b)
    ensures ClosedCourtClear(request, Merge(artifacts.origin, derived, current, solution))
  {
    var plan := Merge(artifacts.origin, derived, current, solution);
    ClearMeansNobodyThere(request, plan);
    forall x | x in plan ensures !OnClosedCourt(request, x) {
      var y := MergedFrom(artifacts, current, derived, solution, x);
      assert y == a || y == b;
    }
  }

  /** The overrunning contest is not moved, and is over when the closure starts. */
  lemma SourceStays(origin: int, request: Request, courts: seq<string>, inPlay: seq<string>)
    requires EndsTooEarly(origin, request) && request.ClosureStart() >= origin + MINUTE
    ensures var live, b := RecordOf(origin, request, courts, inPlay), SourceSlot(origin, request);
            !IsAffected(live, request, b) && !OnClosedCourt(request, b)
  {
    MinutesOfPlan(origin, request);
    OtherIdentity(request);
  }

  lemma MovedOnce(live: LiveState, artifacts: Artifacts, current: seq<Assignment>, request: Request, derived: Derived,
                  solution: seq<Placement>, a: Assignment, p: Placement, x: Assignment)
    requires Reduced(live, artifacts, current, request, derived, solution) && a in current && IsAffected(live, request, a)
    requires x == Merged(artifacts.origin, derived, solution, a)
    requires PlacementFor(solution, a.contestId) == Some(p)
    ensures x == InPlan(artifacts.origin, p)
  {
    AffectedIdentities(live, artifacts, current, request, a);
    MergedIfPlaced(artifacts.origin, derived, solution, a, p);
  }

  /** No contest ends before the first minute of the plan is over. */
  lemma RepairKeepsRestFromEarlyEnd(live: LiveState, artifacts: Artifacts, current: seq<Assignment>, request: Request,
                                    derived: Derived, solution: seq<Placement>)
    requires Repaired(live, artifacts, current, request, derived, solution) && FromOrigin(artifacts.origin, current)
    requires request.expectedReopenAt < artifacts.origin + MINUTE
    ensures RestFromReportedEnd(live, artifacts, request, current, Merge(artifacts.origin, derived, current, solution))
  {
    RepairedIsReduced(live, artifacts, current, request, derived, solution);
    forall x, a, b | x in Merge(artifacts.origin, derived, current, solution) && a in current && b in current
                     && a.contestId == x.contestId && IsAffected(live, request, a)
                     && request.incident == Overrun(b.contestId) && Shares(live, artifacts, x.contestId, b.contestId)
      ensures RestedApart(x, b.(end := Max(b.end, request.expectedReopenAt)), artifacts.restMinutes)
    {
      OverrunningIsUnaffected(live, artifacts, current, request, b);
      EndsAfterFirstMinute(artifacts.origin, b);
      assert b.(end := Max(b.end, request.expectedReopenAt)) == b;
      MovedRestedFromOther(live, artifacts, current, request, derived, solution, x, a, b);
    }
  }

  lemma MovedRestedFromOther(live: LiveState, artifacts: Artifacts, current: seq<Assignment>, request: Request, derived: Derived,
                             solution: seq<Placement>, x: Assignment, a: Assignment, b: Assignment)
    requires Reduced(live, artifacts, current, request, derived, solution)
    requires x in Merge(artifacts.origin, derived, current, solution) && a in current && b in current
    requires a.contestId == x.contestId && IsAffected(live, request, a) && !IsAffected(live, request, b)
    requires Shares(live, artifacts, x.contestId, b.contestId)
    ensures RestedApart(x, b, artifacts.restMinutes)
  {
    var a' := MergedFrom(artifacts, current, derived, solution, x);
    SameIdSameAssignment(current, a, a');
    if a.contestId == b.contestId { SameIdSameAssignment(current, a, b); }
    MovedRestedFromBusy(live, artifacts, current, request, derived, solution, a, b);
  }

  lemma EndsAfterFirstMinute(origin: int, b: Assignment)
    requires OnMinutes(origin, b) && origin <= b.start
    ensures b.end >= origin + MINUTE
  {
  }

  /**
   * Rest from a reported end is kept for every plan and solution exactly when that end rounds to no earlier minute or
   * comes before the first minute of the plan is over.
   */
  lemma ReportedEndKeptIff(origin: int, request: Request)
    requires Incident(origin, request) && request.incident.Overrun?
    ensures ReportedEndAlwaysKept(origin, request)
            <==> RoundsUp(origin, request.expectedReopenAt) || request.expectedReopenAt < origin + MINUTE
  {
    if EndsTooEarly(origin, request) {
      var live, artifacts, current, derived, solution := RoundedDownEndIsOverlapped(origin, request);
    } else {
      forall live, artifacts: Artifacts, current, derived, solution |
        artifacts.origin == origin && Repairable(live, artifacts, current, request, derived, solution)
        ensures RestFromReportedEnd(live, artifacts, request, current, Merge(origin, derived, current, solution))
      {
        if RoundsUp(origin, request.expectedReopenAt) {
          RepairKeepsRestFromOverrun(live, artifacts, current, request, derived, solution);
        } else {
          RepairKeepsRestFromEarlyEnd(live, artifacts, current, request, derived, solution);
        }
      }
    }
  }

  /**
   * When the closure starts at the planned end of a contest, so at least a minute after the origin, that is exactly when
   * the end rounds to no earlier minute; a clear closed court makes no difference.
   */
  lemma OverrunRestKeptIffEndRoundsUp(origin: int, request: Request)
    requires Incident(origin, request) && request.incident.Overrun? && request.ClosureStart() >= origin + MINUTE
    ensures ReportedEndAlwaysKept(origin, request) <==> RoundsUp(origin, request.expectedReopenAt)
    ensures ReportedEndKeptWhenClear(origin, request) <==> RoundsUp(origin, request.expectedReopenAt)
  {
    ReportedEndKeptIff(origin, request);
    if !RoundsUp(origin, request.expectedReopenAt) {
      var live, artifacts, current, derived, solution := RoundedDownEndIsOverlapped(origin, request);
      assert ClosedCourtClear(request, Merge(origin, derived, current, solution));
    }
  }
}
