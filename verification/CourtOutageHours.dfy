/** Moved contests are played while their courts are available, and the repair problem allows exactly that. */
module CourtOutageHours {
  import opened Wrappers
  import opened Lists
  import opened Numbers
  import opened LiveModel
  import opened CourtOutage
  import opened CourtOutageSoundness

  // ---------------------------------------------------------------- moved contests are played within declared hours

  /** One declared window of the court holds the whole slot. */
  predicate InHours(artifacts: Artifacts, x: Assignment) {
    && artifacts.calendars.Some? && x.resourceId in artifacts.calendars.value
    && exists w :: w in artifacts.calendars.value[x.resourceId]
                   && artifacts.origin + w.startMinute * MINUTE <= x.start && x.end <= artifacts.origin + w.endMinute * MINUTE
  }

  /** The slot is on a declared court, within its hours, from the minute the closure starts in to the minute of the finish. */
  predicate Playable(live: LiveState, artifacts: Artifacts, request: Request, x: Assignment) {
    && x.resourceId in live.courts && InHours(artifacts, x)
    && artifacts.origin + Minute(artifacts.origin, request.ClosureStart()) * MINUTE <= x.start
    && x.end <= artifacts.origin + Minute(artifacts.origin, artifacts.finish) * MINUTE
  }

  ghost predicate HoursKept(live: LiveState, artifacts: Artifacts, request: Request, current: seq<Assignment>, plan: seq<Assignment>) {
    forall x, a | x in plan && a in current && a.contestId == x.contestId && IsAffected(live, request, a) ::
      Playable(live, artifacts, request, x)
  }

  /** A declared window of the court holds these minutes. */
  predicate DeclaredOpen(artifacts: Artifacts, id: string, startMinute: int, endMinute: int) {
    && artifacts.calendars.Some? && id in artifacts.calendars.value
    && exists w :: w in artifacts.calendars.value[id] && w.startMinute <= startMinute && endMinute <= w.endMinute
  }

  /** The court's calendar in the problem holds minutes exactly when a declared window does, from the closure to the finish. */
  lemma CalendarHoldsIff(artifacts: Artifacts, request: Request, busy: seq<Assignment>, id: string, startMinute: int, endMinute: int)
    requires artifacts.origin <= request.ClosureStart() && startMinute < endMinute
    ensures var r := CourtResource(artifacts, request, busy, id);
            (exists w :: w in r.calendars && w.startMinute <= startMinute && endMinute <= w.endMinute)
            <==> && DeclaredOpen(artifacts, id, startMinute, endMinute)
                 && Minute(artifacts.origin, request.ClosureStart()) <= startMinute && endMinute <= Minute(artifacts.origin, artifacts.finish)
  {
    var from, last := Minute(artifacts.origin, request.ClosureStart()), Minute(artifacts.origin, artifacts.finish);
    var declared := if artifacts.calendars.Some? && id in artifacts.calendars.value then artifacts.calendars.value[id] else [];
    assert Max(artifacts.origin, request.ClosureStart()) == request.ClosureStart();
    assert CourtResource(artifacts, request, busy, id).calendars == Clipped(declared, from, last);
    ClippedHolds(declared, from, last, startMinute, endMinute);
    HoldsFromClipped(declared, from, last, startMinute, endMinute);
  }

  function Clipped(declared: seq<Window>, from: int, last: int): seq<Window> {
    Filter(Map(declared, (w: Window) => Window(Max(w.startMinute, from), Min(w.endMinute, last))), NonEmpty)
  }

  predicate Holds(windows: seq<Window>, startMinute: int, endMinute: int) {
    exists w :: w in windows && w.startMinute <= startMinute && endMinute <= w.endMinute
  }

  lemma ClippedHolds(declared: seq<Window>, from: int, last: int, startMinute: int, endMinute: int)
    ensures Holds(Clipped(declared, from, last), startMinute, endMinute) ==>
              Holds(declared, startMinute, endMinute) && from <= startMinute && endMinute <= last
  {
    var clipped := Map(declared, (w: Window) => Window(Max(w.startMinute, from), Min(w.endMinute, last)));
    if w :| w in Clipped(declared, from, last) && w.startMinute <= startMinute && endMinute <= w.endMinute {
      var i :| 0 <= i < |clipped| && clipped[i] == w;
      assert declared[i] in declared;
    }
  }

  lemma HoldsFromClipped(declared: seq<Window>, from: int, last: int, startMinute: int, endMinute: int)
    requires startMinute < endMinute
    ensures Holds(declared, startMinute, endMinute) && from <= startMinute && endMinute <= last ==>
              Holds(Clipped(declared, from, last), startMinute, endMinute)
  {
    var clip := (w: Window) => Window(Max(w.startMinute, from), Min(w.endMinute, last));
    if w :| w in declared && w.startMinute <= startMinute && endMinute <= w.endMinute && from <= startMinute && endMinute <= last {
      var i :| 0 <= i < |declared| && declared[i] == w;
      assert Map(declared, clip)[i] == clip(w);
      assert clip(w) in Clipped(declared, from, last);
    }
  }

  /** No contest that stays holds the court in these minutes, an overrunning one until its reported end. */
  predicate CourtFree(live: LiveState, origin: int, request: Request, current: seq<Assignment>, p: Placement) {
    forall b | b in current && !IsAffected(live, request, b) && b.resourceId == p.resourceId ::
      !Overlaps(Minute(origin, b.start), Minute(origin, HeldUntil(request, b)), p.startMinute, p.endMinute)
  }

  function HeldUntil(request: Request, b: Assignment): int {
    if request.incident.Overrun? && request.incident.sourceContestId == b.contestId then Max(b.end, request.expectedReopenAt) else b.end
  }

  /** The placement is off the closed court while that is closed, to the minute. */
  predicate OffClosure(origin: int, request: Request, p: Placement) {
    var first, last := Minute(origin, request.ClosureStart()), Minute(origin, request.expectedReopenAt);
    p.resourceId == request.courtId && first < last ==> !Overlaps(first, last, p.startMinute, p.endMinute)
  }

  lemma ClosuresFreeIff(artifacts: Artifacts, request: Request, busy: seq<Assignment>, p: Placement)
    ensures var r, origin := CourtResource(artifacts, request, busy, p.resourceId), artifacts.origin;
            (forall c | c in r.closures :: !Overlaps(c.startMinute, c.endMinute, p.startMinute, p.endMinute))
            <==> && OffClosure(origin, request, p)
                 && forall b | b in busy && b.resourceId == p.resourceId && Minute(origin, b.start) < Minute(origin, b.end) ::
                      !Overlaps(Minute(origin, b.start), Minute(origin, b.end), p.startMinute, p.endMinute)
  {
    var r, origin := CourtResource(artifacts, request, busy, p.resourceId), artifacts.origin;
    var mine := Filter(busy, (a: Assignment) => a.resourceId == p.resourceId);
    var occupied := Map(mine, (a: Assignment) => MinuteWindow(origin, a.start, a.end));
    var closure := MinuteWindow(origin, request.ClosureStart(), request.expectedReopenAt);
    var outage := if p.resourceId == request.courtId then [closure] else [];
    assert r.closures == Filter(occupied + outage, NonEmpty);
    assert forall c :: c in occupied + outage <==> c in occupied || c in outage;
    forall b | b in mine ensures MinuteWindow(origin, b.start, b.end) in occupied {
      var i :| 0 <= i < |mine| && mine[i] == b;
      assert occupied[i] == MinuteWindow(origin, b.start, b.end);
    }
    forall c | c in occupied ensures exists b :: b in mine && c == MinuteWindow(origin, b.start, b.end) {
      var i :| 0 <= i < |occupied| && occupied[i] == c;
      assert mine[i] in mine;
    }
    if p.resourceId == request.courtId { assert closure in outage; }
  }

  /** Who holds a court besides the affected contests. */
  lemma BusyIs(live: LiveState, current: seq<Assignment>, request: Request, c: Assignment)
    requires Distinct(Ids(current))
    ensures c in Busy(live, request, current) <==>
              exists b :: b in current && !IsAffected(live, request, b) && c == b.(end := HeldUntil(request, b))
  {
    var ids := Ids(Affected(live, request, current));
    var rest := Filter(current, (a: Assignment) => a.contestId !in ids);
    if c in Busy(live, request, current) {
      var i :| 0 <= i < |rest| && Busy(live, request, current)[i] == c;
      var b := rest[i];
      assert b in rest && c == Occupied(request, b);
      if IsAffected(live, request, b) { IdListed(Affected(live, request, current), b); }
    }
    if b :| b in current && !IsAffected(live, request, b) && c == b.(end := HeldUntil(request, b)) {
      UnaffectedNotListed(live, current, request, b);
      UnaffectedIsBusy(live, current, request, b);
    }
  }

  lemma UnaffectedNotListed(live: LiveState, current: seq<Assignment>, request: Request, b: Assignment)
    requires Distinct(Ids(current)) && b in current && !IsAffected(live, request, b)
    ensures b.contestId !in Ids(Affected(live, request, current))
  {
    var affected := Affected(live, request, current);
    if b.contestId in Ids(affected) {
      var i :| 0 <= i < |affected| && Ids(affected)[i] == b.contestId;
      assert affected[i] in affected;
      SameIdSameAssignment(current, affected[i], b);
    }
  }

  lemma BusyFreeIff(live: LiveState, origin: int, current: seq<Assignment>, request: Request, p: Placement)
    requires SoundPlan(origin, current)
    ensures CourtFree(live, origin, request, current, p) <==>
              forall b | b in Busy(live, request, current) && b.resourceId == p.resourceId && Minute(origin, b.start) < Minute(origin, b.end) ::
                !Overlaps(Minute(origin, b.start), Minute(origin, b.end), p.startMinute, p.endMinute)
  {
    forall c ensures c in Busy(live, request, current) <==>
              exists b :: b in current && !IsAffected(live, request, b) && c == b.(end := HeldUntil(request, b)) {
      BusyIs(live, current, request, c);
    }
    forall b | b in current ensures Minute(origin, b.start) < Minute(origin, HeldUntil(request, b)) {
      HeldForMinutes(origin, request, b);
    }
    forall b | b in current && !IsAffected(live, request, b) ensures b.(end := HeldUntil(request, b)) in Busy(live, request, current) {
    }
  }

  lemma HeldForMinutes(origin: int, request: Request, b: Assignment)
    requires OnMinutes(origin, b)
    ensures Minute(origin, b.start) < Minute(origin, HeldUntil(request, b))
  {
    MinuteOfAligned(origin, b.start);
    MinuteOfAligned(origin, b.end);
    MinuteMonotone(origin, b.end, HeldUntil(request, b));
  }

  // ---------------------------------------------------------------- exactly where the problem lets a contest be played

  /** The problem lets the placement's task be played where and when it is placed. */
  ghost predicate Lets(derived: Derived, p: Placement) {
    && (exists t :: t in derived.problem.tasks && t.id == p.taskId && p.resourceId in t.eligibleResourceIds)
    && ResourceAllows(derived.problem.resources, p)
  }

  lemma TaskFrom(live: LiveState, artifacts: Artifacts, current: seq<Assignment>, request: Request, t: Task)
    requires t in Derive(live, artifacts, current, request).problem.tasks
    ensures t.eligibleResourceIds == CourtIds(live, artifacts, current, request)
            || exists b :: b in ParticipantBusy(live, artifacts, request, current) && t.id == b.contestId
  {
    var affected, pinned := Affected(live, request, current), ParticipantBusy(live, artifacts, request, current);
    var tasks := Derive(live, artifacts, current, request).problem.tasks;
    var i :| 0 <= i < |tasks| && tasks[i] == t;
    if i >= |affected| { assert pinned[i - |affected|] in pinned; }
  }

  lemma AffectedIsTask(live: LiveState, artifacts: Artifacts, current: seq<Assignment>, request: Request, a: Assignment) returns (t: Task)
    requires a in Affected(live, request, current)
    ensures t in Derive(live, artifacts, current, request).problem.tasks && t.id == a.contestId
    ensures t.eligibleResourceIds == CourtIds(live, artifacts, current, request)
  {
    var affected := Affected(live, request, current);
    var k :| 0 <= k < |affected| && affected[k] == a;
    t := AffectedTask(live, artifacts, Ids(affected), CourtIds(live, artifacts, current, request), a);
    assert Derive(live, artifacts, current, request).problem.tasks[k] == t;
  }

  lemma OnlyItsTask(live: LiveState, artifacts: Artifacts, current: seq<Assignment>, request: Request, a: Assignment, id: string)
    requires SoundPlan(artifacts.origin, current) && a in current && IsAffected(live, request, a)
    ensures (exists t :: t in Derive(live, artifacts, current, request).problem.tasks && t.id == a.contestId && id in t.eligibleResourceIds)
            <==> id in CourtIds(live, artifacts, current, request)
  {
    var own := AffectedIsTask(live, artifacts, current, request, a);
    forall t | t in Derive(live, artifacts, current, request).problem.tasks && t.id == a.contestId
      ensures t.eligibleResourceIds == CourtIds(live, artifacts, current, request)
    {
      TaskFrom(live, artifacts, current, request, t);
      if b :| b in ParticipantBusy(live, artifacts, request, current) && t.id == b.contestId {
        PinnedIsUnaffected(live, artifacts, current, request, a, b);
      }
    }
  }

  lemma PinnedIsUnaffected(live: LiveState, artifacts: Artifacts, current: seq<Assignment>, request: Request, a: Assignment, b: Assignment)
    requires SoundPlan(artifacts.origin, current) && a in current && IsAffected(live, request, a)
    requires b in ParticipantBusy(live, artifacts, request, current)
    ensures b.contestId != a.contestId
  {
    BusyIs(live, current, request, b);
    var c :| c in current && !IsAffected(live, request, c) && b == c.(end := HeldUntil(request, c));
    if c.contestId == a.contestId { SameIdSameAssignment(current, a, c); }
  }

  lemma ListedCourtIsOpen(live: LiveState, artifacts: Artifacts, current: seq<Assignment>, request: Request, id: string)
    requires id in CourtIds(live, artifacts, current, request)
    ensures id in live.courts && CourtResource(artifacts, request, Busy(live, request, current), id).calendars != []
  {
    var busy := Busy(live, request, current);
    var courts := CourtResources(live, artifacts, request, busy);
    var i :| 0 <= i < |courts| && courts[i].id == id;
    assert courts[i] in courts;
    CourtResourceOf(live, artifacts, request, busy, courts[i]);
  }

  lemma OpenCourtIsListed(live: LiveState, artifacts: Artifacts, current: seq<Assignment>, request: Request, id: string)
    requires id in live.courts && CourtResource(artifacts, request, Busy(live, request, current), id).calendars != []
    ensures id in CourtIds(live, artifacts, current, request)
  {
    var busy := Busy(live, request, current);
    var all := Map(live.courts, id => CourtResource(artifacts, request, busy, id));
    var courts := CourtResources(live, artifacts, request, busy);
    var i :| 0 <= i < |live.courts| && live.courts[i] == id;
    assert all[i] in courts;
    var k :| 0 <= k < |courts| && courts[k] == all[i];
    assert CourtIds(live, artifacts, current, request)[k] == id;
  }

  lemma FoundCourt(live: LiveState, artifacts: Artifacts, current: seq<Assignment>, request: Request, id: string)
    requires id in CourtIds(live, artifacts, current, request)
    ensures FindResource(Derive(live, artifacts, current, request).problem.resources, id)
            == Some(CourtResource(artifacts, request, Busy(live, request, current), id))
  {
    var busy := Busy(live, request, current);
    var courts := CourtResources(live, artifacts, request, busy);
    var pinned := ParticipantBusy(live, artifacts, request, current);
    var k :| 0 <= k < |courts| && courts[k].id == id;
    assert courts[k] in courts;
    FindResourceInFront(courts, Map(pinned, a => PinnedResource(artifacts.origin, a)), id);
    CourtResourceOf(live, artifacts, request, busy, FindResource(Derive(live, artifacts, current, request).problem.resources, id).value);
  }

  /**
   * The problem lets an affected contest be played on a court in some minutes exactly when the court is declared and open in
   * them, from the minute the closure starts in to the minute of the finish, no other contest holds it, and it is not closed.
   */
  lemma LetsExactlyOpenCourts(live: LiveState, artifacts: Artifacts, current: seq<Assignment>, request: Request, a: Assignment,
                              p: Placement)
    requires SoundPlan(artifacts.origin, current) && artifacts.origin <= request.ClosureStart()
    requires a in current && IsAffected(live, request, a) && p.taskId == a.contestId && p.startMinute < p.endMinute
    ensures Lets(Derive(live, artifacts, current, request), p) <==>
              && p.resourceId in live.courts && DeclaredOpen(artifacts, p.resourceId, p.startMinute, p.endMinute)
              && Minute(artifacts.origin, request.ClosureStart()) <= p.startMinute
              && p.endMinute <= Minute(artifacts.origin, artifacts.finish)
              && CourtFree(live, artifacts.origin, request, current, p) && OffClosure(artifacts.origin, request, p)
  {
    var busy, id := Busy(live, request, current), p.resourceId;
    OnlyItsTask(live, artifacts, current, request, a, id);
    if id in CourtIds(live, artifacts, current, request) { ListedCourtIsOpen(live, artifacts, current, request, id); }
    if id in live.courts && CourtResource(artifacts, request, busy, id).calendars != [] {
      OpenCourtIsListed(live, artifacts, current, request, id);
    }
    CourtLetsIff(live, artifacts, current, request, p);
    if id in CourtIds(live, artifacts, current, request) {
      FoundCourt(live, artifacts, current, request, id);
      AllowedIff(Derive(live, artifacts, current, request).problem.resources, CourtResource(artifacts, request, busy, id), p);
    }
  }

  /** The court has these minutes in its calendar and no closure of it takes them. */
  predicate Offers(r: Resource, p: Placement) {
    && (exists w :: w in r.calendars && w.startMinute <= p.startMinute && p.endMinute <= w.endMinute)
    && (forall c | c in r.closures :: !Overlaps(c.startMinute, c.endMinute, p.startMinute, p.endMinute))
  }

  lemma AllowedIff(resources: seq<Resource>, r: Resource, p: Placement)
    requires FindResource(resources, p.resourceId) == Some(r)
    ensures ResourceAllows(resources, p) <==> Offers(r, p)
  {
  }

  lemma CourtLetsIff(live: LiveState, artifacts: Artifacts, current: seq<Assignment>, request: Request, p: Placement)
    requires SoundPlan(artifacts.origin, current) && artifacts.origin <= request.ClosureStart() && p.startMinute < p.endMinute
    ensures Offers(CourtResource(artifacts, request, Busy(live, request, current), p.resourceId), p) <==>
              && DeclaredOpen(artifacts, p.resourceId, p.startMinute, p.endMinute)
              && Minute(artifacts.origin, request.ClosureStart()) <= p.startMinute
              && p.endMinute <= Minute(artifacts.origin, artifacts.finish)
              && CourtFree(live, artifacts.origin, request, current, p) && OffClosure(artifacts.origin, request, p)
  {
    CalendarHoldsIff(artifacts, request, Busy(live, request, current), p.resourceId, p.startMinute, p.endMinute);
    ClosuresFreeIff(artifacts, request, Busy(live, request, current), p);
    BusyFreeIff(live, artifacts.origin, current, request, p);
  }

  /** Every moved contest is played on a declared court, within its hours, from the closure to the finish. */
  lemma RepairKeepsHours(live: LiveState, artifacts: Artifacts, current: seq<Assignment>, request: Request,
                         derived: Derived, solution: seq<Placement>)
    requires Repaired(live, artifacts, current, request, derived, solution)
    ensures HoursKept(live, artifacts, request, current, Merge(artifacts.origin, derived, current, solution))
  {
    RepairedIsReduced(live, artifacts, current, request, derived, solution);
    forall x, a | x in Merge(artifacts.origin, derived, current, solution) && a in current && a.contestId == x.contestId
                  && IsAffected(live, request, a)
      ensures Playable(live, artifacts, request, x)
    {
      var b := MergedFrom(artifacts, current, derived, solution, x);
      SameIdSameAssignment(current, a, b);
      MovedIsPlayable(live, artifacts, current, request, derived, solution, a);
    }
  }

  lemma MovedIsPlayable(live: LiveState, artifacts: Artifacts, current: seq<Assignment>, request: Request,
                        derived: Derived, solution: seq<Placement>, a: Assignment)
    requires Reduced(live, artifacts, current, request, derived, solution) && a in current && IsAffected(live, request, a)
    ensures Playable(live, artifacts, request, Merged(artifacts.origin, derived, solution, a))
  {
    assert OnMinutes(artifacts.origin, a);
    var p := AffectedPlaced(live, artifacts, current, request, derived, solution, a);
    PlacedInHours(live, artifacts, current, request, derived, a, p);
    AffectedIdentities(live, artifacts, current, request, a);
    MergedIfPlaced(artifacts.origin, derived, solution, a, p);
    PlacementIsPlayable(live, artifacts, request, p);
  }

  lemma PlacedInHours(live: LiveState, artifacts: Artifacts, current: seq<Assignment>, request: Request, derived: Derived,
                      a: Assignment, p: Placement)
    requires derived == Derive(live, artifacts, current, request) && ResourceAllows(derived.problem.resources, p)
    requires artifacts.origin <= request.ClosureStart() && OnMinutes(artifacts.origin, a)
    requires p.resourceId in CourtIds(live, artifacts, current, request)
    requires p.endMinute - p.startMinute == (a.end - a.start + 30_000) / MINUTE
    ensures p.resourceId in live.courts && DeclaredOpen(artifacts, p.resourceId, p.startMinute, p.endMinute)
    ensures Minute(artifacts.origin, request.ClosureStart()) <= p.startMinute && p.endMinute <= Minute(artifacts.origin, artifacts.finish)
  {
    var w := PlacedOnCourt(live, artifacts, current, request, derived, p);
    LastsAMinute(artifacts.origin, a);
    CalendarHoldsIff(artifacts, request, Busy(live, request, current), p.resourceId, p.startMinute, p.endMinute);
  }

  lemma LastsAMinute(origin: int, a: Assignment)
    requires OnMinutes(origin, a)
    ensures (a.end - a.start + 30_000) / MINUTE >= 1
  {
    WholeMinutes(origin, a);
  }

  lemma PlacementIsPlayable(live: LiveState, artifacts: Artifacts, request: Request, p: Placement)
    requires p.resourceId in live.courts && DeclaredOpen(artifacts, p.resourceId, p.startMinute, p.endMinute)
    requires Minute(artifacts.origin, request.ClosureStart()) <= p.startMinute && p.endMinute <= Minute(artifacts.origin, artifacts.finish)
    ensures Playable(live, artifacts, request, InPlan(artifacts.origin, p))
  {
    var w :| w in artifacts.calendars.value[p.resourceId] && w.startMinute <= p.startMinute && p.endMinute <= w.endMinute;
  }

  /**
   * The reduction is sound: any solution of the derived problem merges into a globally valid plan, which the next
   * repair may start from.
   */
  lemma RepairReductionIsSound(live: LiveState, artifacts: Artifacts, current: seq<Assignment>, request: Request,
                               derived: Derived, solution: seq<Placement>)
    requires Repaired(live, artifacts, current, request, derived, solution)
    ensures var plan := Merge(artifacts.origin, derived, current, solution);
            && SoundPlan(artifacts.origin, plan) && (FromOrigin(artifacts.origin, current) ==> FromOrigin(artifacts.origin, plan))
            && RestKept(live, artifacts, request, current, plan)
            && DependenciesKept(live, request, current, plan)
            && OnlyAffectedMove(live, request, current, plan)
            && HoursKept(live, artifacts, request, current, plan)
            && (RoundsUp(artifacts.origin, request.expectedReopenAt) ==>
                  && AvoidsClosure(live, request, current, plan)
                  && RestFromReportedEnd(live, artifacts, request, current, plan))
  {
    RepairKeepsPlanSound(live, artifacts, current, request, derived, solution);
    if FromOrigin(artifacts.origin, current) { RepairKeepsOrigin(live, artifacts, current, request, derived, solution); }
    RepairKeepsRest(live, artifacts, current, request, derived, solution);
    RepairKeepsDependencies(live, artifacts, current, request, derived, solution);
    RepairMovesOnlyAffected(live, artifacts, current, request, derived, solution);
    RepairKeepsHours(live, artifacts, current, request, derived, solution);
    if RoundsUp(artifacts.origin, request.expectedReopenAt) {
      RepairAvoidsClosure(live, artifacts, current, request, derived, solution);
      RepairKeepsRestFromOverrun(live, artifacts, current, request, derived, solution);
    }
  }
}
