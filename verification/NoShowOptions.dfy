/** The two ways to repair the plan after a no-show, the guard they pass, and their independent verification. */
module NoShowOptions {
  import opened Wrappers
  import opened Lists
  import opened Ordering
  import opened Sorting
  import opened LiveModel
  import CourtOutage
  import opened NoShowRepair

  datatype Finding =
    | ReplayDiffers | TruthChanged(contestId: string) | DuplicateAssignment | AssignmentChanged(contestId: string)
    | UnjustifiedOmission(contestId: string)

  /** The alphabetical order of the finding codes. */
  function CodeRank(f: Finding): nat {
    match f
    case AssignmentChanged(_) => 0
    case DuplicateAssignment => 1
    case UnjustifiedOmission(_) => 2
    case ReplayDiffers => 3
    case TruthChanged(_) => 4
  }

  function PathOf(f: Finding): string {
    match f
    case AssignmentChanged(id) => id
    case UnjustifiedOmission(id) => id
    case TruthChanged(id) => id
    case _ => ""
  }

  predicate FindingLeq(a: Finding, b: Finding) {
    CodeRank(a) < CodeRank(b) || (CodeRank(a) == CodeRank(b) && StringLeq(PathOf(a), PathOf(b)))
  }

  predicate Settling(status: ContestStatus) {
    status.Completed? || status.InProgress?
  }

  predicate TruthKept(before: map<string, Contest>, after: map<string, Contest>, id: string) {
    id in before && Settling(before[id].status) ==> id in after && after[id] == before[id]
  }

  /** No completed or in-progress contest is changed. */
  predicate PreservedActualTruth(before: map<string, Contest>, after: map<string, Contest>) {
    forall id | id in before :: TruthKept(before, after, id)
  }

  function ContestIds(state: LiveState): seq<string> {
    Map(state.definitions, (d: Definition) => d.contestId)
  }

  function TruthFindings(base: LiveState, candidate: LiveState, ids: seq<string>): seq<Finding> {
    if ids == [] then []
    else
      TruthFindings(base, candidate, ids[..|ids| - 1])
      + if TruthKept(base.contests, candidate.contests, ids[|ids| - 1]) then [] else [TruthChanged(ids[|ids| - 1])]
  }

  predicate Listed(plan: seq<Assignment>, id: string) {
    exists a :: a in plan && a.contestId == id
  }

  function FindingsOf(authoritative: seq<Assignment>, before: seq<Assignment>, a: Assignment): seq<Finding> {
    (if Listed(before, a.contestId) then [DuplicateAssignment] else [])
    + if AssignmentFor(authoritative, a.contestId) != Some(a) then [AssignmentChanged(a.contestId)] else []
  }

  function AssignmentFindings(authoritative: seq<Assignment>, operational: seq<Assignment>): seq<Finding> {
    if operational == [] then []
    else
      var front := operational[..|operational| - 1];
      AssignmentFindings(authoritative, front) + FindingsOf(authoritative, front, operational[|operational| - 1])
  }

  /** A slot may be dropped only for a contest that was released and is now a walkover. */
  predicate MayOmit(candidate: LiveState, omitted: seq<string>, id: string) {
    id in omitted && id in candidate.contests && candidate.contests[id].status.Walkover?
  }

  function OmissionFindings(candidate: LiveState, authoritative: seq<Assignment>, operational: seq<Assignment>,
                            omitted: seq<string>): seq<Finding>
  {
    if authoritative == [] then []
    else
      var last := authoritative[|authoritative| - 1];
      OmissionFindings(candidate, authoritative[..|authoritative| - 1], operational, omitted)
      + if Listed(operational, last.contestId) || MayOmit(candidate, omitted, last.contestId) then []
        else [UnjustifiedOmission(last.contestId)]
  }

  function GuardFindings(replays: bool, base: LiveState, candidate: LiveState, authoritative: seq<Assignment>,
                         operational: seq<Assignment>, omitted: seq<string>): seq<Finding>
  {
    SortBy((if replays then [] else [ReplayDiffers]) + TruthFindings(base, candidate, ContestIds(base))
           + AssignmentFindings(authoritative, operational)
           + OmissionFindings(candidate, authoritative, operational, omitted), FindingLeq)
  }

  method CheckTruth(base: LiveState, candidate: LiveState) returns (findings: seq<Finding>)
    ensures findings == TruthFindings(base, candidate, ContestIds(base))
  {
    findings := [];
    var ids := ContestIds(base);
    for i := 0 to |ids|
      invariant findings == TruthFindings(base, candidate, ids[..i])
    {
      assert ids[..i + 1][..i] == ids[..i];
      if !TruthKept(base.contests, candidate.contests, ids[i]) { findings := findings + [TruthChanged(ids[i])]; }
    }
    assert ids[..|ids|] == ids;
  }

  method CheckAssignments(authoritative: seq<Assignment>, operational: seq<Assignment>)
    returns (findings: seq<Finding>, seen: set<string>)
    ensures findings == AssignmentFindings(authoritative, operational)
    ensures forall id :: id in seen <==> Listed(operational, id)
  {
    findings, seen := [], {};
    for i := 0 to |operational|
      invariant findings == AssignmentFindings(authoritative, operational[..i])
      invariant forall id :: id in seen <==> Listed(operational[..i], id)
    {
      assert operational[..i + 1] == operational[..i] + [operational[i]];
      var a := operational[i];
      if a.contestId in seen { findings := findings + [DuplicateAssignment]; }
      seen := seen + {a.contestId};
      if AssignmentFor(authoritative, a.contestId) != Some(a) { findings := findings + [AssignmentChanged(a.contestId)]; }
    }
    assert operational[..|operational|] == operational;
  }

  method CheckOmissions(candidate: LiveState, authoritative: seq<Assignment>, operational: seq<Assignment>, seen: set<string>,
                        omitted: seq<string>) returns (findings: seq<Finding>)
    requires forall id :: id in seen <==> Listed(operational, id)
    ensures findings == OmissionFindings(candidate, authoritative, operational, omitted)
  {
    findings := [];
    for i := 0 to |authoritative|
      invariant findings == OmissionFindings(candidate, authoritative[..i], operational, omitted)
    {
      assert authoritative[..i + 1][..i] == authoritative[..i];
      var id := authoritative[i].contestId;
      if id !in seen && !MayOmit(candidate, omitted, id) { findings := findings + [UnjustifiedOmission(id)]; }
    }
    assert authoritative[..|authoritative|] == authoritative;
  }

  method LiveGuard(replays: bool, base: LiveState, candidate: LiveState, authoritative: seq<Assignment>,
                   operational: seq<Assignment>, omitted: seq<string>) returns (findings: seq<Finding>)
    ensures findings == GuardFindings(replays, base, candidate, authoritative, operational, omitted)
  {
    findings := if replays then [] else [ReplayDiffers];
    var truth := CheckTruth(base, candidate);
    var assignments, seen := CheckAssignments(authoritative, operational);
    var omissions := CheckOmissions(candidate, authoritative, operational, seen, omitted);
    findings := SortBy(findings + truth + assignments + omissions, FindingLeq);
  }

  // ---------------------------------------------------------------- what the guard checks

  lemma {:induction false} NoTruthFindings(base: LiveState, candidate: LiveState, ids: seq<string>)
    ensures TruthFindings(base, candidate, ids) == [] <==> forall id | id in ids :: TruthKept(base.contests, candidate.contests, id)
  {
    if ids != [] {
      NoTruthFindings(base, candidate, ids[..|ids| - 1]);
      assert ids == ids[..|ids| - 1] + [ids[|ids| - 1]];
    }
  }

  /** Each assignment is the authoritative one, and the only one of its contest. */
  ghost predicate Retains(authoritative: seq<Assignment>, operational: seq<Assignment>) {
    && Distinct(CourtOutage.Ids(operational))
    && forall a | a in operational :: AssignmentFor(authoritative, a.contestId) == Some(a)
  }

  lemma {:induction false} NoAssignmentFindings(authoritative: seq<Assignment>, operational: seq<Assignment>)
    ensures AssignmentFindings(authoritative, operational) == [] <==> Retains(authoritative, operational)
  {
    if operational != [] {
      var front, last := operational[..|operational| - 1], operational[|operational| - 1];
      NoAssignmentFindings(authoritative, front);
      assert operational == front + [last];
      DistinctSnoc(front, last);
    }
  }

  lemma DistinctSnoc(front: seq<Assignment>, last: Assignment)
    ensures Distinct(CourtOutage.Ids(front + [last])) <==> Distinct(CourtOutage.Ids(front)) && !Listed(front, last.contestId)
  {
    var ids := CourtOutage.Ids(front);
    assert CourtOutage.Ids(front + [last]) == ids + [last.contestId];
    if Listed(front, last.contestId) {
      var i :| 0 <= i < |front| && front[i].contestId == last.contestId;
      assert (ids + [last.contestId])[i] == (ids + [last.contestId])[|front|];
    } else {
      forall i | 0 <= i < |front| ensures ids[i] != last.contestId { assert front[i] in front; }
      if Distinct(ids) { assert Distinct(ids + [last.contestId]); }
    }
    if Distinct(ids + [last.contestId]) {
      forall i, j | 0 <= i < j < |ids| ensures ids[i] != ids[j] {
        assert (ids + [last.contestId])[i] != (ids + [last.contestId])[j];
      }
    }
  }

  lemma {:induction false} NoOmissionFindings(candidate: LiveState, authoritative: seq<Assignment>, operational: seq<Assignment>,
                                              omitted: seq<string>)
    ensures OmissionFindings(candidate, authoritative, operational, omitted) == []
            <==> forall a | a in authoritative :: Listed(operational, a.contestId) || MayOmit(candidate, omitted, a.contestId)
  {
    if authoritative != [] {
      NoOmissionFindings(candidate, authoritative[..|authoritative| - 1], operational, omitted);
      assert authoritative == authoritative[..|authoritative| - 1] + [authoritative[|authoritative| - 1]];
    }
  }

  /**
   * The guard passes exactly when the record replays, completed and in-progress contests are untouched, every
   * retained slot is the published one, once, and every dropped slot was a released walkover.
   */
  lemma GuardPassesIff(replays: bool, base: LiveState, candidate: LiveState, authoritative: seq<Assignment>,
                       operational: seq<Assignment>, omitted: seq<string>)
    requires base.contests.Keys == Elements(ContestIds(base))
    ensures GuardFindings(replays, base, candidate, authoritative, operational, omitted) == []
            <==> && replays && PreservedActualTruth(base.contests, candidate.contests)
                 && Retains(authoritative, operational)
                 && forall a | a in authoritative :: Listed(operational, a.contestId) || MayOmit(candidate, omitted, a.contestId)
  {
    NoTruthFindings(base, candidate, ContestIds(base));
    NoAssignmentFindings(authoritative, operational);
    NoOmissionFindings(candidate, authoritative, operational, omitted);
    assert forall id :: id in base.contests <==> id in Elements(ContestIds(base));
    SortKeepsElements((if replays then [] else [ReplayDiffers]) + TruthFindings(base, candidate, ContestIds(base))
                      + AssignmentFindings(authoritative, operational)
                      + OmissionFindings(candidate, authoritative, operational, omitted), FindingLeq);
  }

  // ---------------------------------------------------------------- the two options

  datatype Strategy = KeepAnnouncedSlots | ReleaseWalkoverSlots

  datatype CompetitionReport = CompetitionReport(passed: bool, reportHash: string)

  /** The published schedule, and what the competition guard says of the published competition. */
  datatype Artifacts = Artifacts(schedule: seq<Assignment>, competitionGuard: CompetitionReport)

  datatype RepairOption = RepairOption(
    strategy: Strategy, state: LiveState, operational: seq<Assignment>, settledIds: seq<string>,
    competitionGuard: CompetitionReport, liveGuard: seq<Finding>, removedCount: nat)

  function AssignmentsFrom(schedule: seq<Assignment>): seq<Assignment> {
    SortBy(schedule, CourtOutage.PlanLeq)
  }

  function Omitted(strategy: Strategy, walkoverIds: seq<string>): seq<string> {
    if strategy.ReleaseWalkoverSlots? then walkoverIds else []
  }

  function Operational(strategy: Strategy, schedule: seq<Assignment>, walkoverIds: seq<string>): seq<Assignment> {
    var omitted := Omitted(strategy, walkoverIds);
    Filter(AssignmentsFrom(schedule), (a: Assignment) => a.contestId !in omitted)
  }

  function MakeOption(strategy: Strategy, replays: bool, base: LiveState, state: LiveState, artifacts: Artifacts,
                      walkoverIds: seq<string>): RepairOption
  {
    var omitted := Omitted(strategy, walkoverIds);
    var operational := Operational(strategy, artifacts.schedule, walkoverIds);
    RepairOption(strategy, state, operational, walkoverIds, artifacts.competitionGuard,
                 GuardFindings(replays, base, state, AssignmentsFrom(artifacts.schedule), operational, omitted), |omitted|)
  }

  /** The slots an option dropped, found from its assignments alone. */
  function DroppedSlots(authoritative: seq<Assignment>, operational: seq<Assignment>): seq<string> {
    CourtOutage.Ids(Filter(authoritative, (a: Assignment) => !Listed(operational, a.contestId)))
  }

  predicate IndependentlyVerify(replays: bool, base: LiveState, artifacts: Artifacts, option: RepairOption) {
    var authoritative := AssignmentsFrom(artifacts.schedule);
    var report := GuardFindings(replays, base, option.state, authoritative, option.operational,
                                DroppedSlots(authoritative, option.operational));
    && artifacts.competitionGuard.passed && artifacts.competitionGuard == option.competitionGuard
    && report == [] && report == option.liveGuard
  }

  lemma DroppedSlotListed(authoritative: seq<Assignment>, operational: seq<Assignment>, id: string)
    ensures id in DroppedSlots(authoritative, operational) <==> Listed(authoritative, id) && !Listed(operational, id)
  {
    var dropped := Filter(authoritative, (a: Assignment) => !Listed(operational, a.contestId));
    if id in DroppedSlots(authoritative, operational) {
      var i :| 0 <= i < |dropped| && CourtOutage.Ids(dropped)[i] == id;
      assert dropped[i] in dropped;
    }
    if Listed(authoritative, id) && !Listed(operational, id) {
      var a :| a in authoritative && a.contestId == id;
      assert a in dropped;
      var i :| 0 <= i < |dropped| && dropped[i] == a;
      assert CourtOutage.Ids(dropped)[i] == id;
    }
  }

  lemma OperationalIs(strategy: Strategy, schedule: seq<Assignment>, walkoverIds: seq<string>, a: Assignment)
    ensures a in Operational(strategy, schedule, walkoverIds)
            <==> a in schedule && (strategy.KeepAnnouncedSlots? || a.contestId !in walkoverIds)
    ensures a in AssignmentsFrom(schedule) <==> a in schedule
  {
    SortKeepsElements(schedule, CourtOutage.PlanLeq);
  }

  lemma {:induction false} SameOmissions(candidate: LiveState, authoritative: seq<Assignment>, operational: seq<Assignment>,
                                         omitted: seq<string>, other: seq<string>)
    requires forall a | a in authoritative && !Listed(operational, a.contestId) :: a.contestId in omitted <==> a.contestId in other
    ensures OmissionFindings(candidate, authoritative, operational, omitted) == OmissionFindings(candidate, authoritative, operational, other)
  {
    if authoritative != [] {
      var last := authoritative[|authoritative| - 1];
      assert last in authoritative;
      SameOmissions(candidate, authoritative[..|authoritative| - 1], operational, omitted, other);
    }
  }

  /** Re-deriving what was released from the assignments alone gives the option's own guard report. */
  lemma IndependentReportIsTheSame(strategy: Strategy, replays: bool, base: LiveState, state: LiveState, artifacts: Artifacts,
                                   walkoverIds: seq<string>)
    ensures var option := MakeOption(strategy, replays, base, state, artifacts, walkoverIds);
            var authoritative := AssignmentsFrom(artifacts.schedule);
            GuardFindings(replays, base, option.state, authoritative, option.operational,
                          DroppedSlots(authoritative, option.operational)) == option.liveGuard
  {
    var authoritative := AssignmentsFrom(artifacts.schedule);
    var operational := Operational(strategy, artifacts.schedule, walkoverIds);
    forall a | a in authoritative && !Listed(operational, a.contestId)
      ensures a.contestId in Omitted(strategy, walkoverIds) <==> a.contestId in DroppedSlots(authoritative, operational)
    {
      OperationalIs(strategy, artifacts.schedule, walkoverIds, a);
      DroppedSlotListed(authoritative, operational, a.contestId);
    }
    SameOmissions(state, authoritative, operational, Omitted(strategy, walkoverIds), DroppedSlots(authoritative, operational));
  }

  lemma AssignmentsKeepIds(schedule: seq<Assignment>, a: Assignment, b: Assignment)
    requires Distinct(CourtOutage.Ids(schedule)) && a in schedule && b in schedule && a.contestId == b.contestId
    ensures a == b
  {
    var i :| 0 <= i < |schedule| && schedule[i] == a;
    var j :| 0 <= j < |schedule| && schedule[j] == b;
    assert CourtOutage.Ids(schedule)[i] == CourtOutage.Ids(schedule)[j];
  }

  lemma OperationalRetains(strategy: Strategy, schedule: seq<Assignment>, walkoverIds: seq<string>)
    ensures Retains(AssignmentsFrom(schedule), Operational(strategy, schedule, walkoverIds))
            <==> Distinct(CourtOutage.Ids(Operational(strategy, schedule, walkoverIds)))
  {
    var authoritative, operational := AssignmentsFrom(schedule), Operational(strategy, schedule, walkoverIds);
    if Distinct(CourtOutage.Ids(operational)) {
      forall a | a in operational ensures AssignmentFor(authoritative, a.contestId) == Some(a) {
        OperationalIs(strategy, schedule, walkoverIds, a);
        var found := AssignmentFor(authoritative, a.contestId);
        assert a in authoritative;
        OperationalIs(strategy, schedule, walkoverIds, found.value);
        AssignmentsKeepIds(operational, a, found.value);
      }
    }
  }

  /**
   * Both options pass the live guard exactly when the settled record replays and the slots they retain are those of
   * distinct contests: no slot is moved, none is dropped but those of the settled walkovers, and no settled
   * contest changes.
   */
  lemma OptionsPassTheGuard(strategy: Strategy, replays: bool, base: LiveState, lastEventAt: Option<int>, request: Request,
                            artifacts: Artifacts)
    requires EngineValid(base) && base.contests.Keys == Elements(ContestIds(base)) && Refusal(base, lastEventAt, request).None?
    ensures var walkoverIds := DirectWalkovers(base, request.entrantId);
            var option := MakeOption(strategy, replays, base, Settled(base, request, walkoverIds), artifacts, walkoverIds);
            && (option.liveGuard == [] <==> replays && Distinct(CourtOutage.Ids(option.operational)))
            && (forall a :: a in option.operational
                            <==> a in artifacts.schedule
                                 && (strategy.ReleaseWalkoverSlots? ==> !Settles(base, request.entrantId, a.contestId)))
            && (IndependentlyVerify(replays, base, artifacts, option)
                <==> artifacts.competitionGuard.passed && replays && Distinct(CourtOutage.Ids(option.operational)))
  {
    var walkoverIds := DirectWalkovers(base, request.entrantId);
    var state := Settled(base, request, walkoverIds);
    var authoritative, operational := AssignmentsFrom(artifacts.schedule), Operational(strategy, artifacts.schedule, walkoverIds);
    WalkoversSettle(base, request.entrantId);
    TruthSurvives(base, request);
    GuardPassesIff(replays, base, state, authoritative, operational, Omitted(strategy, walkoverIds));
    OperationalRetains(strategy, artifacts.schedule, walkoverIds);
    forall a | a in authoritative
      ensures Listed(operational, a.contestId) || MayOmit(state, Omitted(strategy, walkoverIds), a.contestId)
    {
      OperationalIs(strategy, artifacts.schedule, walkoverIds, a);
    }
    forall a ensures a in operational <==> a in artifacts.schedule && (strategy.KeepAnnouncedSlots? || a.contestId !in walkoverIds) {
      OperationalIs(strategy, artifacts.schedule, walkoverIds, a);
    }
    IndependentReportIsTheSame(strategy, replays, base, state, artifacts, walkoverIds);
  }

  lemma TruthSurvives(base: LiveState, request: Request)
    requires EngineValid(base)
    ensures PreservedActualTruth(base.contests, Settled(base, request, DirectWalkovers(base, request.entrantId)).contests)
  {
    WalkoversSettle(base, request.entrantId);
  }

  // ---------------------------------------------------------------- what a finding names

  lemma {:induction false} TruthFindingsAre(base: LiveState, candidate: LiveState, ids: seq<string>, f: Finding)
    ensures f in TruthFindings(base, candidate, ids) <==>
              f.TruthChanged? && f.contestId in ids && !TruthKept(base.contests, candidate.contests, f.contestId)
  {
    if ids != [] {
      TruthFindingsAre(base, candidate, ids[..|ids| - 1], f);
      assert ids == ids[..|ids| - 1] + [ids[|ids| - 1]];
    }
  }

  /** Some slot in the plan is not the published one of its contest. */
  predicate Changed(authoritative: seq<Assignment>, operational: seq<Assignment>, id: string) {
    exists a :: a in operational && a.contestId == id && AssignmentFor(authoritative, id) != Some(a)
  }

  lemma {:induction false} AssignmentFindingsAre(authoritative: seq<Assignment>, operational: seq<Assignment>, f: Finding)
    ensures f in AssignmentFindings(authoritative, operational) <==>
              || (f.DuplicateAssignment? && !Distinct(CourtOutage.Ids(operational)))
              || (f.AssignmentChanged? && Changed(authoritative, operational, f.contestId))
  {
    if operational != [] {
      var front, last := operational[..|operational| - 1], operational[|operational| - 1];
      AssignmentFindingsAre(authoritative, front, f);
      assert operational == front + [last];
      DistinctSnoc(front, last);
    }
  }

  lemma {:induction false} OmissionFindingsAre(candidate: LiveState, authoritative: seq<Assignment>, operational: seq<Assignment>,
                                               omitted: seq<string>, f: Finding)
    ensures f in OmissionFindings(candidate, authoritative, operational, omitted) <==>
              && f.UnjustifiedOmission? && Listed(authoritative, f.contestId) && !Listed(operational, f.contestId)
              && !MayOmit(candidate, omitted, f.contestId)
  {
    if authoritative != [] {
      var front, last := authoritative[..|authoritative| - 1], authoritative[|authoritative| - 1];
      OmissionFindingsAre(candidate, front, operational, omitted, f);
      assert authoritative == front + [last];
    }
  }

  /**
   * The guard's findings name exactly what is wrong: a record that does not replay, each settled or running contest that
   * changed, a contest listed twice, each slot that is not the published one, and each slot dropped without a released walkover.
   */
  lemma GuardNamesWhatIsWrong(replays: bool, base: LiveState, candidate: LiveState, authoritative: seq<Assignment>,
                              operational: seq<Assignment>, omitted: seq<string>, f: Finding)
    ensures f in GuardFindings(replays, base, candidate, authoritative, operational, omitted) <==>
              match f
              case ReplayDiffers => !replays
              case TruthChanged(id) =>
                && id in ContestIds(base) && id in base.contests && (base.contests[id].status.Completed? || base.contests[id].status.InProgress?)
                && !(id in candidate.contests && candidate.contests[id] == base.contests[id])
              case DuplicateAssignment => !Distinct(CourtOutage.Ids(operational))
              case AssignmentChanged(id) => Changed(authoritative, operational, id)
              case UnjustifiedOmission(id) =>
                && Listed(authoritative, id) && !Listed(operational, id)
                && !(id in omitted && id in candidate.contests && candidate.contests[id].status.Walkover?)
  {
    SortKeepsElements((if replays then [] else [ReplayDiffers]) + TruthFindings(base, candidate, ContestIds(base))
                      + AssignmentFindings(authoritative, operational)
                      + OmissionFindings(candidate, authoritative, operational, omitted), FindingLeq);
    TruthFindingsAre(base, candidate, ContestIds(base), f);
    AssignmentFindingsAre(authoritative, operational, f);
    OmissionFindingsAre(candidate, authoritative, operational, omitted, f);
  }
}
