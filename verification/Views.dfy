/** What a participant is told to do next, and what the public screen shows of the same contest. */
module Views {
  import opened Wrappers
  import opened Lists
  import opened Ordering
  import opened Sorting
  import opened LiveModel

  datatype ShownStatus = ShownScheduled | ShownCalled | ShownInProgress | ShownCompleted | ShownWalkover | ShownRetired

  datatype ParticipantStatus = StatusWithdrawn | StatusCheckedIn | StatusLate | StatusExpected

  datatype Candidate = Candidate(contestId: string, assignment: Assignment, state: Contest)

  datatype Next = Next(
    contestId: string, opponent: Option<string>, court: string, reportingTime: int, startsAt: int, status: ShownStatus)

  datatype ShownContest = ShownContest(
    contestId: string, participantNames: seq<string>, court: string, startsAt: int, status: ShownStatus, scores: Option<seq<Score>>)

  function EntrantsFor(state: LiveState, id: string): seq<string> {
    if id in state.resolved then state.resolved[id] else []
  }

  predicate Unfinished(status: ContestStatus) {
    status.Scheduled? || status.InProgress?
  }

  /** A contest of the participant's that has a slot and has not finished. */
  predicate IsCandidate(state: LiveState, assignments: seq<Assignment>, participantId: string, id: string) {
    && participantId in EntrantsFor(state, id)
    && AssignmentFor(assignments, id).Some? && id in state.contests && Unfinished(state.contests[id].status)
  }

  function CandidateFor(state: LiveState, assignments: seq<Assignment>, participantId: string, id: string): Candidate
    requires IsCandidate(state, assignments, participantId, id)
  {
    Candidate(id, AssignmentFor(assignments, id).value, state.contests[id])
  }

  function Rank(c: Candidate): int {
    if c.state.status.InProgress? then 0 else 1
  }

  /** In progress first, then by start, then by identity. */
  predicate CandidateLeq(a: Candidate, b: Candidate) {
    || Rank(a) < Rank(b)
    || (Rank(a) == Rank(b) && (a.assignment.start < b.assignment.start
                               || (a.assignment.start == b.assignment.start && StringLeq(a.contestId, b.contestId))))
  }

  function CandidateIds(state: LiveState, assignments: seq<Assignment>, participantId: string): (ids: seq<string>)
    ensures forall i | 0 <= i < |ids| :: IsCandidate(state, assignments, participantId, ids[i])
  {
    var ids := Filter(Map(state.definitions, (d: Definition) => d.contestId), id => IsCandidate(state, assignments, participantId, id));
    assert forall i | 0 <= i < |ids| :: ids[i] in ids;
    ids
  }

  function Unsorted(state: LiveState, assignments: seq<Assignment>, participantId: string): seq<Candidate> {
    var ids := CandidateIds(state, assignments, participantId);
    seq(|ids|, i requires 0 <= i < |ids| => CandidateFor(state, assignments, participantId, ids[i]))
  }

  function Candidates(state: LiveState, assignments: seq<Assignment>, participantId: string): seq<Candidate> {
    SortBy(Unsorted(state, assignments, participantId), CandidateLeq)
  }

  function StatusOf(state: LiveState, participantId: string): ParticipantStatus {
    if participantId !in state.presence then StatusExpected
    else match state.presence[participantId]
      case Withdrawn => StatusWithdrawn
      case NoShow => StatusWithdrawn
      case CheckedIn => StatusCheckedIn
      case Late => StatusLate
  }

  function NameOf(names: map<string, string>, id: string): string {
    if id in names then names[id] else id
  }

  function OpponentName(state: LiveState, names: map<string, string>, participantId: string, id: string): Option<string> {
    var entrants := EntrantsFor(state, id);
    var other := Opponent(entrants, participantId);
    if |entrants| == 2 && other.Some? then Some(NameOf(names, other.value)) else None
  }

  function NextStatus(contest: Contest): ShownStatus {
    if contest.status.InProgress? then ShownInProgress else if contest.calledAt.Some? then ShownCalled else ShownScheduled
  }

  function Shown(state: LiveState, names: map<string, string>, participantId: string, c: Candidate): Next {
    Next(c.contestId, OpponentName(state, names, participantId, c.contestId), c.state.actualCourtId.GetOr(c.assignment.resourceId),
         c.assignment.start - 10 * 60_000, c.assignment.start, NextStatus(c.state))
  }

  /** What the participant is told to do next. */
  function ParticipantNext(state: LiveState, assignments: seq<Assignment>, names: map<string, string>, participantId: string): Option<Next> {
    var candidates := Candidates(state, assignments, participantId);
    if StatusOf(state, participantId).StatusWithdrawn? || candidates == [] then None
    else Some(Shown(state, names, participantId, candidates[0]))
  }

  function PublicStatus(state: LiveState, id: string): ShownStatus {
    if id !in state.contests then ShownScheduled
    else match state.contests[id].status
      case Scheduled => if state.contests[id].calledAt.Some? then ShownCalled else ShownScheduled
      case InProgress => ShownInProgress
      case Completed => ShownCompleted
      case Walkover => ShownWalkover
      case Retired => ShownRetired
  }

  function ContestNames(state: LiveState, names: map<string, string>, id: string): seq<string> {
    Map(EntrantsFor(state, id), entrant => NameOf(names, entrant))
  }

  /** What the public screen shows of a contest: its slot, or a released walkover where it was planned. */
  function PublicContest(state: LiveState, assignments: seq<Assignment>, names: map<string, string>, affectedIds: seq<string>,
                         d: Definition): seq<ShownContest>
  {
    var id := d.contestId;
    var assignment := AssignmentFor(assignments, id);
    if assignment.Some? then
      [ShownContest(id, ContestNames(state, names, id),
                    (if id in state.contests then state.contests[id].actualCourtId else None).GetOr(assignment.value.resourceId),
                    assignment.value.start, PublicStatus(state, id),
                    if id in state.contests then state.contests[id].scores else None)]
    else if id in affectedIds && id in state.contests && state.contests[id].status.Walkover? then
      [ShownContest(id, ContestNames(state, names, id), d.courtId, d.scheduledStart, ShownWalkover, None)]
    else []
  }

  function PublicContests(state: LiveState, assignments: seq<Assignment>, names: map<string, string>, affectedIds: seq<string>,
                          definitions: seq<Definition>): seq<ShownContest>
  {
    if definitions == [] then []
    else PublicContest(state, assignments, names, affectedIds, definitions[0])
         + PublicContests(state, assignments, names, affectedIds, definitions[1..])
  }

  predicate ShownLeq(a: ShownContest, b: ShownContest) {
    a.startsAt < b.startsAt || (a.startsAt == b.startsAt && StringLeq(a.contestId, b.contestId))
  }

  function PublicLive(state: LiveState, assignments: seq<Assignment>, names: map<string, string>, affectedIds: seq<string>): seq<ShownContest> {
    SortBy(PublicContests(state, assignments, names, affectedIds, state.definitions), ShownLeq)
  }

  // ---------------------------------------------------------------- the participant's view is the least candidate

  lemma CandidateOrder()
    ensures TotalPreorder(CandidateLeq)
  {
    forall x: Candidate, y: Candidate ensures CandidateLeq(x, y) || CandidateLeq(y, x) { StringLeqTotal(x.contestId, y.contestId); }
    forall x: Candidate, y: Candidate, z: Candidate | CandidateLeq(x, y) && CandidateLeq(y, z) ensures CandidateLeq(x, z) {
      if StringLeq(x.contestId, y.contestId) && StringLeq(y.contestId, z.contestId) {
        StringLeqTransitive(x.contestId, y.contestId, z.contestId);
      }
    }
  }

  predicate Defined(state: LiveState, id: string) {
    exists d :: d in state.definitions && d.contestId == id
  }

  lemma CandidateListed(state: LiveState, assignments: seq<Assignment>, participantId: string, id: string)
    ensures id in CandidateIds(state, assignments, participantId)
            <==> Defined(state, id) && IsCandidate(state, assignments, participantId, id)
  {
    var ids := Map(state.definitions, (d: Definition) => d.contestId);
    if id in ids {
      var i :| 0 <= i < |ids| && ids[i] == id;
      assert state.definitions[i] in state.definitions;
    }
    if d :| d in state.definitions && d.contestId == id {
      var i :| 0 <= i < |state.definitions| && state.definitions[i] == d;
      assert ids[i] == id;
    }
  }

  lemma CandidatesAre(state: LiveState, assignments: seq<Assignment>, participantId: string, c: Candidate)
    ensures c in Candidates(state, assignments, participantId)
            <==> && Defined(state, c.contestId) && IsCandidate(state, assignments, participantId, c.contestId)
                 && c == CandidateFor(state, assignments, participantId, c.contestId)
  {
    var ids := CandidateIds(state, assignments, participantId);
    var unsorted := Unsorted(state, assignments, participantId);
    SortKeepsElements(unsorted, CandidateLeq);
    CandidateListed(state, assignments, participantId, c.contestId);
    if c in unsorted {
      var i :| 0 <= i < |unsorted| && unsorted[i] == c;
      assert ids[i] in ids;
    }
    if c.contestId in ids {
      var i :| 0 <= i < |ids| && ids[i] == c.contestId;
      assert unsorted[i] == CandidateFor(state, assignments, participantId, c.contestId);
    }
  }

  /**
   * A participant has nothing next exactly when they are withdrawn or absent, or have no unfinished contest with a
   * slot; otherwise next is the least of those contests: in progress first, then by start, then by identity.
   */
  lemma NextIsLeast(state: LiveState, assignments: seq<Assignment>, names: map<string, string>, participantId: string)
    ensures var next := ParticipantNext(state, assignments, names, participantId);
            && (next.None? <==>
                  || (participantId in state.presence
                      && (state.presence[participantId].Withdrawn? || state.presence[participantId].NoShow?))
                  || (forall id :: !(Defined(state, id) && IsCandidate(state, assignments, participantId, id))))
            && (next.Some? ==>
                  && Defined(state, next.value.contestId) && IsCandidate(state, assignments, participantId, next.value.contestId)
                  && next.value == Shown(state, names, participantId, CandidateFor(state, assignments, participantId, next.value.contestId))
                  && forall id | Defined(state, id) && IsCandidate(state, assignments, participantId, id) ::
                       CandidateLeq(CandidateFor(state, assignments, participantId, next.value.contestId),
                                    CandidateFor(state, assignments, participantId, id)))
  {
    var candidates := Candidates(state, assignments, participantId);
    CandidateOrder();
    SortSorts(Unsorted(state, assignments, participantId), CandidateLeq);
    if candidates != [] { CandidatesAre(state, assignments, participantId, candidates[0]); }
    forall id | Defined(state, id) && IsCandidate(state, assignments, participantId, id)
      ensures candidates != [] && CandidateLeq(candidates[0], CandidateFor(state, assignments, participantId, id))
    {
      var c := CandidateFor(state, assignments, participantId, id);
      CandidatesAre(state, assignments, participantId, c);
      var i :| 0 <= i < |candidates| && candidates[i] == c;
      if i == 0 { StringLeqTotal(c.contestId, c.contestId); }
    }
  }

  // ---------------------------------------------------------------- the public view agrees

  lemma {:induction false} PublicShows(state: LiveState, assignments: seq<Assignment>, names: map<string, string>, affectedIds: seq<string>,
                                       definitions: seq<Definition>, p: ShownContest)
    ensures p in PublicContests(state, assignments, names, affectedIds, definitions)
            <==> exists d :: d in definitions && p in PublicContest(state, assignments, names, affectedIds, d)
  {
    if definitions != [] { PublicShows(state, assignments, names, affectedIds, definitions[1..], p); }
  }

  /** Every public entry of a participant's next contest shows the participant's court, start and status, and the opponent. */
  lemma ViewsAgree(state: LiveState, assignments: seq<Assignment>, names: map<string, string>, affectedIds: seq<string>,
                   participantId: string)
    requires ParticipantNext(state, assignments, names, participantId).Some?
    ensures var next := ParticipantNext(state, assignments, names, participantId).value;
            var contests := PublicLive(state, assignments, names, affectedIds);
            && (exists p :: p in contests && p.contestId == next.contestId)
            && forall p | p in contests && p.contestId == next.contestId ::
                 && p.court == next.court && p.startsAt == next.startsAt && p.status == next.status
                 && NameOf(names, participantId) in p.participantNames
                 && (next.opponent.Some? ==> next.opponent.value in p.participantNames)
  {
    NextIsLeast(state, assignments, names, participantId);
    var id := ParticipantNext(state, assignments, names, participantId).value.contestId;
    NamesShown(state, names, participantId, id);
    PublicEntries(state, assignments, names, affectedIds, id);
  }

  /** What the public screen shows of a contest with a slot. */
  function Entry(state: LiveState, assignments: seq<Assignment>, names: map<string, string>, id: string): ShownContest
    requires AssignmentFor(assignments, id).Some? && id in state.contests
  {
    var a := AssignmentFor(assignments, id).value;
    ShownContest(id, ContestNames(state, names, id), state.contests[id].actualCourtId.GetOr(a.resourceId), a.start,
                 PublicStatus(state, id), state.contests[id].scores)
  }

  lemma PublicEntries(state: LiveState, assignments: seq<Assignment>, names: map<string, string>, affectedIds: seq<string>, id: string)
    requires Defined(state, id) && AssignmentFor(assignments, id).Some? && id in state.contests
    ensures Entry(state, assignments, names, id) in PublicLive(state, assignments, names, affectedIds)
    ensures forall p | p in PublicLive(state, assignments, names, affectedIds) && p.contestId == id ::
              p == Entry(state, assignments, names, id)
  {
    SortKeepsElements(PublicContests(state, assignments, names, affectedIds, state.definitions), ShownLeq);
    var d :| d in state.definitions && d.contestId == id;
    SlotShown(state, assignments, names, affectedIds, d);
    PublicShows(state, assignments, names, affectedIds, state.definitions, Entry(state, assignments, names, id));
    forall p | p in PublicLive(state, assignments, names, affectedIds) && p.contestId == id
      ensures p == Entry(state, assignments, names, id)
    {
      PublicShows(state, assignments, names, affectedIds, state.definitions, p);
      var e :| e in state.definitions && p in PublicContest(state, assignments, names, affectedIds, e);
      OwnIdShown(state, assignments, names, affectedIds, e, p);
      SlotShown(state, assignments, names, affectedIds, e);
    }
  }

  lemma SlotShown(state: LiveState, assignments: seq<Assignment>, names: map<string, string>, affectedIds: seq<string>, d: Definition)
    requires AssignmentFor(assignments, d.contestId).Some? && d.contestId in state.contests
    ensures PublicContest(state, assignments, names, affectedIds, d) == [Entry(state, assignments, names, d.contestId)]
  {
  }

  lemma OwnIdShown(state: LiveState, assignments: seq<Assignment>, names: map<string, string>, affectedIds: seq<string>, d: Definition,
                   p: ShownContest)
    requires p in PublicContest(state, assignments, names, affectedIds, d)
    ensures p.contestId == d.contestId
  {
  }

  lemma NamesShown(state: LiveState, names: map<string, string>, participantId: string, id: string)
    requires participantId in EntrantsFor(state, id)
    ensures NameOf(names, participantId) in ContestNames(state, names, id)
    ensures OpponentName(state, names, participantId, id).Some? ==>
              OpponentName(state, names, participantId, id).value in ContestNames(state, names, id)
  {
    var entrants := EntrantsFor(state, id);
    var i :| 0 <= i < |entrants| && entrants[i] == participantId;
    assert ContestNames(state, names, id)[i] == NameOf(names, participantId);
    var other := Opponent(entrants, participantId);
    OpponentIsEntrant(entrants, participantId);
    if other.Some? {
      var j :| 0 <= j < |entrants| && entrants[j] == other.value;
      assert ContestNames(state, names, id)[j] == NameOf(names, other.value);
    }
  }

  lemma {:induction false} OpponentIsEntrant(entrants: seq<string>, participantId: string)
    ensures Opponent(entrants, participantId).Some? ==> Opponent(entrants, participantId).value in entrants
  {
    if entrants != [] { OpponentIsEntrant(entrants[1..], participantId); }
  }

  // ---------------------------------------------------------------- what the views say, told from the record

  /** The participant is to play this contest, which is not over, in this slot. */
  predicate ToPlay(state: LiveState, assignments: seq<Assignment>, participantId: string, id: string, a: Assignment) {
    && (exists d :: d in state.definitions && d.contestId == id)
    && id in state.resolved && participantId in state.resolved[id] && AssignmentFor(assignments, id) == Some(a)
    && id in state.contests && (state.contests[id].status.Scheduled? || state.contests[id].status.InProgress?)
  }

  lemma ToPlayIff(state: LiveState, assignments: seq<Assignment>, participantId: string, id: string)
    ensures Defined(state, id) && IsCandidate(state, assignments, participantId, id)
            <==> exists a :: ToPlay(state, assignments, participantId, id, a)
  {
    if Defined(state, id) && IsCandidate(state, assignments, participantId, id) {
      assert ToPlay(state, assignments, participantId, id, AssignmentFor(assignments, id).value);
    }
  }

  /** Where and when the participant is told to play whom: ten minutes early, on the court in use if there is one. */
  ghost predicate Tells(state: LiveState, names: map<string, string>, participantId: string, next: Next, a: Assignment)
    requires next.contestId in state.contests && next.contestId in state.resolved
  {
    var contest, entrants := state.contests[next.contestId], state.resolved[next.contestId];
    && next.startsAt == a.start && next.reportingTime == a.start - 600_000
    && next.court == (match contest.actualCourtId case Some(court) => court case None => a.resourceId)
    && next.status == (if contest.status.InProgress? then ShownInProgress else if contest.calledAt.Some? then ShownCalled else ShownScheduled)
    && (forall other | other != participantId && (entrants == [participantId, other] || entrants == [other, participantId]) ::
          next.opponent == Some(if other in names then names[other] else other))
    && (|entrants| != 2 ==> next.opponent.None?)
  }

  /** The contest is told before the other one: in progress before waiting, then the earlier, then by identity. */
  predicate ToldBefore(state: LiveState, id: string, a: Assignment, other: string, b: Assignment)
    requires id in state.contests && other in state.contests
  {
    var playing, alsoPlaying := state.contests[id].status.InProgress?, state.contests[other].status.InProgress?;
    (playing && !alsoPlaying) || (playing == alsoPlaying && (a.start < b.start || (a.start == b.start && StringLeq(id, other))))
  }

  lemma OpponentOfTwo(entrants: seq<string>, participantId: string, other: string)
    requires other != participantId && (entrants == [participantId, other] || entrants == [other, participantId])
    ensures Opponent(entrants, participantId) == Some(other)
  {
    assert entrants[1..] == [entrants[1]];
    assert Opponent([entrants[1]], participantId) == if entrants[1] != participantId then Some(entrants[1]) else Opponent([], participantId);
  }

  /**
   * What a participant is told to do next is the contest in progress, or else the earliest to come, with its slot, court,
   * reporting time, status and opponent as they are on record.
   */
  lemma NextTells(state: LiveState, assignments: seq<Assignment>, names: map<string, string>, participantId: string)
    requires ParticipantNext(state, assignments, names, participantId).Some?
    ensures var next := ParticipantNext(state, assignments, names, participantId).value;
            exists a ::
              && ToPlay(state, assignments, participantId, next.contestId, a) && Tells(state, names, participantId, next, a)
              && forall id, b | ToPlay(state, assignments, participantId, id, b) :: ToldBefore(state, next.contestId, a, id, b)
  {
    NextIsLeast(state, assignments, names, participantId);
    var next := ParticipantNext(state, assignments, names, participantId).value;
    var a := AssignmentFor(assignments, next.contestId).value;
    var entrants := state.resolved[next.contestId];
    forall other | other != participantId && (entrants == [participantId, other] || entrants == [other, participantId])
      ensures next.opponent == Some(if other in names then names[other] else other)
    {
      OpponentOfTwo(entrants, participantId, other);
    }
    assert ToPlay(state, assignments, participantId, next.contestId, a) && Tells(state, names, participantId, next, a);
    forall id, b | ToPlay(state, assignments, participantId, id, b) ensures ToldBefore(state, next.contestId, a, id, b) {
      ToPlayIff(state, assignments, participantId, id);
      assert CandidateLeq(CandidateFor(state, assignments, participantId, next.contestId),
                          CandidateFor(state, assignments, participantId, id));
    }
  }

  /** What the public screen makes of a contest's status. */
  predicate StatusShown(contest: Contest, status: ShownStatus) {
    match status
    case ShownScheduled => contest.status.Scheduled? && contest.calledAt.None?
    case ShownCalled => contest.status.Scheduled? && contest.calledAt.Some?
    case ShownInProgress => contest.status.InProgress?
    case ShownCompleted => contest.status.Completed?
    case ShownWalkover => contest.status.Walkover?
    case ShownRetired => contest.status.Retired?
  }

  /** The names of a contest's entrants, in their order. */
  predicate NamesEntrants(state: LiveState, names: map<string, string>, id: string, shown: seq<string>) {
    if id !in state.resolved then shown == []
    else |shown| == |state.resolved[id]| && forall i | 0 <= i < |shown| ::
      shown[i] == if state.resolved[id][i] in names then names[state.resolved[id][i]] else state.resolved[id][i]
  }

  /** An entry for a contest in its slot, as it is on record. */
  predicate ShowsSlot(state: LiveState, names: map<string, string>, p: ShownContest, a: Assignment) {
    && p.startsAt == a.start && NamesEntrants(state, names, p.contestId, p.participantNames)
    && if p.contestId in state.contests then
         var contest := state.contests[p.contestId];
         && p.court == (match contest.actualCourtId case Some(court) => court case None => a.resourceId)
         && StatusShown(contest, p.status) && p.scores == contest.scores
       else p.court == a.resourceId && p.status.ShownScheduled? && p.scores.None?
  }

  /** An entry for a walkover whose slot was released, where it was planned. */
  predicate ShowsReleased(state: LiveState, names: map<string, string>, affectedIds: seq<string>, p: ShownContest, d: Definition) {
    && p.contestId == d.contestId && p.contestId in affectedIds
    && p.contestId in state.contests && state.contests[p.contestId].status.Walkover?
    && p.court == d.courtId && p.startsAt == d.scheduledStart && p.status.ShownWalkover? && p.scores.None?
    && NamesEntrants(state, names, p.contestId, p.participantNames)
  }

  lemma EntryTells(state: LiveState, assignments: seq<Assignment>, names: map<string, string>, affectedIds: seq<string>, d: Definition,
                   p: ShownContest)
    requires p in PublicContest(state, assignments, names, affectedIds, d)
    ensures p.contestId == d.contestId
    ensures match AssignmentFor(assignments, p.contestId)
            case Some(a) => ShowsSlot(state, names, p, a)
            case None => ShowsReleased(state, names, affectedIds, p, d)
  {
  }

  /** The contest has a slot, or is a walkover whose slot was released. */
  predicate Shows(state: LiveState, assignments: seq<Assignment>, affectedIds: seq<string>, id: string) {
    || AssignmentFor(assignments, id).Some?
    || (id in affectedIds && id in state.contests && state.contests[id].status.Walkover?)
  }

  lemma NothingElseShown(state: LiveState, assignments: seq<Assignment>, names: map<string, string>, affectedIds: seq<string>, d: Definition)
    ensures PublicContest(state, assignments, names, affectedIds, d) == [] <==> !Shows(state, assignments, affectedIds, d.contestId)
  {
  }

  lemma ShownOrder()
    ensures TotalPreorder(ShownLeq)
  {
    forall x: ShownContest, y: ShownContest ensures ShownLeq(x, y) || ShownLeq(y, x) { StringLeqTotal(x.contestId, y.contestId); }
    forall x: ShownContest, y: ShownContest, z: ShownContest | ShownLeq(x, y) && ShownLeq(y, z) ensures ShownLeq(x, z) {
      if StringLeq(x.contestId, y.contestId) && StringLeq(y.contestId, z.contestId) {
        StringLeqTransitive(x.contestId, y.contestId, z.contestId);
      }
    }
  }

  /** The entry is what the record says of one of the contests. */
  predicate OnRecord(state: LiveState, assignments: seq<Assignment>, names: map<string, string>, affectedIds: seq<string>, p: ShownContest) {
    exists d :: d in state.definitions && d.contestId == p.contestId &&
      match AssignmentFor(assignments, p.contestId)
      case Some(a) => ShowsSlot(state, names, p, a)
      case None => ShowsReleased(state, names, affectedIds, p, d)
  }

  /**
   * The public screen lists, by start and identity, exactly the contests with a slot and the walkovers whose slots were
   * released, each as it is on record.
   */
  lemma PublicTells(state: LiveState, assignments: seq<Assignment>, names: map<string, string>, affectedIds: seq<string>)
    ensures var shown := PublicLive(state, assignments, names, affectedIds);
            && (forall p | p in shown :: OnRecord(state, assignments, names, affectedIds, p))
            && (forall d | d in state.definitions ::
                  (exists p :: p in shown && p.contestId == d.contestId) <==> Shows(state, assignments, affectedIds, d.contestId))
            && (forall i, j | 0 <= i < j < |shown| ::
                  shown[i].startsAt < shown[j].startsAt
                  || (shown[i].startsAt == shown[j].startsAt && StringLeq(shown[i].contestId, shown[j].contestId)))
  {
    var all := PublicContests(state, assignments, names, affectedIds, state.definitions);
    var shown := PublicLive(state, assignments, names, affectedIds);
    ShownOrder();
    SortKeepsElements(all, ShownLeq);
    SortSorts(all, ShownLeq);
    forall p | p in shown ensures OnRecord(state, assignments, names, affectedIds, p) {
      EntryOnRecord(state, assignments, names, affectedIds, p);
    }
    forall d | d in state.definitions
      ensures (exists p :: p in shown && p.contestId == d.contestId) <==> Shows(state, assignments, affectedIds, d.contestId)
    {
      ListedIff(state, assignments, names, affectedIds, d);
    }
  }

  lemma EntryOnRecord(state: LiveState, assignments: seq<Assignment>, names: map<string, string>, affectedIds: seq<string>, p: ShownContest)
    requires p in PublicContests(state, assignments, names, affectedIds, state.definitions)
    ensures OnRecord(state, assignments, names, affectedIds, p)
  {
    PublicShows(state, assignments, names, affectedIds, state.definitions, p);
    var d :| d in state.definitions && p in PublicContest(state, assignments, names, affectedIds, d);
    EntryTells(state, assignments, names, affectedIds, d, p);
  }

  lemma ListedIff(state: LiveState, assignments: seq<Assignment>, names: map<string, string>, affectedIds: seq<string>, d: Definition)
    requires d in state.definitions
    ensures (exists p :: p in PublicContests(state, assignments, names, affectedIds, state.definitions) && p.contestId == d.contestId)
            <==> Shows(state, assignments, affectedIds, d.contestId)
  {
    var own := PublicContest(state, assignments, names, affectedIds, d);
    NothingElseShown(state, assignments, names, affectedIds, d);
    if own != [] {
      EntryTells(state, assignments, names, affectedIds, d, own[0]);
      PublicShows(state, assignments, names, affectedIds, state.definitions, own[0]);
    }
    if p :| p in PublicContests(state, assignments, names, affectedIds, state.definitions) && p.contestId == d.contestId {
      PublicShows(state, assignments, names, affectedIds, state.definitions, p);
      var e :| e in state.definitions && p in PublicContest(state, assignments, names, affectedIds, e);
      EntryTells(state, assignments, names, affectedIds, e, p);
    }
  }
}
