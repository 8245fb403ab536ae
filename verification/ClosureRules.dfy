/** When a competition can close and what its closure says, told from the contests on record. */
module ClosureRules {
  import opened Wrappers
  import opened Lists
  import opened Ordering
  import opened Sorting
  import opened SortedSets
  import opened Texts
  import opened LiveModel
  import opened Closure

  // ---------------------------------------------------------------- when a contest can close

  /** Exactly two scores, of two different entrants' or one's, none negative or unsafe, and not level. */
  predicate Scored(contest: Contest, entrants: seq<string>) {
    && contest.scores.Some? && |contest.scores.value| == 2
    && (forall s | s in contest.scores.value :: s.entrantId in entrants && 0 <= s.value <= 9_007_199_254_740_991)
    && contest.scores.value[0].value != contest.scores.value[1].value
  }

  /** The entrant with the higher of two scores. */
  predicate Higher(contest: Contest, winner: string) {
    && contest.scores.Some? && |contest.scores.value| == 2
    && var s := contest.scores.value;
       (s[0].entrantId == winner && s[0].value > s[1].value) || (s[1].entrantId == winner && s[1].value > s[0].value)
  }

  /** The contest is over between two entrants, with a winner among them, and a played one has its scores, times and court. */
  predicate Closes(state: LiveState, id: string, winner: string) {
    && id in state.contests && id in state.resolved && |state.resolved[id]| == 2 && winner in state.resolved[id] && winner != ""
    && var contest := state.contests[id];
       match contest.status
       case Completed =>
         && Scored(contest, state.resolved[id]) && Higher(contest, winner)
         && contest.actualStart.Some? && contest.actualEnd.Some?
         && contest.actualCourtId.Some? && contest.actualCourtId.value != ""
       case Walkover => contest.winnerEntrantId == Some(winner)
       case Retired => contest.winnerEntrantId == Some(winner)
       case Scheduled => false
       case InProgress => false
  }

  /** What is closed of a contest is what the record holds of it. */
  predicate Says(state: LiveState, id: string, r: ClosedResult)
    requires id in state.contests && id in state.resolved
  {
    var contest := state.contests[id];
    && r.contestId == id && r.status == contest.status
    && multiset(r.entrantIds) == multiset(state.resolved[id])
    && multiset(r.scores) == multiset(contest.scores.GetOr([]))
    && r.actualCourtId == contest.actualCourtId && r.actualStart == contest.actualStart && r.actualEnd == contest.actualEnd
  }

  lemma SortedScores(contest: Contest, entrants: seq<string>)
    ensures var scores := SortBy(contest.scores.GetOr([]), ScoreLeq);
            && multiset(scores) == multiset(contest.scores.GetOr([]))
            && (!UnresolvedScores(scores, entrants) <==> Scored(contest, entrants))
            && (Scored(contest, entrants) ==>
                  forall w :: Higher(contest, w) <==> w == if scores[0].value > scores[1].value then scores[0].entrantId else scores[1].entrantId)
  {
    var raw := contest.scores.GetOr([]);
    SortKeepsElements(raw, ScoreLeq);
    if |raw| == 2 {
      SortOfTwo(raw, ScoreLeq);
      assert raw[0] in raw && raw[1] in raw;
    }
  }

  /** The winner that closing looks at, for a contest that is over between two entrants. */
  lemma ClosedWinner(state: LiveState, id: string, winner: string)
    ensures Closing(state, id).Success? && Closing(state, id).value.winnerEntrantId == winner <==> Closes(state, id, winner)
  {
    if id in state.contests && id in state.resolved { SortedScores(state.contests[id], state.resolved[id]); }
  }

  lemma ClosedFields(state: LiveState, id: string)
    requires Closing(state, id).Success?
    ensures id in state.contests && id in state.resolved
    ensures var r, contest := Closing(state, id).value, state.contests[id];
            && r.contestId == id && r.status == contest.status && r.entrantIds == SortBy(state.resolved[id], StringLeq)
            && r.scores == SortBy(contest.scores.GetOr([]), ScoreLeq)
            && r.actualCourtId == contest.actualCourtId && r.actualStart == contest.actualStart && r.actualEnd == contest.actualEnd
  {
  }

  lemma ClosedSays(state: LiveState, id: string)
    requires Closing(state, id).Success?
    ensures id in state.contests && id in state.resolved && Says(state, id, Closing(state, id).value)
  {
    ClosedFields(state, id);
    SortedLists(state.contests[id].scores.GetOr([]), state.resolved[id]);
  }

  lemma SortedLists(scores: seq<Score>, entrants: seq<string>)
    ensures multiset(SortBy(scores, ScoreLeq)) == multiset(scores) && multiset(SortBy(entrants, StringLeq)) == multiset(entrants)
  {
    SortKeepsElements(scores, ScoreLeq);
    SortKeepsElements(entrants, StringLeq);
  }

  /** The entrants and scores of a closed contest are listed in the order of identities. */
  lemma ClosedInOrder(state: LiveState, id: string)
    requires Closing(state, id).Success?
    ensures var r := Closing(state, id).value;
            && (forall i, j | 0 <= i < j < |r.entrantIds| :: StringLeq(r.entrantIds[i], r.entrantIds[j]))
            && (forall i, j | 0 <= i < j < |r.scores| :: StringLeq(r.scores[i].entrantId, r.scores[j].entrantId))
  {
    StringOrder();
    ScoreOrder();
    ClosedFields(state, id);
    SortSorts(state.resolved[id], StringLeq);
    SortSorts(state.contests[id].scores.GetOr([]), ScoreLeq);
  }

  lemma ScoreOrder()
    ensures TotalPreorder(ScoreLeq)
  {
    forall x: Score, y: Score ensures ScoreLeq(x, y) || ScoreLeq(y, x) { StringLeqTotal(x.entrantId, y.entrantId); }
    forall x: Score, y: Score, z: Score | ScoreLeq(x, y) && ScoreLeq(y, z) ensures ScoreLeq(x, z) {
      StringLeqTransitive(x.entrantId, y.entrantId, z.entrantId);
    }
  }

  /** A contest closes exactly when somebody won it on record, and then says what the record says. */
  lemma ContestClosesIff(state: LiveState, id: string)
    ensures Closing(state, id).Success? <==> exists winner :: Closes(state, id, winner)
    ensures Closing(state, id).Success? ==>
              && Closes(state, id, Closing(state, id).value.winnerEntrantId) && Says(state, id, Closing(state, id).value)
    ensures forall winner | Closes(state, id, winner) ::
              Closing(state, id).Success? && Closing(state, id).value.winnerEntrantId == winner
  {
    forall winner
      ensures Closing(state, id).Success? && Closing(state, id).value.winnerEntrantId == winner <==> Closes(state, id, winner)
    {
      ClosedWinner(state, id, winner);
    }
    if Closing(state, id).Success? {
      ClosedSays(state, id);
      assert Closes(state, id, Closing(state, id).value.winnerEntrantId);
    }
  }

  // ---------------------------------------------------------------- when a competition can close, and what it says

  /** How many contests ended this way. */
  function Ended(state: LiveState, status: ContestStatus): nat {
    |Filter(state.definitions, (d: Definition) => d.contestId in state.contests && state.contests[d.contestId].status == status)|
  }

  lemma {:induction false} SettledCount(state: LiveState, ids: seq<string>, status: ContestStatus)
    requires forall id | id in ids :: Closing(state, id).Success?
    ensures Count(Settled(state, ids), status) == |Filter(ids, (id: string) => id in state.contests && state.contests[id].status == status)|
  {
    if ids != [] {
      var front, last := ids[..|ids| - 1], ids[|ids| - 1];
      assert ids == front + [last];
      SettledCount(state, front, status);
      ContestClosesIff(state, last);
      FilterSnoc(front, last, (id: string) => id in state.contests && state.contests[id].status == status);
      FilterSnoc(Settled(state, front), Closing(state, last).value, (r: ClosedResult) => r.status == status);
    }
  }

  lemma {:induction false} InsertCount(x: ClosedResult, s: seq<ClosedResult>, status: ContestStatus)
    ensures Count(Insert(x, s, ResultLeq), status) == Count(s, status) + if x.status == status then 1 else 0
  {
    if s != [] && !ResultLeq(x, s[0]) { InsertCount(x, s[1..], status); }
  }

  lemma {:induction false} SortCount(s: seq<ClosedResult>, status: ContestStatus)
    ensures Count(SortBy(s, ResultLeq), status) == Count(s, status)
  {
    if s != [] {
      SortCount(s[1..], status);
      InsertCount(s[0], SortBy(s[1..], ResultLeq), status);
    }
  }

  lemma {:induction false} IdsCount(state: LiveState, definitions: seq<Definition>, status: ContestStatus)
    ensures |Filter(Map(definitions, (d: Definition) => d.contestId),
                    (id: string) => id in state.contests && state.contests[id].status == status)|
            == |Filter(definitions, (d: Definition) => d.contestId in state.contests && state.contests[d.contestId].status == status)|
  {
    if definitions != [] {
      var ids := Map(definitions, (d: Definition) => d.contestId);
      assert ids == [definitions[0].contestId] + Map(definitions[1..], (d: Definition) => d.contestId);
      IdsCount(state, definitions[1..], status);
    }
  }

  lemma CountIs(state: LiveState, status: ContestStatus)
    requires !Blocked(state)
    ensures Count(Results(state), status) == Ended(state, status)
  {
    SortCount(Settled(state, Ids(state)), status);
    SettledCount(state, Ids(state), status);
    IdsCount(state, state.definitions, status);
  }

  /** Every acknowledgement that closing takes, and no other. */
  predicate Acknowledged(codes: seq<string>) {
    && "FINAL_RESULTS_REVIEWED" in codes && "OPEN_DISPUTES_RESOLVED" in codes
    && "MANUAL_RECORDS_RECONCILED" in codes && "DELIVERY_EVIDENCE_REVIEWED" in codes
    && forall code | code in codes :: code in
         ["FINAL_RESULTS_REVIEWED", "OPEN_DISPUTES_RESOLVED", "MANUAL_RECORDS_RECONCILED", "DELIVERY_EVIDENCE_REVIEWED"]
  }

  lemma AcknowledgedIff(codes: seq<string>)
    ensures ExactAcknowledgements(codes) <==> Acknowledged(codes)
  {
    AcknowledgementsAreExact();
    SortedUniqueIff(codes, ACKNOWLEDGEMENTS);
    var all := ACKNOWLEDGEMENTS;
    assert all[0] in all && all[1] in all && all[2] in all && all[3] in all;
    if Acknowledged(codes) {
      forall x ensures x in codes <==> x in all {
      }
    }
  }

  /**
   * A closure is derived exactly when it names its record and closer, at a canonical instant, with every acknowledgement, in
   * normal operation, with no dispute pending, once every contest has a result.
   */
  lemma ClosureDerivedIff(request: Request, records: Records)
    ensures Derive(request, records).Success? <==>
              && NonBlank(request.organizationId) && NonBlank(request.competitionId) && NonBlank(request.closedBy)
              && request.closedAt.Canonical? && Acknowledged(request.acknowledgedCodes) && records.mode.Normal?
              && (forall d | d in records.disputes :: !d.pending)
              && forall d | d in records.live.definitions :: exists winner :: Closes(records.live, d.contestId, winner)
  {
    AcknowledgedIff(request.acknowledgedCodes);
    BlockedIff(records.live);
  }

  lemma BlockedIff(state: LiveState)
    ensures !Blocked(state) <==> forall d | d in state.definitions :: exists winner :: Closes(state, d.contestId, winner)
  {
    var ids := Ids(state);
    forall id | id in ids ensures exists d :: d in state.definitions && d.contestId == id {
      var i :| 0 <= i < |ids| && ids[i] == id;
      assert state.definitions[i] in state.definitions;
    }
    forall d | d in state.definitions
      ensures d.contestId in ids && (Closing(state, d.contestId).Success? <==> exists winner :: Closes(state, d.contestId, winner))
    {
      var i :| 0 <= i < |ids| && state.definitions[i] == d;
      assert ids[i] == d.contestId;
      ContestClosesIff(state, d.contestId);
    }
  }

  /**
   * The closure says who closed what and when, which revisions and version of play, each contest's result in the order of
   * identities, how many were completed, walked over and retired, and on what evidence.
   */
  lemma ClosureSays(request: Request, records: Records)
    requires Derive(request, records).Success?
    ensures var body := Derive(request, records).value.body;
            && body.organizationId == request.organizationId && body.competitionId == request.competitionId
            && body.publishedRevision == request.publishedRevision && body.operationalRevision == request.operationalRevision
            && body.liveVersion == records.live.version && body.closedBy == request.closedBy && body.closedAt == request.closedAt
            && Acknowledged(body.acknowledgedCodes) && body.authority == records.authority
            && multiset(body.evidence) == multiset(request.evidence)
            && (forall i, j | 0 <= i < j < |body.evidence| :: StringLeq(body.evidence[i].messageId, body.evidence[j].messageId))
            && body.summary == Summary(|records.live.definitions|, Ended(records.live, Completed), Ended(records.live, Walkover),
                                       Ended(records.live, Retired))
            && multiset(Map(body.results, (r: ClosedResult) => r.contestId)) == multiset(Ids(records.live))
            && (forall i, j | 0 <= i < j < |body.results| :: StringLeq(body.results[i].contestId, body.results[j].contestId))
            && forall r | r in body.results :: Closes(records.live, r.contestId, r.winnerEntrantId) && Says(records.live, r.contestId, r)
  {
    var body := Derive(request, records).value.body;
    ResultsAre(records.live);
    CountIs(records.live, Completed);
    CountIs(records.live, Walkover);
    CountIs(records.live, Retired);
    AcknowledgementsAreExact();
    AcknowledgedIff(ACKNOWLEDGEMENTS);
    EvidenceOrder();
    SortKeepsElements(request.evidence, EvidenceLeq);
    SortSorts(request.evidence, EvidenceLeq);
    forall r | r in body.results ensures Closes(records.live, r.contestId, r.winnerEntrantId) && Says(records.live, r.contestId, r) {
      ContestClosesIff(records.live, r.contestId);
    }
  }
}
