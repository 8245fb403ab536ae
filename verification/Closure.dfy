/** Closing a competition: every contest's final result, the evidence of delivery, and a record that rebuilds. */
module Closure {
  import opened Wrappers
  import opened Lists
  import opened Ordering
  import opened Sorting
  import opened SortedSets
  import opened Timestamps
  import opened Texts
  import opened LiveModel
  import LiveProgression
  import OperationalSafety

  datatype ClosedResult = ClosedResult(
    contestId: string, entrantIds: seq<string>, status: ContestStatus, scores: seq<Score>, winnerEntrantId: string,
    actualCourtId: Option<string>, actualStart: Option<int>, actualEnd: Option<int>)

  datatype Problem = EntrantIdentityUnresolved | NotTerminal | ResultUnresolved | ActualTimingUnresolved | WinnerUnresolved

  const MAX_SAFE_INTEGER: int := 9_007_199_254_740_991

  predicate ScoreLeq(a: Score, b: Score) {
    StringLeq(a.entrantId, b.entrantId)
  }

  predicate UnresolvedScores(scores: seq<Score>, entrants: seq<string>) {
    || |scores| != 2
    || (exists s :: s in scores && (s.entrantId !in entrants || !(0 <= s.value <= MAX_SAFE_INTEGER)))
    || scores[0].value == scores[1].value
  }

  predicate Named(text: Option<string>) {
    text.Some? && text.value != ""
  }

  function ResultOf(contest: Contest, id: string, entrants: seq<string>, scores: seq<Score>, winner: Option<string>)
    : Result<ClosedResult, Problem>
  {
    if !Named(winner) || winner.value !in entrants then Failure(WinnerUnresolved)
    else Success(ClosedResult(id, SortBy(entrants, StringLeq), contest.status, scores, winner.value,
                              contest.actualCourtId, contest.actualStart, contest.actualEnd))
  }

  /** The final result of one contest, or what keeps the competition from closing. */
  function Closing(state: LiveState, id: string): Result<ClosedResult, Problem> {
    if id !in state.contests || id !in state.resolved || |state.resolved[id]| != 2 then Failure(EntrantIdentityUnresolved)
    else if !LiveProgression.Terminal(state.contests[id].status) then Failure(NotTerminal)
    else
      var contest, entrants := state.contests[id], state.resolved[id];
      var scores := SortBy(contest.scores.GetOr([]), ScoreLeq);
      if !contest.status.Completed? then ResultOf(contest, id, entrants, scores, contest.winnerEntrantId)
      else if UnresolvedScores(scores, entrants) then Failure(ResultUnresolved)
      else if contest.actualStart.None? || contest.actualEnd.None? || !Named(contest.actualCourtId)
        then Failure(ActualTimingUnresolved)
      else ResultOf(contest, id, entrants, scores,
                    Some(if scores[0].value > scores[1].value then scores[0].entrantId else scores[1].entrantId))
  }

  function Ids(state: LiveState): seq<string> {
    Map(state.definitions, (d: Definition) => d.contestId)
  }

  function Settled(state: LiveState, ids: seq<string>): seq<ClosedResult> {
    if ids == [] then []
    else
      var last := Closing(state, ids[|ids| - 1]);
      Settled(state, ids[..|ids| - 1]) + if last.Success? then [last.value] else []
  }

  predicate ResultLeq(a: ClosedResult, b: ClosedResult) {
    StringLeq(a.contestId, b.contestId)
  }

  function Results(state: LiveState): seq<ClosedResult> {
    SortBy(Settled(state, Ids(state)), ResultLeq)
  }

  predicate Blocked(state: LiveState) {
    exists id :: id in Ids(state) && Closing(state, id).Failure?
  }

  /** Every contest's final result, unless one has none. */
  method TerminalResults(state: LiveState) returns (r: Option<seq<ClosedResult>>)
    ensures r == if Blocked(state) then None else Some(Results(state))
  {
    var results: seq<ClosedResult> := [];
    var problems: seq<(string, Problem)> := [];
    var ids := Ids(state);
    for i := 0 to |ids|
      invariant results == Settled(state, ids[..i])
      invariant problems == [] <==> forall id | id in ids[..i] :: Closing(state, id).Success?
    {
      assert ids[..i + 1] == ids[..i] + [ids[i]];
      var result := Closing(state, ids[i]);
      if result.Failure? {
        problems := problems + [(ids[i], result.error)];
      } else {
        results := results + [result.value];
      }
    }
    assert ids[..|ids|] == ids;
    r := if problems != [] then None else Some(SortBy(results, ResultLeq));
  }

  // ---------------------------------------------------------------- closed results agree with play

  predicate HigherScore(scores: seq<Score>, winner: string) {
    |scores| == 2 && ((scores[0].entrantId == winner && scores[0].value > scores[1].value)
                      || (scores[1].entrantId == winner && scores[1].value > scores[0].value))
  }

  lemma SortOfTwo<T>(s: seq<T>, leq: (T, T) -> bool)
    requires |s| == 2
    ensures SortBy(s, leq) == if leq(s[0], s[1]) then s else [s[1], s[0]]
  {
    var rest := s[1..];
    assert rest == [s[1]] && rest[1..] == [];
    assert SortBy(rest, leq) == rest;
    assert Insert(s[0], rest, leq) == if leq(s[0], s[1]) then [s[0]] + rest else [s[1]] + Insert(s[0], rest[1..], leq);
  }

  /** Both ways of sorting two scores put the strictly higher one's entrant forward as the winner. */
  lemma WinnersAgree(contest: Contest, entrants: seq<string>)
    requires contest.status.Completed? && contest.scores.Some?
    requires !UnresolvedScores(SortBy(contest.scores.value, ScoreLeq), entrants)
    ensures var scores := SortBy(contest.scores.value, ScoreLeq);
            var winner := if scores[0].value > scores[1].value then scores[0].entrantId else scores[1].entrantId;
            LiveProgression.RecordedWinner(contest) == Some(winner) && HigherScore(contest.scores.value, winner) && winner in entrants
  {
    var raw := contest.scores.value;
    SortKeepsElements(raw, ScoreLeq);
    SortOfTwo(raw, ScoreLeq);
    SortOfTwo(raw, (l: Score, r: Score) => r.value <= l.value);
    var scores := SortBy(raw, ScoreLeq);
    assert scores[0] in scores && scores[1] in scores;
  }

  /** A contest that closes is one that progression reads a result from, with the same winner. */
  lemma ClosedWinnerIsProgressionWinner(state: LiveState, id: string)
    requires Closing(state, id).Success?
    ensures var closed, result := Closing(state, id).value, LiveProgression.ResultFor(state, id);
            && closed.contestId == id && result.Some? && result.value.winnerId == closed.winnerEntrantId
            && closed.winnerEntrantId in state.resolved[id] && closed.status == state.contests[id].status
            && (closed.status.Completed? ==> state.contests[id].scores.Some?
                                             && HigherScore(state.contests[id].scores.value, closed.winnerEntrantId))
  {
    var contest := state.contests[id];
    if contest.status.Completed? {
      SortKeepsElements(contest.scores.GetOr([]), ScoreLeq);
      assert contest.scores.Some?;
      WinnersAgree(contest, state.resolved[id]);
      var scores := SortBy(contest.scores.value, ScoreLeq);
      assert Closing(state, id).value.winnerEntrantId
          == if scores[0].value > scores[1].value then scores[0].entrantId else scores[1].entrantId;
    }
  }

  lemma {:induction false} SettledEach(state: LiveState, ids: seq<string>)
    requires forall id | id in ids :: Closing(state, id).Success?
    ensures |Settled(state, ids)| == |ids|
    ensures forall i | 0 <= i < |ids| :: Closing(state, ids[i]) == Success(Settled(state, ids)[i])
  {
    if ids != [] {
      assert ids == ids[..|ids| - 1] + [ids[|ids| - 1]];
      SettledEach(state, ids[..|ids| - 1]);
    }
  }

  function Count(results: seq<ClosedResult>, status: ContestStatus): nat {
    |Filter(results, (r: ClosedResult) => r.status == status)|
  }

  lemma {:induction false} CountsAddUp(results: seq<ClosedResult>)
    requires forall r | r in results :: LiveProgression.Terminal(r.status)
    ensures Count(results, Completed) + Count(results, Walkover) + Count(results, Retired) == |results|
  {
    if results != [] { CountsAddUp(results[1..]); }
  }

  /** Before sorting, result `i` is the one of contest `i`. */
  lemma SettledInOrder(state: LiveState)
    requires !Blocked(state)
    ensures var settled := Settled(state, Ids(state));
            && Map(settled, (r: ClosedResult) => r.contestId) == Ids(state)
            && forall r | r in settled :: Closing(state, r.contestId) == Success(r)
  {
    var ids := Ids(state);
    var settled := Settled(state, ids);
    SettledEach(state, ids);
    forall i | 0 <= i < |ids| ensures settled[i].contestId == ids[i] { ClosedWinnerIsProgressionWinner(state, ids[i]); }
    assert Map(settled, (r: ClosedResult) => r.contestId) == ids;
    forall r | r in settled ensures Closing(state, r.contestId) == Success(r) {
      var i :| 0 <= i < |settled| && settled[i] == r;
    }
  }

  lemma ResultsAre(state: LiveState)
    requires !Blocked(state)
    ensures multiset(Map(Results(state), (r: ClosedResult) => r.contestId)) == multiset(Ids(state))
    ensures |Results(state)| == |state.definitions|
    ensures SortedBy(Results(state), ResultLeq)
    ensures forall r | r in Results(state) :: Closing(state, r.contestId) == Success(r)
  {
    var settled := Settled(state, Ids(state));
    SettledInOrder(state);
    SortKeepsElements(settled, ResultLeq);
    SortKeepsImages(settled, ResultLeq, (r: ClosedResult) => r.contestId);
    ResultOrder();
    SortSorts(settled, ResultLeq);
  }

  lemma ResultOrder()
    ensures TotalPreorder(ResultLeq)
  {
    forall x: ClosedResult, y: ClosedResult ensures ResultLeq(x, y) || ResultLeq(y, x) { StringLeqTotal(x.contestId, y.contestId); }
    forall x: ClosedResult, y: ClosedResult, z: ClosedResult | ResultLeq(x, y) && ResultLeq(y, z) ensures ResultLeq(x, z) {
      StringLeqTransitive(x.contestId, y.contestId, z.contestId);
    }
  }

  /**
   * When the competition can close, every contest is settled once, under the winner that progression used, and the
   * completed contests, walkovers and retirements add up to all of them.
   */
  lemma EveryContestSettledOnce(state: LiveState)
    requires !Blocked(state)
    ensures var results := Results(state);
            && multiset(Map(results, (r: ClosedResult) => r.contestId)) == multiset(Ids(state))
            && Count(results, Completed) + Count(results, Walkover) + Count(results, Retired)
               == |results| == |state.definitions|
            && forall r | r in results ::
                 var play := LiveProgression.ResultFor(state, r.contestId);
                 play.Some? && play.value.winnerId == r.winnerEntrantId
  {
    ResultsAre(state);
    forall r | r in Results(state)
      ensures LiveProgression.Terminal(r.status)
      ensures var play := LiveProgression.ResultFor(state, r.contestId); play.Some? && play.value.winnerId == r.winnerEntrantId
    {
      ClosedWinnerIsProgressionWinner(state, r.contestId);
    }
    CountsAddUp(Results(state));
  }

  // ---------------------------------------------------------------- the closure and its verification

  const ACKNOWLEDGEMENTS: seq<string> :=
    ["FINAL_RESULTS_REVIEWED", "OPEN_DISPUTES_RESOLVED", "MANUAL_RECORDS_RECONCILED", "DELIVERY_EVIDENCE_REVIEWED"]

  datatype Dispute = Dispute(id: string, pending: bool)

  datatype Evidence = Evidence(
    messageId: string, status: string, attempts: nat, providerId: Option<string>, providerMessageId: Option<string>)

  /** The hashes of everything the closure rests on. */
  datatype Authority = Authority(hashes: map<string, string>)

  datatype Summary = Summary(total: nat, completed: nat, walkovers: nat, retirements: nat)

  datatype Body = Body(
    organizationId: string, competitionId: string, publishedRevision: nat, operationalRevision: nat, liveVersion: nat,
    closedBy: string, closedAt: Stamp, acknowledgedCodes: seq<string>, summary: Summary, results: seq<ClosedResult>,
    evidence: seq<Evidence>, authority: Authority)

  datatype Digest = Digest(body: Body)

  datatype Closed = Closed(body: Body, closureHash: Digest)

  datatype Request = Request(
    organizationId: string, competitionId: string, publishedRevision: nat, operationalRevision: nat,
    closedBy: string, closedAt: Stamp, acknowledgedCodes: seq<string>, evidence: seq<Evidence>)

  /** What a closure is derived from besides the request. */
  datatype Records = Records(live: LiveState, disputes: seq<Dispute>, mode: OperationalSafety.Mode, authority: Authority)

  datatype CloseError =
    | InvalidIdentity | TimestampMustBeCanonical | AcknowledgementsMismatch | OperationalModeNotNormal | OpenDisputes | ResultsUnresolved

  predicate EvidenceLeq(a: Evidence, b: Evidence) {
    StringLeq(a.messageId, b.messageId)
  }

  predicate ExactAcknowledgements(codes: seq<string>) {
    SortedUnique(codes) == SortBy(ACKNOWLEDGEMENTS, StringLeq)
  }

  function Refusal(request: Request, records: Records): Option<CloseError> {
    if !NonBlank(request.organizationId) || !NonBlank(request.competitionId) || !NonBlank(request.closedBy) then Some(InvalidIdentity)
    else if !request.closedAt.Canonical? then Some(TimestampMustBeCanonical)
    else if !ExactAcknowledgements(request.acknowledgedCodes) then Some(AcknowledgementsMismatch)
    else if !records.mode.Normal? then Some(OperationalModeNotNormal)
    else if exists d :: d in records.disputes && d.pending then Some(OpenDisputes)
    else if Blocked(records.live) then Some(ResultsUnresolved)
    else None
  }

  function BodyOf(request: Request, records: Records): Body {
    var results := Results(records.live);
    Body(request.organizationId, request.competitionId, request.publishedRevision, request.operationalRevision,
         records.live.version, request.closedBy, request.closedAt, ACKNOWLEDGEMENTS,
         Summary(|results|, Count(results, Completed), Count(results, Walkover), Count(results, Retired)),
         results, SortBy(request.evidence, EvidenceLeq), records.authority)
  }

  function Derive(request: Request, records: Records): Result<Closed, CloseError> {
    var refusal := Refusal(request, records);
    if refusal.Some? then Failure(refusal.value)
    else Success(Closed(BodyOf(request, records), Digest(BodyOf(request, records))))
  }

  function RequestOf(c: Closed): Request {
    Request(c.body.organizationId, c.body.competitionId, c.body.publishedRevision, c.body.operationalRevision,
            c.body.closedBy, c.body.closedAt, c.body.acknowledgedCodes, c.body.evidence)
  }

  predicate Verify(c: Closed, records: Records) {
    Derive(RequestOf(c), records) == Success(c)
  }

  lemma AcknowledgementsAreExact()
    ensures ExactAcknowledgements(ACKNOWLEDGEMENTS)
  {
    assert Distinct(ACKNOWLEDGEMENTS) by {
      assert ACKNOWLEDGEMENTS[0][0] == 'F' && ACKNOWLEDGEMENTS[1][0] == 'O';
      assert ACKNOWLEDGEMENTS[2][0] == 'M' && ACKNOWLEDGEMENTS[3][0] == 'D';
    }
    DedupeOfDistinct(ACKNOWLEDGEMENTS);
  }

  lemma EvidenceOrder()
    ensures TotalPreorder(EvidenceLeq)
  {
    forall x: Evidence, y: Evidence ensures EvidenceLeq(x, y) || EvidenceLeq(y, x) { StringLeqTotal(x.messageId, y.messageId); }
    forall x: Evidence, y: Evidence, z: Evidence | EvidenceLeq(x, y) && EvidenceLeq(y, z) ensures EvidenceLeq(x, z) {
      StringLeqTransitive(x.messageId, y.messageId, z.messageId);
    }
  }

  lemma EvidenceSortedTwice(evidence: seq<Evidence>)
    ensures SortBy(SortBy(evidence, EvidenceLeq), EvidenceLeq) == SortBy(evidence, EvidenceLeq)
  {
    EvidenceOrder();
    SortSorts(evidence, EvidenceLeq);
    SortOfSorted(SortBy(evidence, EvidenceLeq), EvidenceLeq);
  }

  lemma SameRefusal(request: Request, records: Records)
    requires Refusal(request, records).None?
    ensures Refusal(RequestOf(Closed(BodyOf(request, records), Digest(BodyOf(request, records)))), records).None?
  {
    AcknowledgementsAreExact();
  }

  lemma SameBody(request: Request, records: Records)
    ensures BodyOf(RequestOf(Closed(BodyOf(request, records), Digest(BodyOf(request, records)))), records) == BodyOf(request, records)
  {
    EvidenceSortedTwice(request.evidence);
  }

  /** Verification accepts exactly the closures that some request derives from the same records. */
  lemma VerifiedIffDerived(c: Closed, records: Records)
    ensures Verify(c, records) <==> exists request :: Derive(request, records) == Success(c)
  {
    if request :| Derive(request, records) == Success(c) {
      SameRefusal(request, records);
      SameBody(request, records);
    }
  }
}
