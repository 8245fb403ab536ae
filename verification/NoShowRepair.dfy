/** Settling an absent entrant's contests as walkovers, with the announced slots kept or released. */
module NoShowRepair {
  import opened Wrappers
  import opened Lists
  import opened Ordering
  import opened Sorting
  import opened SortedSets
  import opened Timestamps
  import opened Texts
  import opened LiveModel

  datatype Request = Request(
    proposalId: string, contestId: string, entrantId: string, reason: string, proposedBy: string, proposedAt: Stamp)

  datatype ProposalError =
    | InvalidRequest | InvalidContestOrEntrant | RequiresScheduledContest | StaleTimestamp | ConflictsWithPlayInProgress
    | CannotSettle | CommandRejected

  // ---------------------------------------------------------------- commands to the record of play

  predicate Audited(request: Request) {
    NonBlank(request.reason) && NonBlank(request.proposedBy) && request.proposedAt.Canonical?
  }

  predicate KnownEntrant(state: LiveState, entrantId: string) {
    exists d :: d in state.definitions && entrantId in d.entrantIds
  }

  function Entrants(state: LiveState, id: string): seq<string> {
    if id in state.resolved then state.resolved[id] else []
  }

  /** The contest is defined, and its entrants are known if it needs them resolved. */
  predicate Playable(state: LiveState, id: string) {
    var definition := DefinitionOf(state.definitions, id);
    definition.Some? && (definition.value.requiresResolution ==> id in state.resolved)
  }

  function DeclareNoShow(state: LiveState, request: Request): Result<LiveState, ProposalError> {
    if Audited(request) && KnownEntrant(state, request.entrantId) && Playable(state, request.contestId)
       && request.entrantId in Entrants(state, request.contestId)
    then Success(state.(presence := state.presence[request.entrantId := NoShow], version := state.version + 1))
    else Failure(CommandRejected)
  }

  function Withdraw(state: LiveState, request: Request): Result<LiveState, ProposalError> {
    if Audited(request) && KnownEntrant(state, request.entrantId)
    then Success(state.(presence := state.presence[request.entrantId := Withdrawn], version := state.version + 1))
    else Failure(CommandRejected)
  }

  function WalkoverOf(winner: string, absent: string): Contest {
    Contest(Walkover, None, None, Some(winner), Some(absent), None, None, None)
  }

  function AwardWalkover(state: LiveState, request: Request, id: string, winner: string): Result<LiveState, ProposalError> {
    var absent := request.entrantId;
    if Audited(request) && Playable(state, id) && id in state.contests && state.contests[id].status.Scheduled?
       && winner != absent && winner in Entrants(state, id) && absent in Entrants(state, id)
       && absent in state.presence && (state.presence[absent].NoShow? || state.presence[absent].Withdrawn?)
    then Success(state.(contests := state.contests[id := WalkoverOf(winner, absent)], version := state.version + 1))
    else Failure(CommandRejected)
  }

  /** Each contest in turn is awarded to the absent entrant's opponent. */
  function AwardAll(state: LiveState, request: Request, ids: seq<string>): Result<LiveState, ProposalError> {
    if ids == [] then Success(state)
    else
      var before := AwardAll(state, request, ids[..|ids| - 1]);
      if before.Failure? then before
      else
        var id := ids[|ids| - 1];
        var winner := Opponent(Entrants(before.value, id), request.entrantId);
        if winner.None? then Failure(CommandRejected) else AwardWalkover(before.value, request, id, winner.value)
  }

  function Proposed(base: LiveState, request: Request, walkoverIds: seq<string>): Result<LiveState, ProposalError> {
    var declared := DeclareNoShow(base, request);
    if declared.Failure? then declared
    else
      var withdrawn := Withdraw(declared.value, request);
      if withdrawn.Failure? then withdrawn else AwardAll(withdrawn.value, request, walkoverIds)
  }

  method ProposedState(base: LiveState, request: Request, walkoverIds: seq<string>) returns (r: Result<LiveState, ProposalError>)
    ensures r == Proposed(base, request, walkoverIds)
  {
    r := DeclareNoShow(base, request);
    if r.Failure? { return; }
    r := Withdraw(r.value, request);
    if r.Failure? { return; }
    ghost var withdrawn := r.value;
    for i := 0 to |walkoverIds|
      invariant r.Success? && r == AwardAll(withdrawn, request, walkoverIds[..i])
    {
      assert walkoverIds[..i + 1][..i] == walkoverIds[..i];
      var id := walkoverIds[i];
      var winner := Opponent(Entrants(r.value, id), request.entrantId);
      if winner.None? {
        r := Failure(CommandRejected);
      } else {
        r := AwardWalkover(r.value, request, id, winner.value);
      }
      if r.Failure? {
        AwardingStopped(withdrawn, request, walkoverIds, i + 1);
        return;
      }
    }
    assert walkoverIds[..|walkoverIds|] == walkoverIds;
  }

  lemma {:induction false} AwardingStopped(state: LiveState, request: Request, ids: seq<string>, k: nat)
    requires k <= |ids| && AwardAll(state, request, ids[..k]).Failure?
    ensures AwardAll(state, request, ids) == AwardAll(state, request, ids[..k])
  {
    if k < |ids| {
      assert ids[..|ids| - 1][..k] == ids[..k];
      AwardingStopped(state, request, ids[..|ids| - 1], k);
    } else {
      assert ids[..k] == ids;
    }
  }

  // ---------------------------------------------------------------- the proposal

  predicate Settles(base: LiveState, entrantId: string, id: string) {
    && id in base.resolved && |base.resolved[id]| == 2 && entrantId in base.resolved[id]
    && id in base.contests && base.contests[id].status.Scheduled?
  }

  function DirectWalkovers(base: LiveState, entrantId: string): seq<string> {
    SortBy(Map(Filter(base.definitions, (d: Definition) => Settles(base, entrantId, d.contestId)), (d: Definition) => d.contestId),
           StringLeq)
  }

  function Refusal(base: LiveState, lastEventAt: Option<int>, request: Request): Option<ProposalError> {
    if !(NonBlank(request.proposalId) && Audited(request)) then Some(InvalidRequest)
    else if DefinitionOf(base.definitions, request.contestId).None? || request.entrantId !in Entrants(base, request.contestId)
    then Some(InvalidContestOrEntrant)
    else if !(request.contestId in base.contests && base.contests[request.contestId].status.Scheduled?)
    then Some(RequiresScheduledContest)
    else if lastEventAt.Some? && lastEventAt.value > request.proposedAt.ms then Some(StaleTimestamp)
    else if exists d :: d in base.definitions && request.entrantId in d.entrantIds
                        && d.contestId in base.contests && base.contests[d.contestId].status.InProgress?
    then Some(ConflictsWithPlayInProgress)
    else if request.contestId !in DirectWalkovers(base, request.entrantId) then Some(CannotSettle)
    else None
  }

  function Propose(base: LiveState, lastEventAt: Option<int>, request: Request): Result<LiveState, ProposalError> {
    var refusal := Refusal(base, lastEventAt, request);
    if refusal.Some? then Failure(refusal.value) else Proposed(base, request, DirectWalkovers(base, request.entrantId))
  }

  /** What the engine keeps true of every record: each contest is defined once, and resolved to some of its entrants. */
  ghost predicate EngineValid(state: LiveState) {
    && Distinct(Map(state.definitions, (d: Definition) => d.contestId))
    && forall id | id in state.resolved ::
         var definition := DefinitionOf(state.definitions, id);
         && definition.Some? && Distinct(state.resolved[id])
         && forall e | e in state.resolved[id] :: e in definition.value.entrantIds
  }

  /** The record once these contests are walkovers against the absent entrant. */
  function Settled(base: LiveState, request: Request, ids: seq<string>): LiveState {
    var contests := map id | id in base.contests ::
      if id in ids then WalkoverOf(Opponent(Entrants(base, id), request.entrantId).GetOr(""), request.entrantId) else base.contests[id];
    base.(contests := contests, presence := base.presence[request.entrantId := Withdrawn], version := base.version + 2 + |ids|)
  }

  lemma OpponentIsOther(entrants: seq<string>, entrantId: string)
    requires |entrants| == 2 && Distinct(entrants) && entrantId in entrants
    ensures var other := Opponent(entrants, entrantId);
            other.Some? && other.value in entrants && other.value != entrantId
  {
    assert Opponent(entrants[1..], entrantId) == if entrants[1] != entrantId then Some(entrants[1]) else Opponent(entrants[1..][1..], entrantId);
  }

  lemma SettledOneMore(base: LiveState, request: Request, front: seq<string>, id: string)
    requires id in base.contests && id !in front
    ensures var next := Settled(base, request, front + [id]);
            var winner := Opponent(Entrants(base, id), request.entrantId).GetOr("");
            next == Settled(base, request, front).(
              contests := Settled(base, request, front).contests[id := WalkoverOf(winner, request.entrantId)],
              version := base.version + 2 + |front| + 1)
  {
    var next := Settled(base, request, front + [id]);
    var winner := Opponent(Entrants(base, id), request.entrantId).GetOr("");
    assert forall other :: other in front + [id] <==> other in front || other == id;
    assert next.contests == Settled(base, request, front).contests[id := WalkoverOf(winner, request.entrantId)];
  }

  lemma AwardOneMore(base: LiveState, request: Request, front: seq<string>, id: string)
    requires EngineValid(base) && Audited(request) && Settles(base, request.entrantId, id) && id !in front
    ensures var winner := Opponent(Entrants(base, id), request.entrantId);
            winner.Some? && AwardWalkover(Settled(base, request, front), request, id, winner.value)
                            == Success(Settled(base, request, front + [id]))
  {
    OpponentIsOther(base.resolved[id], request.entrantId);
    assert DefinitionOf(base.definitions, id).Some?;
    SettledOneMore(base, request, front, id);
  }

  lemma {:induction false} AwardAllSettles(base: LiveState, request: Request, ids: seq<string>, withdrawn: LiveState)
    requires EngineValid(base) && Audited(request) && Distinct(ids)
    requires forall id | id in ids :: Settles(base, request.entrantId, id)
    requires withdrawn == base.(presence := base.presence[request.entrantId := Withdrawn], version := base.version + 2)
    ensures AwardAll(withdrawn, request, ids) == Success(Settled(base, request, ids))
  {
    if ids == [] {
      assert Settled(base, request, ids).contests == base.contests;
    } else {
      var front, id := ids[..|ids| - 1], ids[|ids| - 1];
      assert ids == front + [id];
      AwardAllSettles(base, request, front, withdrawn);
      AwardOneMore(base, request, front, id);
    }
  }

  lemma WalkoversSettle(base: LiveState, entrantId: string)
    requires EngineValid(base)
    ensures Distinct(DirectWalkovers(base, entrantId))
    ensures forall id :: id in DirectWalkovers(base, entrantId) <==> Settles(base, entrantId, id)
  {
    var id := (d: Definition) => d.contestId;
    var settled := Filter(base.definitions, (d: Definition) => Settles(base, entrantId, d.contestId));
    FilterKeepsDistinct(base.definitions, (d: Definition) => Settles(base, entrantId, d.contestId), id);
    SortKeepsElements(Map(settled, id), StringLeq);
    SortKeepsDistinct(Map(settled, id), StringLeq);
    assert DirectWalkovers(base, entrantId) == SortBy(Map(settled, id), StringLeq);
    forall contestId ensures contestId in DirectWalkovers(base, entrantId) <==> Settles(base, entrantId, contestId) {
      if contestId in Map(settled, id) {
        var i :| 0 <= i < |settled| && Map(settled, id)[i] == contestId;
        assert settled[i] in settled;
      }
      if Settles(base, entrantId, contestId) {
        var d := DefinitionOf(base.definitions, contestId).value;
        assert d in settled;
        var i :| 0 <= i < |settled| && settled[i] == d;
        assert Map(settled, id)[i] == contestId;
      }
    }
  }

  /**
   * A proposal is never rejected by the record of play once its own checks pass. It settles exactly the contests
   * that wait to start with the absent entrant in their pair, for the opponent; withdraws the entrant; and leaves
   * every other contest, and every resolution, as it was.
   */
  lemma ProposalSettlesExactlyTheWalkovers(base: LiveState, lastEventAt: Option<int>, request: Request)
    requires EngineValid(base) && Refusal(base, lastEventAt, request).None?
    ensures Propose(base, lastEventAt, request).Success?
    ensures var state := Propose(base, lastEventAt, request).value;
            && state == Settled(base, request, DirectWalkovers(base, request.entrantId))
            && state.presence == base.presence[request.entrantId := Withdrawn] && state.resolved == base.resolved
            && state.contests.Keys == base.contests.Keys
            && forall id | id in base.contests ::
                 if Settles(base, request.entrantId, id)
                 then exists winner :: winner in base.resolved[id] && winner != request.entrantId
                                       && state.contests[id] == WalkoverOf(winner, request.entrantId)
                 else state.contests[id] == base.contests[id]
  {
    ProposalSettles(base, lastEventAt, request);
    WalkoversSettle(base, request.entrantId);
    forall id | id in base.contests && Settles(base, request.entrantId, id)
      ensures exists winner :: winner in base.resolved[id] && winner != request.entrantId
                && Settled(base, request, DirectWalkovers(base, request.entrantId)).contests[id]
                   == WalkoverOf(winner, request.entrantId)
    {
      OpponentIsOther(base.resolved[id], request.entrantId);
      assert Opponent(Entrants(base, id), request.entrantId).value in base.resolved[id];
    }
  }

  lemma ProposalSettles(base: LiveState, lastEventAt: Option<int>, request: Request)
    requires EngineValid(base) && Refusal(base, lastEventAt, request).None?
    ensures Propose(base, lastEventAt, request) == Success(Settled(base, request, DirectWalkovers(base, request.entrantId)))
  {
    ProposalIsAudited(base, lastEventAt, request);
    AuditedRequest(base, lastEventAt, request);
    ProposedSettles(base, request);
  }

  lemma AuditedRequest(base: LiveState, lastEventAt: Option<int>, request: Request)
    requires Refusal(base, lastEventAt, request).None?
    ensures Audited(request)
  {
  }

  lemma ProposedSettles(base: LiveState, request: Request)
    requires EngineValid(base) && Audited(request)
    requires DeclareNoShow(base, request).Success? && Withdraw(DeclareNoShow(base, request).value, request).Success?
    ensures Proposed(base, request, DirectWalkovers(base, request.entrantId))
            == Success(Settled(base, request, DirectWalkovers(base, request.entrantId)))
  {
    WalkoversSettle(base, request.entrantId);
    var withdrawn := Withdraw(DeclareNoShow(base, request).value, request).value;
    assert withdrawn.presence == base.presence[request.entrantId := Withdrawn];
    AwardAllSettles(base, request, DirectWalkovers(base, request.entrantId), withdrawn);
  }

  lemma ProposalIsAudited(base: LiveState, lastEventAt: Option<int>, request: Request)
    requires EngineValid(base) && Refusal(base, lastEventAt, request).None?
    ensures DeclareNoShow(base, request).Success? && Withdraw(DeclareNoShow(base, request).value, request).Success?
  {
    assert request.contestId in base.resolved;
    var d := DefinitionOf(base.definitions, request.contestId).value;
    assert d in base.definitions && request.entrantId in d.entrantIds;
    assert KnownEntrant(base, request.entrantId);
  }

  /** Somebody named asks for it, with a reason, at an instant no earlier than the latest event of play. */
  predicate Asked(request: Request, lastEventAt: Option<int>) {
    && NonBlank(request.proposalId) && NonBlank(request.reason) && NonBlank(request.proposedBy)
    && request.proposedAt.Canonical? && (lastEventAt.Some? ==> lastEventAt.value <= request.proposedAt.ms)
  }

  /** The entrant is one of the two of a contest that waits to start. */
  predicate WaitsFor(base: LiveState, id: string, entrantId: string) {
    && id in base.contests && base.contests[id].status.Scheduled?
    && id in base.resolved && |base.resolved[id]| == 2 && entrantId in base.resolved[id]
  }

  predicate PlaysNow(base: LiveState, entrantId: string) {
    exists d :: d in base.definitions && entrantId in d.entrantIds
                && d.contestId in base.contests && base.contests[d.contestId].status.InProgress?
  }

  /** A no-show is proposed exactly when it is properly asked for, of an entrant whom a contest waits for and who plays no other. */
  lemma ProposalAcceptedIff(base: LiveState, lastEventAt: Option<int>, request: Request)
    requires EngineValid(base)
    ensures Propose(base, lastEventAt, request).Success? <==>
              && Asked(request, lastEventAt) && WaitsFor(base, request.contestId, request.entrantId)
              && !PlaysNow(base, request.entrantId)
  {
    WalkoversSettle(base, request.entrantId);
    NotRefusedIff(base, lastEventAt, request);
    if Refusal(base, lastEventAt, request).None? { ProposalSettles(base, lastEventAt, request); }
  }

  lemma NotRefusedIff(base: LiveState, lastEventAt: Option<int>, request: Request)
    requires forall id | id in base.resolved :: DefinitionOf(base.definitions, id).Some?
    requires request.contestId in DirectWalkovers(base, request.entrantId) <==> Settles(base, request.entrantId, request.contestId)
    ensures Refusal(base, lastEventAt, request).None? <==>
              && Asked(request, lastEventAt) && WaitsFor(base, request.contestId, request.entrantId)
              && !PlaysNow(base, request.entrantId)
  {
  }
}
