/** Exactly when each step of the journey is accepted, said of the record and the request alone. */
module JourneyRules {
  import opened Wrappers
  import opened Timestamps
  import opened Texts
  import opened LiveModel
  import LiveProgression
  import OperationalSafety
  import SortedSets
  import opened JourneyRecord
  import opened JourneyRuns

  // ---------------------------------------------------------------- drafts and publication

  /** The same codes, however often and in whatever order they are listed. */
  predicate SameCodes(given: seq<string>, required: seq<string>) {
    (forall code | code in given :: code in required) && forall code | code in required :: code in given
  }

  lemma ExactCodesIff(given: seq<string>, required: seq<string>)
    ensures ExactCodes(given, required) <==> SameCodes(given, required)
  {
    SortedSets.SortedUniqueIff(given, required);
    if SameCodes(given, required) { assert forall x :: x in given <==> x in required; }
  }

  /** A draft is edited, or compiled once it is ready, exactly at its current version and before it is approved. */
  lemma DraftStepsAcceptedIff(r: Record, edit: Edit, version: nat, ready: bool, compilation: Compilation)
    ensures EditDraft(r, edit, version).Success? <==> r.draftVersion == version && r.approval.None?
    ensures Compile(r, version, ready, compilation).Success? <==> r.draftVersion == version && r.approval.None? && ready
  {
  }

  /**
   * A compiled revision is approved exactly when it is the expected one, its guard passes now with the report it was
   * compiled with, every acknowledgement it requires and no other is given, and the approver is neither its compiler nor
   * the publisher.
   */
  lemma ApproveAcceptedIff(r: Record, revision: nat, approvedBy: string, codes: seq<string>, evaluated: Guard)
    ensures Approve(r, revision, approvedBy, codes, evaluated).Success? <==>
              && r.compiled.Some? && r.compiled.value.revision == revision && r.compiled.value.hasChangeSet
              && evaluated.passed && evaluated.reportHash == r.compiled.value.guard.reportHash
              && SameCodes(codes, evaluated.requiredCodes)
              && NonBlank(approvedBy) && approvedBy != r.compiled.value.compiledBy
              && (r.publication.None? ==> approvedBy != "competition-journey.publisher")
  {
    ExactCodesIff(codes, evaluated.requiredCodes);
  }

  /** A published revision is reopened exactly by a named requester, while nothing is played or closed. */
  lemma AmendAcceptedIff(r: Record, revision: nat, requestedBy: string)
    ensures Amend(r, revision, requestedBy).Success? <==>
              && r.closure.None? && r.live.None? && NonBlank(requestedBy) && r.approval.Some?
              && r.compiled.Some? && r.compiled.value.revision == revision
              && r.publication.Some? && r.publication.value.revision == revision
  {
  }

  /** Play starts exactly on the published revision, with valid authorities; starting it again must name the same revision. */
  lemma ActivateAcceptedIff(r: Record, revision: nat, actor: string, authorities: OperationalSafety.Assignments, initial: LiveState)
    ensures ActivateLive(r, revision, actor, authorities, initial).Success? <==>
              && r.closure.None? && NonBlank(actor)
              && r.compiled.Some? && r.compiled.value.revision == revision
              && r.publication.Some? && r.publication.value.revision == revision
              && (r.live.Some? ==> r.live.value.baseRevision == revision)
              && (r.live.None? ==> OperationalSafety.ValidAuthority(authorities))
  {
  }

  // ---------------------------------------------------------------- live commands

  /** The record is in play, and this is the revision in force: the one published live, or else the published one. */
  predicate InForce(r: Record, revision: nat) {
    && r.compiled.Some? && r.publication.Some? && r.live.Some?
    && revision == (match r.live.value.publication case Some(p) => p.revision case None => r.publication.value.revision)
  }

  predicate PlayIsOn(mode: OperationalSafety.Mode) {
    mode.Normal? || mode.Degraded?
  }

  /**
   * A live command is accepted exactly when the record is open and at the expected revision, calls and starts come while
   * play is on, no entrants are resolved by hand, a decided tie is open, the engine takes it, and play can be progressed.
   */
  lemma LiveCommandAcceptedIff(r: Record, revision: nat, command: LiveCommand, competition: LiveProgression.Competition,
                               delivery: seq<string>)
    ensures SubmitLiveCommand(r, revision, command, competition, delivery).Success? <==>
              && r.closure.None? && InForce(r, revision)
              && (command.callsOrStarts ==> PlayIsOn(r.live.value.operations.body.mode))
              && !command.resolvesEntrants && command.tieOpen && command.outcome.Some?
              && (!command.outcome.value.0 ==>
                    command.rosterKnown
                    && LiveProgression.Advance(competition, command.outcome.value.1, command.occurredAt).Success?)
  {
  }

  /** The mode stands in the way of a live command exactly when that calls or starts a contest while play is not on. */
  lemma ModeBlocksIff(r: Record, revision: nat, command: LiveCommand, competition: LiveProgression.Competition, delivery: seq<string>)
    ensures SubmitLiveCommand(r, revision, command, competition, delivery) == Failure(ModeBlocksCommand) <==>
              r.closure.None? && InForce(r, revision) && command.callsOrStarts && !PlayIsOn(r.live.value.operations.body.mode)
  {
  }

  /** Over every run, a call or start that changes the stored play comes while play is on. */
  lemma CallsComeWhilePlayIsOn(authorities: OperationalSafety.Assignments, id: string, organizationId: string, steps: seq<Step>, k: nat)
    requires k < |steps| && steps[k].LiveStep? && steps[k].live.callsOrStarts
    requires var before := After(authorities, Create(id, organizationId), steps[..k]);
             After(authorities, Create(id, organizationId), steps[..k + 1]) != before
    ensures var before := After(authorities, Create(id, organizationId), steps[..k]);
            before.live.Some? && PlayIsOn(before.live.value.operations.body.mode)
  {
    var before, step := After(authorities, Create(id, organizationId), steps[..k]), steps[k];
    assert steps[..k + 1][..k] == steps[..k];
    assert Apply(authorities, before, step).Success?;
    LiveCommandAcceptedIff(before, step.expectedRevision, step.live, step.competition, step.delivery);
  }

  /** An operational command is accepted exactly when the record is open, at the expected revision, and its log takes it. */
  lemma OperationalAcceptedIff(r: Record, revision: nat, command: OperationalSafety.Command, delivery: seq<string>)
    ensures SubmitOperationalCommand(r, revision, command, delivery).Success? <==>
              r.closure.None? && InForce(r, revision) && OperationalSafety.Submit(r.live.value.operations, command).accepted
  {
  }

  // ---------------------------------------------------------------- proposals and live publications

  predicate AtRevision(r: Record, revision: nat) {
    && r.compiled.Some? && r.compiled.value.revision == revision
    && r.publication.Some? && r.publication.value.revision == revision
    && r.live.Some? && r.live.value.baseRevision == revision
  }

  /** Live publications are held only by a stop or a cancellation. */
  predicate MayPublish(mode: OperationalSafety.Mode) {
    !mode.Stopped? && !mode.Cancelled?
  }

  /** Somebody other than the proposer and the publisher approves, no earlier than it was proposed. */
  predicate ApprovedIndependently(approvedBy: string, proposedBy: string, at: Stamp, proposedAt: Stamp) {
    && NonBlank(approvedBy) && approvedBy != proposedBy && approvedBy != "competition-journey.live-publisher"
    && at.Canonical? && (proposedAt.Canonical? ==> at.ms >= proposedAt.ms)
  }

  lemma ProposeNoShowAcceptedIff(r: Record, revision: nat, version: nat, request: NoShowRequest, options: Option<seq<NoShowOption>>)
    ensures ProposeNoShow(r, revision, version, request, options).Success? <==>
              && r.closure.None? && AtRevision(r, revision) && r.live.value.publication.None?
              && r.live.value.state.version == version && options.Some?
  {
  }

  /**
   * A no-show option is approved exactly unless play is stopped or cancelled, for the pending proposal, one of its options
   * and the play it started from, when its guards pass and somebody independent approves in time; or again, as before.
   */
  lemma ApproveNoShowAcceptedIff(r: Record, revision: nat, expected: NoShowProposal, option: NoShowOption, approvedBy: string,
                                 at: Stamp, delivery: seq<string>)
    ensures ApproveNoShow(r, revision, expected, option, approvedBy, at, delivery).Success? <==>
              && r.closure.None? && AtRevision(r, revision) && MayPublish(r.live.value.operations.body.mode)
              && r.live.value.proposal == Some(expected) && option in expected.options
              && match r.live.value.publication
                 case Some(p) => p.source == FromNoShow(expected, option) && p.approvedBy == approvedBy
                 case None => r.live.value.state == expected.base && option.guardsPass
                              && ApprovedIndependently(approvedBy, expected.proposedBy, at, expected.proposedAt)
  {
  }

  /** The contest an overrun names is in progress on a court, and its end is after both its plan and the proposal. */
  predicate OverrunFits(state: LiveState, request: ChangeRequest) {
    request.OverrunRequest? ==>
      && request.contestId in state.contests && state.contests[request.contestId].status.InProgress?
      && state.contests[request.contestId].actualCourtId.Some?
      && (request.until.Canonical? && request.proposedAt.Canonical? ==> request.until.ms > request.proposedAt.ms)
      && match DefinitionOf(state.definitions, request.contestId)
         case None => false
         case Some(d) => request.until.Canonical? ==> request.until.ms > d.scheduledEnd
  }

  /** A closure or overrun proposed again under its identity asks for the same, of the same play. */
  predicate AsksAgain(pending: ResourceProposal, state: LiveState, request: ChangeRequest) {
    && pending.base == state && pending.reason == request.reason && pending.until == request.until
    && pending.proposedBy == request.proposedBy && pending.proposedAt == request.proposedAt
    && (request.OutageRequest? ==> pending.courtId == request.courtId)
    && (request.OverrunRequest? ==> pending.kind.DelayOverrun? && pending.sourceContestId == Some(request.contestId))
  }

  lemma ProposeChangeAcceptedIff(r: Record, revision: nat, version: nat, request: ChangeRequest, approved: Option<LiveState>)
    ensures ProposeResourceChange(r, revision, version, request, approved).Success? <==>
              && r.closure.None? && InForce(r, revision) && r.live.value.state.version == version
              && OverrunFits(r.live.value.state, request)
              && if r.live.value.change.Some? && r.live.value.change.value.id == request.id
                 then AsksAgain(r.live.value.change.value, r.live.value.state, request) else approved.Some?
  {
  }

  /** A closure or overrun is approved on the same terms, for the revision it started from; or again, by the same approver. */
  lemma ApproveChangeAcceptedIff(r: Record, revision: nat, expected: ResourceProposal, kind: ChangeKind, approvedBy: string,
                                 at: Stamp, regenerates: bool, delivery: seq<string>)
    ensures ApproveResourceChange(r, revision, expected, kind, approvedBy, at, regenerates, delivery).Success? <==>
              && r.closure.None? && InForce(r, revision) && MayPublish(r.live.value.operations.body.mode)
              && r.live.value.change == Some(expected) && expected.kind == kind
              && if r.live.value.publication.Some? && r.live.value.publication.value.source == FromChange(expected)
                 then r.live.value.publication.value.approvedBy == approvedBy
                 else expected.baseOperationalRevision == revision && expected.base == r.live.value.state && regenerates
                      && ApprovedIndependently(approvedBy, expected.proposedBy, at, expected.proposedAt)
  {
  }

  // ---------------------------------------------------------------- closing

  /** The closer approved neither the published plan nor the live publication in force. */
  predicate ClosesIndependently(r: Record, closedBy: string) {
    && NonBlank(closedBy) && closedBy != "competition-journey.publisher"
    && (r.approval.Some? ==> r.approval.value.approvedBy != closedBy)
    && (r.live.Some? && r.live.value.publication.Some? ==> r.live.value.publication.value.approvedBy != closedBy)
  }

  /** The competition was closed by this request before. */
  predicate ClosesAgain(r: Record, request: CloseRequest) {
    r.closure.Some? &&
    var body := r.closure.value.body;
    && body.publishedRevision == request.expectedPublishedRevision && body.operationalRevision == request.expectedOperationalRevision
    && body.liveVersion == request.expectedLiveVersion && body.closedBy == request.closedBy
    && SameCodes(body.acknowledgedCodes, request.codes)
  }

  /**
   * A competition is closed exactly at the revisions and version that are expected, by somebody independent, when its logs
   * verify, its guard still passes with the same report, no fact is later than now, and its results can be closed.
   */
  lemma CloseAcceptedIff(r: Record, request: CloseRequest, evidence: Evidence)
    ensures CloseCompetition(r, request, evidence).Success? <==>
              if r.closure.Some? then ClosesAgain(r, request)
              else
                && InForce(r, request.expectedOperationalRevision) && ClosesIndependently(r, request.closedBy)
                && r.publication.value.revision == request.expectedPublishedRevision == r.live.value.baseRevision
                && r.live.value.state.version == request.expectedLiveVersion
                && evidence.replays && OperationalSafety.Verify(r.live.value.operations) == Success(true)
                && evidence.evaluated.passed && evidence.evaluated.reportHash == r.compiled.value.guard.reportHash
                && evidence.now >= evidence.latestFactAt && ClosureOf(r, request, evidence).Success?
  {
    if r.closure.Some? { ExactCodesIff(r.closure.value.body.acknowledgedCodes, request.codes); }
  }
}
