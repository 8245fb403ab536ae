/**
 * The authoritative record of one competition: its revisions, amendments, live publications, closure and
 * credentials, and what every step of the journey makes of it. Hashes are the values they are computed from.
 */
module JourneyRecord {
  import opened Wrappers
  import opened Timestamps
  import opened Texts
  import opened LiveModel
  import LiveProgression
  import OperationalSafety
  import Closure
  import Credentials
  import SortedSets

  /** What the competition guard says of a compiled plan. */
  datatype Guard = Guard(passed: bool, reportHash: string, requiredCodes: seq<string>)

  /** A compiled revision; `plan` stands for its specification, graph, schedule and simulation. */
  datatype Compiled = Compiled(revision: nat, compiledBy: string, plan: string, guard: Guard, hasChangeSet: bool)

  datatype Approval = Approval(revision: nat, approvedBy: string, codes: seq<string>)

  datatype Publication = Publication(revision: nat, plan: string, reportHash: string)

  datatype Base = Base(compiled: Compiled, approval: Approval, publication: Publication)

  datatype Amendment = Amendment(requestedBy: string, base: Base)

  datatype Superseded = Superseded(revision: nat, amendmentRequestedBy: string)

  datatype NoShowOption = NoShowOption(strategy: string, state: LiveState, guardsPass: bool)

  datatype NoShowRequest = NoShowRequest(id: string, proposedBy: string, proposedAt: Stamp)

  datatype NoShowProposal = NoShowProposal(
    id: string, base: LiveState, proposedBy: string, proposedAt: Stamp, options: seq<NoShowOption>)

  datatype ChangeKind = CourtOutage | DelayOverrun

  /** What an organiser asks for: a court closed until an instant, or a contest in progress there that overruns to one. */
  datatype ChangeRequest =
    | OutageRequest(id: string, courtId: string, reason: string, until: Stamp, proposedBy: string, proposedAt: Stamp)
    | OverrunRequest(id: string, contestId: string, reason: string, until: Stamp, proposedBy: string, proposedAt: Stamp)

  /** A court closure or an overrun with its repair; `approved` is the record of play once it is approved. */
  datatype ResourceProposal = ResourceProposal(
    id: string, kind: ChangeKind, courtId: string, sourceContestId: Option<string>, reason: string, until: Stamp,
    proposedBy: string, proposedAt: Stamp, baseOperationalRevision: nat, base: LiveState, approved: LiveState)

  datatype Source = FromNoShow(noShow: NoShowProposal, option: NoShowOption) | FromChange(change: ResourceProposal)

  datatype LivePublication = LivePublication(revision: nat, baseRevision: nat, source: Source, stateVersion: nat, approvedBy: string)

  datatype Live = Live(
    baseRevision: nat, state: LiveState, operations: OperationalSafety.State, publication: Option<LivePublication>,
    history: seq<LivePublication>, proposal: Option<NoShowProposal>, change: Option<ResourceProposal>, delivery: seq<string>)

  datatype Record = Record(
    id: string, organizationId: string, draftVersion: nat, compiled: Option<Compiled>, approval: Option<Approval>,
    publication: Option<Publication>, amendment: Option<Amendment>, publicationHistory: seq<Superseded>, live: Option<Live>,
    closure: Option<Closure.Closed>, vault: Credentials.Vault)

  datatype JourneyError =
    | NotFound | VersionConflict | RevisionConflict | ApprovedIsImmutable | NotReady | RequiresRecompile
    | RequiresIndependentActor | GuardBlocked | GuardReportMismatch | AcknowledgementsMismatch | CompetitionIsClosed
    | RequiresNoLivePlay | RequiresActor | BaseRevisionConflict | NotActivated | ModeBlocksCommand | ServerOwned | TieNotOpen
    | CommandRejected | RosterUnavailable | ProgressionFailed | AlreadyPublished | ModeBlocksPublication | ProposalMismatch
    | OptionNotFound | RequiresPlayInProgress | InvalidRequest | StaleProposal | InvalidApprovalTime | ReplayFailed
    | TimePrecedesTruth | NotClosable
    | CredentialsRefused(reason: Credentials.CredentialError)

  const PUBLISHER: string := "competition-journey.publisher"

  const LIVE_PUBLISHER: string := "competition-journey.live-publisher"

  function Create(id: string, organizationId: string): Record {
    Record(id, organizationId, 1, None, None, None, None, [], None, None, Credentials.Empty(organizationId, id))
  }

  // ---------------------------------------------------------------- drafts

  datatype Edit = Revise | OtherEdit

  /** Any change to the draft: nothing compiled survives, and revising the facts rebuilds the record from its draft parts. */
  function EditDraft(r: Record, edit: Edit, expectedDraftVersion: nat): Result<Record, JourneyError> {
    if r.draftVersion != expectedDraftVersion then Failure(VersionConflict)
    else if r.approval.Some? then Failure(ApprovedIsImmutable)
    else
      var draft := r.(draftVersion := r.draftVersion + 1, compiled := None, approval := None, publication := None);
      Success(if edit.Revise? then draft.(live := None, closure := None, vault := Credentials.Empty(r.organizationId, r.id)) else draft)
  }

  datatype Compilation = Compilation(compiledBy: string, plan: string, guard: Guard)

  function NextRevision(r: Record): nat {
    (if r.compiled.Some? then r.compiled.value.revision
     else if r.amendment.Some? then r.amendment.value.base.compiled.revision else 0) + 1
  }

  function Compile(r: Record, expectedDraftVersion: nat, ready: bool, outcome: Compilation): Result<Record, JourneyError> {
    if r.draftVersion != expectedDraftVersion then Failure(VersionConflict)
    else if !ready then Failure(NotReady)
    else if r.approval.Some? then Failure(ApprovedIsImmutable)
    else Success(r.(compiled := Some(Compiled(NextRevision(r), outcome.compiledBy, outcome.plan, outcome.guard, true))))
  }

  predicate ExactCodes(given: seq<string>, required: seq<string>) {
    SortedSets.SortedUnique(given) == SortedSets.SortedUnique(required)
  }

  /** Approval publishes the compiled revision, which replaces the one under amendment if there is one. */
  function Approve(r: Record, expectedRevision: nat, approvedBy: string, codes: seq<string>, evaluated: Guard): Result<Record, JourneyError> {
    if r.compiled.None? || r.compiled.value.revision != expectedRevision then Failure(RevisionConflict)
    else
      var compiled := r.compiled.value;
      if !compiled.hasChangeSet then Failure(RequiresRecompile)
      else if !NonBlank(approvedBy) || approvedBy == compiled.compiledBy then Failure(RequiresIndependentActor)
      else if !evaluated.passed then Failure(GuardBlocked)
      else if evaluated.reportHash != compiled.guard.reportHash then Failure(GuardReportMismatch)
      else if !ExactCodes(codes, evaluated.requiredCodes) then Failure(AcknowledgementsMismatch)
      else if r.publication.Some? then Success(r)
      else if approvedBy == PUBLISHER then Failure(RequiresIndependentActor)
      else Success(r.(
        approval := Some(Approval(compiled.revision, approvedBy, SortedSets.SortedUnique(codes))),
        publication := Some(Publication(compiled.revision, compiled.plan, evaluated.reportHash)),
        amendment := None,
        publicationHistory := r.publicationHistory
          + if r.amendment.Some?
            then [Superseded(r.amendment.value.base.publication.revision, r.amendment.value.requestedBy)] else []))
  }

  /** A published revision is reopened for a change before play. */
  function Amend(r: Record, expectedPublishedRevision: nat, requestedBy: string): Result<Record, JourneyError> {
    if r.closure.Some? then Failure(CompetitionIsClosed)
    else if r.live.Some? then Failure(RequiresNoLivePlay)
    else if r.compiled.None? || r.approval.None? || r.publication.None?
            || r.publication.value.revision != expectedPublishedRevision || r.compiled.value.revision != expectedPublishedRevision
    then Failure(RevisionConflict)
    else if !NonBlank(requestedBy) then Failure(RequiresActor)
    else Success(r.(
      draftVersion := r.draftVersion + 1, compiled := None, approval := None, publication := None,
      amendment := Some(Amendment(requestedBy, Base(r.compiled.value, r.approval.value, r.publication.value)))))
  }

  // ---------------------------------------------------------------- live play

  function OperationalRevision(r: Record): nat
    requires r.publication.Some?
  {
    if r.live.Some? && r.live.value.publication.Some? then r.live.value.publication.value.revision else r.publication.value.revision
  }

  predicate Projects(r: Record, expectedOperationalRevision: nat) {
    r.compiled.Some? && r.publication.Some? && r.live.Some? && OperationalRevision(r) == expectedOperationalRevision
  }

  function ActivateLive(r: Record, expectedRevision: nat, activatedBy: string, authorities: OperationalSafety.Assignments,
                        state: LiveState): Result<Record, JourneyError>
  {
    if r.closure.Some? then Failure(CompetitionIsClosed)
    else if r.compiled.None? || r.publication.None? || r.compiled.value.revision != expectedRevision
            || r.publication.value.revision != expectedRevision then Failure(RevisionConflict)
    else if !NonBlank(activatedBy) then Failure(RequiresActor)
    else if r.live.Some? then
      if r.live.value.baseRevision != expectedRevision then Failure(BaseRevisionConflict) else Success(r)
    else
      var operations := OperationalSafety.CreateState(authorities);
      if operations.Failure? then Failure(CommandRejected)
      else Success(r.(live := Some(Live(expectedRevision, state, operations.value, None, [], None, None, []))))
  }

  /** A live command with what the engine made of it: nothing, or a state and whether the command was a repeat. */
  datatype LiveCommand = LiveCommand(
    callsOrStarts: bool, resolvesEntrants: bool, tieOpen: bool, outcome: Option<(bool, LiveState)>, rosterKnown: bool, occurredAt: Stamp)

  predicate HoldsPlay(mode: OperationalSafety.Mode) {
    mode.Paused? || mode.Stopped? || mode.Recovering? || mode.Cancelled?
  }

  function LiveCommandRefusal(r: Record, expectedRevision: nat, command: LiveCommand): Option<JourneyError> {
    if r.closure.Some? then Some(CompetitionIsClosed)
    else if !Projects(r, expectedRevision) then Some(RevisionConflict)
    else if HoldsPlay(r.live.value.operations.body.mode) && command.callsOrStarts then Some(ModeBlocksCommand)
    else if command.resolvesEntrants then Some(ServerOwned)
    else if !command.tieOpen then Some(TieNotOpen)
    else if command.outcome.None? then Some(CommandRejected)
    else None
  }

  /** An accepted live command is followed by progression, in the same step. */
  ghost function SubmitLiveCommand(r: Record, expectedRevision: nat, command: LiveCommand, competition: LiveProgression.Competition,
                                   delivery: seq<string>): Result<Record, JourneyError>
  {
    var refusal := LiveCommandRefusal(r, expectedRevision, command);
    if refusal.Some? then Failure(refusal.value)
    else if command.outcome.value.0 then Success(r)
    else if !command.rosterKnown then Failure(RosterUnavailable)
    else
      var progress := LiveProgression.Advance(competition, command.outcome.value.1, command.occurredAt);
      if progress.Failure? then Failure(ProgressionFailed)
      else Success(r.(live := Some(r.live.value.(state := progress.value.state, delivery := delivery))))
  }

  function SubmitOperationalCommand(r: Record, expectedOperationalRevision: nat, command: OperationalSafety.Command,
                                    delivery: seq<string>): Result<Record, JourneyError>
  {
    if r.closure.Some? then Failure(CompetitionIsClosed)
    else if !Projects(r, expectedOperationalRevision) then Failure(RevisionConflict)
    else
      var result := OperationalSafety.Submit(r.live.value.operations, command);
      if !result.accepted then Failure(CommandRejected)
      else if result.idempotentReplay then Success(r)
      else Success(r.(live := Some(r.live.value.(operations := result.state, delivery := delivery))))
  }

  // ---------------------------------------------------------------- live publications

  predicate OnRevision(r: Record, expectedRevision: nat) {
    && r.compiled.Some? && r.publication.Some?
    && r.compiled.value.revision == expectedRevision && r.publication.value.revision == expectedRevision
  }

  /** A no-show proposal is made from the stored play; `options` is absent when the engine refuses the request. */
  function ProposeNoShow(r: Record, expectedRevision: nat, expectedLiveVersion: nat, request: NoShowRequest,
                         options: Option<seq<NoShowOption>>): Result<Record, JourneyError>
  {
    if r.closure.Some? then Failure(CompetitionIsClosed)
    else if !OnRevision(r, expectedRevision) then Failure(RevisionConflict)
    else if r.live.None? || r.live.value.baseRevision != expectedRevision then Failure(NotActivated)
    else if r.live.value.publication.Some? then Failure(AlreadyPublished)
    else if r.live.value.state.version != expectedLiveVersion then Failure(VersionConflict)
    else if options.None? then Failure(CommandRejected)
    else
      var proposal := NoShowProposal(request.id, r.live.value.state, request.proposedBy, request.proposedAt, options.value);
      Success(r.(live := Some(r.live.value.(proposal := Some(proposal)))))
  }

  predicate BlocksPublication(mode: OperationalSafety.Mode) {
    mode.Stopped? || mode.Cancelled?
  }

  predicate TimelyApproval(approvedAt: Stamp, proposedAt: Stamp) {
    approvedAt.Canonical? && !Before(approvedAt, proposedAt)
  }

  function Publish(live: Live, state: LiveState, publication: LivePublication, delivery: seq<string>): Live {
    live.(state := state, publication := Some(publication), history := live.history + [publication], delivery := delivery)
  }

  function ApproveNoShow(r: Record, expectedRevision: nat, expected: NoShowProposal, option: NoShowOption, approvedBy: string,
                         approvedAt: Stamp, delivery: seq<string>): Result<Record, JourneyError>
  {
    if r.closure.Some? then Failure(CompetitionIsClosed)
    else if !OnRevision(r, expectedRevision) then Failure(RevisionConflict)
    else if r.live.None? || r.live.value.baseRevision != expectedRevision then Failure(NotActivated)
    else
      var live := r.live.value;
      if BlocksPublication(live.operations.body.mode) then Failure(ModeBlocksPublication)
      else if live.proposal != Some(expected) then Failure(ProposalMismatch)
      else if option !in expected.options then Failure(OptionNotFound)
      else if live.publication.Some? then
        if live.publication.value.source == FromNoShow(expected, option) && live.publication.value.approvedBy == approvedBy
        then Success(r) else Failure(AlreadyPublished)
      else if live.state != expected.base then Failure(StaleProposal)
      else if !NonBlank(approvedBy) || approvedBy == expected.proposedBy then Failure(RequiresIndependentActor)
      else if !TimelyApproval(approvedAt, expected.proposedAt) then Failure(InvalidApprovalTime)
      else if !option.guardsPass then Failure(GuardBlocked)
      else if approvedBy == LIVE_PUBLISHER then Failure(RequiresIndependentActor)
      else Success(r.(live := Some(Publish(
        live, option.state,
        LivePublication(expectedRevision + 1, expectedRevision, FromNoShow(expected, option), option.state.version, approvedBy),
        delivery))))
  }

  /** The court that a change is about: of an overrun, the one its contest is in progress on. */
  function CourtOf(state: LiveState, request: ChangeRequest): Option<string> {
    match request
    case OutageRequest(_, courtId, _, _, _, _) => Some(courtId)
    case OverrunRequest(_, contestId, _, _, _, _) =>
      if DefinitionOf(state.definitions, contestId).Some? && contestId in state.contests && state.contests[contestId].status.InProgress?
      then state.contests[contestId].actualCourtId else None
  }

  predicate NoLaterThan(a: Stamp, b: Stamp) {
    a.Canonical? && b.Canonical? && a.ms <= b.ms
  }

  /** An overrun must end after the contest's planned end, and after it is proposed. */
  predicate EndsTooSoon(state: LiveState, request: ChangeRequest) {
    request.OverrunRequest?
    && (NoLaterThan(request.until, request.proposedAt)
        || match DefinitionOf(state.definitions, request.contestId)
           case Some(d) => NoLaterThan(request.until, Canonical(d.scheduledEnd))
           case None => false)
  }

  predicate SameRequest(existing: ResourceProposal, request: ChangeRequest) {
    && existing.reason == request.reason && existing.until == request.until
    && existing.proposedBy == request.proposedBy && existing.proposedAt == request.proposedAt
    && match request
       case OutageRequest(_, courtId, _, _, _, _) => existing.courtId == courtId
       case OverrunRequest(_, contestId, _, _, _, _) => existing.kind.DelayOverrun? && existing.sourceContestId == Some(contestId)
  }

  /** The proposal that a request becomes, made from the stored play under the revision in force. */
  function ProposalFor(request: ChangeRequest, courtId: string, operationalRevision: nat, base: LiveState, approved: LiveState)
    : ResourceProposal
  {
    ResourceProposal(
      request.id, if request.OutageRequest? then CourtOutage else DelayOverrun, courtId,
      if request.OutageRequest? then None else Some(request.contestId),
      request.reason, request.until, request.proposedBy, request.proposedAt, operationalRevision, base, approved)
  }

  /**
   * A closure or overrun proposal takes the place of any pending no-show proposal; `approved` is absent when the
   * engine refuses the request.
   */
  function ProposeResourceChange(r: Record, expectedOperationalRevision: nat, expectedLiveVersion: nat, request: ChangeRequest,
                                 approved: Option<LiveState>): Result<Record, JourneyError>
  {
    if r.closure.Some? then Failure(CompetitionIsClosed)
    else if !Projects(r, expectedOperationalRevision) then Failure(RevisionConflict)
    else if r.live.value.state.version != expectedLiveVersion then Failure(VersionConflict)
    else if CourtOf(r.live.value.state, request).None? then Failure(RequiresPlayInProgress)
    else if EndsTooSoon(r.live.value.state, request) then Failure(InvalidRequest)
    else if r.live.value.change.Some? && r.live.value.change.value.id == request.id then
      if r.live.value.change.value.base == r.live.value.state && SameRequest(r.live.value.change.value, request) then Success(r)
      else Failure(ProposalMismatch)
    else if approved.None? then Failure(CommandRejected)
    else
      var proposal := ProposalFor(request, CourtOf(r.live.value.state, request).value, expectedOperationalRevision, r.live.value.state,
                                  approved.value);
      Success(r.(live := Some(r.live.value.(proposal := None, change := Some(proposal)))))
  }

  function ApproveResourceChange(r: Record, expectedOperationalRevision: nat, expected: ResourceProposal, kind: ChangeKind,
                                 approvedBy: string, approvedAt: Stamp, regenerates: bool, delivery: seq<string>)
    : Result<Record, JourneyError>
  {
    if r.closure.Some? then Failure(CompetitionIsClosed)
    else if !Projects(r, expectedOperationalRevision) then Failure(RevisionConflict)
    else
      var live := r.live.value;
      if BlocksPublication(live.operations.body.mode) then Failure(ModeBlocksPublication)
      else if live.change != Some(expected) || expected.kind != kind then Failure(ProposalMismatch)
      else if live.publication.Some? && live.publication.value.source == FromChange(expected) then
        if live.publication.value.approvedBy == approvedBy then Success(r) else Failure(AlreadyPublished)
      else if expected.baseOperationalRevision != expectedOperationalRevision || expected.base != live.state then Failure(StaleProposal)
      else if !NonBlank(approvedBy) || approvedBy == expected.proposedBy then Failure(RequiresIndependentActor)
      else if !TimelyApproval(approvedAt, expected.proposedAt) then Failure(InvalidApprovalTime)
      else if !regenerates then Failure(GuardBlocked)
      else if approvedBy == LIVE_PUBLISHER then Failure(RequiresIndependentActor)
      else Success(r.(live := Some(Publish(
        live, expected.approved,
        LivePublication(expectedOperationalRevision + 1, expectedOperationalRevision, FromChange(expected), expected.approved.version,
                        approvedBy), delivery))))
  }

  // ---------------------------------------------------------------- closing

  datatype CloseRequest = CloseRequest(
    expectedPublishedRevision: nat, expectedOperationalRevision: nat, expectedLiveVersion: nat, codes: seq<string>, closedBy: string)

  /** What closing reads besides the record: the play log's replay, the guard, the clock and the other evidence. */
  datatype Evidence = Evidence(
    replays: bool, evaluated: Guard, now: int, latestFactAt: int, disputes: seq<Closure.Dispute>, delivered: seq<Closure.Evidence>,
    authority: Closure.Authority)

  predicate SameClosing(c: Closure.Closed, request: CloseRequest) {
    && c.body.publishedRevision == request.expectedPublishedRevision
    && c.body.operationalRevision == request.expectedOperationalRevision
    && c.body.liveVersion == request.expectedLiveVersion && c.body.closedBy == request.closedBy
    && ExactCodes(c.body.acknowledgedCodes, request.codes)
  }

  predicate IndependentCloser(r: Record, closedBy: string) {
    && NonBlank(closedBy) && closedBy != PUBLISHER && (r.approval.Some? ==> closedBy != r.approval.value.approvedBy)
    && (r.live.Some? && r.live.value.publication.Some? ==> closedBy != r.live.value.publication.value.approvedBy)
  }

  function ClosureOf(r: Record, request: CloseRequest, evidence: Evidence): Result<Closure.Closed, Closure.CloseError>
    requires r.publication.Some? && r.live.Some?
  {
    Closure.Derive(
      Closure.Request(r.organizationId, r.id, r.publication.value.revision, OperationalRevision(r), request.closedBy,
                      Canonical(evidence.now), request.codes, evidence.delivered),
      Closure.Records(r.live.value.state, evidence.disputes, r.live.value.operations.body.mode, evidence.authority))
  }

  function CloseCompetition(r: Record, request: CloseRequest, evidence: Evidence): Result<Record, JourneyError> {
    if r.closure.Some? then if SameClosing(r.closure.value, request) then Success(r) else Failure(CompetitionIsClosed)
    else if !Projects(r, request.expectedOperationalRevision)
            || r.publication.value.revision != request.expectedPublishedRevision
            || r.live.value.baseRevision != request.expectedPublishedRevision
            || r.live.value.state.version != request.expectedLiveVersion then Failure(RevisionConflict)
    else if !IndependentCloser(r, request.closedBy) then Failure(RequiresIndependentActor)
    else if !evidence.replays || OperationalSafety.Verify(r.live.value.operations) != Success(true) then Failure(ReplayFailed)
    else if !evidence.evaluated.passed || evidence.evaluated.reportHash != r.compiled.value.guard.reportHash then Failure(GuardBlocked)
    else if evidence.now < evidence.latestFactAt then Failure(TimePrecedesTruth)
    else
      var closure := ClosureOf(r, request, evidence);
      if closure.Failure? then Failure(NotClosable) else Success(r.(closure := Some(closure.value)))
  }

  // ---------------------------------------------------------------- what may still change after closing

  datatype Signing = Signing(keys: map<string, string>, keyVersion: string, now: int)

  function Participants(definitions: seq<Definition>): set<string> {
    if definitions == [] then {}
    else (set e | e in definitions[0].entrantIds) + Participants(definitions[1..])
  }

  function UseCredentials(r: Record, signing: Signing, step: Credentials.Step): Result<Record, JourneyError> {
    if r.compiled.None? || r.publication.None? || r.live.None? then Failure(RevisionConflict)
    else
      var ctx := Credentials.Context(
        r.publication.value.revision, r.live.value.baseRevision, OperationalRevision(r),
        Participants(r.live.value.state.definitions), signing.keys, signing.keyVersion, signing.now);
      var result := Credentials.Apply(r.vault, ctx, step);
      if result.Failure? then Failure(CredentialsRefused(result.error)) else Success(r.(vault := result.value))
  }

  function UpdateDelivery(r: Record, delivery: seq<string>): Result<Record, JourneyError> {
    if r.live.None? then Failure(RevisionConflict) else Success(r.(live := Some(r.live.value.(delivery := delivery))))
  }
}
