/** What one step means for a record that some run of steps has stored: what it promises, and what lasts through it. */
module JourneySteps {
  import opened Wrappers
  import opened Timestamps
  import opened LiveModel
  import LiveProgression
  import OperationalSafety
  import SortedSets
  import Credentials
  import CredentialRuns
  import opened JourneyRecord
  import opened JourneyRuns
  import opened JourneyLoading

  // ---------------------------------------------------------------- records that runs store

  /** The record under an identity is what some run of steps makes of a newly created one. */
  ghost predicate Reached(authorities: OperationalSafety.Assignments, id: string, r: Record) {
    exists organizationId, steps :: r == After(authorities, Create(id, organizationId), steps)
  }

  /** What holds of every reached record. */
  ghost predicate Sound(authorities: OperationalSafety.Assignments, r: Record) {
    && ChainOk(r) && LiveOk(r) && OperationsOk(authorities, r) && PublicationOk(r)
    && (r.closure.Some? ==> r.live.Some? && r.live.value.operations.body.assignments == authorities)
  }

  lemma CreatedIsReached(authorities: OperationalSafety.Assignments, id: string, organizationId: string)
    ensures Reached(authorities, id, Create(id, organizationId))
  {
    assert After(authorities, Create(id, organizationId), []) == Create(id, organizationId);
  }

  /** A reached record stays reached through every step, accepted or not. */
  lemma StepReaches(authorities: OperationalSafety.Assignments, id: string, r: Record, step: Step)
    requires Reached(authorities, id, r)
    ensures Reached(authorities, id, Apply(authorities, r, step).GetOr(r))
  {
    var organizationId, steps :| r == After(authorities, Create(id, organizationId), steps);
    assert (steps + [step])[..|steps|] == steps;
    assert After(authorities, Create(id, organizationId), steps + [step]) == Apply(authorities, r, step).GetOr(r);
  }

  lemma ClosureStepKeepsAuthorities(authorities: OperationalSafety.Assignments, r: Record, step: Step)
    requires Sound(authorities, r) && Apply(authorities, r, step).Success?
    ensures var s := Apply(authorities, r, step).value;
            s.closure.Some? ==> s.live.Some? && s.live.value.operations.body.assignments == authorities
  {
    if r.closure.Some? {
      ClosedStepIsFrozen(authorities, r, step);
    } else if step.CloseStep? {
      ClosingChecksOperations(authorities, r, step.closing, step.evidence);
      CloseCarries(r, step.closing, step.evidence);
    } else {
      OnlyClosingCloses(authorities, r, step);
    }
  }

  lemma OnlyClosingCloses(authorities: OperationalSafety.Assignments, r: Record, step: Step)
    requires r.closure.None? && !step.CloseStep? && Apply(authorities, r, step).Success?
    ensures Apply(authorities, r, step).value.closure.None?
  {
  }

  lemma {:induction false} RunsAreSound(authorities: OperationalSafety.Assignments, id: string, organizationId: string, steps: seq<Step>)
    ensures Sound(authorities, After(authorities, Create(id, organizationId), steps))
  {
    ChainHolds(authorities, id, organizationId, steps);
    LiveHolds(authorities, Create(id, organizationId), steps);
    OperationsHold(authorities, id, organizationId, steps);
    BackedIffNotDisplaced(authorities, id, organizationId, steps);
    if steps != [] {
      var front, last := steps[..|steps| - 1], steps[|steps| - 1];
      RunsAreSound(authorities, id, organizationId, front);
      var before := After(authorities, Create(id, organizationId), front);
      if Apply(authorities, before, last).Success? { ClosureStepKeepsAuthorities(authorities, before, last); }
    }
  }

  lemma ReachedIsSound(authorities: OperationalSafety.Assignments, id: string, r: Record)
    requires Reached(authorities, id, r)
    ensures Sound(authorities, r)
  {
    var organizationId, steps :| r == After(authorities, Create(id, organizationId), steps);
    RunsAreSound(authorities, id, organizationId, steps);
  }

  // ---------------------------------------------------------------- what lasts through every step

  /**
   * No revision on record is forgotten and what stands does not fall, live publications are only added to, and a
   * closed record is frozen.
   */
  ghost predicate Lasts(r: Record, s: Record) {
    && (forall revision | OnRecord(r, revision) :: OnRecord(s, revision))
    && (Standing(r).Some? ==> Standing(s).Some? && Standing(s).value >= Standing(r).value)
    && (r.live.Some? ==> s.live.Some? && s.live.value.baseRevision == r.live.value.baseRevision
                         && r.live.value.history <= s.live.value.history)
    && (r.closure.Some? ==> Frozen(r, s))
  }

  lemma StepKeepsRecord(authorities: OperationalSafety.Assignments, r: Record, step: Step)
    requires ChainOk(r) && Apply(authorities, r, step).Success?
    ensures var s := Apply(authorities, r, step).value;
            && ChainOk(s) && (forall revision | OnRecord(r, revision) :: OnRecord(s, revision))
            && (Standing(r).Some? ==> Standing(s).Some? && Standing(s).value >= Standing(r).value)
  {
    var s := Apply(authorities, r, step).value;
    if DraftStep(step) {
      DraftStepKeepsChain(authorities, r, step);
      forall revision | OnRecord(r, revision) ensures OnRecord(s, revision) {
        DraftStepKeepsRecord(authorities, r, step, revision);
      }
    } else {
      OtherStepsKeepDraft(authorities, r, step);
    }
    if Standing(r).Some? { assert OnRecord(s, Standing(r).value); }
  }

  lemma StepLasts(authorities: OperationalSafety.Assignments, r: Record, step: Step)
    requires Sound(authorities, r) && Apply(authorities, r, step).Success?
    ensures Lasts(r, Apply(authorities, r, step).value)
  {
    StepKeepsRecord(authorities, r, step);
    if r.live.Some? {
      if DraftStep(step) {
        LiveRecordsAreNotRedrafted(authorities, r, step);
      } else {
        LivePublicationsGrow(authorities, r, step);
      }
    }
    if r.closure.Some? { ClosedStepIsFrozen(authorities, r, step); }
  }

  /** A reached record in which everything has lasted that must. */
  ghost predicate Kept(authorities: OperationalSafety.Assignments, id: string, r: Record, outcome: Result<Record, JourneyError>) {
    outcome.Success? ==> Reached(authorities, id, outcome.value) && Lasts(r, outcome.value)
  }

  lemma StepKeeps(authorities: OperationalSafety.Assignments, id: string, r: Record, step: Step)
    requires Reached(authorities, id, r)
    ensures Kept(authorities, id, r, Apply(authorities, r, step))
  {
    StepReaches(authorities, id, r, step);
    ReachedIsSound(authorities, id, r);
    if Apply(authorities, r, step).Success? { StepLasts(authorities, r, step); }
  }

  // ---------------------------------------------------------------- drafts

  /** Nothing is compiled, published or played, and the published revisions are as they were. */
  predicate BackToDraft(r: Record, s: Record) {
    && s.compiled.None? && s.approval.None? && s.publication.None? && s.live.None? && s.closure.None?
    && s.draftVersion == r.draftVersion + 1 && s.publicationHistory == r.publicationHistory && Standing(s) == Standing(r)
  }

  lemma EditMeans(authorities: OperationalSafety.Assignments, id: string, r: Record, edit: Edit, version: nat)
    requires Reached(authorities, id, r)
    ensures var outcome := EditDraft(r, edit, version);
            Kept(authorities, id, r, outcome)
            && (outcome.Success? ==> BackToDraft(r, outcome.value) && outcome.value.amendment == r.amendment)
  {
    ReachedIsSound(authorities, id, r);
    StepKeeps(authorities, id, r, EditStep(edit, version));
  }

  /** What is compiled is the plan that was made, comes after every published revision, and replaces none of them yet. */
  ghost predicate CompiledAhead(r: Record, s: Record, compilation: Compilation) {
    && s.compiled.Some? && s.publication.None? && Standing(s) == Standing(r) && s.publicationHistory == r.publicationHistory
    && s.compiled.value.compiledBy == compilation.compiledBy && s.compiled.value.plan == compilation.plan
    && s.compiled.value.guard == compilation.guard && s.amendment == r.amendment && s.draftVersion == r.draftVersion
    && forall revision: nat | OnRecord(r, revision) :: s.compiled.value.revision > revision
  }

  lemma CompileMeans(authorities: OperationalSafety.Assignments, id: string, r: Record, version: nat, ready: bool, compilation: Compilation)
    requires Reached(authorities, id, r)
    ensures var outcome := Compile(r, version, ready, compilation);
            Kept(authorities, id, r, outcome) && (outcome.Success? ==> CompiledAhead(r, outcome.value, compilation))
  {
    ReachedIsSound(authorities, id, r);
    StepKeeps(authorities, id, r, CompileStep(version, ready, compilation));
  }

  /**
   * The revision is published as it was compiled, by somebody who did not compile it, above every other revision on record;
   * the one it replaces is noted with who asked for the change.
   */
  ghost predicate PublishedOver(r: Record, s: Record, revision: nat, approvedBy: string, codes: seq<string>) {
    && s.publication.Some? && s.publication.value.revision == revision && s.approval.Some? && s.compiled.Some?
    && s.compiled == r.compiled && s.compiled.value.compiledBy != approvedBy
    && (r.publication.Some? ==> s == r)
    && (r.publication.None? ==>
          && s.approval.value.approvedBy == approvedBy && (forall code :: code in s.approval.value.codes <==> code in codes)
          && s.publication.value.plan == s.compiled.value.plan && s.publication.value.reportHash == s.compiled.value.guard.reportHash
          && (r.amendment.None? ==> s.publicationHistory == r.publicationHistory)
          && (r.amendment.Some? ==>
                s.publicationHistory == r.publicationHistory + [Superseded(Standing(r).value, r.amendment.value.requestedBy)]))
    && (forall other: nat | OnRecord(s, other) :: other <= revision)
  }

  lemma IsPublished(r: Record, revision: nat, approvedBy: string, codes: seq<string>, evaluated: Guard)
    requires ChainOk(r) && Approve(r, revision, approvedBy, codes, evaluated).Success?
    ensures PublishedOver(r, Approve(r, revision, approvedBy, codes, evaluated).value, revision, approvedBy, codes)
  {
    ApproveKeepsChain(r, revision, approvedBy, codes, evaluated);
    SortedSets.SortedUniqueElements(codes);
  }

  lemma ApproveMeans(authorities: OperationalSafety.Assignments, id: string, r: Record, revision: nat, approvedBy: string,
                     codes: seq<string>, evaluated: Guard)
    requires Reached(authorities, id, r)
    ensures var outcome := Approve(r, revision, approvedBy, codes, evaluated);
            Kept(authorities, id, r, outcome) && (outcome.Success? ==> PublishedOver(r, outcome.value, revision, approvedBy, codes))
  {
    ReachedIsSound(authorities, id, r);
    if Approve(r, revision, approvedBy, codes, evaluated).Success? { IsPublished(r, revision, approvedBy, codes, evaluated); }
    StepKeeps(authorities, id, r, ApproveStep(revision, approvedBy, codes, evaluated));
  }

  /** The amendment holds what was compiled, approved and published, and who asked for the change. */
  predicate Reopened(r: Record, s: Record, requestedBy: string) {
    && r.compiled.Some? && r.approval.Some? && r.publication.Some? && s.amendment.Some?
    && s.amendment.value.requestedBy == requestedBy && s.amendment.value.base.compiled == r.compiled.value
    && s.amendment.value.base.approval == r.approval.value && s.amendment.value.base.publication == r.publication.value
  }

  lemma AmendMeans(authorities: OperationalSafety.Assignments, id: string, r: Record, revision: nat, requestedBy: string)
    requires Reached(authorities, id, r)
    ensures var outcome := Amend(r, revision, requestedBy);
            Kept(authorities, id, r, outcome)
            && (outcome.Success? ==>
                  && BackToDraft(r, outcome.value) && Standing(outcome.value) == Some(revision)
                  && Reopened(r, outcome.value, requestedBy))
  {
    ReachedIsSound(authorities, id, r);
    StepKeeps(authorities, id, r, AmendStep(revision, requestedBy));
  }

  // ---------------------------------------------------------------- play

  /** Play runs on the published revision; when it starts, nothing is published live and the first authorities hold. */
  predicate PlayOpened(authorities: OperationalSafety.Assignments, r: Record, s: Record, revision: nat, initial: LiveState) {
    && s.live.Some? && s.live.value.baseRevision == revision && Standing(s) == Some(revision)
    && (r.live.Some? ==> s == r)
    && (r.live.None? ==> s.live.value.state == initial && s.live.value.history == [] && s.live.value.operations.body.assignments == authorities
                         && OperationalSafety.Verify(s.live.value.operations) == Success(true))
  }

  lemma ActivateMeans(authorities: OperationalSafety.Assignments, id: string, r: Record, revision: nat, actor: string, initial: LiveState)
    requires Reached(authorities, id, r)
    ensures var outcome := ActivateLive(r, revision, actor, authorities, initial);
            Kept(authorities, id, r, outcome) && (outcome.Success? ==> PlayOpened(authorities, r, outcome.value, revision, initial))
  {
    ReachedIsSound(authorities, id, r);
    StepKeeps(authorities, id, r, ActivateStep(revision, actor, initial));
    var outcome := ActivateLive(r, revision, actor, authorities, initial);
    if outcome.Success? && r.live.None? {
      OperationalSafety.VerifyHoldsIffAuthoritiesReturned(authorities, []);
      assert outcome.value.live.value.operations == OperationalSafety.Run(OperationalSafety.InitialState(authorities), []);
    }
  }

  lemma LiveCommandMeans(authorities: OperationalSafety.Assignments, id: string, r: Record, revision: nat, command: LiveCommand,
                         competition: LiveProgression.Competition, delivery: seq<string>)
    requires Reached(authorities, id, r)
    ensures var outcome := SubmitLiveCommand(r, revision, command, competition, delivery);
            Kept(authorities, id, r, outcome) && (outcome.Success? ==> Carries(r, outcome.value))
  {
    StepKeeps(authorities, id, r, LiveStep(revision, command, competition, delivery));
    if SubmitLiveCommand(r, revision, command, competition, delivery).Success? {
      LiveCommandCarries(r, revision, command, competition, delivery);
    }
  }

  /** The log of operations verifies exactly while every authority is with its first holder, and nothing else moves. */
  predicate Operated(authorities: OperationalSafety.Assignments, r: Record, s: Record) {
    && r.live.Some? && s.live.Some? && SameDraft(r, s) && s.closure == r.closure
    && s.live.value == r.live.value.(operations := s.live.value.operations, delivery := s.live.value.delivery)
    && OperationalSafety.Verify(s.live.value.operations) == Success(s.live.value.operations.body.assignments == authorities)
  }

  lemma IsOperated(authorities: OperationalSafety.Assignments, r: Record, revision: nat, command: OperationalSafety.Command,
                   delivery: seq<string>)
    requires OperationsOk(authorities, r) && SubmitOperationalCommand(r, revision, command, delivery).Success?
    ensures Operated(authorities, r, SubmitOperationalCommand(r, revision, command, delivery).value)
  {
    OperationalStepRuns(authorities, r, revision, command, delivery);
    var s := SubmitOperationalCommand(r, revision, command, delivery).value;
    var commands :| s.live.value.operations == OperationalSafety.Run(OperationalSafety.InitialState(authorities), commands);
    OperationalSafety.VerifyHoldsIffAuthoritiesReturned(authorities, commands);
  }

  lemma OperateKeeps(authorities: OperationalSafety.Assignments, id: string, r: Record, revision: nat,
                     command: OperationalSafety.Command, delivery: seq<string>)
    requires Reached(authorities, id, r)
    ensures Kept(authorities, id, r, SubmitOperationalCommand(r, revision, command, delivery))
  {
    StepKeeps(authorities, id, r, OperationalStep(revision, command, delivery));
    assert Apply(authorities, r, OperationalStep(revision, command, delivery))
        == SubmitOperationalCommand(r, revision, command, delivery);
  }

  lemma OperateMeans(authorities: OperationalSafety.Assignments, id: string, r: Record, revision: nat,
                     command: OperationalSafety.Command, delivery: seq<string>)
    requires Reached(authorities, id, r)
    ensures var outcome := SubmitOperationalCommand(r, revision, command, delivery);
            Kept(authorities, id, r, outcome) && (outcome.Success? ==> Operated(authorities, r, outcome.value))
  {
    ReachedIsSound(authorities, id, r);
    if SubmitOperationalCommand(r, revision, command, delivery).Success? { IsOperated(authorities, r, revision, command, delivery); }
    OperateKeeps(authorities, id, r, revision, command, delivery);
  }

  // ---------------------------------------------------------------- live publications

  /** The proposal asked for is made from the stored play, before any live publication, and changes neither. */
  predicate NoShowProposed(r: Record, s: Record, request: NoShowRequest, options: Option<seq<NoShowOption>>) {
    && Carries(r, s) && s.live.Some? && s.live.value.state == r.live.value.state && s.live.value.publication.None?
    && s.live.value.proposal.Some? && s.live.value.proposal.value.base == r.live.value.state
    && s.live.value.proposal.value.id == request.id && s.live.value.proposal.value.proposedBy == request.proposedBy
    && s.live.value.proposal.value.proposedAt == request.proposedAt && options == Some(s.live.value.proposal.value.options)
  }

  lemma ProposeNoShowMeans(authorities: OperationalSafety.Assignments, id: string, r: Record, revision: nat, version: nat,
                           request: NoShowRequest, options: Option<seq<NoShowOption>>)
    requires Reached(authorities, id, r)
    ensures var outcome := ProposeNoShow(r, revision, version, request, options);
            Kept(authorities, id, r, outcome) && (outcome.Success? ==> NoShowProposed(r, outcome.value, request, options))
  {
    StepKeeps(authorities, id, r, ProposeNoShowStep(revision, version, request, options));
  }

  /** The pending change starts from the stored play; a new one takes the place of every other proposal. */
  predicate ChangeProposed(r: Record, s: Record, revision: nat, request: ChangeRequest, approved: Option<LiveState>) {
    && Carries(r, s) && s.live.Some? && s.live.value.state == r.live.value.state
    && s.live.value.change.Some? && s.live.value.change.value.base == r.live.value.state
    && Asks(s.live.value.change.value, request)
    && (s != r ==>
          && s.live.value.proposal.None? && (Backed(s) <==> r.live.value.publication.None?)
          && s.live.value.change.value.baseOperationalRevision == revision
          && approved == Some(s.live.value.change.value.approved)
          && (request.OutageRequest? ==> s.live.value.change.value.kind.CourtOutage?)
          && (request.OverrunRequest? ==>
                && request.contestId in r.live.value.state.contests
                && r.live.value.state.contests[request.contestId].actualCourtId == Some(s.live.value.change.value.courtId)))
  }

  /** The proposal is the one that was asked for. */
  predicate Asks(change: ResourceProposal, request: ChangeRequest) {
    && change.id == request.id && change.reason == request.reason && change.until == request.until
    && change.proposedBy == request.proposedBy && change.proposedAt == request.proposedAt
    && (request.OutageRequest? ==> change.courtId == request.courtId)
    && (request.OverrunRequest? ==> change.kind.DelayOverrun? && change.sourceContestId == Some(request.contestId))
  }

  lemma ChangeIsProposed(r: Record, revision: nat, version: nat, request: ChangeRequest, approved: Option<LiveState>)
    requires PublicationOk(r) && ProposeResourceChange(r, revision, version, request, approved).Success?
    ensures ChangeProposed(r, ProposeResourceChange(r, revision, version, request, approved).value, revision, request, approved)
  {
    var s := ProposeResourceChange(r, revision, version, request, approved).value;
    if s != r && r.live.value.publication.Some? {
      var p := r.live.value.publication.value;
      assert s.live.value.change.value.baseOperationalRevision == p.revision > p.baseRevision;
    }
  }

  lemma ProposeChangeKeeps(authorities: OperationalSafety.Assignments, id: string, r: Record, revision: nat, version: nat,
                           request: ChangeRequest, approved: Option<LiveState>)
    requires Reached(authorities, id, r)
    ensures Kept(authorities, id, r, ProposeResourceChange(r, revision, version, request, approved))
  {
    StepKeeps(authorities, id, r, ProposeChangeStep(revision, version, request, approved));
    assert Apply(authorities, r, ProposeChangeStep(revision, version, request, approved))
        == ProposeResourceChange(r, revision, version, request, approved);
  }

  lemma ProposeChangeMeans(authorities: OperationalSafety.Assignments, id: string, r: Record, revision: nat, version: nat,
                           request: ChangeRequest, approved: Option<LiveState>)
    requires Reached(authorities, id, r)
    ensures var outcome := ProposeResourceChange(r, revision, version, request, approved);
            Kept(authorities, id, r, outcome) && (outcome.Success? ==> ChangeProposed(r, outcome.value, revision, request, approved))
  {
    ReachedIsSound(authorities, id, r);
    if ProposeResourceChange(r, revision, version, request, approved).Success? {
      ChangeIsProposed(r, revision, version, request, approved);
    }
    ProposeChangeKeeps(authorities, id, r, revision, version, request, approved);
  }

  /** What a proposal would make of play. */
  function PlayOf(source: Source): LiveState {
    match source
    case FromNoShow(_, option) => option.state
    case FromChange(change) => change.approved
  }

  /**
   * The revision in force is the one after the proposal's, made from that proposal and approved by somebody else; published
   * anew, its play is stored while operations may go on.
   */
  predicate PublishedLive(r: Record, s: Record, source: Source, revision: nat, approvedBy: string) {
    && (s != r ==> s.live.Some? && s.live.value.state == PlayOf(source)
                   && !s.live.value.operations.body.mode.Stopped? && !s.live.value.operations.body.mode.Cancelled?)
    && s.publication.Some? && s.live.Some? && s.live.value.publication.Some? && Backed(s)
    && OperationalRevision(s) == revision + 1
    && s.live.value.publication.value.source == source && s.live.value.publication.value.approvedBy == approvedBy
    && match source
       case FromNoShow(proposal, option) => option in proposal.options && approvedBy != proposal.proposedBy
       case FromChange(change) => approvedBy != change.proposedBy
  }

  lemma NoShowIsPublished(r: Record, revision: nat, expected: NoShowProposal, option: NoShowOption, approvedBy: string, at: Stamp,
                          delivery: seq<string>)
    requires PublicationOk(r) && ApproveNoShow(r, revision, expected, option, approvedBy, at, delivery).Success?
    ensures PublishedLive(r, ApproveNoShow(r, revision, expected, option, approvedBy, at, delivery).value,
                          FromNoShow(expected, option), revision, approvedBy)
  {
  }

  lemma ApproveNoShowKeeps(authorities: OperationalSafety.Assignments, id: string, r: Record, revision: nat, expected: NoShowProposal,
                           option: NoShowOption, approvedBy: string, at: Stamp, delivery: seq<string>)
    requires Reached(authorities, id, r)
    ensures Kept(authorities, id, r, ApproveNoShow(r, revision, expected, option, approvedBy, at, delivery))
  {
    StepKeeps(authorities, id, r, ApproveNoShowStep(revision, expected, option, approvedBy, at, delivery));
    assert Apply(authorities, r, ApproveNoShowStep(revision, expected, option, approvedBy, at, delivery))
        == ApproveNoShow(r, revision, expected, option, approvedBy, at, delivery);
  }

  lemma ApproveNoShowMeans(authorities: OperationalSafety.Assignments, id: string, r: Record, revision: nat, expected: NoShowProposal,
                           option: NoShowOption, approvedBy: string, at: Stamp, delivery: seq<string>)
    requires Reached(authorities, id, r)
    ensures var outcome := ApproveNoShow(r, revision, expected, option, approvedBy, at, delivery);
            Kept(authorities, id, r, outcome)
            && (outcome.Success? ==> PublishedLive(r, outcome.value, FromNoShow(expected, option), revision, approvedBy))
  {
    ReachedIsSound(authorities, id, r);
    if ApproveNoShow(r, revision, expected, option, approvedBy, at, delivery).Success? {
      NoShowIsPublished(r, revision, expected, option, approvedBy, at, delivery);
    }
    ApproveNoShowKeeps(authorities, id, r, revision, expected, option, approvedBy, at, delivery);
  }

  lemma ChangeIsPublished(r: Record, revision: nat, expected: ResourceProposal, kind: ChangeKind, approvedBy: string, at: Stamp,
                          regenerates: bool, delivery: seq<string>)
    requires PublicationOk(r)
    requires ApproveResourceChange(r, revision, expected, kind, approvedBy, at, regenerates, delivery).Success?
    ensures PublishedLive(r, ApproveResourceChange(r, revision, expected, kind, approvedBy, at, regenerates, delivery).value,
                          FromChange(expected), expected.baseOperationalRevision, approvedBy)
  {
  }

  lemma ApproveChangeKeeps(authorities: OperationalSafety.Assignments, id: string, r: Record, revision: nat, expected: ResourceProposal,
                           kind: ChangeKind, approvedBy: string, at: Stamp, regenerates: bool, delivery: seq<string>)
    requires Reached(authorities, id, r)
    ensures Kept(authorities, id, r, ApproveResourceChange(r, revision, expected, kind, approvedBy, at, regenerates, delivery))
  {
    StepKeeps(authorities, id, r, ApproveChangeStep(revision, expected, kind, approvedBy, at, regenerates, delivery));
    assert Apply(authorities, r, ApproveChangeStep(revision, expected, kind, approvedBy, at, regenerates, delivery))
        == ApproveResourceChange(r, revision, expected, kind, approvedBy, at, regenerates, delivery);
  }

  lemma ApproveChangeMeans(authorities: OperationalSafety.Assignments, id: string, r: Record, revision: nat, expected: ResourceProposal,
                           kind: ChangeKind, approvedBy: string, at: Stamp, regenerates: bool, delivery: seq<string>)
    requires Reached(authorities, id, r)
    ensures var outcome := ApproveResourceChange(r, revision, expected, kind, approvedBy, at, regenerates, delivery);
            Kept(authorities, id, r, outcome)
            && (outcome.Success? ==>
                  PublishedLive(r, outcome.value, FromChange(expected), expected.baseOperationalRevision, approvedBy))
  {
    ReachedIsSound(authorities, id, r);
    if ApproveResourceChange(r, revision, expected, kind, approvedBy, at, regenerates, delivery).Success? {
      ChangeIsPublished(r, revision, expected, kind, approvedBy, at, regenerates, delivery);
    }
    ApproveChangeKeeps(authorities, id, r, revision, expected, kind, approvedBy, at, regenerates, delivery);
  }

  // ---------------------------------------------------------------- closing, and what may still change afterwards

  /** The closure names what was published and played, and every authority is back with its first holder. */
  predicate ClosedAt(authorities: OperationalSafety.Assignments, s: Record, request: CloseRequest) {
    && s.closure.Some? && s.live.Some? && s.publication.Some?
    && s.publication.value.revision == request.expectedPublishedRevision
    && OperationalRevision(s) == request.expectedOperationalRevision
    && s.live.value.state.version == request.expectedLiveVersion
    && s.live.value.operations.body.assignments == authorities
  }

  lemma IsClosed(authorities: OperationalSafety.Assignments, r: Record, request: CloseRequest, evidence: Evidence)
    requires LiveOk(r) && OperationsOk(authorities, r) && CloseCompetition(r, request, evidence).Success?
    requires r.closure.Some? ==> r.live.Some? && r.live.value.operations.body.assignments == authorities
    ensures ClosedAt(authorities, CloseCompetition(r, request, evidence).value, request)
  {
    if r.closure.None? { ClosingChecksOperations(authorities, r, request, evidence); }
  }

  lemma CloseKeeps(authorities: OperationalSafety.Assignments, id: string, r: Record, request: CloseRequest, evidence: Evidence)
    requires Reached(authorities, id, r)
    ensures Kept(authorities, id, r, CloseCompetition(r, request, evidence))
  {
    StepKeeps(authorities, id, r, CloseStep(request, evidence));
    assert Apply(authorities, r, CloseStep(request, evidence)) == CloseCompetition(r, request, evidence);
  }

  lemma CloseMeans(authorities: OperationalSafety.Assignments, id: string, r: Record, request: CloseRequest, evidence: Evidence)
    requires Reached(authorities, id, r)
    ensures var outcome := CloseCompetition(r, request, evidence);
            Kept(authorities, id, r, outcome) && (outcome.Success? ==> ClosedAt(authorities, outcome.value, request))
  {
    ReachedIsSound(authorities, id, r);
    if CloseCompetition(r, request, evidence).Success? { IsClosed(authorities, r, request, evidence); }
    CloseKeeps(authorities, id, r, request, evidence);
  }

  /** Only the credentials change: grants and events are added, and grants revoked. */
  ghost predicate Credentialled(r: Record, s: Record) {
    s == r.(vault := s.vault) && CredentialRuns.Extends(r.vault, s.vault)
  }

  lemma CredentialsExtend(r: Record, signing: Signing, step: Credentials.Step)
    requires UseCredentials(r, signing, step).Success?
    ensures Credentialled(r, UseCredentials(r, signing, step).value)
  {
    var ctx := Credentials.Context(
      r.publication.value.revision, r.live.value.baseRevision, OperationalRevision(r),
      Participants(r.live.value.state.definitions), signing.keys, signing.keyVersion, signing.now);
    CredentialRuns.StepExtends(r.vault, ctx, step);
  }

  lemma CredentialsKeep(authorities: OperationalSafety.Assignments, id: string, r: Record, signing: Signing, step: Credentials.Step)
    requires Reached(authorities, id, r)
    ensures Kept(authorities, id, r, UseCredentials(r, signing, step))
  {
    StepKeeps(authorities, id, r, CredentialStep(signing, step));
    assert Apply(authorities, r, CredentialStep(signing, step)) == UseCredentials(r, signing, step);
  }

  lemma CredentialsMean(authorities: OperationalSafety.Assignments, id: string, r: Record, signing: Signing, step: Credentials.Step)
    requires Reached(authorities, id, r)
    ensures var outcome := UseCredentials(r, signing, step);
            Kept(authorities, id, r, outcome) && (outcome.Success? ==> Credentialled(r, outcome.value))
  {
    if UseCredentials(r, signing, step).Success? { CredentialsExtend(r, signing, step); }
    CredentialsKeep(authorities, id, r, signing, step);
  }

  /** Only what is delivered changes. */
  predicate Delivered(r: Record, s: Record) {
    r.live.Some? && s.live.Some? && s == r.(live := Some(r.live.value.(delivery := s.live.value.delivery)))
  }

  lemma DeliveryMeans(authorities: OperationalSafety.Assignments, id: string, r: Record, delivery: seq<string>)
    requires Reached(authorities, id, r)
    ensures var outcome := UpdateDelivery(r, delivery);
            Kept(authorities, id, r, outcome) && (outcome.Success? ==> Delivered(r, outcome.value))
  {
    StepKeeps(authorities, id, r, DeliveryStep(delivery));
  }
}
