/** What every run of journey steps keeps: the chain of revisions, the chain of live publications, and the closed record. */
module JourneyRuns {
  import opened Wrappers
  import opened Timestamps
  import opened LiveModel
  import LiveProgression
  import OperationalSafety
  import Closure
  import Credentials
  import opened JourneyRecord

  datatype Step =
    | EditStep(edit: Edit, expectedDraftVersion: nat)
    | CompileStep(expectedDraftVersion: nat, ready: bool, compilation: Compilation)
    | ApproveStep(expectedRevision: nat, approvedBy: string, codes: seq<string>, evaluated: Guard)
    | AmendStep(expectedRevision: nat, requestedBy: string)
    | ActivateStep(expectedRevision: nat, activatedBy: string, initial: LiveState)
    | LiveStep(expectedRevision: nat, live: LiveCommand, competition: LiveProgression.Competition, delivery: seq<string>)
    | OperationalStep(expectedRevision: nat, operational: OperationalSafety.Command, delivery: seq<string>)
    | ProposeNoShowStep(expectedRevision: nat, expectedLiveVersion: nat, noShow: NoShowRequest, options: Option<seq<NoShowOption>>)
    | ApproveNoShowStep(expectedRevision: nat, proposal: NoShowProposal, option: NoShowOption, approvedBy: string, at: Stamp,
                        delivery: seq<string>)
    | ProposeChangeStep(expectedRevision: nat, expectedLiveVersion: nat, change: ChangeRequest, approved: Option<LiveState>)
    | ApproveChangeStep(expectedRevision: nat, resource: ResourceProposal, kind: ChangeKind, approvedBy: string, at: Stamp,
                        regenerates: bool, delivery: seq<string>)
    | CloseStep(closing: CloseRequest, evidence: Evidence)
    | CredentialStep(signing: Signing, credential: Credentials.Step)
    | DeliveryStep(delivery: seq<string>)

  ghost function Apply(authorities: OperationalSafety.Assignments, r: Record, step: Step): Result<Record, JourneyError> {
    match step
    case EditStep(edit, version) => EditDraft(r, edit, version)
    case CompileStep(version, ready, compilation) => Compile(r, version, ready, compilation)
    case ApproveStep(revision, approver, codes, evaluated) => Approve(r, revision, approver, codes, evaluated)
    case AmendStep(revision, requester) => Amend(r, revision, requester)
    case ActivateStep(revision, activator, initial) => ActivateLive(r, revision, activator, authorities, initial)
    case LiveStep(revision, command, competition, delivery) => SubmitLiveCommand(r, revision, command, competition, delivery)
    case OperationalStep(revision, command, delivery) => SubmitOperationalCommand(r, revision, command, delivery)
    case ProposeNoShowStep(revision, version, request, options) => ProposeNoShow(r, revision, version, request, options)
    case ApproveNoShowStep(revision, proposal, option, approver, at, delivery) =>
      ApproveNoShow(r, revision, proposal, option, approver, at, delivery)
    case ProposeChangeStep(revision, version, request, approved) => ProposeResourceChange(r, revision, version, request, approved)
    case ApproveChangeStep(revision, proposal, kind, approver, at, regenerates, delivery) =>
      ApproveResourceChange(r, revision, proposal, kind, approver, at, regenerates, delivery)
    case CloseStep(request, evidence) => CloseCompetition(r, request, evidence)
    case CredentialStep(signing, credential) => UseCredentials(r, signing, credential)
    case DeliveryStep(delivery) => UpdateDelivery(r, delivery)
  }

  /** The record after these steps; a refused step changes nothing. */
  ghost function After(authorities: OperationalSafety.Assignments, r: Record, steps: seq<Step>): Record {
    if steps == [] then r
    else
      var before := After(authorities, r, steps[..|steps| - 1]);
      Apply(authorities, before, steps[|steps| - 1]).GetOr(before)
  }

  // ---------------------------------------------------------------- the chain of published revisions

  /** The published revision that the draft or the record rests on, if any. */
  function Standing(r: Record): Option<nat> {
    if r.publication.Some? then Some(r.publication.value.revision)
    else if r.amendment.Some? then Some(r.amendment.value.base.publication.revision)
    else None
  }

  ghost predicate Increasing(history: seq<Superseded>) {
    forall i, j | 0 <= i < j < |history| :: history[i].revision < history[j].revision
  }

  ghost predicate ChainOk(r: Record) {
    && (r.approval.Some? <==> r.publication.Some?)
    && (r.publication.Some? ==>
          && r.compiled.Some? && r.amendment.None?
          && r.compiled.value.revision == r.publication.value.revision == r.approval.value.revision)
    && (r.amendment.Some? ==>
          && r.amendment.value.base.publication.revision == r.amendment.value.base.compiled.revision
             == r.amendment.value.base.approval.revision
          && (r.compiled.Some? ==> r.compiled.value.revision > r.amendment.value.base.publication.revision))
    && Increasing(r.publicationHistory)
    && (Standing(r).None? ==> r.publicationHistory == [])
    && (Standing(r).Some? ==> forall s | s in r.publicationHistory :: s.revision < Standing(r).value)
  }

  /** Everything that only a new edit, compilation, approval or amendment may change. */
  predicate SameDraft(r: Record, s: Record) {
    && s.compiled == r.compiled && s.approval == r.approval && s.publication == r.publication
    && s.amendment == r.amendment && s.publicationHistory == r.publicationHistory
  }

  predicate DraftStep(step: Step) {
    step.EditStep? || step.CompileStep? || step.ApproveStep? || step.AmendStep?
  }

  predicate PublishingStep(step: Step) {
    step.ApproveNoShowStep? || step.ApproveChangeStep?
  }

  /** A step that touches neither the draft nor the live publications, and runs no operational command. */
  predicate Carries(r: Record, s: Record) {
    && SameDraft(r, s)
    && (s.live.Some? <==> r.live.Some?)
    && (r.live.Some? ==>
          && s.live.value.baseRevision == r.live.value.baseRevision && s.live.value.history == r.live.value.history
          && s.live.value.publication == r.live.value.publication && s.live.value.operations == r.live.value.operations)
  }

  lemma LiveCommandCarries(r: Record, revision: nat, command: LiveCommand, competition: LiveProgression.Competition, delivery: seq<string>)
    requires SubmitLiveCommand(r, revision, command, competition, delivery).Success?
    ensures Carries(r, SubmitLiveCommand(r, revision, command, competition, delivery).value)
  {
  }

  lemma CloseCarries(r: Record, request: CloseRequest, evidence: Evidence)
    requires CloseCompetition(r, request, evidence).Success?
    ensures Carries(r, CloseCompetition(r, request, evidence).value)
  {
  }

  lemma CredentialsCarry(r: Record, signing: Signing, step: Credentials.Step)
    requires UseCredentials(r, signing, step).Success?
    ensures Carries(r, UseCredentials(r, signing, step).value)
  {
  }

  lemma NoShowProposalCarries(r: Record, revision: nat, version: nat, request: NoShowRequest, options: Option<seq<NoShowOption>>)
    requires ProposeNoShow(r, revision, version, request, options).Success?
    ensures Carries(r, ProposeNoShow(r, revision, version, request, options).value)
  {
  }

  lemma ChangeProposalCarries(r: Record, revision: nat, version: nat, request: ChangeRequest, approved: Option<LiveState>)
    requires ProposeResourceChange(r, revision, version, request, approved).Success?
    ensures Carries(r, ProposeResourceChange(r, revision, version, request, approved).value)
  {
  }

  predicate CarryingStep(step: Step) {
    || step.LiveStep? || step.CloseStep? || step.CredentialStep? || step.DeliveryStep? || step.ProposeNoShowStep?
    || step.ProposeChangeStep?
  }

  lemma StepCarries(authorities: OperationalSafety.Assignments, r: Record, step: Step)
    requires CarryingStep(step) && Apply(authorities, r, step).Success?
    ensures Carries(r, Apply(authorities, r, step).value)
  {
    match step {
      case LiveStep(revision, command, competition, delivery) => LiveCommandCarries(r, revision, command, competition, delivery);
      case CloseStep(request, evidence) => CloseCarries(r, request, evidence);
      case CredentialStep(signing, credential) => CredentialsCarry(r, signing, credential);
      case DeliveryStep(_) =>
      case ProposeNoShowStep(revision, version, request, options) => NoShowProposalCarries(r, revision, version, request, options);
      case ProposeChangeStep(revision, version, request, approved) => ChangeProposalCarries(r, revision, version, request, approved);
    }
  }

  lemma ActivationKeepsDraft(r: Record, revision: nat, actor: string, authorities: OperationalSafety.Assignments, initial: LiveState)
    requires ActivateLive(r, revision, actor, authorities, initial).Success?
    ensures SameDraft(r, ActivateLive(r, revision, actor, authorities, initial).value)
    ensures r.live.Some? ==> ActivateLive(r, revision, actor, authorities, initial).value == r
  {
  }

  lemma OperationalKeepsDraft(r: Record, revision: nat, command: OperationalSafety.Command, delivery: seq<string>)
    requires SubmitOperationalCommand(r, revision, command, delivery).Success?
    ensures var s := SubmitOperationalCommand(r, revision, command, delivery).value;
            && SameDraft(r, s) && r.live.Some? && s.live.Some? && s.live.value.baseRevision == r.live.value.baseRevision
            && s.live.value.history == r.live.value.history && s.live.value.publication == r.live.value.publication
  {
  }

  lemma OtherStepsKeepDraft(authorities: OperationalSafety.Assignments, r: Record, step: Step)
    requires !DraftStep(step) && Apply(authorities, r, step).Success?
    ensures SameDraft(r, Apply(authorities, r, step).value)
  {
    if CarryingStep(step) {
      StepCarries(authorities, r, step);
    } else {
      match step {
        case ActivateStep(revision, actor, initial) => ActivationKeepsDraft(r, revision, actor, authorities, initial);
        case OperationalStep(revision, command, delivery) => OperationalKeepsDraft(r, revision, command, delivery);
        case _ => PublishingKeepsDraft(authorities, r, step);
      }
    }
  }

  lemma PublishingKeepsDraft(authorities: OperationalSafety.Assignments, r: Record, step: Step)
    requires PublishingStep(step) && Apply(authorities, r, step).Success?
    ensures var s := Apply(authorities, r, step).value;
            SameDraft(r, s) && (s.live.Some? ==> r.live.Some? && s.live.value.operations == r.live.value.operations)
  {
  }

  lemma ApproveKeepsChain(r: Record, revision: nat, actor: string, codes: seq<string>, evaluated: Guard)
    requires ChainOk(r) && Approve(r, revision, actor, codes, evaluated).Success?
    ensures ChainOk(Approve(r, revision, actor, codes, evaluated).value)
  {
  }

  lemma DraftStepKeepsChain(authorities: OperationalSafety.Assignments, r: Record, step: Step)
    requires ChainOk(r) && DraftStep(step) && Apply(authorities, r, step).Success?
    ensures ChainOk(Apply(authorities, r, step).value)
  {
    if step.ApproveStep? { ApproveKeepsChain(r, step.expectedRevision, step.approvedBy, step.codes, step.evaluated); }
  }

  lemma {:induction false} ChainHolds(authorities: OperationalSafety.Assignments, id: string, organizationId: string, steps: seq<Step>)
    ensures ChainOk(After(authorities, Create(id, organizationId), steps))
  {
    if steps != [] {
      var front, last := steps[..|steps| - 1], steps[|steps| - 1];
      ChainHolds(authorities, id, organizationId, front);
      var before := After(authorities, Create(id, organizationId), front);
      if Apply(authorities, before, last).Success? {
        if DraftStep(last) { DraftStepKeepsChain(authorities, before, last); } else { OtherStepsKeepDraft(authorities, before, last); }
      }
    }
  }

  predicate InHistory(r: Record, revision: nat) {
    exists s :: s in r.publicationHistory && s.revision == revision
  }

  /** The revision stands, or stood before one that superseded it. */
  predicate OnRecord(r: Record, revision: nat) {
    Standing(r) == Some(revision) || InHistory(r, revision)
  }

  /** A step keeps every revision on record, and what stands after it is that revision or a later one. */
  lemma DraftStepKeepsRecord(authorities: OperationalSafety.Assignments, r: Record, step: Step, revision: nat)
    requires ChainOk(r) && DraftStep(step) && Apply(authorities, r, step).Success? && OnRecord(r, revision)
    ensures OnRecord(Apply(authorities, r, step).value, revision)
  {
    var s := Apply(authorities, r, step).value;
    if InHistory(r, revision) {
      var past :| past in r.publicationHistory && past.revision == revision;
      assert past in s.publicationHistory;
    } else if step.ApproveStep? && r.amendment.Some? {
      assert s.publicationHistory[|r.publicationHistory|] in s.publicationHistory;
    }
  }

  lemma {:induction false} NothingForgotten(authorities: OperationalSafety.Assignments, r: Record, steps: seq<Step>, revision: nat)
    requires ChainOk(r) && OnRecord(r, revision)
    ensures ChainOk(After(authorities, r, steps)) && OnRecord(After(authorities, r, steps), revision)
  {
    if steps != [] {
      var front, last := steps[..|steps| - 1], steps[|steps| - 1];
      NothingForgotten(authorities, r, front, revision);
      var before := After(authorities, r, front);
      if Apply(authorities, before, last).Success? {
        if DraftStep(last) {
          DraftStepKeepsChain(authorities, before, last);
          DraftStepKeepsRecord(authorities, before, last, revision);
        } else {
          OtherStepsKeepDraft(authorities, before, last);
        }
      }
    }
  }

  /**
   * Over every run, a published revision is never forgotten: later it still stands, or it is in the publication
   * history below a strictly higher revision that stands.
   */
  lemma PublishedRevisionsOnlyRise(authorities: OperationalSafety.Assignments, id: string, organizationId: string,
                                   earlier: seq<Step>, later: seq<Step>)
    requires After(authorities, Create(id, organizationId), earlier).publication.Some?
    ensures var r := After(authorities, Create(id, organizationId), earlier);
            var s := After(authorities, r, later);
            var revision := r.publication.value.revision;
            Standing(s).Some? && Standing(s).value >= revision
            && (Standing(s).value > revision ==> InHistory(s, revision))
            && forall past | past in s.publicationHistory :: past.revision < Standing(s).value
  {
    ChainHolds(authorities, id, organizationId, earlier);
    var r := After(authorities, Create(id, organizationId), earlier);
    NothingForgotten(authorities, r, later, r.publication.value.revision);
  }

  // ---------------------------------------------------------------- the chain of live publications

  ghost predicate Consecutive(base: nat, history: seq<LivePublication>) {
    forall i | 0 <= i < |history| :: history[i].revision == base + 1 + i && history[i].baseRevision == base + i
  }

  function Last(history: seq<LivePublication>): Option<LivePublication> {
    if history == [] then None else Some(history[|history| - 1])
  }

  ghost predicate LiveOk(r: Record) {
    && (r.live.Some? ==>
          && r.publication.Some? && r.live.value.baseRevision == r.publication.value.revision
          && Consecutive(r.live.value.baseRevision, r.live.value.history)
          && r.live.value.publication == Last(r.live.value.history))
    && (r.live.None? ==> r.closure.None? && r.vault == Credentials.Empty(r.organizationId, r.id))
    && (r.closure.Some? ==>
          && r.closure.value.body.publishedRevision == r.publication.value.revision
          && r.closure.value.body.operationalRevision == OperationalRevision(r)
          && r.closure.value.body.liveVersion == r.live.value.state.version)
  }

  /** A step on the draft or approval of a record whose play has begun changes nothing. */
  lemma LiveRecordsAreNotRedrafted(authorities: OperationalSafety.Assignments, r: Record, step: Step)
    requires ChainOk(r) && LiveOk(r) && r.live.Some? && DraftStep(step) && Apply(authorities, r, step).Success?
    ensures Apply(authorities, r, step).value == r
  {
  }

  /** A live step either keeps the publications or adds the one after the operational revision. */
  lemma LivePublicationsGrow(authorities: OperationalSafety.Assignments, r: Record, step: Step)
    requires ChainOk(r) && LiveOk(r) && r.live.Some? && !DraftStep(step) && Apply(authorities, r, step).Success?
    ensures var s := Apply(authorities, r, step).value;
            && s.live.Some? && s.live.value.baseRevision == r.live.value.baseRevision
            && (|| (s.live.value.history == r.live.value.history && s.live.value.publication == r.live.value.publication)
                || (exists p: LivePublication ::
                      && s.live.value.history == r.live.value.history + [p] && s.live.value.publication == Some(p)
                      && p.baseRevision == OperationalRevision(r) && p.revision == OperationalRevision(r) + 1))
  {
    if PublishingStep(step) { PublishingGrows(authorities, r, step); } else { OthersKeepPublications(authorities, r, step); }
  }

  lemma OthersKeepPublications(authorities: OperationalSafety.Assignments, r: Record, step: Step)
    requires r.live.Some? && !DraftStep(step) && !PublishingStep(step) && Apply(authorities, r, step).Success?
    ensures var s := Apply(authorities, r, step).value;
            && s.live.Some? && s.live.value.baseRevision == r.live.value.baseRevision
            && s.live.value.history == r.live.value.history && s.live.value.publication == r.live.value.publication
  {
    if CarryingStep(step) {
      StepCarries(authorities, r, step);
    } else {
      match step {
        case ActivateStep(revision, actor, initial) => ActivationKeepsDraft(r, revision, actor, authorities, initial);
        case OperationalStep(revision, command, delivery) => OperationalKeepsDraft(r, revision, command, delivery);
      }
    }
  }

  lemma PublishingGrows(authorities: OperationalSafety.Assignments, r: Record, step: Step)
    requires r.live.Some? && r.publication.Some? && PublishingStep(step) && Apply(authorities, r, step).Success?
    ensures var s := Apply(authorities, r, step).value;
            && s.live.Some? && s.live.value.baseRevision == r.live.value.baseRevision
            && (s == r || (s.live.value.publication.Some?
                           && s.live.value.history == r.live.value.history + [s.live.value.publication.value]
                           && s.live.value.publication.value.baseRevision == OperationalRevision(r)
                           && s.live.value.publication.value.revision == OperationalRevision(r) + 1))
  {
  }

  lemma OperationalRevisionCounts(r: Record)
    requires LiveOk(r) && r.live.Some?
    ensures OperationalRevision(r) == r.live.value.baseRevision + |r.live.value.history|
  {
    var history := r.live.value.history;
    if history != [] { assert history[|history| - 1].revision == r.live.value.baseRevision + 1 + (|history| - 1); }
  }

  lemma OneMorePublication(base: nat, history: seq<LivePublication>, p: LivePublication)
    requires Consecutive(base, history) && p.revision == base + |history| + 1 && p.baseRevision == base + |history|
    ensures Consecutive(base, history + [p])
  {
  }

  /** Once play is closed, a step changes only what is delivered and the credentials. */
  predicate Frozen(r: Record, s: Record) {
    && SameDraft(r, s) && s.closure == r.closure && s.id == r.id && s.organizationId == r.organizationId
    && (r.live.Some? <==> s.live.Some?)
    && (r.live.Some? ==> s.live.value == r.live.value.(delivery := s.live.value.delivery))
  }

  lemma ClosedStepIsFrozen(authorities: OperationalSafety.Assignments, r: Record, step: Step)
    requires ChainOk(r) && LiveOk(r) && r.closure.Some? && Apply(authorities, r, step).Success?
    ensures Frozen(r, Apply(authorities, r, step).value)
  {
    if DraftStep(step) { LiveRecordsAreNotRedrafted(authorities, r, step); }
  }

  lemma DraftStepKeepsLive(authorities: OperationalSafety.Assignments, r: Record, step: Step)
    requires ChainOk(r) && LiveOk(r) && DraftStep(step) && Apply(authorities, r, step).Success?
    ensures LiveOk(Apply(authorities, r, step).value)
  {
    if r.live.Some? { LiveRecordsAreNotRedrafted(authorities, r, step); }
  }

  lemma OpenStepKeepsLive(authorities: OperationalSafety.Assignments, r: Record, step: Step)
    requires ChainOk(r) && LiveOk(r) && r.live.Some? && r.closure.None?
    requires !DraftStep(step) && !step.CloseStep? && Apply(authorities, r, step).Success?
    ensures LiveOk(Apply(authorities, r, step).value)
  {
    var s := Apply(authorities, r, step).value;
    OtherStepsKeepDraft(authorities, r, step);
    LivePublicationsGrow(authorities, r, step);
    OperationalRevisionCounts(r);
    if s.live.value.history != r.live.value.history {
      OneMorePublication(r.live.value.baseRevision, r.live.value.history, s.live.value.publication.value);
    }
  }

  lemma CloseKeepsLive(r: Record, request: CloseRequest, evidence: Evidence)
    requires ChainOk(r) && LiveOk(r) && CloseCompetition(r, request, evidence).Success?
    ensures LiveOk(CloseCompetition(r, request, evidence).value)
  {
  }

  lemma StepKeepsLive(authorities: OperationalSafety.Assignments, r: Record, step: Step)
    requires ChainOk(r) && LiveOk(r) && Apply(authorities, r, step).Success?
    ensures ChainOk(Apply(authorities, r, step).value) && LiveOk(Apply(authorities, r, step).value)
  {
    if DraftStep(step) {
      DraftStepKeepsChain(authorities, r, step);
      DraftStepKeepsLive(authorities, r, step);
    } else {
      OtherStepsKeepDraft(authorities, r, step);
      if r.closure.Some? {
        ClosedStepIsFrozen(authorities, r, step);
      } else if step.CloseStep? {
        CloseKeepsLive(r, step.closing, step.evidence);
      } else if r.live.Some? {
        OpenStepKeepsLive(authorities, r, step);
      }
    }
  }

  lemma {:induction false} LiveHolds(authorities: OperationalSafety.Assignments, r: Record, steps: seq<Step>)
    requires ChainOk(r) && LiveOk(r)
    ensures ChainOk(After(authorities, r, steps)) && LiveOk(After(authorities, r, steps))
  {
    if steps != [] {
      var front, last := steps[..|steps| - 1], steps[|steps| - 1];
      LiveHolds(authorities, r, front);
      var before := After(authorities, r, front);
      if Apply(authorities, before, last).Success? { StepKeepsLive(authorities, before, last); }
    }
  }

  /**
   * Over every run, live publications number consecutively from the published revision, the last of them is the one
   * in force, and a closure names the published and operational revisions and the version of play that it closed.
   */
  lemma OperationalRevisionsAreConsecutive(authorities: OperationalSafety.Assignments, id: string, organizationId: string,
                                           steps: seq<Step>)
    ensures var r := After(authorities, Create(id, organizationId), steps);
            LiveOk(r) && (r.live.Some? ==> OperationalRevision(r) == r.publication.value.revision + |r.live.value.history|)
  {
    LiveHolds(authorities, Create(id, organizationId), steps);
    var r := After(authorities, Create(id, organizationId), steps);
    if r.live.Some? { OperationalRevisionCounts(r); }
  }

  lemma FrozenTransitive(r: Record, s: Record, t: Record)
    requires Frozen(r, s) && Frozen(s, t)
    ensures Frozen(r, t)
  {
  }

  /** Once a competition is closed, its plan, approval, publications, play, operations and closure never change. */
  lemma {:induction false} ClosedRecordsAreFrozen(authorities: OperationalSafety.Assignments, r: Record, steps: seq<Step>)
    requires ChainOk(r) && LiveOk(r) && r.closure.Some?
    ensures Frozen(r, After(authorities, r, steps))
  {
    if steps != [] {
      var front, last := steps[..|steps| - 1], steps[|steps| - 1];
      ClosedRecordsAreFrozen(authorities, r, front);
      LiveHolds(authorities, r, front);
      var before := After(authorities, r, front);
      if Apply(authorities, before, last).Success? {
        ClosedStepIsFrozen(authorities, before, last);
        FrozenTransitive(r, before, After(authorities, r, steps));
      }
    }
  }

  // ---------------------------------------------------------------- closing and the authorities of operations

  /** The operations record is what some run of operational commands makes of the first authorities. */
  ghost predicate OperationsOk(authorities: OperationalSafety.Assignments, r: Record) {
    r.live.Some? ==>
      && OperationalSafety.ValidAuthority(authorities)
      && exists commands :: r.live.value.operations == OperationalSafety.Run(OperationalSafety.InitialState(authorities), commands)
  }

  lemma DraftStepKeepsOperations(authorities: OperationalSafety.Assignments, r: Record, step: Step)
    requires DraftStep(step) && Apply(authorities, r, step).Success?
    ensures var s := Apply(authorities, r, step).value;
            s.live.Some? ==> r.live.Some? && s.live.value.operations == r.live.value.operations
  {
  }

  lemma SameOperations(authorities: OperationalSafety.Assignments, r: Record, step: Step)
    requires !step.ActivateStep? && !step.OperationalStep? && Apply(authorities, r, step).Success?
    ensures var s := Apply(authorities, r, step).value;
            s.live.Some? ==> r.live.Some? && s.live.value.operations == r.live.value.operations
  {
    if CarryingStep(step) {
      StepCarries(authorities, r, step);
    } else if DraftStep(step) {
      DraftStepKeepsOperations(authorities, r, step);
    } else {
      PublishingKeepsDraft(authorities, r, step);
    }
  }

  lemma OperationalStepRuns(authorities: OperationalSafety.Assignments, r: Record, revision: nat, command: OperationalSafety.Command,
                            delivery: seq<string>)
    requires OperationsOk(authorities, r) && SubmitOperationalCommand(r, revision, command, delivery).Success?
    ensures OperationsOk(authorities, SubmitOperationalCommand(r, revision, command, delivery).value)
  {
    var s := SubmitOperationalCommand(r, revision, command, delivery).value;
    var start := OperationalSafety.InitialState(authorities);
    var commands :| r.live.value.operations == OperationalSafety.Run(start, commands);
    OperationalSafety.RunSnoc(start, commands, command);
    if s != r { assert s.live.value.operations == OperationalSafety.Run(start, commands + [command]); }
  }

  lemma ActivationRuns(authorities: OperationalSafety.Assignments, r: Record, revision: nat, actor: string, initial: LiveState)
    requires OperationsOk(authorities, r) && ActivateLive(r, revision, actor, authorities, initial).Success?
    ensures OperationsOk(authorities, ActivateLive(r, revision, actor, authorities, initial).value)
  {
    var s := ActivateLive(r, revision, actor, authorities, initial).value;
    if s != r {
      assert s.live.value.operations == OperationalSafety.Run(OperationalSafety.InitialState(authorities), []);
    }
  }

  lemma {:induction false} OperationsHold(authorities: OperationalSafety.Assignments, id: string, organizationId: string, steps: seq<Step>)
    ensures OperationsOk(authorities, After(authorities, Create(id, organizationId), steps))
  {
    if steps != [] {
      var front, last := steps[..|steps| - 1], steps[|steps| - 1];
      OperationsHold(authorities, id, organizationId, front);
      var before := After(authorities, Create(id, organizationId), front);
      if Apply(authorities, before, last).Success? {
        match last {
          case ActivateStep(revision, activator, initial) => ActivationRuns(authorities, before, revision, activator, initial);
          case OperationalStep(revision, command, delivery) => OperationalStepRuns(authorities, before, revision, command, delivery);
          case _ => SameOperations(authorities, before, last);
        }
      }
    }
  }

  /**
   * Over every run, a competition is closed by a new closure only while every operational authority is back with
   * its first holder: after a transfer that has not been returned, closing is refused.
   */
  lemma ClosingNeedsTheFirstAuthorities(authorities: OperationalSafety.Assignments, id: string, organizationId: string,
                                        steps: seq<Step>, request: CloseRequest, evidence: Evidence)
    requires After(authorities, Create(id, organizationId), steps).closure.None?
    requires CloseCompetition(After(authorities, Create(id, organizationId), steps), request, evidence).Success?
    ensures var r := After(authorities, Create(id, organizationId), steps);
            r.live.Some? && r.live.value.operations.body.assignments == authorities
  {
    OperationsHold(authorities, id, organizationId, steps);
    ClosingChecksOperations(authorities, After(authorities, Create(id, organizationId), steps), request, evidence);
  }

  lemma ClosingChecksOperations(authorities: OperationalSafety.Assignments, r: Record, request: CloseRequest, evidence: Evidence)
    requires OperationsOk(authorities, r) && r.closure.None? && CloseCompetition(r, request, evidence).Success?
    ensures r.live.Some? && r.live.value.operations.body.assignments == authorities
  {
    var commands :| r.live.value.operations == OperationalSafety.Run(OperationalSafety.InitialState(authorities), commands);
    OperationalSafety.VerifyHoldsIffAuthoritiesReturned(authorities, commands);
  }

  /** A closure that the record holds is one that verification accepts from the play it closed. */
  lemma NewClosureVerifies(r: Record, request: CloseRequest, evidence: Evidence)
    requires r.closure.None? && CloseCompetition(r, request, evidence).Success?
    ensures var s := CloseCompetition(r, request, evidence).value;
            && s.closure.Some?
            && Closure.Verify(s.closure.value, Closure.Records(
                 r.live.value.state, evidence.disputes, r.live.value.operations.body.mode, evidence.authority))
            && Frozen(r.(closure := s.closure), s)
  {
    var s := CloseCompetition(r, request, evidence).value;
    var records := Closure.Records(r.live.value.state, evidence.disputes, r.live.value.operations.body.mode, evidence.authority);
    var closing := Closure.Request(r.organizationId, r.id, r.publication.value.revision, OperationalRevision(r), request.closedBy,
                                   Canonical(evidence.now), request.codes, evidence.delivered);
    assert Closure.Derive(closing, records) == Success(s.closure.value);
    Closure.VerifiedIffDerived(s.closure.value, records);
  }
}
