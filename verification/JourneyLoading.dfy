/**
 * The check that a stored record must pass to be loaded again, and which runs of journey steps store a record that
 * does not pass it.
 */
module JourneyLoading {
  import opened Wrappers
  import opened Timestamps
  import opened Texts
  import opened LiveModel
  import OperationalSafety
  import SortedSets
  import opened JourneyRecord
  import opened JourneyRuns

  /** An amendment is before play, and compiles to the revision after the one it amends. */
  predicate AmendmentLoads(r: Record) {
    r.amendment.Some? ==>
      var base := r.amendment.value.base;
      && r.live.None? && r.closure.None? && r.approval.None? && r.publication.None?
      && base.publication.revision == base.compiled.revision == base.approval.revision
      && (r.compiled.Some? ==> r.compiled.value.revision == base.compiled.revision + 1)
  }

  /** The log of operations replays from the authorities that the record holds now. */
  predicate OperationsLoad(r: Record) {
    r.live.Some? ==> OperationalSafety.Verify(r.live.value.operations) == Success(true)
  }

  /** The record still holds the proposal that its live publication was made from. */
  predicate Backed(r: Record) {
    r.live.Some? && r.live.value.publication.Some? ==>
      match r.live.value.publication.value.source
      case FromNoShow(proposal, _) => r.live.value.proposal == Some(proposal)
      case FromChange(change) => r.live.value.change == Some(change)
  }

  /** The live publication is the next revision, of the play it was made from, approved by somebody other than the proposer. */
  predicate PublicationOk(r: Record) {
    r.live.Some? && r.live.value.publication.Some? ==>
      var p := r.live.value.publication.value;
      && p.revision == p.baseRevision + 1
      && match p.source
         case FromNoShow(proposal, option) =>
           option in proposal.options && p.approvedBy != proposal.proposedBy && p.baseRevision == r.live.value.baseRevision
           && p.stateVersion == option.state.version
         case FromChange(change) =>
           p.approvedBy != change.proposedBy && p.baseRevision == change.baseOperationalRevision
           && p.stateVersion == change.approved.version
  }

  /** The clauses of the check on amendments, operations, live publications and closures. */
  predicate Loads(r: Record) {
    && AmendmentLoads(r)
    && (r.live.None? ==> r.closure.None?)
    && OperationsLoad(r)
    && PublicationOk(r) && Backed(r)
    && (r.live.Some? ==> Last(r.live.value.history) == r.live.value.publication)
    && (r.closure.Some? ==>
          && r.publication.Some?
          && r.closure.value.body.publishedRevision == r.publication.value.revision
          && r.closure.value.body.operationalRevision == OperationalRevision(r))
  }

  // ---------------------------------------------------------------- amendments: how often the draft was compiled

  /** How many compilations have succeeded since the draft was last edited or reopened. */
  ghost function Compilations(authorities: OperationalSafety.Assignments, r: Record, steps: seq<Step>): nat {
    if steps == [] then 0
    else
      var front, last := steps[..|steps| - 1], steps[|steps| - 1];
      if Apply(authorities, After(authorities, r, front), last).Failure? then Compilations(authorities, r, front)
      else if last.EditStep? || last.AmendStep? then 0
      else Compilations(authorities, r, front) + if last.CompileStep? then 1 else 0
  }

  /** The revision that a draft's compilations count from. */
  function AmendedRevision(r: Record): nat {
    if r.amendment.Some? then r.amendment.value.base.compiled.revision else 0
  }

  predicate Counts(r: Record, n: nat) {
    && (r.compiled.Some? <==> n > 0)
    && (r.compiled.Some? && r.publication.None? ==> r.compiled.value.revision == AmendedRevision(r) + n)
  }

  lemma DraftStepCounts(authorities: OperationalSafety.Assignments, r: Record, step: Step, n: nat)
    requires ChainOk(r) && Counts(r, n) && DraftStep(step) && Apply(authorities, r, step).Success?
    ensures Counts(Apply(authorities, r, step).value,
                   if step.EditStep? || step.AmendStep? then 0 else n + if step.CompileStep? then 1 else 0)
  {
  }

  /** A draft that was compiled n times since its last edit holds the nth revision after the one it amends. */
  lemma {:induction false} CompilationsCount(authorities: OperationalSafety.Assignments, id: string, organizationId: string,
                                             steps: seq<Step>)
    ensures Counts(After(authorities, Create(id, organizationId), steps), Compilations(authorities, Create(id, organizationId), steps))
  {
    if steps != [] {
      var start, front, last := Create(id, organizationId), steps[..|steps| - 1], steps[|steps| - 1];
      CompilationsCount(authorities, id, organizationId, front);
      ChainHolds(authorities, id, organizationId, front);
      var before := After(authorities, start, front);
      if Apply(authorities, before, last).Success? {
        if DraftStep(last) {
          DraftStepCounts(authorities, before, last, Compilations(authorities, start, front));
        } else {
          OtherStepsKeepDraft(authorities, before, last);
        }
      }
    }
  }

  /** Over every run, an amendment loads exactly when it was compiled at most once since it was last edited or reopened. */
  lemma AmendmentLoadsIffCompiledOnce(authorities: OperationalSafety.Assignments, id: string, organizationId: string, steps: seq<Step>)
    ensures var r := After(authorities, Create(id, organizationId), steps);
            AmendmentLoads(r) <==> (r.amendment.Some? ==> Compilations(authorities, Create(id, organizationId), steps) <= 1)
  {
    CompilationsCount(authorities, id, organizationId, steps);
    ChainHolds(authorities, id, organizationId, steps);
    LiveHolds(authorities, Create(id, organizationId), steps);
  }

  // ---------------------------------------------------------------- live publications: whether their proposal was replaced

  predicate Publishes(r: Record, s: Record) {
    r.live.Some? && s.live.Some? && s.live.value.history != r.live.value.history
  }

  /** A new closure or overrun proposal is stored beside a live publication. */
  predicate Displaces(r: Record, s: Record) {
    r.live.Some? && s.live.Some? && r.live.value.publication.Some? && s.live.value.change != r.live.value.change
  }

  /** Whether a new closure or overrun was proposed after the live publication in force. */
  ghost function Displaced(authorities: OperationalSafety.Assignments, r: Record, steps: seq<Step>): bool {
    if steps == [] then false
    else
      var front := steps[..|steps| - 1];
      var before, after := After(authorities, r, front), After(authorities, r, steps);
      if Publishes(before, after) then false else Displaced(authorities, r, front) || Displaces(before, after)
  }

  /** What a step makes of the proposals behind the live publication. */
  predicate Tracks(r: Record, s: Record) {
    PublicationOk(s) && (Backed(s) <==> Publishes(r, s) || (Backed(r) && !Displaces(r, s)))
  }

  predicate SamePublication(r: Record, s: Record) {
    r.live.Some? && s.live.Some? && s.live.value.baseRevision == r.live.value.baseRevision
    && s.live.value.publication == r.live.value.publication && s.live.value.history == r.live.value.history
    && s.live.value.proposal == r.live.value.proposal && s.live.value.change == r.live.value.change
  }

  lemma SamePublicationTracks(r: Record, s: Record)
    requires PublicationOk(r) && SamePublication(r, s)
    ensures Tracks(r, s)
  {
  }

  lemma OtherStepsKeepProposals(authorities: OperationalSafety.Assignments, r: Record, step: Step)
    requires r.live.Some? && !DraftStep(step) && !ProposalStep(step) && Apply(authorities, r, step).Success?
    ensures SamePublication(r, Apply(authorities, r, step).value)
  {
    match step {
      case ActivateStep(revision, actor, initial) => ActivationKeepsDraft(r, revision, actor, authorities, initial);
      case LiveStep(revision, command, competition, delivery) =>
        assert SamePublication(r, SubmitLiveCommand(r, revision, command, competition, delivery).value);
      case OperationalStep(revision, command, delivery) =>
        assert SamePublication(r, SubmitOperationalCommand(r, revision, command, delivery).value);
      case CloseStep(request, evidence) => assert SamePublication(r, CloseCompetition(r, request, evidence).value);
      case CredentialStep(signing, credential) => assert SamePublication(r, UseCredentials(r, signing, credential).value);
      case DeliveryStep(delivery) => assert SamePublication(r, UpdateDelivery(r, delivery).value);
    }
  }

  lemma NoShowProposalTracks(r: Record, revision: nat, version: nat, request: NoShowRequest, options: Option<seq<NoShowOption>>)
    requires LiveOk(r) && PublicationOk(r) && ProposeNoShow(r, revision, version, request, options).Success?
    ensures Tracks(r, ProposeNoShow(r, revision, version, request, options).value)
  {
  }

  /** A new proposal is not the one published last: it starts from a later operational revision. */
  lemma ChangeProposalTracks(r: Record, revision: nat, version: nat, request: ChangeRequest, approved: Option<LiveState>)
    requires LiveOk(r) && PublicationOk(r) && ProposeResourceChange(r, revision, version, request, approved).Success?
    ensures Tracks(r, ProposeResourceChange(r, revision, version, request, approved).value)
  {
    var s := ProposeResourceChange(r, revision, version, request, approved).value;
    if s != r && r.live.value.publication.Some? {
      var p := r.live.value.publication.value;
      assert s.live.value.change.value.baseOperationalRevision == p.revision > p.baseRevision;
      assert s.live.value.change != r.live.value.change;
    }
  }

  lemma NoShowApprovalTracks(r: Record, revision: nat, proposal: NoShowProposal, option: NoShowOption, actor: string, at: Stamp,
                             delivery: seq<string>)
    requires PublicationOk(r) && ApproveNoShow(r, revision, proposal, option, actor, at, delivery).Success?
    ensures Tracks(r, ApproveNoShow(r, revision, proposal, option, actor, at, delivery).value)
  {
    var s := ApproveNoShow(r, revision, proposal, option, actor, at, delivery).value;
    if s != r { assert |s.live.value.history| == |r.live.value.history| + 1; }
  }

  lemma ChangeApprovalTracks(r: Record, revision: nat, proposal: ResourceProposal, kind: ChangeKind, actor: string, at: Stamp,
                             regenerates: bool, delivery: seq<string>)
    requires PublicationOk(r) && ApproveResourceChange(r, revision, proposal, kind, actor, at, regenerates, delivery).Success?
    ensures Tracks(r, ApproveResourceChange(r, revision, proposal, kind, actor, at, regenerates, delivery).value)
  {
    var s := ApproveResourceChange(r, revision, proposal, kind, actor, at, regenerates, delivery).value;
    if s != r { assert |s.live.value.history| == |r.live.value.history| + 1; }
  }

  predicate ProposalStep(step: Step) {
    step.ProposeNoShowStep? || step.ProposeChangeStep? || PublishingStep(step)
  }

  lemma ProposalStepTracks(authorities: OperationalSafety.Assignments, r: Record, step: Step)
    requires LiveOk(r) && PublicationOk(r) && ProposalStep(step) && Apply(authorities, r, step).Success?
    ensures Tracks(r, Apply(authorities, r, step).value)
  {
    match step {
      case ProposeNoShowStep(revision, version, request, options) => NoShowProposalTracks(r, revision, version, request, options);
      case ProposeChangeStep(revision, version, request, approved) => ChangeProposalTracks(r, revision, version, request, approved);
      case ApproveNoShowStep(revision, proposal, option, actor, at, delivery) =>
        NoShowApprovalTracks(r, revision, proposal, option, actor, at, delivery);
      case ApproveChangeStep(revision, proposal, kind, actor, at, regenerates, delivery) =>
        ChangeApprovalTracks(r, revision, proposal, kind, actor, at, regenerates, delivery);
    }
  }

  lemma StepTracks(authorities: OperationalSafety.Assignments, r: Record, step: Step)
    requires ChainOk(r) && LiveOk(r) && PublicationOk(r) && Apply(authorities, r, step).Success?
    ensures Tracks(r, Apply(authorities, r, step).value)
  {
    if r.live.None? {
      NothingPublishedYet(authorities, r, step);
    } else if DraftStep(step) {
      LiveRecordsAreNotRedrafted(authorities, r, step);
    } else if ProposalStep(step) {
      ProposalStepTracks(authorities, r, step);
    } else {
      OtherStepsKeepProposals(authorities, r, step);
      SamePublicationTracks(r, Apply(authorities, r, step).value);
    }
  }

  lemma NothingPublishedYet(authorities: OperationalSafety.Assignments, r: Record, step: Step)
    requires r.live.None? && Apply(authorities, r, step).Success?
    ensures var s := Apply(authorities, r, step).value; s.live.Some? ==> s.live.value.publication.None?
  {
    if step.ActivateStep? {
      assert var s := ActivateLive(r, step.expectedRevision, step.activatedBy, authorities, step.initial).value;
             s.live.value.publication.None?;
    } else if DraftStep(step) {
      DraftStepKeepsOperations(authorities, r, step);
    } else {
      SameOperationsWithoutPlay(authorities, r, step);
    }
  }

  lemma SameOperationsWithoutPlay(authorities: OperationalSafety.Assignments, r: Record, step: Step)
    requires r.live.None? && !DraftStep(step) && !step.ActivateStep? && Apply(authorities, r, step).Success?
    ensures Apply(authorities, r, step).value.live.None?
  {
    if !step.OperationalStep? { SameOperations(authorities, r, step); }
  }

  /** Over every run, the live publication is backed by its proposal exactly when no closure or overrun was proposed since. */
  lemma {:induction false} BackedIffNotDisplaced(authorities: OperationalSafety.Assignments, id: string, organizationId: string,
                                                 steps: seq<Step>)
    ensures var start := Create(id, organizationId);
            && PublicationOk(After(authorities, start, steps))
            && (Backed(After(authorities, start, steps)) <==> !Displaced(authorities, start, steps))
  {
    if steps != [] {
      var start, front, last := Create(id, organizationId), steps[..|steps| - 1], steps[|steps| - 1];
      BackedIffNotDisplaced(authorities, id, organizationId, front);
      ChainHolds(authorities, id, organizationId, front);
      LiveHolds(authorities, start, front);
      var before := After(authorities, start, front);
      if Apply(authorities, before, last).Success? { StepTracks(authorities, before, last); }
    }
  }

  // ---------------------------------------------------------------- exactly which runs load

  /** Over every run, the log of operations loads exactly when every authority is back with its first holder. */
  lemma OperationsLoadIffAuthoritiesReturned(authorities: OperationalSafety.Assignments, id: string, organizationId: string,
                                             steps: seq<Step>)
    ensures var r := After(authorities, Create(id, organizationId), steps);
            OperationsLoad(r) <==> (r.live.Some? ==> r.live.value.operations.body.assignments == authorities)
  {
    OperationsHold(authorities, id, organizationId, steps);
    var r := After(authorities, Create(id, organizationId), steps);
    if r.live.Some? {
      var commands :| r.live.value.operations == OperationalSafety.Run(OperationalSafety.InitialState(authorities), commands);
      OperationalSafety.VerifyHoldsIffAuthoritiesReturned(authorities, commands);
    }
  }

  /**
   * The record after a run loads exactly when an amendment in it was compiled at most once since it was last edited
   * or reopened, every operational authority is back with its first holder, and no closure or overrun was proposed
   * after the live publication in force.
   */
  lemma LoadsIff(authorities: OperationalSafety.Assignments, id: string, organizationId: string, steps: seq<Step>)
    ensures var start := Create(id, organizationId);
            var r := After(authorities, start, steps);
            Loads(r) <==>
              && (r.amendment.Some? ==> Compilations(authorities, start, steps) <= 1)
              && (r.live.Some? ==> r.live.value.operations.body.assignments == authorities)
              && !Displaced(authorities, start, steps)
  {
    AmendmentLoadsIffCompiledOnce(authorities, id, organizationId, steps);
    OperationsLoadIffAuthoritiesReturned(authorities, id, organizationId, steps);
    BackedIffNotDisplaced(authorities, id, organizationId, steps);
    ChainHolds(authorities, id, organizationId, steps);
    LiveHolds(authorities, Create(id, organizationId), steps);
  }

  // ---------------------------------------------------------------- runs that do not load

  lemma Extend(authorities: OperationalSafety.Assignments, start: Record, steps: seq<Step>, r: Record, step: Step, s: Record)
    requires After(authorities, start, steps) == r && Apply(authorities, r, step) == Success(s)
    ensures After(authorities, start, steps + [step]) == s
    ensures Compilations(authorities, start, steps + [step])
            == if step.EditStep? || step.AmendStep? then 0
               else Compilations(authorities, start, steps) + if step.CompileStep? then 1 else 0
  {
    assert (steps + [step])[..|steps|] == steps;
  }

  /** Who takes part in a run, and the plan that they publish. */
  datatype Cast = Cast(compiler: string, approver: string, organiser: string, plan: string, guard: Guard)
  {
    predicate Independent() {
      NonBlank(approver) && approver != compiler && approver !in {PUBLISHER, LIVE_PUBLISHER, organiser} && NonBlank(organiser) && guard.passed
    }

    function CompileAt(draftVersion: nat): Step {
      CompileStep(draftVersion, true, Compilation(compiler, plan, guard))
    }

    function CompiledAs(revision: nat): Compiled {
      Compiled(revision, compiler, plan, guard, true)
    }

    function Publishing(): seq<Step> {
      [] + [CompileAt(1)] + [ApproveStep(1, approver, guard.requiredCodes, guard)]
    }

    function Published(id: string, organizationId: string): Record {
      Create(id, organizationId).(
        compiled := Some(CompiledAs(1)),
        approval := Some(Approval(1, approver, SortedSets.SortedUnique(guard.requiredCodes))),
        publication := Some(Publication(1, plan, guard.reportHash)))
    }
  }

  lemma CompiledOnce(r: Record, cast: Cast)
    requires r.approval.None?
    ensures Compile(r, r.draftVersion, true, Compilation(cast.compiler, cast.plan, cast.guard))
            == Success(r.(compiled := Some(cast.CompiledAs(NextRevision(r)))))
  {
  }

  lemma PublishedRun(authorities: OperationalSafety.Assignments, id: string, organizationId: string, cast: Cast)
    requires cast.Independent()
    ensures After(authorities, Create(id, organizationId), cast.Publishing()) == cast.Published(id, organizationId)
  {
    var start := Create(id, organizationId);
    CompiledOnce(start, cast);
    var compiled := start.(compiled := Some(cast.CompiledAs(1)));
    Extend(authorities, start, [], start, cast.CompileAt(1), compiled);
    var approve := ApproveStep(1, cast.approver, cast.guard.requiredCodes, cast.guard);
    assert compiled.publicationHistory + [] == [];
    assert Approve(compiled, 1, cast.approver, cast.guard.requiredCodes, cast.guard) == Success(cast.Published(id, organizationId));
    Extend(authorities, start, [] + [cast.CompileAt(1)], compiled, approve, cast.Published(id, organizationId));
  }

  function Reopening(cast: Cast): seq<Step> {
    cast.Publishing() + [AmendStep(1, cast.organiser)]
  }

  function Reopened(id: string, organizationId: string, cast: Cast): Record {
    var published := cast.Published(id, organizationId);
    var base := Base(published.compiled.value, published.approval.value, published.publication.value);
    published.(draftVersion := 2, compiled := None, approval := None, publication := None,
               amendment := Some(Amendment(cast.organiser, base)))
  }

  lemma ReopenedRun(authorities: OperationalSafety.Assignments, id: string, organizationId: string, cast: Cast)
    requires cast.Independent()
    ensures var start := Create(id, organizationId);
            && After(authorities, start, Reopening(cast)) == Reopened(id, organizationId, cast)
            && Compilations(authorities, start, Reopening(cast)) == 0
  {
    var published := cast.Published(id, organizationId);
    PublishedRun(authorities, id, organizationId, cast);
    assert Amend(published, 1, cast.organiser) == Success(Reopened(id, organizationId, cast));
    Extend(authorities, Create(id, organizationId), cast.Publishing(), published, AmendStep(1, cast.organiser),
           Reopened(id, organizationId, cast));
  }

  lemma CompileMore(authorities: OperationalSafety.Assignments, start: Record, steps: seq<Step>, r: Record, cast: Cast)
    requires After(authorities, start, steps) == r && r.approval.None?
    ensures After(authorities, start, steps + [cast.CompileAt(r.draftVersion)])
            == r.(compiled := Some(cast.CompiledAs(NextRevision(r))))
    ensures Compilations(authorities, start, steps + [cast.CompileAt(r.draftVersion)]) == Compilations(authorities, start, steps) + 1
  {
    CompiledOnce(r, cast);
    Extend(authorities, start, steps, r, cast.CompileAt(r.draftVersion), r.(compiled := Some(cast.CompiledAs(NextRevision(r)))));
  }

  function Recompiling(cast: Cast): seq<Step> {
    Reopening(cast) + [cast.CompileAt(2)] + [cast.CompileAt(2)]
  }

  lemma RecompiledRun(authorities: OperationalSafety.Assignments, id: string, organizationId: string, cast: Cast)
    requires cast.Independent()
    ensures var start := Create(id, organizationId);
            && After(authorities, start, Recompiling(cast)) == Reopened(id, organizationId, cast).(compiled := Some(cast.CompiledAs(3)))
            && Compilations(authorities, start, Recompiling(cast)) == 2
  {
    var start, reopened := Create(id, organizationId), Reopened(id, organizationId, cast);
    ReopenedRun(authorities, id, organizationId, cast);
    CompileMore(authorities, start, Reopening(cast), reopened, cast);
    CompileMore(authorities, start, Reopening(cast) + [cast.CompileAt(2)], reopened.(compiled := Some(cast.CompiledAs(2))), cast);
  }

  /** A published revision that is amended and compiled twice does not load. */
  lemma RecompiledAmendmentDoesNotLoad(authorities: OperationalSafety.Assignments, id: string, organizationId: string, cast: Cast)
    requires cast.Independent()
    ensures var r := After(authorities, Create(id, organizationId), Recompiling(cast));
            && r.amendment.Some? && r.compiled == Some(cast.CompiledAs(3))
            && Compilations(authorities, Create(id, organizationId), Recompiling(cast)) == 2 && !Loads(r)
  {
    RecompiledRun(authorities, id, organizationId, cast);
  }

  function Playing(cast: Cast, initial: LiveState): seq<Step> {
    cast.Publishing() + [ActivateStep(1, cast.organiser, initial)]
  }

  function InPlay(authorities: OperationalSafety.Assignments, id: string, organizationId: string, cast: Cast, initial: LiveState): Record {
    cast.Published(id, organizationId).(
      live := Some(Live(1, initial, OperationalSafety.InitialState(authorities), None, [], None, None, [])))
  }

  lemma PlayingRun(authorities: OperationalSafety.Assignments, id: string, organizationId: string, cast: Cast, initial: LiveState)
    requires cast.Independent() && OperationalSafety.ValidAuthority(authorities)
    ensures After(authorities, Create(id, organizationId), Playing(cast, initial)) == InPlay(authorities, id, organizationId, cast, initial)
  {
    PublishedRun(authorities, id, organizationId, cast);
    var published := cast.Published(id, organizationId);
    assert ActivateLive(published, 1, cast.organiser, authorities, initial)
        == Success(InPlay(authorities, id, organizationId, cast, initial));
    Extend(authorities, Create(id, organizationId), cast.Publishing(), published, ActivateStep(1, cast.organiser, initial),
           InPlay(authorities, id, organizationId, cast, initial));
  }

  lemma TransferStep(r: Record, authorities: OperationalSafety.Assignments, f: OperationalSafety.Authority, newActorId: string)
    returns (s: Record)
    requires Projects(r, 1) && r.closure.None? && r.live.value.operations == OperationalSafety.InitialState(authorities)
    requires OperationalSafety.ValidAuthority(authorities) && ValidText(newActorId, 160) && newActorId != authorities.Holder(f)
    ensures SubmitOperationalCommand(r, 1, OperationalSafety.FirstTransfer(authorities, f, newActorId), []) == Success(s)
    ensures s.live.Some? && s.live.value.operations.body.assignments == authorities.Transfer(f, newActorId) && !OperationsLoad(s)
  {
    OperationalSafety.OneTransferIsNotVerified(authorities, f, newActorId);
    var result := OperationalSafety.Submit(r.live.value.operations, OperationalSafety.FirstTransfer(authorities, f, newActorId));
    s := r.(live := Some(r.live.value.(operations := result.state, delivery := [])));
  }

  /** A competition in which one authority was handed over does not load. */
  lemma TransferredAuthorityDoesNotLoad(authorities: OperationalSafety.Assignments, id: string, organizationId: string, cast: Cast,
                                        initial: LiveState, f: OperationalSafety.Authority, newActorId: string)
    requires cast.Independent() && OperationalSafety.ValidAuthority(authorities)
    requires ValidText(newActorId, 160) && newActorId != authorities.Holder(f)
    ensures var step := OperationalStep(1, OperationalSafety.FirstTransfer(authorities, f, newActorId), []);
            var r := After(authorities, Create(id, organizationId), Playing(cast, initial) + [step]);
            && r.live.Some? && r.live.value.operations.body.assignments == authorities.Transfer(f, newActorId)
            && !Loads(r)
  {
    PlayingRun(authorities, id, organizationId, cast, initial);
    TransferExtends(authorities, Create(id, organizationId), Playing(cast, initial),
                    InPlay(authorities, id, organizationId, cast, initial), f, newActorId);
  }

  lemma TransferExtends(authorities: OperationalSafety.Assignments, start: Record, steps: seq<Step>, r: Record,
                        f: OperationalSafety.Authority, newActorId: string)
    requires After(authorities, start, steps) == r
    requires Projects(r, 1) && r.closure.None? && r.live.value.operations == OperationalSafety.InitialState(authorities)
    requires OperationalSafety.ValidAuthority(authorities) && ValidText(newActorId, 160) && newActorId != authorities.Holder(f)
    ensures var step := OperationalStep(1, OperationalSafety.FirstTransfer(authorities, f, newActorId), []);
            var s := After(authorities, start, steps + [step]);
            s.live.Some? && s.live.value.operations.body.assignments == authorities.Transfer(f, newActorId) && !OperationsLoad(s)
  {
    var s := TransferStep(r, authorities, f, newActorId);
    Extend(authorities, start, steps, r, OperationalStep(1, OperationalSafety.FirstTransfer(authorities, f, newActorId), []), s);
  }

  function Closing(cast: Cast, initial: LiveState, approved: LiveState, first: ChangeRequest): seq<Step>
    requires first.OutageRequest?
  {
    Playing(cast, initial) + [ProposeChangeStep(1, initial.version, first, Some(approved))]
    + [ApproveChangeStep(1, ProposalFor(first, first.courtId, 1, initial, approved), CourtOutage, cast.approver, first.proposedAt, true, [])]
  }

  function ClosingPublished(r: Record, cast: Cast, initial: LiveState, approved: LiveState, first: ChangeRequest): Record
    requires first.OutageRequest? && r.live.Some?
  {
    var proposal := ProposalFor(first, first.courtId, 1, initial, approved);
    var publication := LivePublication(2, 1, FromChange(proposal), approved.version, cast.approver);
    r.(live := Some(Publish(r.live.value.(proposal := None, change := Some(proposal)), approved, publication, [])))
  }

  lemma ClosingRun(authorities: OperationalSafety.Assignments, id: string, organizationId: string, cast: Cast, initial: LiveState,
                   approved: LiveState, first: ChangeRequest)
    requires cast.Independent() && OperationalSafety.ValidAuthority(authorities)
    requires first.OutageRequest? && first.proposedAt.Canonical? && first.proposedBy == cast.organiser
    ensures After(authorities, Create(id, organizationId), Closing(cast, initial, approved, first))
            == ClosingPublished(InPlay(authorities, id, organizationId, cast, initial), cast, initial, approved, first)
  {
    PlayingRun(authorities, id, organizationId, cast, initial);
    ClosingExtends(authorities, Create(id, organizationId), Playing(cast, initial),
                   InPlay(authorities, id, organizationId, cast, initial), cast, initial, approved, first);
  }

  lemma ClosingExtends(authorities: OperationalSafety.Assignments, start: Record, steps: seq<Step>, r: Record, cast: Cast,
                       initial: LiveState, approved: LiveState, first: ChangeRequest)
    requires After(authorities, start, steps) == r
    requires cast.Independent() && first.OutageRequest? && first.proposedAt.Canonical? && first.proposedBy == cast.organiser
    requires Projects(r, 1) && r.closure.None? && r.live.value.state == initial && r.live.value.change.None?
    requires r.live.value.publication.None? && r.live.value.history == [] && r.live.value.operations.body.mode.Normal?
    ensures var propose := ProposeChangeStep(1, initial.version, first, Some(approved));
            var approve := ApproveChangeStep(1, ProposalFor(first, first.courtId, 1, initial, approved), CourtOutage, cast.approver,
                                             first.proposedAt, true, []);
            After(authorities, start, steps + [propose] + [approve]) == ClosingPublished(r, cast, initial, approved, first)
  {
    var proposal := ProposalFor(first, first.courtId, 1, initial, approved);
    var proposed := r.(live := Some(r.live.value.(proposal := None, change := Some(proposal))));
    ClosingAccepted(r, cast, initial, approved, first, proposed);
    var propose := ProposeChangeStep(1, initial.version, first, Some(approved));
    Extend(authorities, start, steps, r, propose, proposed);
    Extend(authorities, start, steps + [propose], proposed,
           ApproveChangeStep(1, proposal, CourtOutage, cast.approver, first.proposedAt, true, []),
           ClosingPublished(r, cast, initial, approved, first));
  }

  lemma ClosingAccepted(r: Record, cast: Cast, initial: LiveState, approved: LiveState, first: ChangeRequest, proposed: Record)
    requires cast.Independent() && first.OutageRequest? && first.proposedAt.Canonical? && first.proposedBy == cast.organiser
    requires Projects(r, 1) && r.closure.None? && r.live.value.state == initial && r.live.value.change.None?
    requires r.live.value.publication.None? && r.live.value.history == [] && r.live.value.operations.body.mode.Normal?
    requires proposed == r.(live := Some(r.live.value.(
                            proposal := None, change := Some(ProposalFor(first, first.courtId, 1, initial, approved)))))
    ensures ProposeResourceChange(r, 1, initial.version, first, Some(approved)) == Success(proposed)
    ensures ApproveResourceChange(proposed, 1, ProposalFor(first, first.courtId, 1, initial, approved), CourtOutage, cast.approver,
                                  first.proposedAt, true, []) == Success(ClosingPublished(r, cast, initial, approved, first))
  {
  }

  function Displacing(cast: Cast, initial: LiveState, approved: LiveState, first: ChangeRequest, second: ChangeRequest): seq<Step>
    requires first.OutageRequest? && second.OutageRequest?
  {
    Closing(cast, initial, approved, first) + [ProposeChangeStep(2, approved.version, second, Some(approved))]
  }

  lemma DisplacingAccepted(r: Record, approved: LiveState, second: ChangeRequest) returns (s: Record)
    requires Projects(r, 2) && r.closure.None? && r.live.value.state == approved && second.OutageRequest?
    requires r.live.value.change.Some? && r.live.value.change.value.id != second.id
    requires r.live.value.publication.Some? && r.live.value.publication.value.source == FromChange(r.live.value.change.value)
    ensures ProposeResourceChange(r, 2, approved.version, second, Some(approved)) == Success(s)
    ensures s.live.Some? && s.live.value.publication.Some? && s.live.value.change.Some? && s.live.value.change.value.id == second.id
    ensures !Backed(s)
  {
    var another := ProposalFor(second, second.courtId, 2, approved, approved);
    s := r.(live := Some(r.live.value.(proposal := None, change := Some(another))));
  }

  /** A competition in which a closure was published, and another was proposed after it, does not load. */
  lemma SecondClosureDoesNotLoad(authorities: OperationalSafety.Assignments, id: string, organizationId: string, cast: Cast,
                                 initial: LiveState, approved: LiveState, first: ChangeRequest, second: ChangeRequest)
    requires cast.Independent() && OperationalSafety.ValidAuthority(authorities)
    requires first.OutageRequest? && second.OutageRequest? && first.id != second.id && first.proposedAt.Canonical?
    requires first.proposedBy == cast.organiser
    ensures var r := After(authorities, Create(id, organizationId), Displacing(cast, initial, approved, first, second));
            && r.live.Some? && r.live.value.publication.Some? && r.live.value.change.Some?
            && r.live.value.change.value.id == second.id && !Loads(r)
  {
    ClosingRun(authorities, id, organizationId, cast, initial, approved, first);
    var r := ClosingPublished(InPlay(authorities, id, organizationId, cast, initial), cast, initial, approved, first);
    var s := DisplacingAccepted(r, approved, second);
    Extend(authorities, Create(id, organizationId), Closing(cast, initial, approved, first), r,
           ProposeChangeStep(2, approved.version, second, Some(approved)), s);
  }
}
