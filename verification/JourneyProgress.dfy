/** Live progression over runs of journey steps: when the play that a record stores is fully progressed. */
module JourneyProgress {
  import opened Wrappers
  import opened Timestamps
  import opened Texts
  import opened LiveModel
  import opened CompetitionGraph
  import opened LiveProgression
  import P = ProgressionFixedPoint
  import Lists
  import Ordering
  import Sorting
  import NoShowRepair
  import OperationalSafety
  import opened JourneyRecord
  import opened JourneyRuns
  import opened JourneyLoading

  // ---------------------------------------------------------------- what the engine leaves alone

  /** Only progression resolves entrants: other commands keep the definitions and resolve no further contest. */
  predicate EngineKeeps(before: LiveState, after: LiveState) {
    after.definitions == before.definitions && after.resolved.Keys <= before.resolved.Keys
  }

  /** A proposal resolves nobody and adds to the log of play. */
  predicate EngineProposes(before: LiveState, after: LiveState) {
    after.definitions == before.definitions && after.resolved == before.resolved && after.version > before.version
  }

  /** Closing a court leaves contests and decided ties alone, too. */
  predicate EngineCloses(before: LiveState, after: LiveState) {
    EngineProposes(before, after) && after.contests == before.contests && after.ties == before.ties
  }

  lemma KeptReady(before: LiveState, after: LiveState)
    requires P.Ready(before) && EngineKeeps(before, after)
    ensures P.Ready(after)
  {
  }

  /** The plays that a step brings along are ones the engine makes of the stored play, and play starts ready. */
  ghost predicate EngineStep(r: Record, step: Step) {
    match step
    case ActivateStep(_, _, initial) => P.Ready(initial)
    case LiveStep(_, command, _, _) =>
      r.live.Some? && command.outcome.Some? ==> EngineKeeps(r.live.value.state, command.outcome.value.1)
    case ProposeNoShowStep(_, _, _, options) =>
      r.live.Some? && options.Some? ==> forall option | option in options.value :: EngineProposes(r.live.value.state, option.state)
    case ProposeChangeStep(_, _, _, approved) =>
      r.live.Some? && approved.Some? ==> EngineCloses(r.live.value.state, approved.value)
    case _ => true
  }

  ghost predicate EngineRun(authorities: OperationalSafety.Assignments, r: Record, steps: seq<Step>) {
    steps != [] ==>
      && EngineRun(authorities, r, steps[..|steps| - 1])
      && EngineStep(After(authorities, r, steps[..|steps| - 1]), steps[|steps| - 1])
  }

  /** A no-show proposal is one of the plays the engine may make. */
  lemma NoShowIsEngineProposed(base: LiveState, lastEventAt: Option<int>, request: NoShowRepair.Request)
    requires NoShowRepair.EngineValid(base) && NoShowRepair.Refusal(base, lastEventAt, request).None?
    ensures NoShowRepair.Propose(base, lastEventAt, request).Success?
    ensures EngineProposes(base, NoShowRepair.Propose(base, lastEventAt, request).value)
  {
    NoShowRepair.ProposalSettlesExactlyTheWalkovers(base, lastEventAt, request);
  }

  // ---------------------------------------------------------------- stored plays stay ready

  ghost predicate ReadyRecord(r: Record) {
    r.live.Some? ==>
      && P.Ready(r.live.value.state)
      && (r.live.value.proposal.Some? ==>
            forall option | option in r.live.value.proposal.value.options ::
              EngineProposes(r.live.value.proposal.value.base, option.state))
      && (r.live.value.change.Some? ==> EngineCloses(r.live.value.change.value.base, r.live.value.change.value.approved))
  }

  /** A step that stores no new play. */
  predicate SamePlays(r: Record, s: Record) {
    s.live.Some? ==> r.live.Some? && s.live.value.state == r.live.value.state
                     && s.live.value.proposal == r.live.value.proposal && s.live.value.change == r.live.value.change
  }

  lemma LiveCommandStaysReady(r: Record, revision: nat, command: LiveCommand, competition: Competition, delivery: seq<string>)
    requires ReadyRecord(r) && SubmitLiveCommand(r, revision, command, competition, delivery).Success?
    requires command.outcome.Some? ==> EngineKeeps(r.live.value.state, command.outcome.value.1)
    ensures ReadyRecord(SubmitLiveCommand(r, revision, command, competition, delivery).value)
  {
    if !command.outcome.value.0 {
      KeptReady(r.live.value.state, command.outcome.value.1);
      P.AdvanceKeepsReady(competition, command.outcome.value.1, command.occurredAt);
    }
  }

  lemma NoShowProposalStaysReady(r: Record, revision: nat, version: nat, request: NoShowRequest, options: Option<seq<NoShowOption>>)
    requires ReadyRecord(r) && ProposeNoShow(r, revision, version, request, options).Success?
    requires options.Some? ==> forall option | option in options.value :: EngineProposes(r.live.value.state, option.state)
    ensures ReadyRecord(ProposeNoShow(r, revision, version, request, options).value)
  {
  }

  lemma ChangeProposalStaysReady(r: Record, revision: nat, version: nat, request: ChangeRequest, approved: Option<LiveState>)
    requires ReadyRecord(r) && ProposeResourceChange(r, revision, version, request, approved).Success?
    requires approved.Some? ==> EngineCloses(r.live.value.state, approved.value)
    ensures ReadyRecord(ProposeResourceChange(r, revision, version, request, approved).value)
  {
  }

  lemma NoShowPublicationStaysReady(r: Record, revision: nat, proposal: NoShowProposal, option: NoShowOption, actor: string, at: Stamp,
                                    delivery: seq<string>)
    requires ReadyRecord(r) && ApproveNoShow(r, revision, proposal, option, actor, at, delivery).Success?
    ensures ReadyRecord(ApproveNoShow(r, revision, proposal, option, actor, at, delivery).value)
  {
  }

  lemma ChangePublicationStaysReady(r: Record, revision: nat, proposal: ResourceProposal, kind: ChangeKind, actor: string, at: Stamp,
                                    regenerates: bool, delivery: seq<string>)
    requires ReadyRecord(r) && ApproveResourceChange(r, revision, proposal, kind, actor, at, regenerates, delivery).Success?
    ensures ReadyRecord(ApproveResourceChange(r, revision, proposal, kind, actor, at, regenerates, delivery).value)
  {
  }

  lemma PublicationStaysReady(authorities: OperationalSafety.Assignments, r: Record, step: Step)
    requires ReadyRecord(r) && PublishingStep(step) && Apply(authorities, r, step).Success?
    ensures ReadyRecord(Apply(authorities, r, step).value)
  {
    match step {
      case ApproveNoShowStep(revision, proposal, option, actor, at, delivery) =>
        NoShowPublicationStaysReady(r, revision, proposal, option, actor, at, delivery);
      case ApproveChangeStep(revision, proposal, kind, actor, at, regenerates, delivery) =>
        ChangePublicationStaysReady(r, revision, proposal, kind, actor, at, regenerates, delivery);
    }
  }

  predicate BringsPlay(step: Step) {
    step.ActivateStep? || step.LiveStep? || step.ProposeNoShowStep? || step.ProposeChangeStep? || PublishingStep(step)
  }

  lemma OtherStepsStoreNoPlay(authorities: OperationalSafety.Assignments, r: Record, step: Step)
    requires !BringsPlay(step) && !DraftStep(step) && Apply(authorities, r, step).Success?
    ensures SamePlays(r, Apply(authorities, r, step).value)
  {
    match step {
      case OperationalStep(revision, command, delivery) =>
        assert SamePlays(r, SubmitOperationalCommand(r, revision, command, delivery).value);
      case CloseStep(request, evidence) => assert SamePlays(r, CloseCompetition(r, request, evidence).value);
      case CredentialStep(signing, credential) => assert SamePlays(r, UseCredentials(r, signing, credential).value);
      case DeliveryStep(delivery) => assert SamePlays(r, UpdateDelivery(r, delivery).value);
    }
  }

  lemma DraftStepsStoreNoPlay(authorities: OperationalSafety.Assignments, r: Record, step: Step)
    requires DraftStep(step) && Apply(authorities, r, step).Success?
    ensures SamePlays(r, Apply(authorities, r, step).value)
  {
  }

  lemma StepStaysReady(authorities: OperationalSafety.Assignments, r: Record, step: Step)
    requires ReadyRecord(r) && EngineStep(r, step) && Apply(authorities, r, step).Success?
    ensures ReadyRecord(Apply(authorities, r, step).value)
  {
    if DraftStep(step) {
      DraftStepsStoreNoPlay(authorities, r, step);
    } else if !BringsPlay(step) {
      OtherStepsStoreNoPlay(authorities, r, step);
    } else if PublishingStep(step) {
      PublicationStaysReady(authorities, r, step);
    } else {
      match step {
        case ActivateStep(revision, activator, initial) =>
          assert ReadyRecord(ActivateLive(r, revision, activator, authorities, initial).value);
        case LiveStep(revision, command, competition, delivery) => LiveCommandStaysReady(r, revision, command, competition, delivery);
        case ProposeNoShowStep(revision, version, request, options) => NoShowProposalStaysReady(r, revision, version, request, options);
        case ProposeChangeStep(revision, version, request, approved) => ChangeProposalStaysReady(r, revision, version, request, approved);
      }
    }
  }

  lemma {:induction false} RunsStayReady(authorities: OperationalSafety.Assignments, id: string, organizationId: string, steps: seq<Step>)
    requires EngineRun(authorities, Create(id, organizationId), steps)
    ensures ReadyRecord(After(authorities, Create(id, organizationId), steps))
  {
    if steps != [] {
      var front, last := steps[..|steps| - 1], steps[|steps| - 1];
      RunsStayReady(authorities, id, organizationId, front);
      var before := After(authorities, Create(id, organizationId), front);
      if Apply(authorities, before, last).Success? { StepStaysReady(authorities, before, last); }
    }
  }

  // ---------------------------------------------------------------- the main results

  /** In every run, an accepted live command that is not a repeat leaves the stored play fully progressed. */
  lemma LiveCommandsProgress(authorities: OperationalSafety.Assignments, id: string, organizationId: string, steps: seq<Step>,
                             revision: nat, command: LiveCommand, competition: Competition, delivery: seq<string>)
    requires EngineRun(authorities, Create(id, organizationId), steps)
    requires var r := After(authorities, Create(id, organizationId), steps);
             && EngineStep(r, LiveStep(revision, command, competition, delivery))
             && SubmitLiveCommand(r, revision, command, competition, delivery).Success? && !command.outcome.value.0
    ensures var r := After(authorities, Create(id, organizationId), steps);
            var s := SubmitLiveCommand(r, revision, command, competition, delivery).value;
            s.live.Some? && Verify(competition, s.live.value.state)
  {
    RunsStayReady(authorities, id, organizationId, steps);
    var r := After(authorities, Create(id, organizationId), steps);
    KeptReady(r.live.value.state, command.outcome.value.1);
    P.AdvanceVerifies(competition, command.outcome.value.1, command.occurredAt);
  }

  /** What loading a stored record asks of its play. */
  predicate PlayLoads(competition: Competition, r: Record) {
    r.live.Some? && r.live.value.state.version > 0 ==> Verify(competition, r.live.value.state)
  }

  /** Advancing this play at this time would add nothing to its log. */
  ghost predicate NothingToAdvance(competition: Competition, state: LiveState, at: Stamp) {
    Advance(competition, state, at) == Success(Progress(state, []))
  }

  /** One time tells for all of them. */
  lemma VerifiesIffNothingToAdvanceAt(competition: Competition, state: LiveState, at: Stamp)
    requires P.Ready(state)
    ensures Verify(competition, state) <==> NothingToAdvance(competition, state, at)
  {
    if Verify(competition, state) {
      P.VerifiesIffNothingToAdvance(competition, state);
    } else if NothingToAdvance(competition, state, at) {
      P.AdvanceVerifies(competition, state, at);
    }
  }

  lemma ClosingDecidesNothing(competition: Competition, before: LiveState, after: LiveState)
    requires EngineCloses(before, after)
    ensures Verify(competition, after) <==> Verify(competition, before)
  {
    P.SameExpectations(competition, before, after);
  }

  /** When a no-show is published, what an approval would store can be advanced first. */
  lemma NoShowPublicationVerifies(r: Record, revision: nat, proposal: NoShowProposal, option: NoShowOption, actor: string, at: Stamp,
                                  delivery: seq<string>, competition: Competition, time: Stamp)
    requires ReadyRecord(r) && ApproveNoShow(r, revision, proposal, option, actor, at, delivery).Success?
    requires r.live.Some? && r.live.value.publication.None?
    ensures var s := ApproveNoShow(r, revision, proposal, option, actor, at, delivery).value;
            && s.live.Some? && s.live.value.state == option.state && option.state.version > r.live.value.state.version
            && (Verify(competition, s.live.value.state) <==> NothingToAdvance(competition, option.state, time))
            && (Verify(competition, r.live.value.state) ==>
                  (Verify(competition, s.live.value.state)
                   <==> Expected(competition, option.state) == Expected(competition, r.live.value.state)))
  {
    KeptReady(r.live.value.state, option.state);
    VerifiesIffNothingToAdvanceAt(competition, option.state, time);
  }

  /**
   * In every run, publishing a no-show stores play that loads exactly when advancing the option that is approved would add
   * nothing; from verified play, that is exactly when the settled walkovers leave the expectations as they were, so
   * decide no later contest.
   */
  lemma PublishedNoShowLoadsIff(authorities: OperationalSafety.Assignments, id: string, organizationId: string, steps: seq<Step>,
                                revision: nat, proposal: NoShowProposal, option: NoShowOption, actor: string, at: Stamp,
                                delivery: seq<string>, competition: Competition, time: Stamp)
    requires EngineRun(authorities, Create(id, organizationId), steps)
    requires var r := After(authorities, Create(id, organizationId), steps);
             && r.live.Some? && r.live.value.publication.None?
             && ApproveNoShow(r, revision, proposal, option, actor, at, delivery).Success?
    ensures var r := After(authorities, Create(id, organizationId), steps);
            var s := ApproveNoShow(r, revision, proposal, option, actor, at, delivery).value;
            && (PlayLoads(competition, s) <==> NothingToAdvance(competition, option.state, time))
            && (Verify(competition, r.live.value.state) ==>
                  (PlayLoads(competition, s) <==> Expected(competition, option.state) == Expected(competition, r.live.value.state)))
  {
    RunsStayReady(authorities, id, organizationId, steps);
    NoShowPublicationVerifies(After(authorities, Create(id, organizationId), steps), revision, proposal, option, actor, at, delivery,
                              competition, time);
  }

  // ---------------------------------------------------------------- which runs leave play that loads

  /**
   * Whether the stored play is fully progressed after a step, told from the step alone: a live command that is no repeat
   * progresses play, a start and a no-show store play that may be left to advance, and other steps change nothing.
   */
  ghost predicate StaysProgressed(competition: Competition, time: Stamp, r: Record, s: Record, step: Step, progressed: bool) {
    match step
    case ActivateStep(_, _, initial) => if r.live.Some? then progressed else NothingToAdvance(competition, initial, time)
    case LiveStep(_, command, _, _) => (command.outcome.Some? && command.outcome.value.0) ==> progressed
    case ApproveNoShowStep(_, _, option, _, _, _) => if Publishes(r, s) then NothingToAdvance(competition, option.state, time) else progressed
    case _ => progressed
  }

  ghost predicate Progressed(authorities: OperationalSafety.Assignments, competition: Competition, time: Stamp, r: Record, steps: seq<Step>) {
    steps != [] &&
    var front, last := steps[..|steps| - 1], steps[|steps| - 1];
    var before := After(authorities, r, front);
    if Apply(authorities, before, last).Failure? then Progressed(authorities, competition, time, r, front)
    else StaysProgressed(competition, time, before, After(authorities, r, steps), last, Progressed(authorities, competition, time, r, front))
  }

  /** Live commands are progressed with the plan that was published. */
  ghost predicate OnePlan(competition: Competition, steps: seq<Step>) {
    forall step | step in steps && step.LiveStep? :: step.competition == competition
  }

  /** What is stored verifies exactly when the flag says so. */
  ghost predicate Tells(competition: Competition, r: Record, progressed: bool) {
    r.live.Some? ==> (Verify(competition, r.live.value.state) <==> progressed)
  }

  lemma ActivationTells(authorities: OperationalSafety.Assignments, r: Record, revision: nat, actor: string, initial: LiveState,
                        competition: Competition, time: Stamp, progressed: bool)
    requires P.Ready(initial) && Tells(competition, r, progressed) && ActivateLive(r, revision, actor, authorities, initial).Success?
    ensures Tells(competition, ActivateLive(r, revision, actor, authorities, initial).value,
                  if r.live.Some? then progressed else NothingToAdvance(competition, initial, time))
  {
    VerifiesIffNothingToAdvanceAt(competition, initial, time);
    ActivationStores(authorities, r, revision, actor, initial);
  }

  lemma ActivationStores(authorities: OperationalSafety.Assignments, r: Record, revision: nat, actor: string, initial: LiveState)
    requires ActivateLive(r, revision, actor, authorities, initial).Success?
    ensures var s := ActivateLive(r, revision, actor, authorities, initial).value;
            s.live.Some? && s.live.value.state == if r.live.Some? then r.live.value.state else initial
  {
  }

  lemma LiveCommandTells(r: Record, revision: nat, command: LiveCommand, competition: Competition, delivery: seq<string>,
                         progressed: bool)
    requires ReadyRecord(r) && Tells(competition, r, progressed)
    requires SubmitLiveCommand(r, revision, command, competition, delivery).Success?
    requires command.outcome.Some? ==> EngineKeeps(r.live.value.state, command.outcome.value.1)
    ensures Tells(competition, SubmitLiveCommand(r, revision, command, competition, delivery).value,
                  (command.outcome.Some? && command.outcome.value.0) ==> progressed)
  {
    if !command.outcome.value.0 {
      KeptReady(r.live.value.state, command.outcome.value.1);
      P.AdvanceVerifies(competition, command.outcome.value.1, command.occurredAt);
    }
  }

  lemma NoShowPublicationTells(r: Record, revision: nat, proposal: NoShowProposal, option: NoShowOption, actor: string, at: Stamp,
                               delivery: seq<string>, competition: Competition, time: Stamp, progressed: bool)
    requires ReadyRecord(r) && Tells(competition, r, progressed)
    requires ApproveNoShow(r, revision, proposal, option, actor, at, delivery).Success?
    ensures var s := ApproveNoShow(r, revision, proposal, option, actor, at, delivery).value;
            Tells(competition, s, if Publishes(r, s) then NothingToAdvance(competition, option.state, time) else progressed)
  {
    var s := ApproveNoShow(r, revision, proposal, option, actor, at, delivery).value;
    if r.live.value.publication.None? {
      assert |s.live.value.history| == |r.live.value.history| + 1;
      NoShowPublicationVerifies(r, revision, proposal, option, actor, at, delivery, competition, time);
    }
  }

  lemma ChangePublicationTells(r: Record, revision: nat, proposal: ResourceProposal, kind: ChangeKind, actor: string, at: Stamp,
                               regenerates: bool, delivery: seq<string>, competition: Competition, progressed: bool)
    requires ReadyRecord(r) && Tells(competition, r, progressed)
    requires ApproveResourceChange(r, revision, proposal, kind, actor, at, regenerates, delivery).Success?
    ensures Tells(competition, ApproveResourceChange(r, revision, proposal, kind, actor, at, regenerates, delivery).value, progressed)
  {
    ClosingDecidesNothing(competition, proposal.base, proposal.approved);
  }

  lemma ProposalsTell(authorities: OperationalSafety.Assignments, r: Record, step: Step, competition: Competition, progressed: bool)
    requires Tells(competition, r, progressed) && Apply(authorities, r, step).Success?
    requires step.ProposeNoShowStep? || step.ProposeChangeStep?
    ensures Tells(competition, Apply(authorities, r, step).value, progressed)
  {
  }

  lemma StepTells(authorities: OperationalSafety.Assignments, r: Record, step: Step, competition: Competition, time: Stamp,
                  progressed: bool)
    requires ReadyRecord(r) && EngineStep(r, step) && Tells(competition, r, progressed) && Apply(authorities, r, step).Success?
    requires step.LiveStep? ==> step.competition == competition
    ensures var s := Apply(authorities, r, step).value;
            Tells(competition, s, StaysProgressed(competition, time, r, s, step, progressed))
  {
    if DraftStep(step) {
      DraftStepsStoreNoPlay(authorities, r, step);
    } else if !BringsPlay(step) {
      OtherStepsStoreNoPlay(authorities, r, step);
    } else if step.ProposeNoShowStep? || step.ProposeChangeStep? {
      ProposalsTell(authorities, r, step, competition, progressed);
    } else {
      match step {
        case ActivateStep(revision, activator, initial) =>
          ActivationTells(authorities, r, revision, activator, initial, competition, time, progressed);
        case LiveStep(revision, command, _, delivery) => LiveCommandTells(r, revision, command, competition, delivery, progressed);
        case ApproveNoShowStep(revision, proposal, option, actor, at, delivery) =>
          NoShowPublicationTells(r, revision, proposal, option, actor, at, delivery, competition, time, progressed);
        case ApproveChangeStep(revision, proposal, kind, actor, at, regenerates, delivery) =>
          ChangePublicationTells(r, revision, proposal, kind, actor, at, regenerates, delivery, competition, progressed);
      }
    }
  }

  lemma {:induction false} RunsTell(authorities: OperationalSafety.Assignments, id: string, organizationId: string, steps: seq<Step>,
                                    competition: Competition, time: Stamp)
    requires EngineRun(authorities, Create(id, organizationId), steps) && OnePlan(competition, steps)
    ensures var start := Create(id, organizationId);
            Tells(competition, After(authorities, start, steps), Progressed(authorities, competition, time, start, steps))
  {
    if steps != [] {
      var start, front, last := Create(id, organizationId), steps[..|steps| - 1], steps[|steps| - 1];
      RunsTell(authorities, id, organizationId, front, competition, time);
      RunsStayReady(authorities, id, organizationId, front);
      var before := After(authorities, start, front);
      if Apply(authorities, before, last).Success? {
        StepTells(authorities, before, last, competition, time, Progressed(authorities, competition, time, start, front));
      }
    }
  }

  /**
   * After every run, stored play loads exactly when nothing happened yet, or what stored it last was a live command that is
   * no repeat, or a start or a published no-show whose own play leaves nothing to advance. Closures and overruns published
   * since then change nothing.
   */
  lemma PlayLoadsIff(authorities: OperationalSafety.Assignments, id: string, organizationId: string, steps: seq<Step>,
                     competition: Competition, time: Stamp)
    requires EngineRun(authorities, Create(id, organizationId), steps) && OnePlan(competition, steps)
    ensures var start := Create(id, organizationId);
            var r := After(authorities, start, steps);
            PlayLoads(competition, r) <==>
              (r.live.Some? && r.live.value.state.version > 0 ==> Progressed(authorities, competition, time, start, steps))
  {
    RunsTell(authorities, id, organizationId, steps, competition, time);
  }

  // ---------------------------------------------------------------- a no-show publication that does not load

  const SEMI: Node := Node("semi", "knockout", "open", None, 0, true, EntrantSlot("a"), EntrantSlot("b"))

  const FINAL: Node := Node("final", "knockout", "open", None, 1, true, WinnerOf("semi"), EntrantSlot("c"))

  /** One semi-final, whose winner meets a third entrant. */
  const KNOCKOUT: Competition := Competition({}, [], (_, _) => Graph([SEMI, FINAL]))

  const SEMI_PLAN: Definition := Definition("semi", ["a", "b"], Some(["a", "b"]), false, "court", [], 0, 60_000)

  const FINAL_PLAN: Definition := Definition("final", ["a", "b", "c"], None, true, "court", ["semi"], 60_000, 120_000)

  const WAITING: Contest := Contest(Scheduled, None, None, None, None, None, None, None)

  const OPENED: LiveState := LiveState(
    ["court"], [SEMI_PLAN, FINAL_PLAN], map["semi" := WAITING, "final" := WAITING], map["semi" := ["a", "b"]], map[], [], 0)

  const ABSENCE: NoShowRepair.Request := NoShowRepair.Request("p", "semi", "b", "absent", "organiser", Canonical(0))

  lemma OpenedDefines()
    ensures DefinitionOf(OPENED.definitions, "semi") == Some(SEMI_PLAN) && DefinitionOf(OPENED.definitions, "final") == Some(FINAL_PLAN)
    ensures SEMI_PLAN in OPENED.definitions
  {
    var definitions := OPENED.definitions;
    assert "semi" != "final";
    assert definitions[1] == FINAL_PLAN && definitions[..1] == [SEMI_PLAN];
    assert DefinitionOf([SEMI_PLAN], "semi") == Some(SEMI_PLAN);
    assert definitions[0] in definitions;
  }

  lemma OpenedIsReady()
    ensures P.Ready(OPENED)
  {
    OpenedDefines();
    assert "a"[0] < "b"[0];
    Sorting.SortOfSorted(["a", "b"], Ordering.StringLeq);
  }

  lemma OpenedIsValid()
    ensures NoShowRepair.EngineValid(OPENED)
  {
    OpenedDefines();
    var ids := Lists.Map(OPENED.definitions, (d: Definition) => d.contestId);
    assert ids[0] == "semi" && ids[1] == "final" && |ids[0]| != |ids[1]|;
    assert "a"[0] != "b"[0];
    assert SEMI_PLAN.entrantIds[0] == "a" && SEMI_PLAN.entrantIds[1] == "b";
  }

  lemma AbsenceSettles()
    ensures NoShowRepair.Settles(OPENED, "b", "semi") && NoShowRepair.Refusal(OPENED, None, ABSENCE).None?
  {
    OpenedDefines();
    OpenedIsValid();
    AbsenceAudited();
    assert ["a", "b"][1] == "b";
    NoShowRepair.WalkoversSettle(OPENED, "b");
  }

  lemma AbsenceAudited()
    ensures NonBlank(ABSENCE.proposalId) && NoShowRepair.Audited(ABSENCE)
  {
    assert !IsSpace("p"[0]) && !IsSpace("absent"[0]) && !IsSpace("organiser"[0]);
  }

  /** The play that the no-show proposal publishes. */
  function Absent(): LiveState {
    NoShowRepair.Propose(OPENED, None, ABSENCE).GetOr(OPENED)
  }

  lemma AbsentIsWalkover()
    ensures NoShowRepair.Propose(OPENED, None, ABSENCE).Success? && EngineProposes(OPENED, Absent()) && Absent().version > 0
    ensures "semi" in Absent().contests && Absent().contests["semi"] == NoShowRepair.WalkoverOf("a", "b")
    ensures Absent().resolved == OPENED.resolved
  {
    OpenedIsValid();
    AbsenceSettles();
    NoShowRepair.ProposalSettlesExactlyTheWalkovers(OPENED, None, ABSENCE);
    var winner :| winner in OPENED.resolved["semi"] && winner != "b"
                  && Absent().contests["semi"] == NoShowRepair.WalkoverOf(winner, "b");
    assert winner == "a";
  }

  lemma OnlyFinalFollows(state: LiveState)
    ensures ContestNodes([SEMI, FINAL]) == [SEMI, FINAL]
    ensures ActualGraph(KNOCKOUT, state) == Graph([SEMI, FINAL])
    ensures NodeOf([SEMI, FINAL], "semi") == Some(SEMI)
  {
    Lists.FilterSingle(SEMI, (n: Node) => n.isContest);
    Lists.FilterSnoc([SEMI], FINAL, (n: Node) => n.isContest);
    assert [SEMI] + [FINAL] == [SEMI, FINAL];
    Sorting.SortOfSorted([SEMI, FINAL], NodeLeq);
    assert [SEMI, FINAL][..1] == [SEMI] && |"semi"| != |"final"|;
    assert NodeOf([SEMI], "semi") == Some(SEMI);
  }

  lemma WinnerReachesFinal(state: LiveState, expected: Resolutions)
    requires "semi" in state.contests && state.contests["semi"] == NoShowRepair.WalkoverOf("a", "b")
    requires state.resolved == map["semi" := ["a", "b"]] && (expected == map[] || expected.Keys == {"semi"})
    requires "semi" in expected ==> expected["semi"] == ["a", "b"]
    ensures "final" in ExpectNode(KNOCKOUT, state, [SEMI, FINAL], FINAL, expected)
  {
    OnlyFinalFollows(state);
    var overlay := Overlay(state, expected);
    assert overlay.resolved["semi"] == ["a", "b"];
    assert ["a", "b"][0] == "a" && "a" in ["a", "b"];
    assert ResultFor(overlay, "semi").Some? && ResultFor(overlay, "semi").value.winnerId == "a";
    assert ResolveSlot(overlay, [SEMI, FINAL], FINAL.first, {"final"}) == Some("a");
    assert ResolveSlot(overlay, [SEMI, FINAL], FINAL.second, {"final"}) == Some("c");
    assert "a"[0] != "c"[0];
  }

  /** What the fixture of the semi-final alone leaves expected. */
  lemma SemiExpected(state: LiveState)
    requires state.definitions == OPENED.definitions && state.resolved == OPENED.resolved
    ensures ExpectNodes(KNOCKOUT, state, [SEMI, FINAL], [SEMI]) == map["semi" := ["a", "b"]]
  {
    OnlySemiFixed();
    var fixed := FixedResolutions(state.definitions);
    assert [SEMI][..0] == [];
    assert ExpectNodes(KNOCKOUT, state, [SEMI, FINAL], []) == fixed;
    SemiPair(Overlay(state, fixed));
    assert fixed["semi" := ["a", "b"]] == fixed;
    assert ExpectNodes(KNOCKOUT, state, [SEMI, FINAL], [SEMI]) == ExpectNode(KNOCKOUT, state, [SEMI, FINAL], SEMI, fixed);
  }

  lemma OnlySemiFixed()
    ensures FixedResolutions(OPENED.definitions) == map["semi" := ["a", "b"]]
  {
    assert OPENED.definitions[..1] == [SEMI_PLAN] && [SEMI_PLAN][..0] == [];
    assert FixedResolutions([SEMI_PLAN]) == map["semi" := ["a", "b"]];
  }

  lemma SemiPair(state: LiveState)
    ensures ResolvedForNode(state, [SEMI, FINAL], SEMI) == Some(["a", "b"])
  {
    assert "a"[0] < "b"[0];
    assert ResolveSlot(state, [SEMI, FINAL], SEMI.first, {"semi"}) == Some("a");
    assert ResolveSlot(state, [SEMI, FINAL], SEMI.second, {"semi"}) == Some("b");
  }

  lemma ExpectedOfKnockout(state: LiveState)
    requires state.definitions == OPENED.definitions && state.resolved == OPENED.resolved
    ensures Expected(KNOCKOUT, state) == Success(ExpectNode(KNOCKOUT, state, [SEMI, FINAL], FINAL, map["semi" := ["a", "b"]]))
  {
    OnlyFinalFollows(state);
    SemiExpected(state);
    assert [SEMI, FINAL][..1] == [SEMI];
  }

  lemma OpenedVerifies()
    ensures Verify(KNOCKOUT, OPENED)
  {
    ExpectedOfKnockout(OPENED);
    OnlyFinalFollows(OPENED);
    var overlay := Overlay(OPENED, map["semi" := ["a", "b"]]);
    assert ResultFor(overlay, "semi").None?;
    assert ResolveSlot(overlay, [SEMI, FINAL], FINAL.first, {"final"}).None?;
  }

  /** The walkover decides who plays the final, which the published play does not say. */
  lemma AbsentDoesNotVerify()
    ensures !Verify(KNOCKOUT, Absent())
  {
    AbsentIsWalkover();
    ExpectedOfKnockout(Absent());
    WinnerReachesFinal(Absent(), map["semi" := ["a", "b"]]);
    assert "final" !in Absent().resolved by { assert |"final"| != |"semi"|; }
  }

  const REQUEST: NoShowRequest := NoShowRequest("p", "organiser", Canonical(0))

  function WalkoverOption(): NoShowOption {
    NoShowOption("KEEP_SLOTS", Absent(), true)
  }

  function AbsenceProposal(): NoShowProposal {
    NoShowProposal("p", OPENED, "organiser", Canonical(0), [WalkoverOption()])
  }

  function PublishingAbsence(cast: Cast): seq<Step> {
    Playing(cast, OPENED) + [ProposeNoShowStep(1, 0, REQUEST, Some([WalkoverOption()]))]
    + [ApproveNoShowStep(1, AbsenceProposal(), WalkoverOption(), cast.approver, Canonical(0), [])]
  }

  lemma AbsenceAccepted(r: Record, cast: Cast, proposed: Record, published: Record)
    requires cast.Independent() && cast.approver != "organiser" && OnRevision(r, 1) && r.closure.None? && r.live.Some?
    requires r.live.value.baseRevision == 1 && r.live.value.state == OPENED && r.live.value.publication.None?
    requires r.live.value.operations.body.mode.Normal?
    requires proposed == r.(live := Some(r.live.value.(proposal := Some(AbsenceProposal()))))
    requires published == proposed.(live := Some(Publish(
                            proposed.live.value, Absent(),
                            LivePublication(2, 1, FromNoShow(AbsenceProposal(), WalkoverOption()), Absent().version, cast.approver), [])))
    ensures ProposeNoShow(r, 1, 0, REQUEST, Some([WalkoverOption()])) == Success(proposed)
    ensures ApproveNoShow(proposed, 1, AbsenceProposal(), WalkoverOption(), cast.approver, Canonical(0), []) == Success(published)
  {
    assert AbsenceProposal().options[0] == WalkoverOption();
  }

  lemma StoredAbsence(authorities: OperationalSafety.Assignments, id: string, organizationId: string, cast: Cast)
    requires cast.Independent() && cast.approver != "organiser" && OperationalSafety.ValidAuthority(authorities)
    ensures var r := After(authorities, Create(id, organizationId), PublishingAbsence(cast));
            r.live.Some? && r.live.value.state == Absent() && r.live.value.publication.Some?
  {
    PlayingRun(authorities, id, organizationId, cast, OPENED);
    AbsenceExtends(authorities, Create(id, organizationId), Playing(cast, OPENED),
                   InPlay(authorities, id, organizationId, cast, OPENED), cast);
  }

  lemma AbsenceExtends(authorities: OperationalSafety.Assignments, start: Record, steps: seq<Step>, r: Record, cast: Cast)
    requires After(authorities, start, steps) == r
    requires cast.Independent() && cast.approver != "organiser" && OnRevision(r, 1) && r.closure.None? && r.live.Some?
    requires r.live.value.baseRevision == 1 && r.live.value.state == OPENED && r.live.value.publication.None?
    requires r.live.value.operations.body.mode.Normal?
    ensures var propose := ProposeNoShowStep(1, 0, REQUEST, Some([WalkoverOption()]));
            var approve := ApproveNoShowStep(1, AbsenceProposal(), WalkoverOption(), cast.approver, Canonical(0), []);
            var s := After(authorities, start, steps + [propose] + [approve]);
            s.live.Some? && s.live.value.state == Absent() && s.live.value.publication.Some?
  {
    var proposed := r.(live := Some(r.live.value.(proposal := Some(AbsenceProposal()))));
    var publication := LivePublication(2, 1, FromNoShow(AbsenceProposal(), WalkoverOption()), Absent().version, cast.approver);
    var published := proposed.(live := Some(Publish(proposed.live.value, Absent(), publication, [])));
    AbsenceAccepted(r, cast, proposed, published);
    var propose := ProposeNoShowStep(1, 0, REQUEST, Some([WalkoverOption()]));
    Extend(authorities, start, steps, r, propose, proposed);
    Extend(authorities, start, steps + [propose], proposed,
           ApproveNoShowStep(1, AbsenceProposal(), WalkoverOption(), cast.approver, Canonical(0), []), published);
  }

  lemma ExtendEngineRun(authorities: OperationalSafety.Assignments, start: Record, steps: seq<Step>, step: Step)
    requires EngineRun(authorities, start, steps) && EngineStep(After(authorities, start, steps), step)
    ensures EngineRun(authorities, start, steps + [step])
  {
    assert (steps + [step])[..|steps|] == steps;
  }

  lemma PlayingIsEngineRun(authorities: OperationalSafety.Assignments, start: Record, cast: Cast)
    ensures EngineRun(authorities, start, Playing(cast, OPENED))
  {
    var approve := ApproveStep(1, cast.approver, cast.guard.requiredCodes, cast.guard);
    ExtendEngineRun(authorities, start, [], cast.CompileAt(1));
    ExtendEngineRun(authorities, start, [] + [cast.CompileAt(1)], approve);
    OpenedIsReady();
    ExtendEngineRun(authorities, start, cast.Publishing(), ActivateStep(1, cast.organiser, OPENED));
  }

  lemma AbsenceIsProposedByEngine(authorities: OperationalSafety.Assignments, id: string, organizationId: string, cast: Cast)
    requires cast.Independent() && OperationalSafety.ValidAuthority(authorities)
    ensures EngineRun(authorities, Create(id, organizationId),
                      Playing(cast, OPENED) + [ProposeNoShowStep(1, 0, REQUEST, Some([WalkoverOption()]))])
  {
    PlayingIsEngineRun(authorities, Create(id, organizationId), cast);
    PlayingRun(authorities, id, organizationId, cast, OPENED);
    AbsenceIsEngineStep(authorities, Create(id, organizationId), Playing(cast, OPENED),
                        InPlay(authorities, id, organizationId, cast, OPENED));
  }

  lemma AbsenceIsEngineStep(authorities: OperationalSafety.Assignments, start: Record, steps: seq<Step>, r: Record)
    requires After(authorities, start, steps) == r && EngineRun(authorities, start, steps)
    requires r.live.Some? && r.live.value.state == OPENED
    ensures EngineRun(authorities, start, steps + [ProposeNoShowStep(1, 0, REQUEST, Some([WalkoverOption()]))])
  {
    AbsentIsWalkover();
    ExtendEngineRun(authorities, start, steps, ProposeNoShowStep(1, 0, REQUEST, Some([WalkoverOption()])));
  }

  lemma AbsenceIsEngineRun(authorities: OperationalSafety.Assignments, id: string, organizationId: string, cast: Cast)
    requires cast.Independent() && OperationalSafety.ValidAuthority(authorities)
    ensures EngineRun(authorities, Create(id, organizationId), PublishingAbsence(cast))
  {
    AbsenceIsProposedByEngine(authorities, id, organizationId, cast);
    ExtendEngineRun(authorities, Create(id, organizationId),
                    Playing(cast, OPENED) + [ProposeNoShowStep(1, 0, REQUEST, Some([WalkoverOption()]))],
                    ApproveNoShowStep(1, AbsenceProposal(), WalkoverOption(), cast.approver, Canonical(0), []));
  }

  /**
   * Publishing a no-show does not progress play: a run that only publishes a walkover stores play that loaded before
   * and does not load after.
   */
  lemma PublishedNoShowDoesNotLoad(authorities: OperationalSafety.Assignments, id: string, organizationId: string, cast: Cast)
    requires cast.Independent() && cast.approver != "organiser" && OperationalSafety.ValidAuthority(authorities)
    ensures EngineRun(authorities, Create(id, organizationId), PublishingAbsence(cast))
    ensures Verify(KNOCKOUT, OPENED)
    ensures !PlayLoads(KNOCKOUT, After(authorities, Create(id, organizationId), PublishingAbsence(cast)))
  {
    AbsenceIsEngineRun(authorities, id, organizationId, cast);
    OpenedVerifies();
    StoredAbsence(authorities, id, organizationId, cast);
    AbsentIsWalkover();
    AbsentDoesNotVerify();
  }
}
