/** Who may do what in the safety record, when a command is accepted, and what the public is told, said of commands and states alone. */
module SafetyRules {
  import opened Wrappers
  import opened Timestamps
  import opened Texts
  import opened SortedSets
  import opened OperationalSafety
  import opened SafetyRestarts

  // ---------------------------------------------------------------- who moves the mode

  /** The command moves the mode to this one. */
  predicate MovesTo(c: Command, target: Mode) {
    c.action.TransitionMode? && c.action.targetMode == target
  }

  /** The two leads who may stop play. */
  predicate LeadsStop(a: Assignments, actorId: string) {
    actorId == a.safetyLead || actorId == a.incidentLead
  }

  predicate LeadsPause(a: Assignments, actorId: string) {
    actorId == a.competitionLead || actorId == a.safetyLead || actorId == a.incidentLead
  }

  predicate LeadsPlay(a: Assignments, actorId: string) {
    actorId == a.competitionLead || actorId == a.incidentLead
  }

  /**
   * In every log that replay accepts, a stop is submitted by whoever then leads safety or the incident, a cancellation, a
   * recovery and a restart from one by who leads the incident, a pause by one of the three leads, and every other move by
   * who leads the competition or the incident.
   */
  lemma OnlyLeadsMoveTheMode(a: Assignments, events: seq<Event>, k: nat)
    requires ReplayFrom(InitialState(a), events).valid && k < |events|
    ensures LedMove(History(a, events)[k], events[k].body.command)
  {
    LoggedInOrder(a, events, k);
    MovesAreLed(History(a, events)[k], events[k].body.command);
  }

  /** The actor leads what the command moves the mode to. */
  predicate LedMove(s: StateBody, c: Command) {
    && (MovesTo(c, Stopped) ==> LeadsStop(s.assignments, c.actorId))
    && (MovesTo(c, Cancelled) || MovesTo(c, Recovering) ==> c.actorId == s.assignments.incidentLead)
    && (MovesTo(c, Normal) && s.mode.Recovering? ==> c.actorId == s.assignments.incidentLead)
    && (MovesTo(c, Paused) ==> LeadsPause(s.assignments, c.actorId))
    && (MovesTo(c, Degraded) || (MovesTo(c, Normal) && !s.mode.Recovering?) ==> LeadsPlay(s.assignments, c.actorId))
  }

  lemma MovesAreLed(s: StateBody, c: Command)
    requires Findings(s, c) == {}
    ensures LedMove(s, c)
  {
    NoFindings(s, c);
  }

  lemma LoggedInOrder(a: Assignments, events: seq<Event>, k: nat)
    requires ReplayFrom(InitialState(a), events).valid && k < |events|
    ensures Findings(History(a, events)[k], events[k].body.command) == {}
    ensures events[k].body.command.action.TransitionMode? ==>
              History(a, events)[k + 1].mode == events[k].body.command.action.targetMode
  {
    LogStep(InitialState(a), events, k);
    if events[k].body.command.action.TransitionMode? { ProjectionMoves(ReplayFrom(InitialState(a), events[..k]).state, events[k]); }
  }

  lemma ProjectionMoves(s: State, event: Event)
    requires event.body.command.action.TransitionMode?
    ensures ProjectEvent(s, event).body.mode == event.body.command.action.targetMode
  {
  }

  lemma NoFindings(s: StateBody, c: Command)
    requires Findings(s, c) == {}
    ensures c.actorId == s.assignments.Holder(c.authority)
    ensures c.action.TransitionMode? ==>
              c.authority in TransitionAuthorities(s.mode, c.action.targetMode) && c.action.targetMode in AllowedTransitions(s.mode)
  {
    assert AuthorityActorMismatch !in Findings(s, c);
    if c.action.TransitionMode? {
      assert ModeTransitionAuthorityMismatch !in Findings(s, c);
      assert InvalidModeTransition !in Findings(s, c);
    }
  }

  /** The moves there are. */
  predicate Open(from: Mode, target: Mode) {
    match target
    case Normal => from.Degraded? || from.Paused? || from.Recovering?
    case Degraded => from.Normal?
    case Paused => from.Normal? || from.Degraded?
    case Stopped => from.Normal? || from.Degraded? || from.Paused? || from.Recovering?
    case Recovering => from.Stopped?
    case Cancelled => !from.Cancelled?
  }

  /** Only the moves there are appear in a log that replay accepts. */
  lemma OnlyOpenMoves(a: Assignments, events: seq<Event>, k: nat)
    requires ReplayFrom(InitialState(a), events).valid && k < |events| && events[k].body.command.action.TransitionMode?
    ensures Open(History(a, events)[k].mode, events[k].body.command.action.targetMode)
    ensures History(a, events)[k + 1].mode == events[k].body.command.action.targetMode
  {
    LoggedInOrder(a, events, k);
    MoveIsOpen(History(a, events)[k], events[k].body.command);
  }

  lemma MoveIsOpen(s: StateBody, c: Command)
    requires Findings(s, c) == {} && c.action.TransitionMode?
    ensures Open(s.mode, c.action.targetMode)
  {
    NoFindings(s, c);
  }

  /**
   * In every such log an incident is recorded by who keeps the record or leads the incident, a clearance by who leads
   * safety or the competition, during a stop or recovery and on evidence, and a function handed over by its holder.
   */
  lemma OnlyHoldersAct(a: Assignments, events: seq<Event>, k: nat)
    requires ReplayFrom(InitialState(a), events).valid && k < |events|
    ensures var before, c := History(a, events)[k], events[k].body.command;
            match c.action
            case RecordIncident(_) => c.actorId == before.assignments.scribe || c.actorId == before.assignments.incidentLead
            case RecordClearance(kind, refs, _) =>
              && (before.mode.Stopped? || before.mode.Recovering?) && refs != []
              && c.actorId == (if kind.SafetyClearance? then before.assignments.safetyLead else before.assignments.competitionLead)
            case TransferAuthority(f, newActorId, _, refs) => c.actorId == before.assignments.Holder(f) != newActorId && refs != []
            case TransitionMode(_, _, _, _, _, _, _) => true
  {
    LoggedInOrder(a, events, k);
    ActedAsHolder(History(a, events)[k], events[k].body.command);
  }

  lemma ActedAsHolder(s: StateBody, c: Command)
    requires Findings(s, c) == {}
    ensures match c.action
            case RecordIncident(_) => c.actorId == s.assignments.scribe || c.actorId == s.assignments.incidentLead
            case RecordClearance(kind, refs, _) =>
              && (s.mode.Stopped? || s.mode.Recovering?) && refs != []
              && c.actorId == (if kind.SafetyClearance? then s.assignments.safetyLead else s.assignments.competitionLead)
            case TransferAuthority(f, newActorId, _, refs) => c.actorId == s.assignments.Holder(f) != newActorId && refs != []
            case TransitionMode(_, _, _, _, _, _, _) => true
  {
    assert AuthorityActorMismatch !in Findings(s, c);
    match c.action {
      case RecordIncident(_) => assert IncidentRecordRequiresScribe !in Findings(s, c);
      case RecordClearance(_, _, _) =>
        assert RestartClearanceNotAllowed !in Findings(s, c);
        assert RestartClearanceAuthorityMismatch !in Findings(s, c);
        assert RestartEvidenceRequired !in Findings(s, c);
      case TransferAuthority(_, _, _, _) =>
        assert TransferAuthorityMismatch !in Findings(s, c);
        assert InvalidAuthorityTransfer !in Findings(s, c);
      case TransitionMode(_, _, _, _, _, _, _) =>
    }
  }

  // ---------------------------------------------------------------- exactly when a move is accepted

  /** A new command of the actor who holds the function it names, for the version that is current, in order of time. */
  predicate Current(s: StateBody, c: Command) {
    && ValidIdentifier(c.commandId, 0, 127) && c.expectedVersion == s.version && -MAX_SAFE_INTEGER <= s.version <= MAX_SAFE_INTEGER
    && c.occurredAt.Canonical? && (s.events != [] ==> !Before(c.occurredAt, s.events[|s.events| - 1].body.command.occurredAt))
    && c.actorId == s.assignments.Holder(c.authority)
    && forall i | 0 <= i < |s.events| :: s.events[i].body.command.commandId != c.commandId
  }

  predicate MayLead(f: Authority, from: Mode, target: Mode) {
    match target
    case Stopped => f.SafetyLead? || f.IncidentLead?
    case Cancelled => f.IncidentLead?
    case Recovering => f.IncidentLead?
    case Paused => f.CompetitionLead? || f.SafetyLead? || f.IncidentLead?
    case Degraded => f.CompetitionLead? || f.IncidentLead?
    case Normal => f.IncidentLead? || (f.CompetitionLead? && !from.Recovering?)
  }

  /** What the public is told in each mode. */
  function Told(mode: Mode): MessageCode {
    match mode
    case Normal => PlayResumedCheckNext
    case Degraded => ServiceDegradedUseVenueBoard
    case Paused => PlayPausedStayClear
    case Stopped => SafetyStopFollowVenueInstructions
    case Cancelled => EventCancelledAwaitContact
    case Recovering => RecoveryInProgressAwaitUpdate
  }

  /** While play is held, the public is told when to expect the next update. */
  predicate UpdateFits(target: Mode, occurredAt: Stamp, next: Option<Stamp>) {
    if target.Paused? || target.Stopped? || target.Recovering? then next.Some? && Before(occurredAt, next.value)
    else next.None? || next.value == Malformed("")
  }

  /** The reason and scope of a move are given, and the incident behind it, if one is named, is on record. */
  predicate Explained(s: StateBody, reason: string, incident: Option<string>, ids: seq<string>) {
    && ValidText(reason, 500) && ids != [] && (forall id | id in ids :: ValidText(id, 160))
    && (incident.Some? && incident.value != "" ==>
          exists i | 0 <= i < |s.incidents| :: s.incidents[i].report.incidentId == incident.value)
  }

  lemma SameTexts(values: seq<string>, maximum: nat)
    ensures AnyInvalidText(SortedUnique(values), maximum) <==> !(forall v | v in values :: ValidText(v, maximum))
    ensures SortedUnique(values) == [] <==> values == []
  {
    SortedUniqueElements(values);
    var sorted := SortedUnique(values);
    if v :| v in values && !ValidText(v, maximum) {
      var i :| 0 <= i < |sorted| && sorted[i] == v;
    }
    if values != [] { assert values[0] in sorted; }
    if sorted != [] { assert sorted[0] in values; }
  }

  lemma SubmitsNew(s: State, supplied: Command)
    requires forall i | 0 <= i < |s.body.events| :: s.body.events[i].body.command.commandId != supplied.commandId
    ensures var result := Submit(s, supplied);
            && !result.idempotentReplay && (result.accepted <==> Findings(s.body, Normalize(supplied)) == {})
            && (result.accepted ==> result.state == ProjectEvent(s, EventFor(s.body, Normalize(supplied))))
  {
    FindCommandByIdentity(s.body.events, supplied.commandId);
  }

  lemma NoCommonFindings(s: StateBody, c: Command)
    requires forall i | 0 <= i < |s.events| :: s.events[i].body.command.commandId != c.commandId
    ensures CommonFindings(s, c) == {} <==> Current(s, c)
  {
    if CommonFindings(s, c) == {} {
      assert InvalidCommandId !in CommonFindings(s, c) && StaleStateVersion !in CommonFindings(s, c);
      assert InvalidEventTime !in CommonFindings(s, c) && AuthorityActorMismatch !in CommonFindings(s, c);
    }
  }

  lemma NoMoveFindings(s: StateBody, c: Command)
    requires c.action.TransitionMode?
    ensures SpecificFindings(s, c) == {} <==>
              var m := c.action;
              && m.targetMode in AllowedTransitions(s.mode) && c.authority in TransitionAuthorities(s.mode, m.targetMode)
              && MessageFor(m.targetMode) == m.messageCode
              && ValidText(m.reason, 500) && m.scopeIds != [] && !AnyInvalidText(m.scopeIds, 160)
              && (m.sourceIncidentId.Some? && m.sourceIncidentId.value != "" ==> KnownIncident(s.incidents, m.sourceIncidentId.value))
              && UpdateFits(m.targetMode, c.occurredAt, m.nextUpdateAt)
              && (m.targetMode.Recovering? || (s.mode.Recovering? && m.targetMode.Normal?) ==>
                    s.clearances.safety.Some? && s.clearances.competition.Some?)
  {
    var found := SpecificFindings(s, c);
    if found == {} {
      assert InvalidModeTransition !in found && ModeTransitionAuthorityMismatch !in found && PublicMessageNotApproved !in found;
      assert InvalidTransitionDetail !in found && IncidentNotFound !in found && NextUpdateTimeRequired !in found;
      assert UnexpectedNextUpdateTime !in found && RestartClearanceRequired !in found;
    }
  }

  /**
   * A move is accepted exactly when there is one from the current mode, its function may lead it, the public is told what
   * goes with it and when to expect more, and recovering and restarting come after both clearances.
   */
  lemma MoveAcceptedIff(s: State, c: Command)
    requires c.action.TransitionMode?
    requires forall i | 0 <= i < |s.body.events| :: s.body.events[i].body.command.commandId != c.commandId
    ensures Submit(s, c).accepted <==>
              var m := c.action;
              && Current(s.body, c) && Open(s.body.mode, m.targetMode) && MayLead(c.authority, s.body.mode, m.targetMode)
              && m.messageCode == Told(m.targetMode) && Explained(s.body, m.reason, m.sourceIncidentId, m.scopeIds)
              && UpdateFits(m.targetMode, c.occurredAt, m.nextUpdateAt)
              && (m.targetMode.Recovering? || (s.body.mode.Recovering? && m.targetMode.Normal?) ==>
                    s.body.clearances.safety.Some? && s.body.clearances.competition.Some?)
  {
    var n := Normalize(c);
    SubmitsNew(s, c);
    NoCommonFindings(s.body, n);
    NoMoveFindings(s.body, n);
    SameTexts(c.action.scopeIds, 160);
    OpenMoves(s.body.mode, c.action.targetMode, c.authority);
  }

  lemma OpenMoves(from: Mode, target: Mode, f: Authority)
    ensures target in AllowedTransitions(from) <==> Open(from, target)
    ensures Open(from, target) ==> (f in TransitionAuthorities(from, target) <==> MayLead(f, from, target))
    ensures MessageFor(target) == Told(target)
  {
  }

  /** From every mode in which play is on, held or recovering, a stop that is in order is accepted from either of its two leads. */
  lemma StopIsAccepted(s: State, c: Command)
    requires MovesTo(c, Stopped) && Current(s.body, c) && (c.authority.SafetyLead? || c.authority.IncidentLead?)
    requires !s.body.mode.Stopped? && !s.body.mode.Cancelled?
    requires c.action.messageCode == SafetyStopFollowVenueInstructions
    requires Explained(s.body, c.action.reason, c.action.sourceIncidentId, c.action.scopeIds)
    requires c.action.nextUpdateAt.Some? && Before(c.occurredAt, c.action.nextUpdateAt.value)
    ensures Submit(s, c).accepted && Submit(s, c).state.body.mode.Stopped?
    ensures Submit(s, c).state.body.clearances == Clearances(None, None)
  {
    MoveAcceptedIff(s, c);
    SubmitsNew(s, c);
  }

  // ---------------------------------------------------------------- exactly when other commands are accepted

  lemma NoOtherFindings(s: StateBody, c: Command)
    requires !c.action.TransitionMode?
    ensures SpecificFindings(s, c) == {} <==>
              match c.action
              case RecordIncident(report) =>
                && c.authority in {Scribe, IncidentLead}
                && ValidIdentifier(report.incidentId, 0, 127) && !KnownIncident(s.incidents, report.incidentId)
                && ValidText(report.location, 240) && ValidText(report.summary, 1000)
                && !AnyInvalidText(report.affectedContestIds + report.affectedResourceIds + report.affectedParticipantIds
                                   + report.evidenceRefs, 240)
              case RecordClearance(kind, refs, statement) =>
                && s.mode in {Stopped, Recovering} && c.authority == kind.Recorder()
                && ValidText(statement, 500) && refs != [] && !AnyInvalidText(refs, 240)
              case TransferAuthority(f, newActorId, reason, refs) =>
                && c.authority == f && ValidText(newActorId, 160) && newActorId != c.actorId && ValidText(reason, 500)
                && refs != [] && !AnyInvalidText(refs, 240)
  {
    var found := SpecificFindings(s, c);
    if found == {} {
      match c.action {
        case RecordIncident(_) =>
          assert IncidentRecordRequiresScribe !in found && IncidentIdConflict !in found;
          assert InvalidIncidentDetail !in found && InvalidIncidentScope !in found;
        case RecordClearance(_, _, _) =>
          assert RestartClearanceNotAllowed !in found && RestartClearanceAuthorityMismatch !in found && RestartEvidenceRequired !in found;
        case TransferAuthority(_, _, _, _) => assert TransferAuthorityMismatch !in found && InvalidAuthorityTransfer !in found;
      }
    }
  }

  predicate Evidence(refs: seq<string>) {
    refs != [] && forall v | v in refs :: ValidText(v, 240)
  }

  /** A clearance is accepted exactly from the lead it belongs to, during a stop or a recovery, with a statement and evidence. */
  lemma ClearanceAcceptedIff(s: State, c: Command)
    requires c.action.RecordClearance?
    requires forall i | 0 <= i < |s.body.events| :: s.body.events[i].body.command.commandId != c.commandId
    ensures Submit(s, c).accepted <==>
              && Current(s.body, c) && (s.body.mode.Stopped? || s.body.mode.Recovering?)
              && c.authority == (if c.action.kind.SafetyClearance? then SafetyLead else CompetitionLead)
              && ValidText(c.action.statement, 500) && Evidence(c.action.evidenceRefs)
  {
    SubmitsNew(s, c);
    NoCommonFindings(s.body, Normalize(c));
    NoOtherFindings(s.body, Normalize(c));
    SameTexts(c.action.evidenceRefs, 240);
  }

  /** A function is handed over exactly by its holder, to somebody else, for a reason and on evidence. */
  lemma TransferAcceptedIff(s: State, c: Command)
    requires c.action.TransferAuthority?
    requires forall i | 0 <= i < |s.body.events| :: s.body.events[i].body.command.commandId != c.commandId
    ensures Submit(s, c).accepted <==>
              && Current(s.body, c) && c.authority == c.action.transferred
              && ValidText(c.action.newActorId, 160) && c.action.newActorId != c.actorId
              && ValidText(c.action.reason, 500) && Evidence(c.action.evidenceRefs)
  {
    SubmitsNew(s, c);
    NoCommonFindings(s.body, Normalize(c));
    NoOtherFindings(s.body, Normalize(c));
    SameTexts(c.action.evidenceRefs, 240);
  }

  predicate Described(report: IncidentReport) {
    && ValidText(report.location, 240) && ValidText(report.summary, 1000)
    && (forall v | v in report.affectedContestIds :: ValidText(v, 240))
    && (forall v | v in report.affectedResourceIds :: ValidText(v, 240))
    && (forall v | v in report.affectedParticipantIds :: ValidText(v, 240))
    && (forall v | v in report.evidenceRefs :: ValidText(v, 240))
  }

  lemma AllTexts(a: seq<string>, b: seq<string>, c: seq<string>, d: seq<string>, maximum: nat)
    ensures AnyInvalidText(a + b + c + d, maximum) <==>
              AnyInvalidText(a, maximum) || AnyInvalidText(b, maximum) || AnyInvalidText(c, maximum) || AnyInvalidText(d, maximum)
  {
    TwoTexts(a + b + c, d, maximum);
    TwoTexts(a + b, c, maximum);
    TwoTexts(a, b, maximum);
  }

  lemma TwoTexts(a: seq<string>, b: seq<string>, maximum: nat)
    ensures AnyInvalidText(a + b, maximum) <==> AnyInvalidText(a, maximum) || AnyInvalidText(b, maximum)
  {
    if i :| 0 <= i < |a| && !ValidText(a[i], maximum) { assert (a + b)[i] == a[i]; }
    if i :| 0 <= i < |b| && !ValidText(b[i], maximum) { assert (a + b)[|a| + i] == b[i]; }
  }

  /** An incident is recorded exactly by who keeps the record or leads the incident, once, with valid texts throughout. */
  lemma IncidentAcceptedIff(s: State, c: Command)
    requires c.action.RecordIncident?
    requires forall i | 0 <= i < |s.body.events| :: s.body.events[i].body.command.commandId != c.commandId
    ensures Submit(s, c).accepted <==>
              && Current(s.body, c) && (c.authority.Scribe? || c.authority.IncidentLead?)
              && ValidIdentifier(c.action.report.incidentId, 0, 127) && Described(c.action.report)
              && forall i | 0 <= i < |s.body.incidents| :: s.body.incidents[i].report.incidentId != c.action.report.incidentId
  {
    var r, n := c.action.report, Normalize(c).action.report;
    SubmitsNew(s, c);
    NoCommonFindings(s.body, Normalize(c));
    NoOtherFindings(s.body, Normalize(c));
    AllTexts(n.affectedContestIds, n.affectedResourceIds, n.affectedParticipantIds, n.evidenceRefs, 240);
    SameTexts(r.affectedContestIds, 240);
    SameTexts(r.affectedResourceIds, 240);
    SameTexts(r.affectedParticipantIds, 240);
    SameTexts(r.evidenceRefs, 240);
  }

  // ---------------------------------------------------------------- what accepted commands change

  /** What one accepted command changes, and that it changes nothing else. */
  predicate Changes(s: StateBody, c: Command, t: StateBody) {
    && t.version == s.version + 1 && |t.events| == |s.events| + 1 && s.events <= t.events
    && t.events[|s.events|].body.command == c && t.events[|s.events|].body.sequence == s.version + 1
    && match c.action
       case RecordIncident(report) =>
         && |t.incidents| == |s.incidents| + 1 && s.incidents <= t.incidents
         && t.incidents[|s.incidents|].report == report && t.incidents[|s.incidents|].recordedBy == c.actorId
         && t.incidents[|s.incidents|].recordedAt == c.occurredAt
         && t.mode == s.mode && t.assignments == s.assignments && t.clearances == s.clearances
         && t.activeIncidentId == s.activeIncidentId
       case TransitionMode(target, _, incident, _, _, _, _) =>
         && t.mode == target && t.incidents == s.incidents && t.assignments == s.assignments
         && t.clearances == (if target.Stopped? then Clearances(None, None) else s.clearances)
         && t.activeIncidentId == (if incident.Some? then incident else if target.Normal? then None else s.activeIncidentId)
       case RecordClearance(kind, refs, statement) =>
         && t.mode == s.mode && t.incidents == s.incidents && t.assignments == s.assignments
         && t.activeIncidentId == s.activeIncidentId
         && (kind.SafetyClearance? ==> t.clearances.competition == s.clearances.competition && t.clearances.safety.Some?)
         && (kind.CompetitionClearance? ==> t.clearances.safety == s.clearances.safety && t.clearances.competition.Some?)
         && var given := if kind.SafetyClearance? then t.clearances.safety.value else t.clearances.competition.value;
            && given.kind == kind && given.actorId == c.actorId && given.authority == c.authority && given.statement == statement
            && given.evidenceRefs == refs && given.recordedAt == c.occurredAt && given.eventSequence == s.version + 1
       case TransferAuthority(f, newActorId, _, _) =>
         && t.mode == s.mode && t.incidents == s.incidents && t.clearances == s.clearances && t.activeIncidentId == s.activeIncidentId
         && (forall g :: t.assignments.Holder(g) == if g == f then newActorId else s.assignments.Holder(g))
  }

  /** A new accepted command is logged as normalised, and changes exactly what it is about. */
  lemma AcceptedCommandChanges(s: State, c: Command)
    requires forall i | 0 <= i < |s.body.events| :: s.body.events[i].body.command.commandId != c.commandId
    requires Submit(s, c).accepted
    ensures Changes(s.body, Normalize(c), Submit(s, c).state.body)
  {
    SubmitsNew(s, c);
    ProjectionChanges(s, EventFor(s.body, Normalize(c)));
  }

  lemma ProjectionChanges(s: State, event: Event)
    requires event.body.sequence == s.body.version + 1
    ensures Changes(s.body, event.body.command, ProjectEvent(s, event).body)
  {
  }

  // ---------------------------------------------------------------- what the public is told

  /** The public status names the mode and version, tells what goes with the mode, and when to expect more while play is held. */
  predicate Informed(s: StateBody) {
    && s.publicStatus.mode == s.mode && s.publicStatus.stateVersion == s.version == |s.events|
    && (s.publicStatus.instruction == Approved(Told(s.mode)) || (s.mode.Normal? && s.publicStatus.instruction.OperatingNormally?))
    && (s.mode.Paused? || s.mode.Stopped? || s.mode.Recovering? ==>
          s.publicStatus.effectiveAt.Some? && s.publicStatus.nextUpdateAt.Some?
          && Before(s.publicStatus.effectiveAt.value, s.publicStatus.nextUpdateAt.value))
    && (s.mode.Normal? || s.mode.Degraded? || s.mode.Cancelled? ==> s.publicStatus.nextUpdateAt.None?)
  }

  lemma ProjectionInforms(s: State, event: Event)
    requires Informed(s.body) && Findings(s.body, event.body.command) == {} && event.body.sequence == s.body.version + 1
    ensures Informed(ProjectEvent(s, event).body)
  {
    var c := event.body.command;
    if c.action.TransitionMode? {
      assert SpecificFindings(s.body, c) == {};
      NoMoveFindings(s.body, c);
    }
  }

  /** Over every run, the public is told the mode that play is in. */
  lemma {:induction false} PublicIsInformed(a: Assignments, commands: seq<Command>)
    ensures Informed(Run(InitialState(a), commands).body)
  {
    if commands != [] {
      var front, last := commands[..|commands| - 1], commands[|commands| - 1];
      PublicIsInformed(a, front);
      var s := Run(InitialState(a), front);
      if Submit(s, last).state != s {
        FindCommandByIdentity(s.body.events, last.commandId);
        ProjectionInforms(s, EventFor(s.body, Normalize(last)));
      }
    }
  }

  // ---------------------------------------------------------------- which commands are one and the same

  ghost predicate SameMembers(s: seq<string>, t: seq<string>) {
    forall x :: x in s <==> x in t
  }

  /** The commands differ at most in the order and repetition of what they list. */
  ghost predicate SameRequest(c: Command, d: Command) {
    && c.(action := d.action) == d
    && match c.action
       case RecordIncident(r) =>
         && d.action.RecordIncident?
         && var q := d.action.report;
            && q == r.(affectedContestIds := q.affectedContestIds, affectedResourceIds := q.affectedResourceIds,
                       affectedParticipantIds := q.affectedParticipantIds, evidenceRefs := q.evidenceRefs)
            && SameMembers(r.affectedContestIds, q.affectedContestIds) && SameMembers(r.affectedResourceIds, q.affectedResourceIds)
            && SameMembers(r.affectedParticipantIds, q.affectedParticipantIds) && SameMembers(r.evidenceRefs, q.evidenceRefs)
       case TransitionMode(target, reason, incident, code, next, kind, ids) =>
         && d.action.TransitionMode? && d.action == TransitionMode(target, reason, incident, code, next, kind, d.action.scopeIds)
         && SameMembers(ids, d.action.scopeIds)
       case RecordClearance(kind, refs, statement) =>
         && d.action.RecordClearance? && d.action == RecordClearance(kind, d.action.evidenceRefs, statement)
         && SameMembers(refs, d.action.evidenceRefs)
       case TransferAuthority(f, newActorId, reason, refs) =>
         && d.action.TransferAuthority? && d.action == TransferAuthority(f, newActorId, reason, d.action.evidenceRefs)
         && SameMembers(refs, d.action.evidenceRefs)
  }

  /** Normalising forgets the order and repetition of lists, and nothing else. */
  lemma NormalizesAlikeIff(c: Command, d: Command)
    ensures Normalize(c) == Normalize(d) <==> SameRequest(c, d)
  {
    if c.action.RecordIncident? && d.action.RecordIncident? {
      ReportsAlikeIff(c.action.report, d.action.report);
    } else if c.action.TransitionMode? && d.action.TransitionMode? {
      SortedUniqueIff(c.action.scopeIds, d.action.scopeIds);
    } else if c.action.RecordClearance? && d.action.RecordClearance? {
      SortedUniqueIff(c.action.evidenceRefs, d.action.evidenceRefs);
    } else if c.action.TransferAuthority? && d.action.TransferAuthority? {
      SortedUniqueIff(c.action.evidenceRefs, d.action.evidenceRefs);
    }
  }

  lemma ReportsAlikeIff(r: IncidentReport, q: IncidentReport)
    ensures SortedUnique(r.affectedContestIds) == SortedUnique(q.affectedContestIds)
            <==> SameMembers(r.affectedContestIds, q.affectedContestIds)
    ensures SortedUnique(r.affectedResourceIds) == SortedUnique(q.affectedResourceIds)
            <==> SameMembers(r.affectedResourceIds, q.affectedResourceIds)
    ensures SortedUnique(r.affectedParticipantIds) == SortedUnique(q.affectedParticipantIds)
            <==> SameMembers(r.affectedParticipantIds, q.affectedParticipantIds)
    ensures SortedUnique(r.evidenceRefs) == SortedUnique(q.evidenceRefs) <==> SameMembers(r.evidenceRefs, q.evidenceRefs)
  {
    SortedUniqueIff(r.affectedContestIds, q.affectedContestIds);
    SortedUniqueIff(r.affectedResourceIds, q.affectedResourceIds);
    SortedUniqueIff(r.affectedParticipantIds, q.affectedParticipantIds);
    SortedUniqueIff(r.evidenceRefs, q.evidenceRefs);
  }
}
