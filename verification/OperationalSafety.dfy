/**
 * The event-sourced safety record of a running competition: commands carry an expected version and an
 * identity, accepted ones become hash-chained events, and a log can be replayed from its first authorities.
 * `canonicalHash` is collision-free here: a digest is the value it was taken of.
 */
module OperationalSafety {
  import opened Wrappers
  import opened Lists
  import Ordering
  import Sorting
  import opened SortedSets
  import opened Timestamps
  import opened Texts

  const MAX_SAFE_INTEGER: int := 9007199254740991

  datatype Mode = Normal | Degraded | Paused | Stopped | Cancelled | Recovering

  datatype Authority = IncidentLead | CompetitionLead | SafetyLead | CommunicationsLead | Scribe

  datatype MessageCode =
    | ServiceDegradedUseVenueBoard | PlayPausedStayClear | SafetyStopFollowVenueInstructions
    | EventCancelledAwaitContact | RecoveryInProgressAwaitUpdate | PlayResumedCheckNext

  datatype Assignments = Assignments(
    incidentLead: string, competitionLead: string, safetyLead: string, communicationsLead: string, scribe: string)
  {
    function Holder(f: Authority): string {
      match f
      case IncidentLead => incidentLead
      case CompetitionLead => competitionLead
      case SafetyLead => safetyLead
      case CommunicationsLead => communicationsLead
      case Scribe => scribe
    }

    function Transfer(f: Authority, actorId: string): Assignments {
      match f
      case IncidentLead => this.(incidentLead := actorId)
      case CompetitionLead => this.(competitionLead := actorId)
      case SafetyLead => this.(safetyLead := actorId)
      case CommunicationsLead => this.(communicationsLead := actorId)
      case Scribe => this.(scribe := actorId)
    }
  }

  datatype Category = Medical | Fire | Structural | Weather | Security | Evacuation | Safeguarding | Service | Resource | Competition

  datatype Severity = Info | Minor | Major | LifeSafety

  datatype IncidentReport = IncidentReport(
    incidentId: string, category: Category, severity: Severity, acknowledged: bool, location: string, summary: string,
    affectedContestIds: seq<string>, affectedResourceIds: seq<string>, affectedParticipantIds: seq<string>,
    evidenceRefs: seq<string>)

  datatype Incident = Incident(report: IncidentReport, recordedBy: string, recordedAt: Stamp, incidentHash: Digest)

  datatype ScopeKind = Venue | ResourceScope | ContestScope | ParticipantScope

  datatype ClearanceKind = SafetyClearance | CompetitionClearance {
    /** The one function that may record this clearance. */
    function Recorder(): Authority {
      if SafetyClearance? then SafetyLead else CompetitionLead
    }
  }

  datatype Action =
    | RecordIncident(report: IncidentReport)
    | TransitionMode(targetMode: Mode, reason: string, sourceIncidentId: Option<string>, messageCode: MessageCode,
                     nextUpdateAt: Option<Stamp>, scopeKind: ScopeKind, scopeIds: seq<string>)
    | RecordClearance(kind: ClearanceKind, evidenceRefs: seq<string>, statement: string)
    | TransferAuthority(transferred: Authority, newActorId: string, reason: string, evidenceRefs: seq<string>)

  datatype Command = Command(
    commandId: string, expectedVersion: int, actorId: string, authority: Authority, occurredAt: Stamp, action: Action)

  datatype EventId = EventId(sequence: int, commandHash: Digest)

  datatype EventBody = EventBody(
    eventId: EventId, sequence: int, command: Command, commandHash: Digest, previousEventHash: Option<Digest>)

  datatype Event = Event(body: EventBody, eventHash: Digest)

  datatype Clearance = Clearance(
    kind: ClearanceKind, actorId: string, authority: Authority, statement: string, evidenceRefs: seq<string>,
    recordedAt: Stamp, eventSequence: int)

  datatype Clearances = Clearances(safety: Option<Clearance>, competition: Option<Clearance>) {
    function Of(kind: ClearanceKind): Option<Clearance> {
      if kind.SafetyClearance? then safety else competition
    }
  }

  datatype Instruction = OperatingNormally | Approved(code: MessageCode)

  datatype PublicStatus = PublicStatus(
    mode: Mode, stateVersion: int, instruction: Instruction, effectiveAt: Option<Stamp>, nextUpdateAt: Option<Stamp>,
    stateProofHash: Option<Digest>)

  datatype StateBody = StateBody(
    mode: Mode, version: int, assignments: Assignments, incidents: seq<Incident>, activeIncidentId: Option<string>,
    clearances: Clearances, publicStatus: PublicStatus, events: seq<Event>, lastEventHash: Option<Digest>)

  datatype State = State(body: StateBody, proofHash: Digest)

  datatype Digest =
    | CommandDigest(command: Command)
    | IncidentDigest(report: IncidentReport, recordedBy: string, recordedAt: Stamp)
    | EventDigest(eventBody: EventBody)
    | StateDigest(stateBody: StateBody)

  datatype Finding =
    | InvalidCommandId | StaleStateVersion | InvalidEventTime | AuthorityActorMismatch
    | IncidentRecordRequiresScribe | IncidentIdConflict | InvalidIncidentDetail | InvalidIncidentScope
    | InvalidModeTransition | ModeTransitionAuthorityMismatch | PublicMessageNotApproved | InvalidTransitionDetail
    | IncidentNotFound | NextUpdateTimeRequired | UnexpectedNextUpdateTime | RestartClearanceRequired
    | RestartClearanceNotAllowed | RestartClearanceAuthorityMismatch | RestartEvidenceRequired
    | TransferAuthorityMismatch | InvalidAuthorityTransfer | CommandIdentityConflict

  datatype CommandResult = CommandResult(accepted: bool, idempotentReplay: bool, state: State, findings: set<Finding>)

  datatype CreateError = InvalidAuthorityAssignments

  datatype Replayed = Replayed(valid: bool, state: State)

  // ---------------------------------------------------------------- the machine

  function Normalize(command: Command): Command {
    match command.action
    case RecordIncident(report) =>
      command.(action := RecordIncident(report.(
        affectedContestIds := SortedUnique(report.affectedContestIds),
        affectedResourceIds := SortedUnique(report.affectedResourceIds),
        affectedParticipantIds := SortedUnique(report.affectedParticipantIds),
        evidenceRefs := SortedUnique(report.evidenceRefs))))
    case TransitionMode(target, reason, incident, code, next, kind, ids) =>
      command.(action := TransitionMode(target, reason, incident, code, next, kind, SortedUnique(ids)))
    case RecordClearance(kind, refs, statement) =>
      command.(action := RecordClearance(kind, SortedUnique(refs), statement))
    case TransferAuthority(transferred, newActorId, reason, refs) =>
      command.(action := TransferAuthority(transferred, newActorId, reason, SortedUnique(refs)))
  }

  function Seal(body: StateBody): State {
    var proof := StateDigest(body.(publicStatus := body.publicStatus.(stateProofHash := None)));
    State(body.(publicStatus := body.publicStatus.(stateProofHash := Some(proof))), proof)
  }

  predicate ValidAuthority(a: Assignments) {
    && ValidText(a.incidentLead, 160) && ValidText(a.competitionLead, 160) && ValidText(a.safetyLead, 160)
    && ValidText(a.communicationsLead, 160) && ValidText(a.scribe, 160)
  }

  function InitialState(a: Assignments): State {
    Seal(StateBody(Normal, 0, a, [], None, Clearances(None, None),
                   PublicStatus(Normal, 0, OperatingNormally, None, None, None), [], None))
  }

  function CreateState(a: Assignments): Result<State, CreateError> {
    if ValidAuthority(a) then Success(InitialState(a)) else Failure(InvalidAuthorityAssignments)
  }

  function AllowedTransitions(mode: Mode): set<Mode> {
    match mode
    case Normal => {Degraded, Paused, Stopped, Cancelled}
    case Degraded => {Normal, Paused, Stopped, Cancelled}
    case Paused => {Normal, Stopped, Cancelled}
    case Stopped => {Recovering, Cancelled}
    case Recovering => {Normal, Stopped, Cancelled}
    case Cancelled => {}
  }

  function TransitionAuthorities(from: Mode, target: Mode): set<Authority> {
    if target.Stopped? then {SafetyLead, IncidentLead}
    else if target.Cancelled? || target.Recovering? || (target.Normal? && from.Recovering?) then {IncidentLead}
    else if target.Paused? then {CompetitionLead, SafetyLead, IncidentLead}
    else {CompetitionLead, IncidentLead}
  }

  function MessageFor(mode: Mode): MessageCode {
    match mode
    case Normal => PlayResumedCheckNext
    case Degraded => ServiceDegradedUseVenueBoard
    case Paused => PlayPausedStayClear
    case Stopped => SafetyStopFollowVenueInstructions
    case Cancelled => EventCancelledAwaitContact
    case Recovering => RecoveryInProgressAwaitUpdate
  }

  function When(condition: bool, finding: Finding): set<Finding> {
    if condition then {finding} else {}
  }

  predicate AnyInvalidText(values: seq<string>, maximum: nat) {
    exists i | 0 <= i < |values| :: !ValidText(values[i], maximum)
  }

  predicate KnownIncident(incidents: seq<Incident>, id: string) {
    exists i | 0 <= i < |incidents| :: incidents[i].report.incidentId == id
  }

  function CommonFindings(s: StateBody, c: Command): set<Finding> {
    When(!ValidIdentifier(c.commandId, 0, 127), InvalidCommandId)
    + When(!(-MAX_SAFE_INTEGER <= c.expectedVersion <= MAX_SAFE_INTEGER) || c.expectedVersion != s.version, StaleStateVersion)
    + When(!c.occurredAt.Canonical?
           || (s.events != [] && Before(c.occurredAt, s.events[|s.events| - 1].body.command.occurredAt)), InvalidEventTime)
    + When(c.actorId != s.assignments.Holder(c.authority), AuthorityActorMismatch)
  }

  function SpecificFindings(s: StateBody, c: Command): set<Finding> {
    match c.action
    case RecordIncident(report) =>
      When(c.authority !in {Scribe, IncidentLead}, IncidentRecordRequiresScribe)
      + When(!ValidIdentifier(report.incidentId, 0, 127) || KnownIncident(s.incidents, report.incidentId), IncidentIdConflict)
      + When(!ValidText(report.location, 240) || !ValidText(report.summary, 1000), InvalidIncidentDetail)
      + When(AnyInvalidText(report.affectedContestIds + report.affectedResourceIds + report.affectedParticipantIds
                            + report.evidenceRefs, 240), InvalidIncidentScope)
    case TransitionMode(target, reason, incident, code, next, _, ids) =>
      var needsUpdate := target in {Paused, Stopped, Recovering};
      var supplied := next.Some? && next.value.Supplied();
      When(target !in AllowedTransitions(s.mode), InvalidModeTransition)
      + When(c.authority !in TransitionAuthorities(s.mode, target), ModeTransitionAuthorityMismatch)
      + When(MessageFor(target) != code, PublicMessageNotApproved)
      + When(!ValidText(reason, 500) || ids == [] || AnyInvalidText(ids, 160), InvalidTransitionDetail)
      + When(incident.Some? && incident.value != "" && !KnownIncident(s.incidents, incident.value), IncidentNotFound)
      + When(needsUpdate && !(supplied && Before(c.occurredAt, next.value)), NextUpdateTimeRequired)
      + When(!needsUpdate && supplied, UnexpectedNextUpdateTime)
      + When((target.Recovering? || (s.mode.Recovering? && target.Normal?))
             && !(s.clearances.safety.Some? && s.clearances.competition.Some?), RestartClearanceRequired)
    case RecordClearance(kind, refs, statement) =>
      When(s.mode !in {Stopped, Recovering}, RestartClearanceNotAllowed)
      + When(c.authority != kind.Recorder(), RestartClearanceAuthorityMismatch)
      + When(!ValidText(statement, 500) || refs == [] || AnyInvalidText(refs, 240), RestartEvidenceRequired)
    case TransferAuthority(transferred, newActorId, reason, refs) =>
      When(c.authority != transferred, TransferAuthorityMismatch)
      + When(!ValidText(newActorId, 160) || newActorId == c.actorId || !ValidText(reason, 500) || refs == []
             || AnyInvalidText(refs, 240), InvalidAuthorityTransfer)
  }

  function Findings(s: StateBody, c: Command): set<Finding> {
    CommonFindings(s, c) + SpecificFindings(s, c)
  }

  /** The state after an accepted event. */
  function ProjectEvent(state: State, event: Event): State {
    var s, e, c := state.body, event.body, event.body.command;
    var next := s.(version := e.sequence, events := s.events + [event], lastEventHash := Some(event.eventHash),
                   publicStatus := s.publicStatus.(stateVersion := e.sequence));
    Seal(match c.action
         case RecordIncident(report) =>
           next.(incidents := s.incidents + [Incident(report, c.actorId, c.occurredAt,
                                                      IncidentDigest(report, c.actorId, c.occurredAt))])
         case TransitionMode(target, _, incident, code, update, _, _) =>
           next.(mode := target,
                 activeIncidentId := if incident.Some? then incident else if target.Normal? then None else s.activeIncidentId,
                 clearances := if target.Stopped? then Clearances(None, None) else s.clearances,
                 publicStatus := PublicStatus(target, e.sequence, Approved(code), Some(c.occurredAt),
                                              if update.Some? && update.value.Supplied() then update else None, None))
         case RecordClearance(kind, refs, statement) =>
           var record := Some(Clearance(kind, c.actorId, c.authority, statement, refs, c.occurredAt, e.sequence));
           next.(clearances := if kind.SafetyClearance? then s.clearances.(safety := record)
                               else s.clearances.(competition := record))
         case TransferAuthority(transferred, newActorId, _, _) =>
           next.(assignments := s.assignments.Transfer(transferred, newActorId)))
  }

  /** The first event carrying a command identity, if any. */
  function FindCommand(events: seq<Event>, commandId: string): Option<Event> {
    if events == [] then None
    else if events[0].body.command.commandId == commandId then Some(events[0])
    else FindCommand(events[1..], commandId)
  }

  /** The event an accepted command becomes. */
  function EventFor(s: StateBody, command: Command): Event {
    var hash := CommandDigest(command);
    var body := EventBody(EventId(s.version + 1, hash), s.version + 1, command, hash, s.lastEventHash);
    Event(body, EventDigest(body))
  }

  function Submit(state: State, supplied: Command): CommandResult {
    var command := Normalize(supplied);
    var previous := FindCommand(state.body.events, command.commandId);
    if previous.Some? then
      if previous.value.body.commandHash == CommandDigest(command) then CommandResult(true, true, state, {})
      else CommandResult(false, false, state, {CommandIdentityConflict})
    else
      var findings := Findings(state.body, command);
      if findings != {} then CommandResult(false, false, state, findings)
      else CommandResult(true, false, ProjectEvent(state, EventFor(state.body, command)), {})
  }

  /** Whether one logged event may follow a state, and the state it leads to. */
  function ReplayStep(state: State, event: Event): Replayed {
    var e := event.body;
    if e.sequence != state.body.version + 1 || e.previousEventHash != state.body.lastEventHash
       || e.commandHash != CommandDigest(Normalize(e.command)) || event.eventHash != EventDigest(e)
    then Replayed(false, state)
    else
      var result := Submit(state, e.command);
      if !result.accepted || result.idempotentReplay || result.state.body.lastEventHash != Some(event.eventHash)
      then Replayed(false, state)
      else Replayed(true, result.state)
  }

  function ReplayFrom(start: State, events: seq<Event>): Replayed {
    if events == [] then Replayed(true, start)
    else
      var before := ReplayFrom(start, events[..|events| - 1]);
      if before.valid then ReplayStep(before.state, events[|events| - 1]) else before
  }

  /** A rejected log stays rejected however it continues, with the same state. */
  lemma {:induction false} RejectionIsFinal(start: State, events: seq<Event>, k: nat)
    requires k <= |events| && !ReplayFrom(start, events[..k]).valid
    ensures ReplayFrom(start, events) == ReplayFrom(start, events[..k])
  {
    if k == |events| {
      assert events[..k] == events;
    } else {
      assert events[..|events| - 1][..k] == events[..k];
      RejectionIsFinal(start, events[..|events| - 1], k);
    }
  }

  method ReplayEvents(a: Assignments, events: seq<Event>) returns (r: Result<Replayed, CreateError>)
    ensures r == if ValidAuthority(a) then Success(ReplayFrom(InitialState(a), events))
                 else Failure(InvalidAuthorityAssignments)
  {
    var created := CreateState(a);
    if created.Failure? { return Failure(created.error); }
    var state := created.value;
    for i := 0 to |events|
      invariant ReplayFrom(created.value, events[..i]) == Replayed(true, state)
    {
      assert events[..i + 1][..i] == events[..i];
      var step := ReplayStep(state, events[i]);
      if !step.valid {
        RejectionIsFinal(created.value, events, i + 1);
        return Success(step);
      }
      state := step.state;
    }
    assert events[..|events|] == events;
    return Success(Replayed(true, state));
  }

  /** `verifyOperationalSafetyState`: replays the log from the state's own, current assignments. */
  function Verify(state: State): Result<bool, CreateError> {
    if !ValidAuthority(state.body.assignments) then Failure(InvalidAuthorityAssignments)
    else
      var replay := ReplayFrom(InitialState(state.body.assignments), state.body.events);
      Success(replay.valid && replay.state.proofHash == state.proofHash && replay.state == state)
  }

  /** The state after any number of submitted commands, accepted or not. */
  function Run(start: State, commands: seq<Command>): State {
    if commands == [] then start
    else Submit(Run(start, commands[..|commands| - 1]), commands[|commands| - 1]).state
  }

  // ---------------------------------------------------------------- replay is complete and sound

  lemma NormalizeIdempotent(c: Command)
    ensures Normalize(Normalize(c)) == Normalize(c)
  {
    match c.action
    case RecordIncident(report) =>
      SortedUniqueIdempotent(report.affectedContestIds);
      SortedUniqueIdempotent(report.affectedResourceIds);
      SortedUniqueIdempotent(report.affectedParticipantIds);
      SortedUniqueIdempotent(report.evidenceRefs);
    case TransitionMode(_, _, _, _, _, _, ids) => SortedUniqueIdempotent(ids);
    case RecordClearance(_, refs, _) => SortedUniqueIdempotent(refs);
    case TransferAuthority(_, _, _, refs) => SortedUniqueIdempotent(refs);
  }

  /** What every projection does to the envelope of a state. */
  lemma ProjectEventEnvelope(s: State, event: Event)
    ensures var next := ProjectEvent(s, event).body;
            && next.version == event.body.sequence && next.events == s.body.events + [event]
            && next.lastEventHash == Some(event.eventHash)
  {
  }

  /** A command that changes a state does so through one event, and replay accepts that event there. */
  lemma ChangeIsReplayable(s: State, supplied: Command)
    requires Submit(s, supplied).state != s
    ensures var event := EventFor(s.body, Normalize(supplied));
            && Submit(s, supplied).state.body.events == s.body.events + [event]
            && ReplayStep(s, event) == Replayed(true, Submit(s, supplied).state)
  {
    var event := EventFor(s.body, Normalize(supplied));
    NormalizeIdempotent(supplied);
    ProjectEventEnvelope(s, event);
    assert Submit(s, event.body.command) == Submit(s, supplied);
  }

  /** An event that replay accepts is the one that submitting its command produces. */
  lemma AcceptedEventIsSubmitted(s: State, event: Event)
    requires ReplayStep(s, event).valid
    ensures ReplayStep(s, event).state == Submit(s, event.body.command).state
    ensures ReplayStep(s, event).state.body.events == s.body.events + [event]
    ensures event.body.command == Normalize(event.body.command)
    ensures FindCommand(s.body.events, event.body.command.commandId) == None
    ensures Findings(s.body, event.body.command) == {}
    ensures ReplayStep(s, event).state == ProjectEvent(s, event)
  {
    var rebuilt := EventFor(s.body, Normalize(event.body.command));
    ProjectEventEnvelope(s, rebuilt);
    assert rebuilt.eventHash == event.eventHash;
    assert rebuilt == event;
  }

  lemma {:induction false} ReplaySnoc(start: State, events: seq<Event>, event: Event)
    requires ReplayFrom(start, events).valid
    ensures ReplayFrom(start, events + [event]) == ReplayStep(ReplayFrom(start, events).state, event)
  {
    assert (events + [event])[..|events|] == events;
  }

  /** Replaying the events of any run from its first authorities rebuilds the run's state exactly. */
  lemma {:induction false} ReplayRebuildsEveryRun(a: Assignments, commands: seq<Command>)
    ensures var s := Run(InitialState(a), commands);
            ReplayFrom(InitialState(a), s.body.events) == Replayed(true, s)
  {
    if commands != [] {
      var front, last := commands[..|commands| - 1], commands[|commands| - 1];
      ReplayRebuildsEveryRun(a, front);
      var before := Run(InitialState(a), front);
      if Submit(before, last).state != before {
        ChangeIsReplayable(before, last);
        ReplaySnoc(InitialState(a), before.body.events, EventFor(before.body, Normalize(last)));
      }
    }
  }

  function CommandsOf(events: seq<Event>): (commands: seq<Command>)
    ensures |commands| == |events|
    ensures forall i | 0 <= i < |events| :: commands[i] == events[i].body.command
  {
    seq(|events|, i requires 0 <= i < |events| => events[i].body.command)
  }

  lemma RunSnoc(start: State, commands: seq<Command>, command: Command)
    ensures Run(start, commands + [command]) == Submit(Run(start, commands), command).state
  {
    assert (commands + [command])[..|commands|] == commands;
  }

  /** One more accepted event extends the correspondence between a log and a run by one command. */
  lemma LogStepIsRunStep(start: State, front: seq<Event>, last: Event, before: State, after: State)
    requires Run(start, CommandsOf(front)) == before && before.body.events == front
    requires ReplayStep(before, last) == Replayed(true, after)
    ensures Run(start, CommandsOf(front + [last])) == after && after.body.events == front + [last]
  {
    AcceptedEventIsSubmitted(before, last);
    CommandsSnoc(front, last);
    RunSnoc(start, CommandsOf(front), last.body.command);
  }

  lemma CommandsSnoc(front: seq<Event>, last: Event)
    ensures CommandsOf(front + [last]) == CommandsOf(front) + [last.body.command]
  {
  }

  /** A log that replay accepts is exactly the log of the run that submits its commands in order. */
  lemma {:induction false} ReplayAcceptsOnlyRuns(start: State, events: seq<Event>)
    requires start.body.events == []
    requires ReplayFrom(start, events).valid
    ensures Run(start, CommandsOf(events)) == ReplayFrom(start, events).state
    ensures ReplayFrom(start, events).state.body.events == events
  {
    if events != [] {
      var front, last := events[..|events| - 1], events[|events| - 1];
      assert front + [last] == events;
      LastReplays(start, front, last, events);
      ReplayAcceptsOnlyRuns(start, front);
      LogStepIsRunStep(start, front, last, ReplayFrom(start, front).state, ReplayFrom(start, events).state);
    } else {
      assert CommandsOf(events) == [];
    }
  }

  /** Replay accepts precisely the logs that some sequence of submitted commands produces. */
  lemma ReplayCharacterisesRuns(a: Assignments, events: seq<Event>)
    ensures ReplayFrom(InitialState(a), events).valid
            <==> exists commands :: Run(InitialState(a), commands).body.events == events
  {
    if ReplayFrom(InitialState(a), events).valid {
      ReplayAcceptsOnlyRuns(InitialState(a), events);
      assert Run(InitialState(a), CommandsOf(events)).body.events == events;
    }
    if commands :| Run(InitialState(a), commands).body.events == events {
      ReplayRebuildsEveryRun(a, commands);
    }
  }

  // ---------------------------------------------------------------- when the stored state verifies

  lemma FindCommandByIdentity(events: seq<Event>, id: string)
    ensures FindCommand(events, id) == None
            <==> forall i | 0 <= i < |events| :: events[i].body.command.commandId != id
    ensures FindCommand(events, id).Some?
            ==> FindCommand(events, id).value in events && FindCommand(events, id).value.body.command.commandId == id
  {
  }

  /** Authority assignments stay valid text through every run, so `Verify` never throws on a reachable state. */
  lemma {:induction false} AuthorityStaysValid(a: Assignments, commands: seq<Command>)
    requires ValidAuthority(a)
    ensures ValidAuthority(Run(InitialState(a), commands).body.assignments)
  {
    if commands != [] {
      var front, last := commands[..|commands| - 1], commands[|commands| - 1];
      AuthorityStaysValid(a, front);
      SubmitKeepsAuthorityValid(Run(InitialState(a), front), last);
    }
  }

  lemma SubmitKeepsAuthorityValid(before: State, supplied: Command)
    requires ValidAuthority(before.body.assignments)
    ensures ValidAuthority(Submit(before, supplied).state.body.assignments)
  {
    var c := Normalize(supplied);
    if Submit(before, supplied).state != before && c.action.TransferAuthority? {
      assert InvalidAuthorityTransfer !in Findings(before.body, c);
    }
  }

  /** A log accepted from two different holders of a function never transfers that function. */
  lemma {:induction false} DivergentHoldersNeverTransfer(a: Assignments, c: Assignments, f: Authority, events: seq<Event>)
    requires a.Holder(f) != c.Holder(f)
    requires ReplayFrom(InitialState(a), events).valid && ReplayFrom(InitialState(c), events).valid
    ensures ReplayFrom(InitialState(a), events).state.body.assignments.Holder(f) == a.Holder(f)
    ensures ReplayFrom(InitialState(c), events).state.body.assignments.Holder(f) == c.Holder(f)
  {
    if events != [] {
      var front, last := events[..|events| - 1], events[|events| - 1];
      DivergentHoldersNeverTransfer(a, c, f, front);
      var fromA, fromC := ReplayFrom(InitialState(a), front).state, ReplayFrom(InitialState(c), front).state;
      HolderAfterStep(fromA, last, f);
      HolderAfterStep(fromC, last, f);
    }
  }

  /** One accepted event changes a function's holder only by a transfer that its holder submitted. */
  lemma HolderAfterStep(s: State, event: Event, f: Authority)
    requires ReplayStep(s, event).valid
    ensures var c := event.body.command;
            if c.action.TransferAuthority? && c.action.transferred == f
            then s.body.assignments.Holder(f) == c.actorId
                 && ReplayStep(s, event).state.body.assignments.Holder(f) == c.action.newActorId != c.actorId
            else ReplayStep(s, event).state.body.assignments.Holder(f) == s.body.assignments.Holder(f)
  {
    AcceptedEventIsSubmitted(s, event);
    var c := event.body.command;
    assert AuthorityActorMismatch !in Findings(s.body, c);
    if c.action.TransferAuthority? {
      assert TransferAuthorityMismatch !in Findings(s.body, c);
      assert InvalidAuthorityTransfer !in Findings(s.body, c);
    }
  }

  /** A function that two different assignments give to different people. */
  lemma DifferingFunction(a: Assignments, c: Assignments) returns (f: Authority)
    requires a != c
    ensures a.Holder(f) != c.Holder(f)
  {
    f := if c.incidentLead != a.incidentLead then IncidentLead
         else if c.competitionLead != a.competitionLead then CompetitionLead
         else if c.safetyLead != a.safetyLead then SafetyLead
         else if c.communicationsLead != a.communicationsLead then CommunicationsLead else Scribe;
  }

  lemma OnlyFirstAuthoritiesReplay(a: Assignments, c: Assignments, events: seq<Event>, s: State)
    requires ReplayFrom(InitialState(a), events) == Replayed(true, s)
    requires c == s.body.assignments && c != a
    ensures ReplayFrom(InitialState(c), events) != Replayed(true, s)
  {
    if ReplayFrom(InitialState(c), events) == Replayed(true, s) {
      var f := DifferingFunction(a, c);
      DivergentHoldersNeverTransfer(a, c, f, events);
      assert false;
    }
  }

  /** A stored state verifies exactly when its current authorities are the ones its run started from. */
  lemma VerifyHoldsIffAuthoritiesReturned(a: Assignments, commands: seq<Command>)
    requires ValidAuthority(a)
    ensures var s := Run(InitialState(a), commands);
            Verify(s) == Success(s.body.assignments == a)
  {
    var s := Run(InitialState(a), commands);
    AuthorityStaysValid(a, commands);
    ReplayRebuildsEveryRun(a, commands);
    if s.body.assignments != a {
      OnlyFirstAuthoritiesReplay(a, s.body.assignments, s.body.events, s);
    }
  }

  /** The holder of a function hands it over, as the first command of all. */
  function FirstTransfer(a: Assignments, f: Authority, newActorId: string): Command {
    Command("t", 0, a.Holder(f), f, Canonical(0), TransferAuthority(f, newActorId, "r", ["e"]))
  }

  lemma FirstTransferAccepted(a: Assignments, f: Authority, newActorId: string)
    requires ValidText(newActorId, 160) && newActorId != a.Holder(f)
    ensures Findings(InitialState(a).body, FirstTransfer(a, f, newActorId)) == {}
  {
    assert "t"[0] == 't' && "r"[0] == 'r' && "e"[0] == 'e';
    assert ["e"][0] == "e";
  }

  lemma OneIsNormal(text: string)
    ensures SortedUnique([text]) == [text]
  {
    DedupeOfDistinct([text]);
    Sorting.SortOfSorted([text], Ordering.StringLeq);
  }

  lemma FirstTransferNormal(a: Assignments, f: Authority, newActorId: string)
    ensures Normalize(FirstTransfer(a, f, newActorId)) == FirstTransfer(a, f, newActorId)
  {
    OneIsNormal("e");
  }

  /** From every valid authorities, a run of one transfer reaches a state that verification rejects. */
  lemma OneTransferIsNotVerified(a: Assignments, f: Authority, newActorId: string)
    requires ValidAuthority(a) && ValidText(newActorId, 160) && newActorId != a.Holder(f)
    ensures var result := Submit(InitialState(a), FirstTransfer(a, f, newActorId));
            && result.accepted && !result.idempotentReplay && result.state == Run(InitialState(a), [FirstTransfer(a, f, newActorId)])
            && result.state.body.assignments == a.Transfer(f, newActorId) != a
            && Verify(result.state) == Success(false)
  {
    var c := FirstTransfer(a, f, newActorId);
    FirstTransferAccepted(a, f, newActorId);
    FirstTransferNormal(a, f, newActorId);
    RunSnoc(InitialState(a), [], c);
    assert [] + [c] == [c];
    TransferMoves(a, f, newActorId);
    VerifyHoldsIffAuthoritiesReturned(a, [c]);
  }

  lemma TransferMoves(a: Assignments, f: Authority, newActorId: string)
    requires newActorId != a.Holder(f)
    ensures a.Transfer(f, newActorId) != a
  {
  }

  /** Replaying from a different holder fails no later than the first transfer of that holder's function. */
  lemma TransferWitnessesRejection(a: Assignments, c: Assignments, f: Authority, events: seq<Event>, k: nat)
    requires a.Holder(f) != c.Holder(f) && k < |events|
    requires ReplayFrom(InitialState(a), events).valid
    requires events[k].body.command.action.TransferAuthority? && events[k].body.command.action.transferred == f
    ensures !ReplayFrom(InitialState(c), events[..k + 1]).valid
  {
    TakeOneMore(events, k);
    PrefixOfLog(InitialState(a), events, k + 1);
    TransferRejected(a, c, f, events[..k], events[k], events[..k + 1]);
  }

  lemma TransferRejected(a: Assignments, c: Assignments, f: Authority, front: seq<Event>, last: Event, events: seq<Event>)
    requires a.Holder(f) != c.Holder(f) && events == front + [last]
    requires ReplayFrom(InitialState(a), events).valid
    requires last.body.command.action.TransferAuthority? && last.body.command.action.transferred == f
    ensures !ReplayFrom(InitialState(c), events).valid
  {
    if ReplayFrom(InitialState(c), events).valid {
      DivergentHoldersNeverTransfer(a, c, f, events);
      DivergentHoldersNeverTransfer(a, c, f, front);
      TransferMovesHolder(InitialState(a), f, front, last, events);
    }
  }

  lemma TransferMovesHolder(start: State, f: Authority, front: seq<Event>, last: Event, events: seq<Event>)
    requires events == front + [last] && ReplayFrom(start, events).valid
    requires last.body.command.action.TransferAuthority? && last.body.command.action.transferred == f
    ensures ReplayFrom(start, front).valid
    ensures ReplayFrom(start, events).state.body.assignments.Holder(f) != ReplayFrom(start, front).state.body.assignments.Holder(f)
  {
    LastReplays(start, front, last, events);
    HolderAfterStep(ReplayFrom(start, front).state, last, f);
  }

  lemma PrefixOfLog(start: State, events: seq<Event>, k: nat)
    requires k <= |events| && ReplayFrom(start, events).valid
    ensures ReplayFrom(start, events[..k]).valid
  {
    if !ReplayFrom(start, events[..k]).valid { RejectionIsFinal(start, events, k); }
  }

  // ---------------------------------------------------------------- command identities

  /** No event of a log repeats the command identity of an earlier one. */
  lemma CommandIdentitiesAreUnique(start: State, events: seq<Event>, i: nat, j: nat)
    requires start.body.events == [] && ReplayFrom(start, events).valid
    requires i < j < |events|
    ensures events[i].body.command.commandId != events[j].body.command.commandId
  {
    LogStep(start, events, j);
    PrefixOfLog(start, events, j);
    ReplayAcceptsOnlyRuns(start, events[..j]);
    AcceptedEventIsSubmitted(ReplayFrom(start, events[..j]).state, events[j]);
    FindCommandByIdentity(events[..j], events[j].body.command.commandId);
    assert events[..j][i] == events[i];
  }

  /**
   * Reusing the identity of any command already in the log never changes the state: the same command is
   * acknowledged as a replay, and different content is refused as an identity conflict.
   */
  lemma ReusedIdentityHasNoEffect(a: Assignments, commands: seq<Command>, k: nat, again: Command)
    requires var s := Run(InitialState(a), commands);
             k < |s.body.events| && s.body.events[k].body.command.commandId == again.commandId
    ensures var s := Run(InitialState(a), commands);
            Submit(s, again) == if s.body.events[k].body.command == Normalize(again)
                                then CommandResult(true, true, s, {})
                                else CommandResult(false, false, s, {CommandIdentityConflict})
  {
    var events := Run(InitialState(a), commands).body.events;
    ReplayRebuildsEveryRun(a, commands);
    forall i | 0 <= i < |events| && i != k ensures events[i].body.command.commandId != again.commandId {
      CommandIdentitiesAreUnique(InitialState(a), events, if i < k then i else k, if i < k then k else i);
    }
    LoggedCommandHash(a, commands, k);
    SettledIdentity(Run(InitialState(a), commands), k, again);
  }

  lemma SettledIdentity(s: State, k: nat, again: Command)
    requires k < |s.body.events| && s.body.events[k].body.command.commandId == again.commandId
    requires s.body.events[k].body.commandHash == CommandDigest(s.body.events[k].body.command)
    requires forall i | 0 <= i < |s.body.events| && i != k :: s.body.events[i].body.command.commandId != again.commandId
    ensures Submit(s, again) == if s.body.events[k].body.command == Normalize(again)
                                then CommandResult(true, true, s, {})
                                else CommandResult(false, false, s, {CommandIdentityConflict})
  {
    FindCommandByIdentity(s.body.events, again.commandId);
    assert FindCommand(s.body.events, again.commandId) == Some(s.body.events[k]);
  }

  /** Every logged event carries the digest of the normalized command it records. */
  lemma LoggedCommandHash(a: Assignments, commands: seq<Command>, k: nat)
    requires k < |Run(InitialState(a), commands).body.events|
    ensures var e := Run(InitialState(a), commands).body.events[k].body;
            e.commandHash == CommandDigest(e.command) && e.command == Normalize(e.command)
  {
    var events := Run(InitialState(a), commands).body.events;
    ReplayRebuildsEveryRun(a, commands);
    LogStep(InitialState(a), events, k);
  }

  /** Each event of a log was acceptable in the state before it, and leads to the state after it. */
  lemma LogStep(start: State, events: seq<Event>, k: nat)
    requires k < |events| && ReplayFrom(start, events).valid
    ensures var before := ReplayFrom(start, events[..k]).state;
            && ReplayStep(before, events[k]).valid
            && Findings(before.body, events[k].body.command) == {}
            && ReplayFrom(start, events[..k + 1]).state == ProjectEvent(before, events[k])
            && events[k].body.command == Normalize(events[k].body.command)
            && events[k].body.commandHash == CommandDigest(events[k].body.command)
  {
    TakeOneMore(events, k);
    PrefixOfLog(start, events, k + 1);
    LastReplays(start, events[..k], events[k], events[..k + 1]);
    AcceptedStep(ReplayFrom(start, events[..k]).state, events[k]);
  }

  lemma LastReplays(start: State, events: seq<Event>, event: Event, longer: seq<Event>)
    requires ReplayFrom(start, longer).valid && longer == events + [event]
    ensures ReplayFrom(start, events).valid
    ensures ReplayFrom(start, longer) == ReplayStep(ReplayFrom(start, events).state, event)
  {
    assert longer[..|longer| - 1] == events;
  }

  lemma AcceptedStep(before: State, event: Event)
    requires ReplayStep(before, event).valid
    ensures Findings(before.body, event.body.command) == {}
    ensures ReplayStep(before, event).state == ProjectEvent(before, event)
    ensures event.body.command == Normalize(event.body.command)
    ensures event.body.commandHash == CommandDigest(event.body.command)
  {
    AcceptedEventIsSubmitted(before, event);
  }
}

/** What the safety log guarantees about stopping, cancelling and restarting play. */
module SafetyRestarts {
  import opened OperationalSafety

  /** The states a log passes through: before its first event, and after each event. */
  function History(a: Assignments, events: seq<Event>): (h: seq<StateBody>)
    ensures |h| == |events| + 1
    ensures forall k | 0 <= k <= |events| :: h[k] == ReplayFrom(InitialState(a), events[..k]).state.body
  {
    seq(|events| + 1, k requires 0 <= k <= |events| => ReplayFrom(InitialState(a), events[..k]).state.body)
  }

  /** What an accepted event says about the modes, clearances and holders around it. */
  ghost predicate Linked(before: StateBody, event: Event, after: StateBody) {
    var c := event.body.command;
    && c.actorId == before.assignments.Holder(c.authority)
    && after.mode == (if c.action.TransitionMode? then c.action.targetMode else before.mode)
    && (c.action.TransitionMode? ==>
          && c.action.targetMode in AllowedTransitions(before.mode)
          && (c.action.targetMode.Recovering? ==> before.clearances.safety.Some? && before.clearances.competition.Some?))
    && (forall kind: ClearanceKind :: after.clearances.Of(kind).Some? ==>
          || (c.action.RecordClearance? && c.action.kind == kind && c.authority == kind.Recorder())
          || (before.clearances.Of(kind).Some? && !Moves(event, Stopped)))
  }

  ghost predicate Linear(h: seq<StateBody>, events: seq<Event>) {
    && |h| == |events| + 1
    && h[0].mode.Normal?
    && forall k | 0 <= k < |events| :: Linked(h[k], events[k], h[k + 1])
  }

  lemma ProjectionLinks(s: State, event: Event)
    requires Findings(s.body, event.body.command) == {}
    ensures Linked(s.body, event, ProjectEvent(s, event).body)
  {
    var c := event.body.command;
    assert AuthorityActorMismatch !in Findings(s.body, c);
    if c.action.TransitionMode? {
      assert InvalidModeTransition !in Findings(s.body, c);
      assert RestartClearanceRequired !in Findings(s.body, c);
    } else if c.action.RecordClearance? {
      assert RestartClearanceAuthorityMismatch !in Findings(s.body, c);
    }
  }

  lemma HistoryIsLinear(a: Assignments, events: seq<Event>)
    requires ReplayFrom(InitialState(a), events).valid
    ensures Linear(History(a, events), events)
  {
    var h := History(a, events);
    assert events[..0] == [];
    forall k | 0 <= k < |events| ensures Linked(h[k], events[k], h[k + 1]) {
      LogStep(InitialState(a), events, k);
      ProjectionLinks(ReplayFrom(InitialState(a), events[..k]).state, events[k]);
    }
  }

  predicate Moves(event: Event, target: Mode) {
    event.body.command.action.TransitionMode? && event.body.command.action.targetMode == target
  }

  /** Event `k` records the clearance, submitted by whoever held its function in the state before. */
  ghost predicate ClearsAt(h: seq<StateBody>, events: seq<Event>, kind: ClearanceKind, k: int)
    requires |h| == |events| + 1
    requires 0 <= k < |events|
  {
    var c := events[k].body.command;
    c.action.RecordClearance? && c.action.kind == kind && c.actorId == h[k].assignments.Holder(kind.Recorder())
  }

  ghost predicate ClearedBetween(h: seq<StateBody>, events: seq<Event>, kind: ClearanceKind, low: int, high: int)
    requires |h| == |events| + 1
    requires -1 <= low && high <= |events|
  {
    exists k: int :: low < k < high && ClearsAt(h, events, kind, k)
  }

  /** Event `r` starts the recovery, and both clearances were recorded after event `p` and before it. */
  ghost predicate RestartsAt(h: seq<StateBody>, events: seq<Event>, p: nat, r: int)
    requires |h| == |events| + 1
    requires p < r < |events|
  {
    && Moves(events[r], Recovering)
    && ClearedBetween(h, events, SafetyClearance, p, r)
    && ClearedBetween(h, events, CompetitionClearance, p, r)
  }

  ghost predicate RestartedBetween(h: seq<StateBody>, events: seq<Event>, p: nat, k: nat)
    requires |h| == |events| + 1
    requires p < k <= |events|
  {
    exists r: int :: p < r < k && RestartsAt(h, events, p, r)
  }

  ghost predicate IsLatestStop(events: seq<Event>, p: nat, j: nat)
    requires p < j <= |events|
  {
    Moves(events[p], Stopped) && forall q | p < q < j :: !Moves(events[q], Stopped)
  }

  /** What a history keeps from its latest stop on: held clearances were recorded since, and leaving needs both. */
  ghost predicate SinceStop(h: seq<StateBody>, events: seq<Event>, p: nat, k: nat)
    requires |h| == |events| + 1
    requires p < k <= |events|
  {
    && (forall kind: ClearanceKind :: h[k].clearances.Of(kind).Some? ==> ClearedBetween(h, events, kind, p, k))
    && (h[k].mode.Stopped? || h[k].mode.Cancelled? || RestartedBetween(h, events, p, k))
  }

  lemma SinceStopStep(h: seq<StateBody>, events: seq<Event>, p: nat, k: nat)
    requires Linear(h, events) && p < k < |events|
    requires SinceStop(h, events, p, k) && !Moves(events[k], Stopped)
    ensures SinceStop(h, events, p, k + 1)
  {
    assert Linked(h[k], events[k], h[k + 1]);
    var after := h[k + 1];
    forall kind: ClearanceKind | after.clearances.Of(kind).Some? ensures ClearedBetween(h, events, kind, p, k + 1) {
      var c := events[k].body.command;
      if c.action.RecordClearance? && c.action.kind == kind && c.authority == kind.Recorder() {
        assert ClearsAt(h, events, kind, k);
      } else {
        var q: int :| p < q < k && ClearsAt(h, events, kind, q);
        assert q < k + 1;
      }
    }
    if h[k].mode.Stopped? && h[k + 1].mode.Recovering? {
      assert h[k].clearances.Of(SafetyClearance).Some? && h[k].clearances.Of(CompetitionClearance).Some?;
      assert RestartsAt(h, events, p, k);
    } else if RestartedBetween(h, events, p, k) {
      var r: int :| p < r < k && RestartsAt(h, events, p, r);
      assert r < k + 1;
    }
  }

  lemma {:induction false} SinceStopHolds(h: seq<StateBody>, events: seq<Event>, p: nat, k: nat)
    requires Linear(h, events) && p < k <= |events| && IsLatestStop(events, p, k)
    ensures SinceStop(h, events, p, k)
    decreases k
  {
    assert Linked(h[k - 1], events[k - 1], h[k]);
    if k - 1 > p {
      SinceStopHolds(h, events, p, k - 1);
      SinceStopStep(h, events, p, k - 1);
    }
  }

  /** The latest stop before a point of a history that has been stopped. */
  lemma {:induction false} LatestStop(h: seq<StateBody>, events: seq<Event>, i: nat, j: nat) returns (p: nat)
    requires Linear(h, events) && i <= j <= |events| && h[i].mode.Stopped?
    ensures p < j && IsLatestStop(events, p, j)
    decreases j
  {
    if Moves(events[j - 1], Stopped) {
      p := j - 1;
    } else {
      assert Linked(h[j - 1], events[j - 1], h[j]);
      p := LatestStop(h, events, if i < j then i else i - 1, j - 1);
    }
  }

  /**
   * Between a stopped state and any later state that is neither stopped nor cancelled (so before every later
   * normal one) lies a recovery, and both restart clearances were recorded after the latest stop and before
   * that recovery, each by whoever then held its function.
   */
  lemma RestartNeedsBothClearances(a: Assignments, events: seq<Event>, i: nat, j: nat) returns (p: nat)
    requires ReplayFrom(InitialState(a), events).valid && i <= j <= |events|
    requires History(a, events)[i].mode.Stopped?
    requires !History(a, events)[j].mode.Stopped? && !History(a, events)[j].mode.Cancelled?
    ensures p < j && IsLatestStop(events, p, j) && RestartedBetween(History(a, events), events, p, j)
  {
    var h := History(a, events);
    HistoryIsLinear(a, events);
    p := LatestStop(h, events, i, j);
    SinceStopHolds(h, events, p, j);
  }

  lemma {:induction false} CancelledStays(h: seq<StateBody>, events: seq<Event>, i: nat, j: nat)
    requires Linear(h, events) && i <= j <= |events| && h[i].mode.Cancelled?
    ensures h[j].mode.Cancelled?
    decreases j
  {
    if i < j {
      CancelledStays(h, events, i, j - 1);
      assert Linked(h[j - 1], events[j - 1], h[j]);
    }
  }

  /** Once cancelled, a competition stays cancelled. */
  lemma CancelledIsFinal(a: Assignments, events: seq<Event>, i: nat, j: nat)
    requires ReplayFrom(InitialState(a), events).valid && i <= j <= |events|
    requires History(a, events)[i].mode.Cancelled?
    ensures History(a, events)[j].mode.Cancelled?
  {
    HistoryIsLinear(a, events);
    CancelledStays(History(a, events), events, i, j);
  }
}
