/** The store of competition records, whose methods each replace the record of one competition or refuse. */
module Journey {
  import opened Wrappers
  import opened Timestamps
  import opened LiveModel
  import LiveProgression
  import OperationalSafety
  import Credentials
  import R = JourneyRecord
  import JourneyRuns
  import JourneyRules
  import opened JourneySteps

  type Outcome = Result<R.Record, R.JourneyError>

  /** The step on the record under an identity, which must exist. */
  ghost function Stepped(records: map<string, R.Record>, id: string, step: R.Record -> Outcome): Outcome {
    if id in records then step(records[id]) else Failure(R.NotFound)
  }

  /**
   * What is stored once a step has been taken: the record it gives in place of the old one, in which everything
   * lasts that must, or what was there.
   */
  ghost predicate Stored(was: map<string, R.Record>, now: map<string, R.Record>, id: string, outcome: Outcome) {
    if outcome.Success? then id in was && now == was[id := outcome.value] && Lasts(was[id], outcome.value) else now == was
  }

  /** The records of all competitions, each of which some run of steps has stored. */
  class CompetitionJourney {
    var records: map<string, R.Record>
    const authorities: OperationalSafety.Assignments

    ghost predicate Valid()
      reads this
    {
      forall id | id in records :: Reached(authorities, id, records[id])
    }

    constructor (authorities: OperationalSafety.Assignments)
      ensures Valid() && records == map[] && this.authorities == authorities
    {
      this.authorities := authorities;
      records := map[];
    }

    method Create(id: string, organizationId: string) returns (r: R.Record)
      requires Valid() && id !in records
      modifies this`records
      ensures Valid() && r == R.Create(id, organizationId) && records == old(records)[id := r]
    {
      r := R.Create(id, organizationId);
      CreatedIsReached(authorities, id, organizationId);
      records := records[id := r];
    }

    /** The common end of every method: a new record replaces the old one. */
    method Save(id: string, outcome: Outcome)
      requires Valid() && id in records && Kept(authorities, id, records[id], outcome)
      modifies this`records
      ensures Valid() && Stored(old(records), records, id, outcome)
    {
      if outcome.Success? { records := records[id := outcome.value]; }
    }

    /** Nothing is compiled or published any more, and the published revisions stay on record as they were. */
    method EditDraft(id: string, edit: R.Edit, expectedDraftVersion: nat) returns (r: Outcome)
      requires Valid()
      modifies this`records
      ensures Valid() && Stored(old(records), records, id, r)
      ensures r == Stepped(old(records), id, record => R.EditDraft(record, edit, expectedDraftVersion))
      ensures r.Success? ==> BackToDraft(old(records)[id], r.value) && r.value.amendment == old(records)[id].amendment
    {
      if id !in records { return Failure(R.NotFound); }
      r := R.EditDraft(records[id], edit, expectedDraftVersion);
      EditMeans(authorities, id, records[id], edit, expectedDraftVersion);
      Save(id, r);
    }

    /** The compiled revision is above every published one on record. */
    method Compile(id: string, expectedDraftVersion: nat, ready: bool, compilation: R.Compilation) returns (r: Outcome)
      requires Valid()
      modifies this`records
      ensures Valid() && Stored(old(records), records, id, r)
      ensures r == Stepped(old(records), id, record => R.Compile(record, expectedDraftVersion, ready, compilation))
      ensures r.Success? ==> CompiledAhead(old(records)[id], r.value, compilation)
    {
      if id !in records { return Failure(R.NotFound); }
      r := R.Compile(records[id], expectedDraftVersion, ready, compilation);
      CompileMeans(authorities, id, records[id], expectedDraftVersion, ready, compilation);
      Save(id, r);
    }

    /** The expected revision is published, approved independently, and the highest one on record. */
    method Approve(id: string, expectedRevision: nat, approvedBy: string, codes: seq<string>, evaluated: R.Guard) returns (r: Outcome)
      requires Valid()
      modifies this`records
      ensures Valid() && Stored(old(records), records, id, r)
      ensures r == Stepped(old(records), id, record => R.Approve(record, expectedRevision, approvedBy, codes, evaluated))
      ensures r.Success? ==> PublishedOver(old(records)[id], r.value, expectedRevision, approvedBy, codes)
    {
      if id !in records { return Failure(R.NotFound); }
      r := R.Approve(records[id], expectedRevision, approvedBy, codes, evaluated);
      ApproveMeans(authorities, id, records[id], expectedRevision, approvedBy, codes, evaluated);
      Save(id, r);
    }

    /** The draft is open again, and the expected revision, which stood, still does. */
    method Amend(id: string, expectedPublishedRevision: nat, requestedBy: string) returns (r: Outcome)
      requires Valid()
      modifies this`records
      ensures Valid() && Stored(old(records), records, id, r)
      ensures r == Stepped(old(records), id, record => R.Amend(record, expectedPublishedRevision, requestedBy))
      ensures r.Success? ==> BackToDraft(old(records)[id], r.value) && JourneyRuns.Standing(r.value) == Some(expectedPublishedRevision)
      ensures r.Success? ==> Reopened(old(records)[id], r.value, requestedBy)
    {
      if id !in records { return Failure(R.NotFound); }
      r := R.Amend(records[id], expectedPublishedRevision, requestedBy);
      AmendMeans(authorities, id, records[id], expectedPublishedRevision, requestedBy);
      Save(id, r);
    }

    /** Play runs on the published revision, started once with operations that verify. */
    method ActivateLive(id: string, expectedRevision: nat, activatedBy: string, initial: LiveState) returns (r: Outcome)
      requires Valid()
      modifies this`records
      ensures Valid() && Stored(old(records), records, id, r)
      ensures r == Stepped(old(records), id, record => R.ActivateLive(record, expectedRevision, activatedBy, authorities, initial))
      ensures r.Success? ==> PlayOpened(authorities, old(records)[id], r.value, expectedRevision, initial)
    {
      if id !in records { return Failure(R.NotFound); }
      r := R.ActivateLive(records[id], expectedRevision, activatedBy, authorities, initial);
      ActivateMeans(authorities, id, records[id], expectedRevision, activatedBy, initial);
      Save(id, r);
    }

    /** An accepted command is stored with its progression, calls and starts only while play is on; the rest of the record stays. */
    method SubmitLiveCommand(id: string, expectedRevision: nat, command: R.LiveCommand, competition: LiveProgression.Competition,
                             delivery: seq<string>) returns (r: Outcome)
      requires Valid()
      modifies this`records
      ensures Valid() && Stored(old(records), records, id, r)
      ensures r == Stepped(old(records), id, record => R.SubmitLiveCommand(record, expectedRevision, command, competition, delivery))
      ensures r.Success? ==> JourneyRuns.Carries(old(records)[id], r.value)
      ensures r.Success? && command.callsOrStarts ==>
                old(records)[id].live.Some? && JourneyRules.PlayIsOn(old(records)[id].live.value.operations.body.mode)
    {
      if id !in records { return Failure(R.NotFound); }
      var current := records[id];
      var refusal := R.LiveCommandRefusal(current, expectedRevision, command);
      if refusal.Some? { return Failure(refusal.value); }
      if command.outcome.value.0 {
        r := Success(current);
      } else {
        if !command.rosterKnown { return Failure(R.RosterUnavailable); }
        var progress := LiveProgression.AdvanceLiveProgression(competition, command.outcome.value.1, command.occurredAt);
        if progress.Failure? { return Failure(R.ProgressionFailed); }
        var live := current.live.value.(state := progress.value.state, delivery := delivery);
        r := Success(current.(live := Some(live)));
      }
      JourneyRules.LiveCommandAcceptedIff(current, expectedRevision, command, competition, delivery);
      LiveCommandMeans(authorities, id, current, expectedRevision, command, competition, delivery);
      Save(id, r);
    }

    /** Only the operations change, and their log verifies exactly while every authority is with its first holder. */
    method SubmitOperationalCommand(id: string, expectedOperationalRevision: nat, command: OperationalSafety.Command,
                                    delivery: seq<string>) returns (r: Outcome)
      requires Valid()
      modifies this`records
      ensures Valid() && Stored(old(records), records, id, r)
      ensures r == Stepped(old(records), id,
                           record => R.SubmitOperationalCommand(record, expectedOperationalRevision, command, delivery))
      ensures r.Success? ==> Operated(authorities, old(records)[id], r.value)
    {
      if id !in records { return Failure(R.NotFound); }
      r := R.SubmitOperationalCommand(records[id], expectedOperationalRevision, command, delivery);
      OperateMeans(authorities, id, records[id], expectedOperationalRevision, command, delivery);
      Save(id, r);
    }

    /** The proposal starts from the stored play, before any live publication, and changes neither. */
    method ProposeNoShow(id: string, expectedRevision: nat, expectedLiveVersion: nat, request: R.NoShowRequest,
                         options: Option<seq<R.NoShowOption>>) returns (r: Outcome)
      requires Valid()
      modifies this`records
      ensures Valid() && Stored(old(records), records, id, r)
      ensures r == Stepped(old(records), id, record => R.ProposeNoShow(record, expectedRevision, expectedLiveVersion, request, options))
      ensures r.Success? ==> NoShowProposed(old(records)[id], r.value, request, options)
    {
      if id !in records { return Failure(R.NotFound); }
      r := R.ProposeNoShow(records[id], expectedRevision, expectedLiveVersion, request, options);
      ProposeNoShowMeans(authorities, id, records[id], expectedRevision, expectedLiveVersion, request, options);
      Save(id, r);
    }

    /** The revision after the published one is in force, on a proposal that somebody else made and the record holds. */
    method ApproveNoShow(id: string, expectedRevision: nat, expected: R.NoShowProposal, option: R.NoShowOption, approvedBy: string,
                         approvedAt: Stamp, delivery: seq<string>) returns (r: Outcome)
      requires Valid()
      modifies this`records
      ensures Valid() && Stored(old(records), records, id, r)
      ensures r == Stepped(old(records), id,
                           record => R.ApproveNoShow(record, expectedRevision, expected, option, approvedBy, approvedAt, delivery))
      ensures r.Success? ==> PublishedLive(old(records)[id], r.value, R.FromNoShow(expected, option), expectedRevision, approvedBy)
    {
      if id !in records { return Failure(R.NotFound); }
      r := R.ApproveNoShow(records[id], expectedRevision, expected, option, approvedBy, approvedAt, delivery);
      ApproveNoShowMeans(authorities, id, records[id], expectedRevision, expected, option, approvedBy, approvedAt, delivery);
      Save(id, r);
    }

    /** The pending change starts from the stored play; a new one leaves the live publication without its proposal. */
    method ProposeResourceChange(id: string, expectedOperationalRevision: nat, expectedLiveVersion: nat,
                                 request: R.ChangeRequest, approved: Option<LiveState>) returns (r: Outcome)
      requires Valid()
      modifies this`records
      ensures Valid() && Stored(old(records), records, id, r)
      ensures r == Stepped(old(records), id, record => R.ProposeResourceChange(
                             record, expectedOperationalRevision, expectedLiveVersion, request, approved))
      ensures r.Success? ==> ChangeProposed(old(records)[id], r.value, expectedOperationalRevision, request, approved)
    {
      if id !in records { return Failure(R.NotFound); }
      r := R.ProposeResourceChange(records[id], expectedOperationalRevision, expectedLiveVersion, request, approved);
      ProposeChangeMeans(authorities, id, records[id], expectedOperationalRevision, expectedLiveVersion, request, approved);
      Save(id, r);
    }

    /** The revision after the one the proposal started from is in force, approved by somebody else. */
    method ApproveResourceChange(id: string, expectedOperationalRevision: nat, expected: R.ResourceProposal, kind: R.ChangeKind,
                                 approvedBy: string, approvedAt: Stamp, regenerates: bool, delivery: seq<string>)
      returns (r: Outcome)
      requires Valid()
      modifies this`records
      ensures Valid() && Stored(old(records), records, id, r)
      ensures r == Stepped(old(records), id, record => R.ApproveResourceChange(
                             record, expectedOperationalRevision, expected, kind, approvedBy, approvedAt, regenerates, delivery))
      ensures r.Success? ==> PublishedLive(old(records)[id], r.value, R.FromChange(expected), expected.baseOperationalRevision, approvedBy)
    {
      if id !in records { return Failure(R.NotFound); }
      r := R.ApproveResourceChange(records[id], expectedOperationalRevision, expected, kind, approvedBy, approvedAt, regenerates, delivery);
      ApproveChangeMeans(authorities, id, records[id], expectedOperationalRevision, expected, kind, approvedBy, approvedAt, regenerates,
                         delivery);
      Save(id, r);
    }

    /** The record is closed at the expected revisions and version, with every authority back with its first holder. */
    method CloseCompetition(organizationId: string, id: string, request: R.CloseRequest, evidence: R.Evidence) returns (r: Outcome)
      requires Valid()
      modifies this`records
      ensures Valid() && Stored(old(records), records, id, r)
      ensures r == Stepped(old(records), id, (record: R.Record) =>
                             if record.organizationId == organizationId then R.CloseCompetition(record, request, evidence)
                             else Failure(R.NotFound))
      ensures r.Success? ==> ClosedAt(authorities, r.value, request)
    {
      if id !in records || records[id].organizationId != organizationId { return Failure(R.NotFound); }
      r := R.CloseCompetition(records[id], request, evidence);
      CloseMeans(authorities, id, records[id], request, evidence);
      Save(id, r);
    }

    /** Only the credentials change, closed or not: they are added to and revoked. */
    method UseCredentials(organizationId: string, id: string, signing: R.Signing, step: Credentials.Step) returns (r: Outcome)
      requires Valid()
      modifies this`records
      ensures Valid() && Stored(old(records), records, id, r)
      ensures r == Stepped(old(records), id, (record: R.Record) =>
                             if record.organizationId == organizationId then R.UseCredentials(record, signing, step)
                             else Failure(R.NotFound))
      ensures r.Success? ==> Credentialled(old(records)[id], r.value)
    {
      if id !in records || records[id].organizationId != organizationId { return Failure(R.NotFound); }
      r := R.UseCredentials(records[id], signing, step);
      CredentialsMean(authorities, id, records[id], signing, step);
      Save(id, r);
    }

    /** Only what is delivered changes, closed or not. */
    method UpdateDelivery(organizationId: string, id: string, delivery: seq<string>) returns (r: Outcome)
      requires Valid()
      modifies this`records
      ensures Valid() && Stored(old(records), records, id, r)
      ensures r == Stepped(old(records), id, (record: R.Record) =>
                             if record.organizationId == organizationId then R.UpdateDelivery(record, delivery) else Failure(R.NotFound))
      ensures r.Success? ==> Delivered(old(records)[id], r.value)
    {
      if id !in records || records[id].organizationId != organizationId { return Failure(R.NotFound); }
      r := R.UpdateDelivery(records[id], delivery);
      DeliveryMeans(authorities, id, records[id], delivery);
      Save(id, r);
    }
  }
}
