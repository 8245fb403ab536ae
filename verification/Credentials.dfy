/**
 * The participant credential log: access tokens, recovery codes, and the chained events that rotate and revoke
 * them. Tokens, codes and hashes are the values they are computed from.
 */
module Credentials {
  import opened Wrappers
  import opened Lists
  import opened Timestamps
  import opened Texts

  datatype AccessClaims = AccessClaims(
    organizationId: string, competitionId: string, publishedRevision: int, participantId: string, expiresAt: Stamp,
    keyVersion: string, issuedByCommandId: Option<string>)

  datatype Token = Token(claims: AccessClaims, secret: string)

  datatype AccessGrant = AccessGrant(
    claims: AccessClaims, tokenHash: Token, revokedAt: Option<Stamp>, revokedByCommandId: Option<string>)

  datatype RecoveryClaims = RecoveryClaims(
    organizationId: string, competitionId: string, publishedRevision: int, operationalRevision: int, participantId: string,
    codeExpiresAt: Stamp, accessExpiresAt: Stamp, keyVersion: string, issuedByCommandId: string)

  datatype Code = Code(claims: RecoveryClaims, secret: string)

  datatype RecoveryGrant = RecoveryGrant(
    claims: RecoveryClaims, codeHash: Code, issuedAt: Stamp, issuedBy: string,
    revokedAt: Option<Stamp>, revokedByCommandId: Option<string>)

  /** A command as it is hashed: everything the caller sent. */
  datatype Request =
    | RotateRequest(scope: Scope, participantId: string, expiresAt: Stamp, commandId: string, actorId: string, reason: string)
    | RevokeRequest(scope: Scope, participantId: string, commandId: string, actorId: string, reason: string)
    | RecoveryRequest(scope: Scope, participantId: string, codeExpiresAt: Stamp, accessExpiresAt: Stamp, commandId: string,
                      actorId: string)

  datatype Scope = Scope(organizationId: string, competitionId: string, publishedRevision: int, operationalRevision: int)

  datatype Hash = TokenHash(token: Token) | CodeHash(code: Code)

  datatype Kind = Rotated | Revoked | RecoveryIssued

  datatype EventBody = EventBody(
    sequence: int, previousEventHash: Option<EventDigest>, commandId: string, request: Request, kind: Kind,
    participantId: string, actorId: string, occurredAt: Stamp, affected: seq<Hash>, result: Option<Hash>)

  datatype EventDigest = EventDigest(body: EventBody)

  datatype Event = Event(body: EventBody, eventHash: EventDigest)

  datatype Vault = Vault(
    organizationId: string, competitionId: string, access: seq<AccessGrant>, recovery: seq<RecoveryGrant>, events: seq<Event>)

  // ---------------------------------------------------------------- the check a loaded record must pass

  function Tokens(access: seq<AccessGrant>): seq<Token> {
    Map(access, (g: AccessGrant) => g.tokenHash)
  }

  function Codes(recovery: seq<RecoveryGrant>): seq<Code> {
    Map(recovery, (g: RecoveryGrant) => g.codeHash)
  }

  predicate RevocationPaired(revokedAt: Option<Stamp>, revokedByCommandId: Option<string>) {
    && (revokedAt.Some? <==> revokedByCommandId.Some?)
    && (revokedAt.Some? ==> revokedAt.value.Canonical?)
  }

  predicate AccessOk(v: Vault, g: AccessGrant) {
    && g.claims.organizationId == v.organizationId && g.claims.competitionId == v.competitionId
    && g.claims.expiresAt.Canonical? && RevocationPaired(g.revokedAt, g.revokedByCommandId)
  }

  predicate RecoveryOk(v: Vault, g: RecoveryGrant) {
    && g.claims.organizationId == v.organizationId && g.claims.competitionId == v.competitionId
    && g.claims.operationalRevision >= g.claims.publishedRevision
    && g.claims.codeExpiresAt.Canonical? && g.claims.accessExpiresAt.Canonical? && g.issuedAt.Canonical?
    && NonBlank(g.claims.issuedByCommandId) && RevocationPaired(g.revokedAt, g.revokedByCommandId)
  }

  predicate Held(v: Vault, h: Hash) {
    match h
    case TokenHash(t) => exists g :: g in v.access && g.tokenHash == t
    case CodeHash(c) => exists g :: g in v.recovery && g.codeHash == c
  }

  /** A credential of this participant that this command revoked. */
  predicate RevokedBy(v: Vault, h: Hash, participantId: string, commandId: string) {
    match h
    case TokenHash(t) => exists g :: g in v.access && g.tokenHash == t && g.claims.participantId == participantId
                                     && g.revokedByCommandId == Some(commandId)
    case CodeHash(c) => exists g :: g in v.recovery && g.codeHash == c && g.claims.participantId == participantId
                                    && g.revokedByCommandId == Some(commandId)
  }

  predicate AccessIssuedBy(v: Vault, h: Hash, participantId: string, commandId: string) {
    h.TokenHash? && exists g :: g in v.access && g.tokenHash == h.token && g.claims.participantId == participantId
                                && g.claims.issuedByCommandId == Some(commandId)
  }

  predicate CodeIssuedBy(v: Vault, h: Hash, participantId: string, commandId: string) {
    h.CodeHash? && exists g :: g in v.recovery && g.codeHash == h.code && g.claims.participantId == participantId
                               && g.claims.issuedByCommandId == commandId
  }

  /** What an event says of the credentials is what they show. */
  predicate Accounted(v: Vault, e: EventBody) {
    && (forall h | h in e.affected :: Held(v, h))
    && (e.kind.Rotated? ==> e.result.Some? && AccessIssuedBy(v, e.result.value, e.participantId, e.commandId))
    && (e.kind.RecoveryIssued? ==> e.result.Some? && CodeIssuedBy(v, e.result.value, e.participantId, e.commandId))
    && (e.kind.Revoked? ==> e.result.None?)
    && (!e.kind.RecoveryIssued? ==> forall h | h in e.affected :: RevokedBy(v, h, e.participantId, e.commandId))
  }

  predicate Sealed(e: Event, sequence: int, previous: Option<EventDigest>) {
    && e.body.sequence == sequence && e.body.previousEventHash == previous && e.eventHash == EventDigest(e.body)
    && NonBlank(e.body.commandId) && NonBlank(e.body.participantId) && NonBlank(e.body.actorId) && e.body.occurredAt.Canonical?
  }

  function HashBefore(events: seq<Event>, i: int): Option<EventDigest>
    requires 0 <= i <= |events|
  {
    if i == 0 then None else Some(events[i - 1].eventHash)
  }

  predicate FreshCommand(events: seq<Event>, i: int)
    requires 0 <= i < |events|
  {
    forall j | 0 <= j < i :: events[j].body.commandId != events[i].body.commandId
  }

  /** An event continues the chain, under a command of its own, and is borne out by the credentials. */
  predicate EventOk(v: Vault, i: int)
    requires 0 <= i < |v.events|
  {
    && Sealed(v.events[i], i + 1, HashBefore(v.events, i)) && FreshCommand(v.events, i)
    && Accounted(v, v.events[i].body)
  }

  ghost predicate GrantsOk(v: Vault) {
    && Distinct(Tokens(v.access)) && (forall g | g in v.access :: AccessOk(v, g))
    && Distinct(Codes(v.recovery)) && (forall g | g in v.recovery :: RecoveryOk(v, g))
  }

  ghost predicate Verify(v: Vault) {
    GrantsOk(v) && forall i | 0 <= i < |v.events| :: EventOk(v, i)
  }

  method VerifyGrants(v: Vault) returns (ok: bool)
    ensures ok <==> GrantsOk(v)
  {
    DistinctCount(Tokens(v.access));
    DistinctCount(Codes(v.recovery));
    assert Values(Tokens(v.access)) == Elements(Tokens(v.access)) && Values(Codes(v.recovery)) == Elements(Codes(v.recovery));
    ok := && |Values(Tokens(v.access))| == |v.access| && (forall g :: g in v.access ==> AccessOk(v, g))
          && |Values(Codes(v.recovery))| == |v.recovery| && (forall g :: g in v.recovery ==> RecoveryOk(v, g));
  }

  method VerifyParticipantCredentials(v: Vault) returns (ok: bool)
    ensures ok <==> Verify(v)
  {
    ok := VerifyGrants(v);
    if !ok { return; }
    var previous: Option<EventDigest> := None;
    var commandIds: set<string> := {};
    for i := 0 to |v.events|
      invariant previous == HashBefore(v.events, i)
      invariant forall c :: c in commandIds <==> exists j :: 0 <= j < i && v.events[j].body.commandId == c
      invariant forall j | 0 <= j < i :: EventOk(v, j)
    {
      var e := v.events[i];
      if !Sealed(e, i + 1, previous) || e.body.commandId in commandIds || !Accounted(v, e.body) {
        assert !EventOk(v, i);
        return false;
      }
      commandIds := commandIds + {e.body.commandId};
      previous := Some(e.eventHash);
    }
  }

  // ---------------------------------------------------------------- steps

  /** What the record and its environment give a credential step. */
  datatype Context = Context(
    publishedRevision: int, baseRevision: int, operationalRevision: int, participants: set<string>,
    keys: map<string, string>, keyVersion: string, now: int)

  datatype CredentialError =
    | NotFound | RevisionConflict | AccessDenied | InvalidCommand | InvalidGrant | SigningNotConfigured | AccessRevoked
    | CommandConflict | RecoveryConflict | RecoveryDenied

  predicate Configured(keys: map<string, string>, version: string) {
    version in keys && |keys[version]| >= 32
  }

  predicate GrantableAccess(claims: AccessClaims, projectionRevision: int) {
    && NonBlank(claims.organizationId) && NonBlank(claims.competitionId) && NonBlank(claims.participantId)
    && NonBlank(claims.keyVersion) && 1 <= claims.publishedRevision <= projectionRevision && claims.expiresAt.Canonical?
  }

  predicate GrantableRecovery(claims: RecoveryClaims, issuedAt: int, issuedBy: string) {
    && NonBlank(claims.organizationId) && NonBlank(claims.competitionId) && NonBlank(claims.participantId)
    && NonBlank(claims.keyVersion) && NonBlank(issuedBy) && NonBlank(claims.issuedByCommandId)
    && 1 <= claims.publishedRevision <= claims.operationalRevision
    && claims.codeExpiresAt.Canonical? && claims.codeExpiresAt.ms > issuedAt
    && claims.accessExpiresAt.Canonical? && claims.accessExpiresAt.ms > issuedAt
  }

  predicate ValidCommandId(commandId: string) {
    ValidIdentifier(commandId, 2, 199)
  }

  predicate ValidReason(reason: string) {
    |reason| <= 500 && TrimmedAtLeast(reason, 4)
  }

  /** Two characters other than white space with at least this span between them. */
  predicate TrimmedAtLeast(text: string, length: nat) {
    exists i, j :: 0 <= i <= j < |text| && !IsSpace(text[i]) && !IsSpace(text[j]) && j - i + 1 >= length
  }

  function PriorEvent(events: seq<Event>, commandId: string): (r: Option<Event>)
    ensures r.Some? ==> r.value in events && r.value.body.commandId == commandId
    ensures r.None? ==> forall e | e in events :: e.body.commandId != commandId
  {
    if events == [] then None
    else if events[0].body.commandId == commandId then Some(events[0])
    else PriorEvent(events[1..], commandId)
  }

  predicate Active(participantId: string, owner: string, revokedAt: Option<Stamp>) {
    owner == participantId && revokedAt.None?
  }

  function RevokeAccess(g: AccessGrant, participantId: string, at: Stamp, commandId: string): AccessGrant {
    if Active(participantId, g.claims.participantId, g.revokedAt)
    then g.(revokedAt := Some(at), revokedByCommandId := Some(commandId)) else g
  }

  function RevokeRecovery(g: RecoveryGrant, participantId: string, at: Stamp, commandId: string): RecoveryGrant {
    if Active(participantId, g.claims.participantId, g.revokedAt)
    then g.(revokedAt := Some(at), revokedByCommandId := Some(commandId)) else g
  }

  function AllRevoked(v: Vault, participantId: string, at: Stamp, commandId: string): Vault {
    v.(access := Map(v.access, g => RevokeAccess(g, participantId, at, commandId)),
       recovery := Map(v.recovery, g => RevokeRecovery(g, participantId, at, commandId)))
  }

  function ActiveHashes(v: Vault, participantId: string): seq<Hash> {
    Map(Filter(v.access, (g: AccessGrant) => Active(participantId, g.claims.participantId, g.revokedAt)),
        (g: AccessGrant) => TokenHash(g.tokenHash))
    + Map(Filter(v.recovery, (g: RecoveryGrant) => Active(participantId, g.claims.participantId, g.revokedAt)),
          (g: RecoveryGrant) => CodeHash(g.codeHash))
  }

  function NextEvent(events: seq<Event>, request: Request, kind: Kind, now: int, affected: seq<Hash>, result: Option<Hash>): Event {
    var body := EventBody(|events| + 1, HashBefore(events, |events|), request.commandId, request, kind, request.participantId,
                          request.actorId, Canonical(now), affected, result);
    Event(body, EventDigest(body))
  }

  function Grant(claims: AccessClaims, secret: string): AccessGrant {
    AccessGrant(claims, Token(claims, secret), None, None)
  }

  function AccessOfToken(access: seq<AccessGrant>, token: Token): (r: Option<AccessGrant>)
    ensures r.Some? ==> r.value in access && r.value.tokenHash == token
    ensures r.None? ==> forall g | g in access :: g.tokenHash != token
  {
    if access == [] then None
    else if access[0].tokenHash == token then Some(access[0])
    else AccessOfToken(access[1..], token)
  }

  /** The claims of a token issued on request, which no command is recorded for. */
  function IssuedClaims(v: Vault, ctx: Context, participantId: string, expiresAt: Stamp): AccessClaims {
    AccessClaims(v.organizationId, v.competitionId, ctx.publishedRevision, participantId, expiresAt, ctx.keyVersion, None)
  }

  function Issue(v: Vault, ctx: Context, expectedPublishedRevision: int, participantId: string, expiresAt: Stamp)
    : Result<Vault, CredentialError>
  {
    if ctx.publishedRevision != expectedPublishedRevision || ctx.baseRevision != expectedPublishedRevision then Failure(RevisionConflict)
    else if participantId !in ctx.participants then Failure(AccessDenied)
    else if expiresAt.Canonical? && expiresAt.ms <= ctx.now then Failure(InvalidGrant)
    else if !Configured(ctx.keys, ctx.keyVersion) then Failure(SigningNotConfigured)
    else
      var claims := IssuedClaims(v, ctx, participantId, expiresAt);
      if !GrantableAccess(claims, ctx.operationalRevision) then Failure(InvalidGrant)
      else
        var grant := Grant(claims, ctx.keys[ctx.keyVersion]);
        if exists g :: g in v.access && g.tokenHash == grant.tokenHash && g.revokedAt.Some? then Failure(AccessRevoked)
        else if AccessOfToken(v.access, grant.tokenHash).Some? then Success(v)
        else Success(v.(access := v.access + [grant]))
  }

  /** What every command must meet once it is known not to be a repeat. */
  function CommandRefusal(ctx: Context, request: Request): Option<CredentialError> {
    if ctx.operationalRevision != request.scope.operationalRevision || ctx.publishedRevision != request.scope.publishedRevision
       || ctx.baseRevision != request.scope.publishedRevision then Some(RevisionConflict)
    else if !ValidCommandId(request.commandId) || !NonBlank(request.actorId)
            || (!request.RecoveryRequest? && !ValidReason(request.reason)) then Some(InvalidCommand)
    else if request.participantId !in ctx.participants then Some(AccessDenied)
    else None
  }

  predicate InScope(v: Vault, request: Request) {
    request.scope.organizationId == v.organizationId && request.scope.competitionId == v.competitionId
  }

  function RotatedClaims(v: Vault, ctx: Context, request: Request): AccessClaims
    requires request.RotateRequest?
  {
    AccessClaims(v.organizationId, v.competitionId, request.scope.publishedRevision, request.participantId,
                 request.expiresAt, ctx.keyVersion, Some(request.commandId))
  }

  function Rotate(v: Vault, ctx: Context, request: Request): Result<Vault, CredentialError>
    requires request.RotateRequest?
  {
    var prior := PriorEvent(v.events, request.commandId);
    if !InScope(v, request) then Failure(NotFound)
    else if prior.Some? then
      if !prior.value.body.kind.Rotated? || prior.value.body.request != request then Failure(CommandConflict) else Success(v)
    else
      var refusal := CommandRefusal(ctx, request);
      if refusal.Some? then Failure(refusal.value)
      else if !request.expiresAt.Canonical? || request.expiresAt.ms <= ctx.now then Failure(InvalidGrant)
      else if !Configured(ctx.keys, ctx.keyVersion) then Failure(SigningNotConfigured)
      else if !GrantableAccess(RotatedClaims(v, ctx, request), request.scope.operationalRevision) then Failure(InvalidGrant)
      else
        var grant := Grant(RotatedClaims(v, ctx, request), ctx.keys[ctx.keyVersion]);
        var revoked := AllRevoked(v, request.participantId, Canonical(ctx.now), request.commandId);
        var event := NextEvent(v.events, request, Rotated, ctx.now, ActiveHashes(v, request.participantId),
                               Some(TokenHash(grant.tokenHash)));
        Success(revoked.(access := revoked.access + [grant], events := v.events + [event]))
  }

  function Revoke(v: Vault, ctx: Context, request: Request): Result<Vault, CredentialError>
    requires request.RevokeRequest?
  {
    var prior := PriorEvent(v.events, request.commandId);
    if !InScope(v, request) then Failure(NotFound)
    else if prior.Some? then
      if !prior.value.body.kind.Revoked? || prior.value.body.request != request then Failure(CommandConflict) else Success(v)
    else
      var refusal := CommandRefusal(ctx, request);
      if refusal.Some? then Failure(refusal.value)
      else
        var event := NextEvent(v.events, request, Revoked, ctx.now, ActiveHashes(v, request.participantId), None);
        Success(AllRevoked(v, request.participantId, Canonical(ctx.now), request.commandId).(events := v.events + [event]))
  }

  function RecoveryClaimsOf(v: Vault, ctx: Context, request: Request): RecoveryClaims
    requires request.RecoveryRequest?
  {
    RecoveryClaims(v.organizationId, v.competitionId, request.scope.publishedRevision, request.scope.operationalRevision,
                   request.participantId, request.codeExpiresAt, request.accessExpiresAt, ctx.keyVersion, request.commandId)
  }

  function IssueRecovery(v: Vault, ctx: Context, request: Request): Result<Vault, CredentialError>
    requires request.RecoveryRequest?
  {
    var prior := PriorEvent(v.events, request.commandId);
    if !InScope(v, request) then Failure(NotFound)
    else if prior.Some? then
      if !prior.value.body.kind.RecoveryIssued? || prior.value.body.request != request then Failure(CommandConflict) else Success(v)
    else
      var refusal := CommandRefusal(ctx, request);
      var claims := RecoveryClaimsOf(v, ctx, request);
      if refusal.Some? then Failure(refusal.value)
      else if !Configured(ctx.keys, ctx.keyVersion) then Failure(SigningNotConfigured)
      else if !GrantableRecovery(claims, ctx.now, request.actorId) then Failure(InvalidGrant)
      else
        var grant := RecoveryGrant(claims, Code(claims, ctx.keys[ctx.keyVersion]), Canonical(ctx.now), request.actorId, None, None);
        if grant.codeHash in Codes(v.recovery) then Failure(RecoveryConflict)
        else
          var event := NextEvent(v.events, request, RecoveryIssued, ctx.now, [], Some(CodeHash(grant.codeHash)));
          Success(v.(recovery := v.recovery + [grant], events := v.events + [event]))
  }

  function RecoveryOfCode(recovery: seq<RecoveryGrant>, code: Code): (r: Option<RecoveryGrant>)
    ensures r.Some? ==> r.value in recovery && r.value.codeHash == code
    ensures r.None? ==> forall g | g in recovery :: g.codeHash != code
  {
    if recovery == [] then None
    else if recovery[0].codeHash == code then Some(recovery[0])
    else RecoveryOfCode(recovery[1..], code)
  }

  function ResolveAccess(v: Vault, keys: map<string, string>, token: Token, at: Stamp): Result<AccessGrant, CredentialError> {
    var grant := AccessOfToken(v.access, token);
    if !at.Canonical? || grant.None? || grant.value.claims.organizationId != v.organizationId
       || grant.value.claims.competitionId != v.competitionId || grant.value.revokedAt.Some?
       || (grant.value.claims.expiresAt.Canonical? && grant.value.claims.expiresAt.ms <= at.ms)
       || !Configured(keys, grant.value.claims.keyVersion)
       || Token(grant.value.claims, keys[grant.value.claims.keyVersion]) != token then Failure(AccessDenied)
    else Success(grant.value)
  }

  function ResolveRecovery(v: Vault, keys: map<string, string>, code: Code, at: Stamp): Result<RecoveryGrant, CredentialError> {
    var grant := RecoveryOfCode(v.recovery, code);
    if !at.Canonical? || grant.None? || grant.value.claims.organizationId != v.organizationId
       || grant.value.claims.competitionId != v.competitionId || grant.value.revokedAt.Some?
       || (grant.value.claims.codeExpiresAt.Canonical? && grant.value.claims.codeExpiresAt.ms <= at.ms)
       || !Configured(keys, grant.value.claims.keyVersion)
       || Code(grant.value.claims, keys[grant.value.claims.keyVersion]) != code then Failure(RecoveryDenied)
    else Success(grant.value)
  }

  function RecoveredBy(commandId: string): string {
    "recovery:" + commandId
  }

  function RecoveredClaims(g: RecoveryGrant): AccessClaims {
    AccessClaims(g.claims.organizationId, g.claims.competitionId, g.claims.publishedRevision, g.claims.participantId,
                 g.claims.accessExpiresAt, g.claims.keyVersion, Some(RecoveredBy(g.claims.issuedByCommandId)))
  }

  /** A recovery code is exchanged for access; exchanging it again gives the same access. */
  function Recover(v: Vault, ctx: Context, expectedOperationalRevision: int, code: Code, at: Stamp): Result<Vault, CredentialError> {
    if ctx.operationalRevision != expectedOperationalRevision then Failure(RevisionConflict)
    else
      var resolved := ResolveRecovery(v, ctx.keys, code, at);
      if resolved.Failure? then Failure(resolved.error)
      else if resolved.value.claims.publishedRevision != ctx.publishedRevision
              || (resolved.value.claims.accessExpiresAt.Canonical? && resolved.value.claims.accessExpiresAt.ms <= at.ms)
      then Failure(RecoveryDenied)
      else
        var claims := RecoveredClaims(resolved.value);
        if !GrantableAccess(claims, ctx.operationalRevision) then Failure(InvalidGrant)
        else
          var grant := Grant(claims, ctx.keys[claims.keyVersion]);
          var existing := AccessOfToken(v.access, grant.tokenHash);
          if existing.Some? then if existing.value.revokedAt.Some? then Failure(RecoveryDenied) else Success(v)
          else Success(v.(access := v.access + [grant]))
  }

  datatype Step =
    | IssueStep(expectedPublishedRevision: int, participantId: string, expiresAt: Stamp)
    | CommandStep(request: Request)
    | RecoverStep(expectedOperationalRevision: int, code: Code, at: Stamp)

  function Command(v: Vault, ctx: Context, request: Request): Result<Vault, CredentialError> {
    match request
    case RotateRequest(_, _, _, _, _, _) => Rotate(v, ctx, request)
    case RevokeRequest(_, _, _, _, _) => Revoke(v, ctx, request)
    case RecoveryRequest(_, _, _, _, _, _) => IssueRecovery(v, ctx, request)
  }

  function Apply(v: Vault, ctx: Context, step: Step): Result<Vault, CredentialError> {
    match step
    case IssueStep(expected, participantId, expiresAt) => Issue(v, ctx, expected, participantId, expiresAt)
    case CommandStep(request) => Command(v, ctx, request)
    case RecoverStep(expected, code, at) => Recover(v, ctx, expected, code, at)
  }

  /** The vault after these steps, each in a context of its own; a refused step changes nothing. */
  function After(v: Vault, steps: seq<(Context, Step)>): Vault {
    if steps == [] then v
    else
      var before := After(v, steps[..|steps| - 1]);
      Apply(before, steps[|steps| - 1].0, steps[|steps| - 1].1).GetOr(before)
  }

  function Empty(organizationId: string, competitionId: string): Vault {
    Vault(organizationId, competitionId, [], [], [])
  }
}
