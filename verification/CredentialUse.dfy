/** When participant credentials are issued and when they resolve, in terms of the grants alone. */
module CredentialUse {
  import opened Wrappers
  import opened Timestamps
  import opened Texts
  import opened Credentials
  import opened CredentialRuns

  // ---------------------------------------------------------------- when a credential resolves

  /** The instant comes before the expiry. */
  predicate StillBefore(at: Stamp, expiresAt: Stamp) {
    at.Canonical? && expiresAt.Canonical? && at.ms < expiresAt.ms
  }

  /** The key that the credential was signed with is at hand. */
  predicate Signed(keys: map<string, string>, version: string, secret: string) {
    version in keys && keys[version] == secret && |secret| >= 32
  }

  /** The token of a live grant of this organisation and competition, before it expires. */
  predicate Opens(v: Vault, keys: map<string, string>, token: Token, at: Stamp, g: AccessGrant) {
    && g in v.access && g.tokenHash == token && token.claims == g.claims
    && g.claims.organizationId == v.organizationId && g.claims.competitionId == v.competitionId
    && g.revokedAt.None? && StillBefore(at, g.claims.expiresAt) && Signed(keys, g.claims.keyVersion, token.secret)
  }

  predicate Exchanges(v: Vault, keys: map<string, string>, code: Code, at: Stamp, g: RecoveryGrant) {
    && g in v.recovery && g.codeHash == code && code.claims == g.claims
    && g.claims.organizationId == v.organizationId && g.claims.competitionId == v.competitionId
    && g.revokedAt.None? && StillBefore(at, g.claims.codeExpiresAt) && Signed(keys, g.claims.keyVersion, code.secret)
  }

  lemma TokenResolves(v: Vault, keys: map<string, string>, token: Token, at: Stamp, g: AccessGrant)
    requires GrantsOk(v)
    ensures ResolveAccess(v, keys, token, at) == Success(g) <==> Opens(v, keys, token, at, g)
  {
    if g in v.access && g.tokenHash == token {
      assert AccessOk(v, g);
      SameTokenSameGrant(v, g, AccessOfToken(v.access, token).value);
    }
  }

  lemma CodeResolves(v: Vault, keys: map<string, string>, code: Code, at: Stamp, g: RecoveryGrant)
    requires GrantsOk(v)
    ensures ResolveRecovery(v, keys, code, at) == Success(g) <==> Exchanges(v, keys, code, at, g)
  {
    if g in v.recovery && g.codeHash == code {
      assert RecoveryOk(v, g);
      SameCodeSameGrant(v, g, RecoveryOfCode(v.recovery, code).value);
    }
  }

  /** Over every run, a token resolves to a grant exactly when that holds it, is live and has not expired, and its key is at hand. */
  lemma TokenResolvesIff(organizationId: string, competitionId: string, steps: seq<(Context, Step)>, keys: map<string, string>,
                         token: Token, at: Stamp)
    requires NoCollisions(steps)
    ensures var v := After(Empty(organizationId, competitionId), steps);
            && (forall g :: ResolveAccess(v, keys, token, at) == Success(g) <==> Opens(v, keys, token, at, g))
            && (ResolveAccess(v, keys, token, at).Success? <==> exists g :: Opens(v, keys, token, at, g))
  {
    var v := After(Empty(organizationId, competitionId), steps);
    CredentialsStayValid(organizationId, competitionId, steps);
    forall g ensures ResolveAccess(v, keys, token, at) == Success(g) <==> Opens(v, keys, token, at, g) {
      TokenResolves(v, keys, token, at, g);
    }
    if ResolveAccess(v, keys, token, at).Success? { assert Opens(v, keys, token, at, ResolveAccess(v, keys, token, at).value); }
  }

  /** The same holds of recovery codes. */
  lemma CodeResolvesIff(organizationId: string, competitionId: string, steps: seq<(Context, Step)>, keys: map<string, string>,
                        code: Code, at: Stamp)
    requires NoCollisions(steps)
    ensures var v := After(Empty(organizationId, competitionId), steps);
            && (forall g :: ResolveRecovery(v, keys, code, at) == Success(g) <==> Exchanges(v, keys, code, at, g))
            && (ResolveRecovery(v, keys, code, at).Success? <==> exists g :: Exchanges(v, keys, code, at, g))
  {
    var v := After(Empty(organizationId, competitionId), steps);
    CredentialsStayValid(organizationId, competitionId, steps);
    forall g ensures ResolveRecovery(v, keys, code, at) == Success(g) <==> Exchanges(v, keys, code, at, g) {
      CodeResolves(v, keys, code, at, g);
    }
    if ResolveRecovery(v, keys, code, at).Success? { assert Exchanges(v, keys, code, at, ResolveRecovery(v, keys, code, at).value); }
  }

  // ---------------------------------------------------------------- when a credential is issued

  /** The plan and play are at the revisions the caller expects. */
  predicate AtRevisions(ctx: Context, published: int, operational: int) {
    ctx.publishedRevision == published && ctx.baseRevision == published && ctx.operationalRevision == operational
  }

  predicate Signing(ctx: Context, secret: string) {
    Signed(ctx.keys, ctx.keyVersion, secret)
  }

  /** Somebody of the competition, in a record that is named, with a key that is. */
  predicate Named(v: Vault, ctx: Context, participantId: string) {
    && participantId in ctx.participants && NonBlank(participantId)
    && NonBlank(v.organizationId) && NonBlank(v.competitionId) && NonBlank(ctx.keyVersion)
  }

  /** A command to this record that is not one seen before, carrying an identity, an actor and a reason. */
  predicate NewCommand(v: Vault, ctx: Context, request: Request) {
    && request.scope.organizationId == v.organizationId && request.scope.competitionId == v.competitionId
    && (forall e | e in v.events :: e.body.commandId != request.commandId)
    && AtRevisions(ctx, request.scope.publishedRevision, request.scope.operationalRevision)
    && ValidCommandId(request.commandId) && NonBlank(request.actorId)
    && (!request.RecoveryRequest? ==> ValidReason(request.reason))
    && request.participantId in ctx.participants
  }

  /** A command seen before is repeated, as it was. */
  predicate Repeats(v: Vault, request: Request, kind: Kind) {
    && request.scope.organizationId == v.organizationId && request.scope.competitionId == v.competitionId
    && exists e :: e in v.events && e.body.commandId == request.commandId && e.body.kind == kind && e.body.request == request
  }

  lemma PriorIsOnlyEvent(v: Vault, e: Event)
    requires Verify(v) && e in v.events
    ensures PriorEvent(v.events, e.body.commandId) == Some(e)
  {
    var prior := PriorEvent(v.events, e.body.commandId).value;
    var i :| 0 <= i < |v.events| && v.events[i] == e;
    var j :| 0 <= j < |v.events| && v.events[j] == prior;
    assert EventOk(v, i) && EventOk(v, j) && FreshCommand(v.events, i) && FreshCommand(v.events, j);
  }

  lemma RepeatsIff(v: Vault, request: Request, kind: Kind)
    requires Verify(v) && request.scope.organizationId == v.organizationId && request.scope.competitionId == v.competitionId
    ensures var prior := PriorEvent(v.events, request.commandId);
            Repeats(v, request, kind) <==> prior.Some? && prior.value.body.kind == kind && prior.value.body.request == request
  {
    if e :| e in v.events && e.body.commandId == request.commandId && e.body.kind == kind && e.body.request == request {
      PriorIsOnlyEvent(v, e);
    }
  }

  /** A rotation is accepted exactly for a repeat, or for a new command whose token expires later and can be signed. */
  lemma RotationAcceptedIff(v: Vault, ctx: Context, request: Request)
    requires Verify(v) && request.RotateRequest?
    ensures Rotate(v, ctx, request).Success? <==>
              || Repeats(v, request, Rotated)
              || (&& NewCommand(v, ctx, request) && StillBefore(Canonical(ctx.now), request.expiresAt)
                  && (exists secret :: Signing(ctx, secret)) && Named(v, ctx, request.participantId)
                  && 1 <= ctx.publishedRevision <= ctx.operationalRevision)
  {
    if InScope(v, request) { RepeatsIff(v, request, Rotated); }
    if Configured(ctx.keys, ctx.keyVersion) { assert Signing(ctx, ctx.keys[ctx.keyVersion]); }
  }

  /** A revocation is accepted exactly for a repeat or a new command. */
  lemma RevocationAcceptedIff(v: Vault, ctx: Context, request: Request)
    requires Verify(v) && request.RevokeRequest?
    ensures Revoke(v, ctx, request).Success? <==> Repeats(v, request, Revoked) || NewCommand(v, ctx, request)
  {
    if InScope(v, request) { RepeatsIff(v, request, Revoked); }
  }

  /** A new revocation leaves the participant without a live token or code, and touches nobody else. */
  lemma RevocationLeavesNone(v: Vault, ctx: Context, request: Request)
    requires request.RevokeRequest? && NewCommand(v, ctx, request) && Revoke(v, ctx, request).Success?
    ensures var w := Revoke(v, ctx, request).value;
            && (forall g | g in w.access && g.claims.participantId == request.participantId :: g.revokedAt.Some?)
            && (forall g | g in w.recovery && g.claims.participantId == request.participantId :: g.revokedAt.Some?)
            && |w.access| == |v.access| && |w.recovery| == |v.recovery|
            && (forall i | 0 <= i < |v.access| && v.access[i].claims.participantId != request.participantId :: w.access[i] == v.access[i])
            && (forall i | 0 <= i < |v.recovery| && v.recovery[i].claims.participantId != request.participantId ::
                  w.recovery[i] == v.recovery[i])
  {
  }

  /** A recovery code is issued exactly for a repeat, or for a new command when both of its instants are still to come. */
  lemma RecoveryAcceptedIff(v: Vault, ctx: Context, request: Request)
    requires Verify(v) && request.RecoveryRequest?
    ensures IssueRecovery(v, ctx, request).Success? <==>
              || Repeats(v, request, RecoveryIssued)
              || (&& NewCommand(v, ctx, request)
                  && StillBefore(Canonical(ctx.now), request.codeExpiresAt) && StillBefore(Canonical(ctx.now), request.accessExpiresAt)
                  && (exists secret :: Signing(ctx, secret) && Code(RecoveryClaimsOf(v, ctx, request), secret) !in Codes(v.recovery))
                  && Named(v, ctx, request.participantId) && 1 <= ctx.publishedRevision <= ctx.operationalRevision)
  {
    if InScope(v, request) { RepeatsIff(v, request, RecoveryIssued); }
    if ValidCommandId(request.commandId) { assert !IsSpace(request.commandId[0]); }
    if Configured(ctx.keys, ctx.keyVersion) { assert Signing(ctx, ctx.keys[ctx.keyVersion]); }
  }

  /** A token is issued on request exactly to somebody of the competition, for a time still to come, unless it was revoked. */
  lemma IssueAcceptedIff(v: Vault, ctx: Context, expected: int, participantId: string, expiresAt: Stamp)
    ensures Issue(v, ctx, expected, participantId, expiresAt).Success? <==>
              && ctx.publishedRevision == expected && ctx.baseRevision == expected && StillBefore(Canonical(ctx.now), expiresAt)
              && Named(v, ctx, participantId) && 1 <= expected <= ctx.operationalRevision
              && exists secret :: Signing(ctx, secret) && forall g | g in v.access
                                    && g.tokenHash == Token(IssuedClaims(v, ctx, participantId, expiresAt), secret) :: g.revokedAt.None?
  {
    if Configured(ctx.keys, ctx.keyVersion) { assert Signing(ctx, ctx.keys[ctx.keyVersion]); }
  }

  // ---------------------------------------------------------------- from its issue until its expiry

  /** A grant that was just signed resolves before its expiry and not after. */
  lemma FreshGrantResolves(w: Vault, ctx: Context, g: AccessGrant, at: Stamp)
    requires GrantsOk(w) && g in w.access && g.revokedAt.None?
    requires exists secret :: Signing(ctx, secret) && g.tokenHash == Token(g.claims, secret) && g.claims.keyVersion == ctx.keyVersion
    ensures ResolveAccess(w, ctx.keys, g.tokenHash, at).Success? <==> StillBefore(at, g.claims.expiresAt)
    ensures StillBefore(at, g.claims.expiresAt) ==> ResolveAccess(w, ctx.keys, g.tokenHash, at) == Success(g)
  {
    assert AccessOk(w, g);
    TokenResolves(w, ctx.keys, g.tokenHash, at, g);
    if ResolveAccess(w, ctx.keys, g.tokenHash, at).Success? {
      var found := ResolveAccess(w, ctx.keys, g.tokenHash, at).value;
      TokenResolves(w, ctx.keys, g.tokenHash, at, found);
      SameTokenSameGrant(w, g, found);
    }
  }

  /** Over every run, a token issued or rotated anew resolves for its participant from then until its expiry, and not after. */
  lemma NewTokenResolvesUntilExpiry(organizationId: string, competitionId: string, steps: seq<(Context, Step)>, ctx: Context, step: Step,
                                    at: Stamp)
    requires NoCollisions(steps + [(ctx, step)])
    requires var v := After(Empty(organizationId, competitionId), steps);
             && (step.IssueStep? || (step.CommandStep? && step.request.RotateRequest?))
             && Apply(v, ctx, step).Success? && |Apply(v, ctx, step).value.access| > |v.access|
    ensures var v := After(Empty(organizationId, competitionId), steps);
            var w := Apply(v, ctx, step).value;
            var g := w.access[|v.access|];
            && |w.access| == |v.access| + 1
            && g.claims.participantId == (if step.IssueStep? then step.participantId else step.request.participantId)
            && g.claims.expiresAt == (if step.IssueStep? then step.expiresAt else step.request.expiresAt)
            && StillBefore(Canonical(ctx.now), g.claims.expiresAt)
            && (ResolveAccess(w, ctx.keys, g.tokenHash, at).Success? <==> StillBefore(at, g.claims.expiresAt))
  {
    var v := After(Empty(organizationId, competitionId), steps);
    assert (steps + [(ctx, step)])[..|steps|] == steps;
    CredentialsStayValid(organizationId, competitionId, steps + [(ctx, step)]);
    var w := Apply(v, ctx, step).value;
    NewGrantIsSigned(v, ctx, step);
    var g := w.access[|v.access|];
    assert g in w.access && AccessOk(w, g);
    FreshGrantResolves(w, ctx, g, at);
  }

  lemma NewGrantIsSigned(v: Vault, ctx: Context, step: Step)
    requires step.IssueStep? || (step.CommandStep? && step.request.RotateRequest?)
    requires Apply(v, ctx, step).Success? && |Apply(v, ctx, step).value.access| > |v.access|
    ensures var w := Apply(v, ctx, step).value;
            var g := w.access[|v.access|];
            && |w.access| == |v.access| + 1 && g.revokedAt.None? && g.claims.keyVersion == ctx.keyVersion
            && g.claims.participantId == (if step.IssueStep? then step.participantId else step.request.participantId)
            && g.claims.expiresAt == (if step.IssueStep? then step.expiresAt else step.request.expiresAt)
            && StillBefore(Canonical(ctx.now), g.claims.expiresAt)
            && exists secret :: Signing(ctx, secret) && g.tokenHash == Token(g.claims, secret)
  {
    assert Signing(ctx, ctx.keys[ctx.keyVersion]);
  }

  /** Over every run, a code issued anew can be exchanged from then until its expiry, and not after. */
  lemma NewCodeResolvesUntilExpiry(organizationId: string, competitionId: string, steps: seq<(Context, Step)>, ctx: Context,
                                   request: Request, at: Stamp)
    requires request.RecoveryRequest? && NoCollisions(steps + [(ctx, CommandStep(request))])
    requires var v := After(Empty(organizationId, competitionId), steps);
             NewCommand(v, ctx, request) && IssueRecovery(v, ctx, request).Success?
    ensures var v := After(Empty(organizationId, competitionId), steps);
            var w := IssueRecovery(v, ctx, request).value;
            |w.recovery| == |v.recovery| + 1 &&
            var g := w.recovery[|v.recovery|];
            && g.claims.participantId == request.participantId && g.claims.codeExpiresAt == request.codeExpiresAt
            && StillBefore(Canonical(ctx.now), g.claims.codeExpiresAt)
            && (ResolveRecovery(w, ctx.keys, g.codeHash, at).Success? <==> StillBefore(at, g.claims.codeExpiresAt))
  {
    var v := After(Empty(organizationId, competitionId), steps);
    var last := (ctx, CommandStep(request));
    assert (steps + [last])[..|steps|] == steps;
    CredentialsStayValid(organizationId, competitionId, steps + [last]);
    var w := IssueRecovery(v, ctx, request).value;
    assert w == After(Empty(organizationId, competitionId), steps + [last]);
    NewCodeIsSigned(v, ctx, request);
    var g := w.recovery[|v.recovery|];
    CodeResolves(w, ctx.keys, g.codeHash, at, g);
    if ResolveRecovery(w, ctx.keys, g.codeHash, at).Success? {
      var found := ResolveRecovery(w, ctx.keys, g.codeHash, at).value;
      CodeResolves(w, ctx.keys, g.codeHash, at, found);
      SameCodeSameGrant(w, g, found);
    }
  }

  lemma NewCodeIsSigned(v: Vault, ctx: Context, request: Request)
    requires request.RecoveryRequest? && NewCommand(v, ctx, request) && IssueRecovery(v, ctx, request).Success?
    ensures var w := IssueRecovery(v, ctx, request).value;
            |w.recovery| == |v.recovery| + 1 &&
            var g := w.recovery[|v.recovery|];
            && g in w.recovery && g.revokedAt.None? && g.claims.keyVersion == ctx.keyVersion
            && g.claims.organizationId == v.organizationId == w.organizationId
            && g.claims.competitionId == v.competitionId == w.competitionId
            && g.claims.participantId == request.participantId && g.claims.codeExpiresAt == request.codeExpiresAt
            && StillBefore(Canonical(ctx.now), g.claims.codeExpiresAt)
            && Signed(ctx.keys, ctx.keyVersion, g.codeHash.secret) && g.codeHash.claims == g.claims
  {
  }

  /** A code is exchanged exactly while it resolves at the revisions in force, for access still to expire and not revoked. */
  lemma ExchangeAcceptedIff(v: Vault, ctx: Context, expected: int, code: Code, at: Stamp)
    requires GrantsOk(v)
    ensures Recover(v, ctx, expected, code, at).Success? <==>
              && ctx.operationalRevision == expected
              && exists g :: Exchanges(v, ctx.keys, code, at, g) && g.claims.publishedRevision == ctx.publishedRevision
                   && StillBefore(at, g.claims.accessExpiresAt) && NonBlank(v.organizationId) && NonBlank(v.competitionId)
                   && NonBlank(g.claims.participantId) && NonBlank(g.claims.keyVersion)
                   && 1 <= ctx.publishedRevision <= ctx.operationalRevision
                   && forall a | a in v.access && a.tokenHash == Token(RecoveredClaims(g), code.secret) :: a.revokedAt.None?
  {
    var resolved := ResolveRecovery(v, ctx.keys, code, at);
    forall g ensures resolved == Success(g) <==> Exchanges(v, ctx.keys, code, at, g) { CodeResolves(v, ctx.keys, code, at, g); }
    if resolved.Success? {
      var g := resolved.value;
      assert Exchanges(v, ctx.keys, code, at, g) && RecoveryOk(v, g);
      var token := Token(RecoveredClaims(g), code.secret);
      if a :| a in v.access && a.tokenHash == token { SameTokenSameGrant(v, a, AccessOfToken(v.access, token).value); }
    }
  }

  /** An exchanged code leaves its participant a live token that expires when the code said, with nothing else changed. */
  lemma ExchangeGivesAccess(v: Vault, ctx: Context, expected: int, code: Code, at: Stamp)
    requires Consistent(v) && Recover(v, ctx, expected, code, at).Success?
    ensures var w := Recover(v, ctx, expected, code, at).value;
            && ctx.operationalRevision == expected
            && (exists g :: Exchanges(v, ctx.keys, code, at, g) && g.claims.publishedRevision == ctx.publishedRevision
                            && StillBefore(at, g.claims.accessExpiresAt))
            && (exists a :: a in w.access && a.revokedAt.None? && a.claims.participantId == code.claims.participantId
                            && a.claims.expiresAt == code.claims.accessExpiresAt)
            && w.recovery == v.recovery && w.events == v.events && v.access <= w.access && |w.access| <= |v.access| + 1
  {
    var g := ResolveRecovery(v, ctx.keys, code, at).value;
    CodeResolves(v, ctx.keys, code, at, g);
    assert RecoveryOk(v, g);
    var w := Recover(v, ctx, expected, code, at).value;
    var grant := Grant(RecoveredClaims(g), ctx.keys[RecoveredClaims(g).keyVersion]);
    var existing := AccessOfToken(v.access, grant.tokenHash);
    if existing.Some? { assert Sourced(v, existing.value); } else { assert grant in w.access; }
  }
}
