/** What every run of credential steps keeps, and the command identities that break it. */
module CredentialRuns {
  import opened Wrappers
  import opened Lists
  import opened Timestamps
  import opened Texts
  import opened Credentials

  // ---------------------------------------------------------------- where grants come from

  /** The identity is what an exchange of a recovery code records for some valid command. */
  ghost predicate Colliding(commandId: string) {
    exists issued :: ValidCommandId(issued) && commandId == RecoveredBy(issued)
  }

  predicate Commanded(events: seq<Event>, commandId: string) {
    exists e :: e in events && e.body.commandId == commandId
  }

  predicate Exchanged(recovery: seq<RecoveryGrant>, commandId: string) {
    exists r :: r in recovery && commandId == RecoveredBy(r.claims.issuedByCommandId)
  }

  /** A token carries its grant's claims, and names the command or the recovery code it was issued by, if any. */
  predicate Sourced(v: Vault, g: AccessGrant) {
    && g.tokenHash.claims == g.claims
    && (g.claims.issuedByCommandId.Some? ==>
          Commanded(v.events, g.claims.issuedByCommandId.value) || Exchanged(v.recovery, g.claims.issuedByCommandId.value))
  }

  ghost predicate Provenance(v: Vault) {
    && (forall g | g in v.access :: Sourced(v, g))
    && (forall r | r in v.recovery :: ValidCommandId(r.claims.issuedByCommandId))
  }

  ghost predicate Consistent(v: Vault) {
    Verify(v) && Provenance(v)
  }

  // ---------------------------------------------------------------- steps only add and revoke

  predicate AccessContinues(before: AccessGrant, after: AccessGrant) {
    && after.claims == before.claims && after.tokenHash == before.tokenHash
    && (before.revokedAt.Some? ==> after == before)
  }

  predicate RecoveryContinues(before: RecoveryGrant, after: RecoveryGrant) {
    && after.claims == before.claims && after.codeHash == before.codeHash && after.issuedAt == before.issuedAt
    && (before.revokedAt.Some? ==> after == before)
  }

  ghost predicate Extends(v: Vault, w: Vault) {
    && w.organizationId == v.organizationId && w.competitionId == v.competitionId
    && |v.access| <= |w.access| && (forall i | 0 <= i < |v.access| :: AccessContinues(v.access[i], w.access[i]))
    && |v.recovery| <= |w.recovery| && (forall i | 0 <= i < |v.recovery| :: RecoveryContinues(v.recovery[i], w.recovery[i]))
    && v.events <= w.events
  }

  lemma RevokingExtends(v: Vault, participantId: string, at: Stamp, commandId: string)
    ensures Extends(v, AllRevoked(v, participantId, at, commandId))
  {
  }

  lemma AddingExtends(v: Vault, w: Vault, access: seq<AccessGrant>, recovery: seq<RecoveryGrant>, events: seq<Event>)
    requires Extends(v, w)
    ensures Extends(v, w.(access := w.access + access, recovery := w.recovery + recovery, events := w.events + events))
  {
  }

  lemma ExtendsItself(v: Vault)
    ensures Extends(v, v)
  {
  }

  lemma RotateExtends(v: Vault, ctx: Context, request: Request)
    requires request.RotateRequest? && Rotate(v, ctx, request).Success?
    ensures Extends(v, Rotate(v, ctx, request).value)
  {
    var w := Rotate(v, ctx, request).value;
    ExtendsItself(v);
    if PriorEvent(v.events, request.commandId).None? {
      var revoked := AllRevoked(v, request.participantId, Canonical(ctx.now), request.commandId);
      RevokingExtends(v, request.participantId, Canonical(ctx.now), request.commandId);
      AddingExtends(v, revoked, [w.access[|v.access|]], [], [w.events[|v.events|]]);
      assert revoked.recovery + [] == revoked.recovery;
    }
  }

  lemma RevokeExtends(v: Vault, ctx: Context, request: Request)
    requires request.RevokeRequest? && Revoke(v, ctx, request).Success?
    ensures Extends(v, Revoke(v, ctx, request).value)
  {
    var w := Revoke(v, ctx, request).value;
    ExtendsItself(v);
    if PriorEvent(v.events, request.commandId).None? {
      var revoked := AllRevoked(v, request.participantId, Canonical(ctx.now), request.commandId);
      RevokingExtends(v, request.participantId, Canonical(ctx.now), request.commandId);
      AddingExtends(v, revoked, [], [], [w.events[|v.events|]]);
      assert revoked.recovery + [] == revoked.recovery && revoked.access + [] == revoked.access;
    }
  }

  /** A step only adds grants and events, and revokes grants; what is revoked stays as it is. */
  lemma StepExtends(v: Vault, ctx: Context, step: Step)
    requires Apply(v, ctx, step).Success?
    ensures Extends(v, Apply(v, ctx, step).value)
  {
    ExtendsItself(v);
    match step {
      case IssueStep(_, _, _) =>
      case RecoverStep(_, _, _) =>
      case CommandStep(request) =>
        match request {
          case RotateRequest(_, _, _, _, _, _) => RotateExtends(v, ctx, request);
          case RevokeRequest(_, _, _, _, _) => RevokeExtends(v, ctx, request);
          case RecoveryRequest(_, _, _, _, _, _) =>
        }
    }
  }

  lemma ExtendsTransitive(u: Vault, v: Vault, w: Vault)
    requires Extends(u, v) && Extends(v, w)
    ensures Extends(u, w)
  {
    forall i | 0 <= i < |u.access| ensures AccessContinues(u.access[i], w.access[i]) {
      assert AccessContinues(u.access[i], v.access[i]) && AccessContinues(v.access[i], w.access[i]);
    }
    forall i | 0 <= i < |u.recovery| ensures RecoveryContinues(u.recovery[i], w.recovery[i]) {
      assert RecoveryContinues(u.recovery[i], v.recovery[i]) && RecoveryContinues(v.recovery[i], w.recovery[i]);
    }
  }

  lemma {:induction false} RunExtends(v: Vault, steps: seq<(Context, Step)>)
    ensures Extends(v, After(v, steps))
  {
    if steps != [] {
      var front := steps[..|steps| - 1];
      RunExtends(v, front);
      var before, last := After(v, front), steps[|steps| - 1];
      if Apply(before, last.0, last.1).Success? {
        StepExtends(before, last.0, last.1);
        ExtendsTransitive(v, before, After(v, steps));
      }
    }
  }

  lemma AccessKept(v: Vault, w: Vault, g: AccessGrant) returns (kept: AccessGrant)
    requires Extends(v, w) && g in v.access
    ensures kept in w.access && AccessContinues(g, kept)
  {
    var i :| 0 <= i < |v.access| && v.access[i] == g;
    kept := w.access[i];
  }

  lemma RecoveryKept(v: Vault, w: Vault, g: RecoveryGrant) returns (kept: RecoveryGrant)
    requires Extends(v, w) && g in v.recovery
    ensures kept in w.recovery && RecoveryContinues(g, kept)
  {
    var i :| 0 <= i < |v.recovery| && v.recovery[i] == g;
    kept := w.recovery[i];
  }

  // ---------------------------------------------------------------- events stay borne out

  lemma HeldStays(v: Vault, w: Vault, h: Hash)
    requires Extends(v, w) && Held(v, h)
    ensures Held(w, h)
  {
    match h {
      case TokenHash(t) =>
        var g :| g in v.access && g.tokenHash == t;
        var kept := AccessKept(v, w, g);
      case CodeHash(c) =>
        var g :| g in v.recovery && g.codeHash == c;
        var kept := RecoveryKept(v, w, g);
    }
  }

  lemma RevokedByStays(v: Vault, w: Vault, h: Hash, participantId: string, commandId: string)
    requires Extends(v, w) && GrantsOk(v) && RevokedBy(v, h, participantId, commandId)
    ensures RevokedBy(w, h, participantId, commandId)
  {
    match h {
      case TokenHash(t) =>
        var g :| g in v.access && g.tokenHash == t && g.claims.participantId == participantId
                 && g.revokedByCommandId == Some(commandId);
        assert AccessOk(v, g);
        var kept := AccessKept(v, w, g);
      case CodeHash(c) =>
        var g :| g in v.recovery && g.codeHash == c && g.claims.participantId == participantId
                 && g.revokedByCommandId == Some(commandId);
        assert RecoveryOk(v, g);
        var kept := RecoveryKept(v, w, g);
    }
  }

  lemma IssuedStays(v: Vault, w: Vault, h: Hash, participantId: string, commandId: string)
    requires Extends(v, w)
    ensures AccessIssuedBy(v, h, participantId, commandId) ==> AccessIssuedBy(w, h, participantId, commandId)
    ensures CodeIssuedBy(v, h, participantId, commandId) ==> CodeIssuedBy(w, h, participantId, commandId)
  {
    if AccessIssuedBy(v, h, participantId, commandId) {
      var g :| g in v.access && g.tokenHash == h.token && g.claims.participantId == participantId
               && g.claims.issuedByCommandId == Some(commandId);
      var kept := AccessKept(v, w, g);
    }
    if CodeIssuedBy(v, h, participantId, commandId) {
      var g :| g in v.recovery && g.codeHash == h.code && g.claims.participantId == participantId
               && g.claims.issuedByCommandId == commandId;
      var kept := RecoveryKept(v, w, g);
    }
  }

  lemma AccountedStays(v: Vault, w: Vault, e: EventBody)
    requires Extends(v, w) && GrantsOk(v) && Accounted(v, e)
    ensures Accounted(w, e)
  {
    forall h | h in e.affected ensures Held(w, h) { HeldStays(v, w, h); }
    if e.result.Some? { IssuedStays(v, w, e.result.value, e.participantId, e.commandId); }
    if !e.kind.RecoveryIssued? {
      forall h | h in e.affected ensures RevokedBy(w, h, e.participantId, e.commandId) {
        RevokedByStays(v, w, h, e.participantId, e.commandId);
      }
    }
  }

  /** Grants that stay in order, with the next event of a new command borne out, keep the log valid. */
  lemma LogStaysValid(v: Vault, w: Vault, event: Event)
    requires Verify(v) && Extends(v, w) && GrantsOk(w) && w.events == v.events + [event]
    requires Sealed(event, |v.events| + 1, HashBefore(v.events, |v.events|))
    requires !Commanded(v.events, event.body.commandId) && Accounted(w, event.body)
    ensures Verify(w)
  {
    forall i | 0 <= i < |w.events| ensures EventOk(w, i) {
      if i < |v.events| {
        assert EventOk(v, i) && w.events[i] == v.events[i];
        AccountedStays(v, w, v.events[i].body);
        forall j | 0 <= j < i ensures w.events[j].body.commandId != w.events[i].body.commandId {
          assert w.events[j] == v.events[j];
        }
      } else {
        assert w.events[i] == event && (i > 0 ==> w.events[i - 1] == v.events[i - 1]);
        forall j | 0 <= j < i ensures w.events[j].body.commandId != event.body.commandId {
          assert w.events[j] == v.events[j] && v.events[j] in v.events;
        }
      }
    }
  }

  lemma SameLogStaysValid(v: Vault, w: Vault)
    requires Verify(v) && Extends(v, w) && GrantsOk(w) && w.events == v.events
    ensures Verify(w)
  {
    forall i | 0 <= i < |w.events| ensures EventOk(w, i) {
      assert EventOk(v, i);
      AccountedStays(v, w, v.events[i].body);
    }
  }

  // ---------------------------------------------------------------- grants stay in order

  lemma OneTokenMore(access: seq<AccessGrant>, grant: AccessGrant)
    requires Distinct(Tokens(access)) && AccessOfToken(access, grant.tokenHash).None?
    ensures Distinct(Tokens(access + [grant]))
  {
    var tokens := Tokens(access);
    assert Tokens(access + [grant]) == tokens + [grant.tokenHash];
    forall i | 0 <= i < |tokens| ensures tokens[i] != grant.tokenHash { assert access[i] in access; }
  }

  lemma GrantAdded(v: Vault, grant: AccessGrant)
    requires GrantsOk(v) && AccessOk(v, grant) && AccessOfToken(v.access, grant.tokenHash).None?
    ensures GrantsOk(v.(access := v.access + [grant]))
  {
    var w := v.(access := v.access + [grant]);
    OneTokenMore(v.access, grant);
    forall g | g in w.access ensures AccessOk(w, g) { assert AccessOk(v, g); }
    forall g | g in w.recovery ensures RecoveryOk(w, g) { assert RecoveryOk(v, g); }
  }

  lemma RevokedGrantsOk(v: Vault, participantId: string, at: Stamp, commandId: string)
    requires GrantsOk(v) && at.Canonical?
    ensures GrantsOk(AllRevoked(v, participantId, at, commandId))
  {
    var w := AllRevoked(v, participantId, at, commandId);
    assert Tokens(w.access) == Tokens(v.access) && Codes(w.recovery) == Codes(v.recovery);
    forall g | g in w.access ensures AccessOk(w, g) {
      var i :| 0 <= i < |w.access| && w.access[i] == g;
      assert AccessOk(v, v.access[i]);
    }
    forall g | g in w.recovery ensures RecoveryOk(w, g) {
      var i :| 0 <= i < |w.recovery| && w.recovery[i] == g;
      assert RecoveryOk(v, v.recovery[i]);
    }
  }

  lemma NotRevokedToken(v: Vault, participantId: string, at: Stamp, commandId: string, token: Token)
    requires AccessOfToken(v.access, token).None?
    ensures AccessOfToken(AllRevoked(v, participantId, at, commandId).access, token).None?
  {
    var w := AllRevoked(v, participantId, at, commandId);
    forall g | g in w.access ensures g.tokenHash != token {
      var i :| 0 <= i < |w.access| && w.access[i] == g;
      assert v.access[i] in v.access;
    }
  }

  lemma TokenRevoked(v: Vault, participantId: string, at: Stamp, commandId: string, g: AccessGrant)
    requires g in v.access && Active(participantId, g.claims.participantId, g.revokedAt)
    ensures RevokedBy(AllRevoked(v, participantId, at, commandId), TokenHash(g.tokenHash), participantId, commandId)
  {
    var w := AllRevoked(v, participantId, at, commandId);
    var i :| 0 <= i < |v.access| && v.access[i] == g;
    assert w.access[i] in w.access;
  }

  lemma CodeRevoked(v: Vault, participantId: string, at: Stamp, commandId: string, g: RecoveryGrant)
    requires g in v.recovery && Active(participantId, g.claims.participantId, g.revokedAt)
    ensures RevokedBy(AllRevoked(v, participantId, at, commandId), CodeHash(g.codeHash), participantId, commandId)
  {
    var w := AllRevoked(v, participantId, at, commandId);
    var i :| 0 <= i < |v.recovery| && v.recovery[i] == g;
    assert w.recovery[i] in w.recovery;
  }

  lemma RevokedIsHeld(v: Vault, h: Hash, participantId: string, commandId: string)
    requires RevokedBy(v, h, participantId, commandId)
    ensures Held(v, h)
  {
  }

  /** Every credential that was active is revoked by the command. */
  lemma ActiveAreRevoked(v: Vault, participantId: string, at: Stamp, commandId: string, h: Hash)
    requires h in ActiveHashes(v, participantId)
    ensures Held(AllRevoked(v, participantId, at, commandId), h)
    ensures RevokedBy(AllRevoked(v, participantId, at, commandId), h, participantId, commandId)
  {
    var access := Filter(v.access, (g: AccessGrant) => Active(participantId, g.claims.participantId, g.revokedAt));
    var recovery := Filter(v.recovery, (g: RecoveryGrant) => Active(participantId, g.claims.participantId, g.revokedAt));
    var k :| 0 <= k < |ActiveHashes(v, participantId)| && ActiveHashes(v, participantId)[k] == h;
    if k < |access| {
      assert access[k] in access;
      TokenRevoked(v, participantId, at, commandId, access[k]);
    } else {
      assert recovery[k - |access|] in recovery;
      CodeRevoked(v, participantId, at, commandId, recovery[k - |access|]);
    }
    RevokedIsHeld(AllRevoked(v, participantId, at, commandId), h, participantId, commandId);
  }

  lemma AccountedWithGrant(v: Vault, w: Vault, grant: AccessGrant, events: seq<Event>, h: Hash, participantId: string, commandId: string)
    requires w == v.(access := v.access + [grant], events := events)
    ensures Held(v, h) ==> Held(w, h)
    ensures RevokedBy(v, h, participantId, commandId) ==> RevokedBy(w, h, participantId, commandId)
  {
  }

  // ---------------------------------------------------------------- each step keeps the vault consistent

  lemma SourcedStays(v: Vault, w: Vault)
    requires Provenance(v) && Extends(v, w)
    ensures forall i | 0 <= i < |v.access| :: Sourced(w, w.access[i])
    ensures forall i | 0 <= i < |v.recovery| :: ValidCommandId(w.recovery[i].claims.issuedByCommandId)
  {
    forall i | 0 <= i < |v.access| ensures Sourced(w, w.access[i]) {
      assert AccessContinues(v.access[i], w.access[i]) && Sourced(v, v.access[i]);
      var id := v.access[i].claims.issuedByCommandId;
      if id.Some? && Commanded(v.events, id.value) {
        var e :| e in v.events && e.body.commandId == id.value;
        assert e in w.events;
      } else if id.Some? {
        var r :| r in v.recovery && id.value == RecoveredBy(r.claims.issuedByCommandId);
        var kept := RecoveryKept(v, w, r);
      }
    }
    forall i | 0 <= i < |v.recovery| ensures ValidCommandId(w.recovery[i].claims.issuedByCommandId) {
      assert RecoveryContinues(v.recovery[i], w.recovery[i]) && v.recovery[i] in v.recovery;
    }
  }

  lemma ProvenanceStays(v: Vault, w: Vault)
    requires Provenance(v) && Extends(v, w)
    requires forall i | |v.access| <= i < |w.access| :: Sourced(w, w.access[i])
    requires forall i | |v.recovery| <= i < |w.recovery| :: ValidCommandId(w.recovery[i].claims.issuedByCommandId)
    ensures Provenance(w)
  {
    SourcedStays(v, w);
    forall g | g in w.access ensures Sourced(w, g) {
      var i :| 0 <= i < |w.access| && w.access[i] == g;
    }
    forall r | r in w.recovery ensures ValidCommandId(r.claims.issuedByCommandId) {
      var i :| 0 <= i < |w.recovery| && w.recovery[i] == r;
    }
  }

  lemma IssueConsistent(v: Vault, ctx: Context, expected: int, participantId: string, expiresAt: Stamp)
    requires Consistent(v) && Issue(v, ctx, expected, participantId, expiresAt).Success?
    ensures Consistent(Issue(v, ctx, expected, participantId, expiresAt).value)
  {
    var w := Issue(v, ctx, expected, participantId, expiresAt).value;
    if w != v {
      var grant := w.access[|v.access|];
      GrantAdded(v, grant);
      SameLogStaysValid(v, w);
      ProvenanceStays(v, w);
    }
  }

  lemma RecoverConsistent(v: Vault, ctx: Context, expected: int, code: Code, at: Stamp)
    requires Consistent(v) && Recover(v, ctx, expected, code, at).Success?
    ensures Consistent(Recover(v, ctx, expected, code, at).value)
  {
    var w := Recover(v, ctx, expected, code, at).value;
    if w != v {
      var grant, used := w.access[|v.access|], ResolveRecovery(v, ctx.keys, code, at).value;
      assert used in v.recovery && RecoveryOk(v, used);
      assert Exchanged(w.recovery, grant.claims.issuedByCommandId.value);
      GrantAdded(v, grant);
      SameLogStaysValid(v, w);
      ProvenanceStays(v, w);
    }
  }

  lemma NextEventSealed(events: seq<Event>, request: Request, kind: Kind, now: int, affected: seq<Hash>, result: Option<Hash>)
    requires ValidCommandId(request.commandId) && NonBlank(request.actorId) && NonBlank(request.participantId)
    ensures Sealed(NextEvent(events, request, kind, now, affected, result), |events| + 1, HashBefore(events, |events|))
  {
    assert !IsSpace(request.commandId[0]);
  }

  lemma NotExchanged(v: Vault, commandId: string)
    requires Provenance(v) && !Colliding(commandId)
    ensures !Exchanged(v.recovery, commandId)
  {
    forall r | r in v.recovery ensures commandId != RecoveredBy(r.claims.issuedByCommandId) {
      assert ValidCommandId(r.claims.issuedByCommandId);
    }
  }

  /** A rotation's token is new, unless its command takes the identity of an exchanged recovery code. */
  lemma RotatedTokenIsNew(v: Vault, ctx: Context, request: Request, secret: string)
    requires Consistent(v) && request.RotateRequest? && PriorEvent(v.events, request.commandId).None?
    requires !Colliding(request.commandId)
    ensures AccessOfToken(v.access, Token(RotatedClaims(v, ctx, request), secret)).None?
  {
    NotExchanged(v, request.commandId);
    forall g | g in v.access ensures g.tokenHash != Token(RotatedClaims(v, ctx, request), secret) {
      assert Sourced(v, g);
    }
  }

  predicate SoundContext(ctx: Context) {
    forall p | p in ctx.participants :: NonBlank(p)
  }

  lemma RotationAccounted(v: Vault, w: Vault, ctx: Context, request: Request)
    requires request.RotateRequest? && PriorEvent(v.events, request.commandId).None? && Rotate(v, ctx, request) == Success(w)
    ensures Accounted(w, w.events[|v.events|].body)
  {
    var event, grant := w.events[|v.events|].body, w.access[|v.access|];
    var revoked := AllRevoked(v, request.participantId, Canonical(ctx.now), request.commandId);
    assert grant in w.access;
    forall h | h in event.affected ensures Held(w, h) && RevokedBy(w, h, event.participantId, event.commandId) {
      ActiveAreRevoked(v, request.participantId, Canonical(ctx.now), request.commandId, h);
      AccountedWithGrant(revoked, w, grant, w.events, h, event.participantId, event.commandId);
    }
  }

  lemma RotatedGrantsOk(v: Vault, w: Vault, ctx: Context, request: Request)
    requires Consistent(v) && request.RotateRequest? && PriorEvent(v.events, request.commandId).None?
    requires Rotate(v, ctx, request) == Success(w) && !Colliding(request.commandId)
    ensures GrantsOk(w)
  {
    var grant := Grant(RotatedClaims(v, ctx, request), ctx.keys[ctx.keyVersion]);
    var revoked := AllRevoked(v, request.participantId, Canonical(ctx.now), request.commandId);
    RevokedGrantsOk(v, request.participantId, Canonical(ctx.now), request.commandId);
    RotatedTokenIsNew(v, ctx, request, ctx.keys[ctx.keyVersion]);
    NotRevokedToken(v, request.participantId, Canonical(ctx.now), request.commandId, grant.tokenHash);
    GrantAdded(revoked, grant);
    SameGrantsOk(revoked.(access := revoked.access + [grant]), w);
  }

  lemma RotateConsistent(v: Vault, ctx: Context, request: Request)
    requires Consistent(v) && SoundContext(ctx) && request.RotateRequest? && Rotate(v, ctx, request).Success?
    requires !Colliding(request.commandId)
    ensures Consistent(Rotate(v, ctx, request).value)
  {
    var w := Rotate(v, ctx, request).value;
    if PriorEvent(v.events, request.commandId).None? {
      var event := w.events[|v.events|];
      RotateExtends(v, ctx, request);
      RotatedGrantsOk(v, w, ctx, request);
      RotationAccounted(v, w, ctx, request);
      NextEventSealed(v.events, request, Rotated, ctx.now, event.body.affected, event.body.result);
      LogStaysValid(v, w, event);
      assert event in w.events;
      ProvenanceStays(v, w);
    }
  }

  lemma SameGrantsOk(v: Vault, w: Vault)
    requires GrantsOk(v) && w.organizationId == v.organizationId && w.competitionId == v.competitionId
    requires w.access == v.access && w.recovery == v.recovery
    ensures GrantsOk(w)
  {
    forall g | g in w.access ensures AccessOk(w, g) { assert AccessOk(v, g); }
    forall g | g in w.recovery ensures RecoveryOk(w, g) { assert RecoveryOk(v, g); }
  }

  lemma RevokeConsistent(v: Vault, ctx: Context, request: Request)
    requires Consistent(v) && SoundContext(ctx) && request.RevokeRequest? && Revoke(v, ctx, request).Success?
    ensures Consistent(Revoke(v, ctx, request).value)
  {
    var w := Revoke(v, ctx, request).value;
    if PriorEvent(v.events, request.commandId).None? {
      var event := w.events[|v.events|];
      var revoked := AllRevoked(v, request.participantId, Canonical(ctx.now), request.commandId);
      RevokeExtends(v, ctx, request);
      RevokedGrantsOk(v, request.participantId, Canonical(ctx.now), request.commandId);
      SameGrantsOk(revoked, w);
      forall h | h in event.body.affected
        ensures Held(w, h) && RevokedBy(w, h, event.body.participantId, event.body.commandId)
      {
        ActiveAreRevoked(v, request.participantId, Canonical(ctx.now), request.commandId, h);
      }
      NextEventSealed(v.events, request, Revoked, ctx.now, event.body.affected, event.body.result);
      LogStaysValid(v, w, event);
      ProvenanceStays(v, w);
    }
  }

  lemma OneCodeMore(v: Vault, grant: RecoveryGrant)
    requires GrantsOk(v) && RecoveryOk(v, grant) && grant.codeHash !in Codes(v.recovery)
    ensures GrantsOk(v.(recovery := v.recovery + [grant]))
  {
    var w := v.(recovery := v.recovery + [grant]);
    assert Codes(w.recovery) == Codes(v.recovery) + [grant.codeHash];
    forall g | g in w.access ensures AccessOk(w, g) { assert AccessOk(v, g); }
    forall g | g in w.recovery ensures RecoveryOk(w, g) { assert RecoveryOk(v, g); }
  }

  lemma IssueRecoveryConsistent(v: Vault, ctx: Context, request: Request)
    requires Consistent(v) && SoundContext(ctx) && request.RecoveryRequest? && IssueRecovery(v, ctx, request).Success?
    ensures Consistent(IssueRecovery(v, ctx, request).value)
  {
    var w := IssueRecovery(v, ctx, request).value;
    if PriorEvent(v.events, request.commandId).None? {
      var grant, event := w.recovery[|v.recovery|], w.events[|v.events|];
      StepExtends(v, ctx, CommandStep(request));
      OneCodeMore(v, grant);
      SameGrantsOk(v.(recovery := v.recovery + [grant]), w);
      assert grant in w.recovery;
      NextEventSealed(v.events, request, RecoveryIssued, ctx.now, [], event.body.result);
      LogStaysValid(v, w, event);
      ProvenanceStays(v, w);
    }
  }

  /** A command may carry the identity, and it is one that an exchange of a recovery code records. */
  ghost predicate Harmful(commandId: string) {
    Colliding(commandId) && ValidCommandId(commandId)
  }

  /** No command of the run takes the identity of an exchanged recovery code. */
  ghost predicate NoCollisions(steps: seq<(Context, Step)>) {
    forall i | 0 <= i < |steps| ::
      SoundContext(steps[i].0) && (steps[i].1.CommandStep? && steps[i].1.request.RotateRequest? ==>
                                     !Harmful(steps[i].1.request.commandId))
  }

  lemma InvalidRotationChangesNothing(v: Vault, ctx: Context, request: Request)
    requires request.RotateRequest? && Rotate(v, ctx, request).Success? && !ValidCommandId(request.commandId)
    ensures Rotate(v, ctx, request).value == v
  {
  }

  lemma StepConsistent(v: Vault, ctx: Context, step: Step)
    requires Consistent(v) && SoundContext(ctx) && Apply(v, ctx, step).Success?
    requires step.CommandStep? && step.request.RotateRequest? ==> !Harmful(step.request.commandId)
    ensures Consistent(Apply(v, ctx, step).value)
  {
    match step {
      case IssueStep(expected, participantId, expiresAt) => IssueConsistent(v, ctx, expected, participantId, expiresAt);
      case RecoverStep(expected, code, at) => RecoverConsistent(v, ctx, expected, code, at);
      case CommandStep(request) =>
        match request {
          case RotateRequest(_, _, _, _, _, _) =>
            if ValidCommandId(request.commandId) {
              RotateConsistent(v, ctx, request);
            } else {
              InvalidRotationChangesNothing(v, ctx, request);
            }
          case RevokeRequest(_, _, _, _, _) => RevokeConsistent(v, ctx, request);
          case RecoveryRequest(_, _, _, _, _, _) => IssueRecoveryConsistent(v, ctx, request);
        }
    }
  }

  /** Over every run without colliding rotations, the stored credentials pass their check. */
  lemma {:induction false} CredentialsStayValid(organizationId: string, competitionId: string, steps: seq<(Context, Step)>)
    requires NoCollisions(steps)
    ensures Consistent(After(Empty(organizationId, competitionId), steps))
  {
    if steps != [] {
      var front, last := steps[..|steps| - 1], steps[|steps| - 1];
      CredentialsStayValid(organizationId, competitionId, front);
      var before := After(Empty(organizationId, competitionId), front);
      if Apply(before, last.0, last.1).Success? { StepConsistent(before, last.0, last.1); }
    }
  }

  // ---------------------------------------------------------------- rotation and revocation

  /** After a new rotation the participant has exactly one active token, the new one, and no active recovery code. */
  lemma RotationLeavesOneCredential(v: Vault, ctx: Context, request: Request)
    requires request.RotateRequest? && PriorEvent(v.events, request.commandId).None? && Rotate(v, ctx, request).Success?
    ensures var w := Rotate(v, ctx, request).value;
            && |w.access| == |v.access| + 1
            && w.access[|v.access|] == Grant(RotatedClaims(v, ctx, request), ctx.keys[ctx.keyVersion])
            && (forall i | 0 <= i < |w.access| ::
                  Active(request.participantId, w.access[i].claims.participantId, w.access[i].revokedAt) <==> i == |v.access|)
            && (forall g | g in w.recovery :: !Active(request.participantId, g.claims.participantId, g.revokedAt))
            && (forall i | 0 <= i < |v.access| && v.access[i].claims.participantId != request.participantId ::
                  w.access[i] == v.access[i])
  {
  }

  /** A revoked token resolves in no later record, and neither does a revoked recovery code. */
  lemma RevokedNeverResolves(v: Vault, steps: seq<(Context, Step)>, keys: map<string, string>, at: Stamp)
    requires GrantsOk(After(v, steps))
    ensures forall g | g in v.access && g.revokedAt.Some? :: ResolveAccess(After(v, steps), keys, g.tokenHash, at).Failure?
    ensures forall g | g in v.recovery && g.revokedAt.Some? :: ResolveRecovery(After(v, steps), keys, g.codeHash, at).Failure?
  {
    var w := After(v, steps);
    RunExtends(v, steps);
    forall g | g in v.access && g.revokedAt.Some? ensures ResolveAccess(w, keys, g.tokenHash, at).Failure? {
      var kept := AccessKept(v, w, g);
      SameTokenSameGrant(w, kept, AccessOfToken(w.access, g.tokenHash).value);
    }
    forall g | g in v.recovery && g.revokedAt.Some? ensures ResolveRecovery(w, keys, g.codeHash, at).Failure? {
      var kept := RecoveryKept(v, w, g);
      SameCodeSameGrant(w, kept, RecoveryOfCode(w.recovery, g.codeHash).value);
    }
  }

  lemma {:induction false} AfterInTurn(v: Vault, earlier: seq<(Context, Step)>, later: seq<(Context, Step)>)
    ensures After(v, earlier + later) == After(After(v, earlier), later)
  {
    if later == [] {
      assert earlier + later == earlier;
    } else {
      var front := later[..|later| - 1];
      AfterInTurn(v, earlier, front);
      assert (earlier + later)[..|earlier + later| - 1] == earlier + front;
    }
  }

  /** Over every run without colliding rotations, what is revoked at some point never resolves afterwards. */
  lemma RevokedForGood(organizationId: string, competitionId: string, earlier: seq<(Context, Step)>, later: seq<(Context, Step)>,
                       keys: map<string, string>, at: Stamp)
    requires NoCollisions(earlier + later)
    ensures var v := After(Empty(organizationId, competitionId), earlier);
            && (forall g | g in v.access && g.revokedAt.Some? :: ResolveAccess(After(v, later), keys, g.tokenHash, at).Failure?)
            && (forall g | g in v.recovery && g.revokedAt.Some? :: ResolveRecovery(After(v, later), keys, g.codeHash, at).Failure?)
  {
    CredentialsStayValid(organizationId, competitionId, earlier + later);
    AfterInTurn(Empty(organizationId, competitionId), earlier, later);
    RevokedNeverResolves(After(Empty(organizationId, competitionId), earlier), later, keys, at);
  }

  lemma SameTokenSameGrant(v: Vault, a: AccessGrant, b: AccessGrant)
    requires GrantsOk(v) && a in v.access && b in v.access && a.tokenHash == b.tokenHash
    ensures a == b
  {
    var i :| 0 <= i < |v.access| && v.access[i] == a;
    var j :| 0 <= j < |v.access| && v.access[j] == b;
    assert Tokens(v.access)[i] == Tokens(v.access)[j];
  }

  lemma SameCodeSameGrant(v: Vault, a: RecoveryGrant, b: RecoveryGrant)
    requires GrantsOk(v) && a in v.recovery && b in v.recovery && a.codeHash == b.codeHash
    ensures a == b
  {
    var i :| 0 <= i < |v.recovery| && v.recovery[i] == a;
    var j :| 0 <= j < |v.recovery| && v.recovery[j] == b;
    assert Codes(v.recovery)[i] == Codes(v.recovery)[j];
  }

  // ---------------------------------------------------------------- colliding command identities

  const SECRET: string := "0123456789abcdef0123456789abcdef"

  function OnePlayer(): Context {
    Context(1, 1, 1, {"player"}, map["key" := SECRET], "key", 0)
  }

  function CodeRequest(v: Vault, issued: string): Request {
    RecoveryRequest(Scope(v.organizationId, v.competitionId, 1, 1), "player", Canonical(10), Canonical(20), issued, "organiser")
  }

  function CollidingRotation(v: Vault, issued: string): Request {
    RotateRequest(Scope(v.organizationId, v.competitionId, 1, 1), "player", Canonical(20), RecoveredBy(issued), "organiser", "lost")
  }

  function IssuedCode(v: Vault, issued: string): RecoveryGrant {
    var claims := RecoveryClaims(v.organizationId, v.competitionId, 1, 1, "player", Canonical(10), Canonical(20), "key", issued);
    RecoveryGrant(claims, Code(claims, SECRET), Canonical(0), "organiser", None, None)
  }

  lemma Words()
    ensures NonBlank("player") && NonBlank("organiser") && NonBlank("key") && ValidReason("lost") && |SECRET| == 32
  {
    assert !IsSpace("player"[0]) && !IsSpace("organiser"[0]) && !IsSpace("key"[0]);
    assert !IsSpace("lost"[0]) && !IsSpace("lost"[3]) && 3 - 0 + 1 >= 4;
  }

  lemma CodeIssued(v: Vault, issued: string)
    requires NonBlank(v.organizationId) && NonBlank(v.competitionId) && v.events == [] && v.recovery == []
    requires ValidCommandId(issued)
    ensures var w := IssueRecovery(v, OnePlayer(), CodeRequest(v, issued));
            && w.Success? && w.value.recovery == [IssuedCode(v, issued)] && w.value.access == v.access
            && w.value.organizationId == v.organizationId && w.value.competitionId == v.competitionId
            && |w.value.events| == 1 && w.value.events[0].body.commandId == issued
  {
    Words();
    assert !IsSpace(issued[0]);
  }

  lemma CodeExchanged(v: Vault, issued: string)
    requires NonBlank(v.organizationId) && NonBlank(v.competitionId) && v.access == []
    requires v.recovery == [IssuedCode(v, issued)]
    ensures Recover(v, OnePlayer(), 1, IssuedCode(v, issued).codeHash, Canonical(1))
            == Success(v.(access := [Grant(RecoveredClaims(IssuedCode(v, issued)), SECRET)]))
  {
    Words();
    var used := IssuedCode(v, issued);
    assert RecoveryOfCode(v.recovery, used.codeHash) == Some(used);
    assert ResolveRecovery(v, OnePlayer().keys, used.codeHash, Canonical(1)) == Success(used);
    assert GrantableAccess(RecoveredClaims(used), 1);
    assert v.access + [Grant(RecoveredClaims(used), SECRET)] == [Grant(RecoveredClaims(used), SECRET)];
  }

  lemma RotationDuplicates(v: Vault, issued: string)
    requires NonBlank(v.organizationId) && NonBlank(v.competitionId) && ValidCommandId(RecoveredBy(issued))
    requires v.access == [Grant(RecoveredClaims(IssuedCode(v, issued)), SECRET)]
    requires !Commanded(v.events, RecoveredBy(issued))
    ensures var w := Rotate(v, OnePlayer(), CollidingRotation(v, issued)); w.Success? && !Verify(w.value)
  {
    Words();
    assert PriorEvent(v.events, RecoveredBy(issued)).None?;
    var w := Rotate(v, OnePlayer(), CollidingRotation(v, issued)).value;
    assert Tokens(w.access)[0] == Tokens(w.access)[1];
  }

  /** Three steps: a recovery code is issued and exchanged, and a rotation takes the exchange's identity. */
  function CollidingRun(v: Vault, issued: string): seq<(Context, Step)> {
    [(OnePlayer(), CommandStep(CodeRequest(v, issued)))]
    + [(OnePlayer(), RecoverStep(1, IssuedCode(v, issued).codeHash, Canonical(1)))]
    + [(OnePlayer(), CommandStep(CollidingRotation(v, issued)))]
  }

  lemma AfterOneMore(v: Vault, steps: seq<(Context, Step)>, last: (Context, Step))
    ensures After(v, steps + [last]) == Apply(After(v, steps), last.0, last.1).GetOr(After(v, steps))
  {
    assert (steps + [last])[..|steps|] == steps;
  }

  lemma DifferentIdentity(issued: string)
    ensures RecoveredBy(issued) != issued
  {
    assert |RecoveredBy(issued)| == |issued| + 9;
  }

  /** Every colliding identity that a command may carry has a run whose rotation stores one token twice. */
  lemma CollisionsBreakTheCheck(organizationId: string, competitionId: string, commandId: string)
    requires NonBlank(organizationId) && NonBlank(competitionId) && Colliding(commandId) && ValidCommandId(commandId)
    ensures exists issued ::
              var empty := Empty(organizationId, competitionId);
              && commandId == RecoveredBy(issued) && CollidingRun(empty, issued)[2].1.request.commandId == commandId
              && !Verify(After(empty, CollidingRun(empty, issued)))
  {
    var issued :| ValidCommandId(issued) && commandId == RecoveredBy(issued);
    var empty := Empty(organizationId, competitionId);
    var run := CollidingRun(empty, issued);
    var none: seq<(Context, Step)> := [];
    AfterOneMore(empty, none, run[0]);
    AfterOneMore(empty, none + [run[0]], run[1]);
    AfterOneMore(empty, none + [run[0]] + [run[1]], run[2]);
    assert run == none + [run[0]] + [run[1]] + [run[2]];
    CodeIssued(empty, issued);
    var first := IssueRecovery(empty, OnePlayer(), CodeRequest(empty, issued)).value;
    CodeExchanged(first, issued);
    var second := first.(access := [Grant(RecoveredClaims(IssuedCode(first, issued)), SECRET)]);
    DifferentIdentity(issued);
    RotationDuplicates(second, issued);
  }

  /** Rotations of the run carry only these identities. */
  ghost predicate Uses(identities: string -> bool, steps: seq<(Context, Step)>) {
    forall i | 0 <= i < |steps| ::
      SoundContext(steps[i].0) && (steps[i].1.CommandStep? && steps[i].1.request.RotateRequest? ==>
                                     identities(steps[i].1.request.commandId))
  }

  ghost predicate AlwaysValid(organizationId: string, competitionId: string, identities: string -> bool) {
    forall steps | Uses(identities, steps) :: Verify(After(Empty(organizationId, competitionId), steps))
  }

  lemma CollidingRunUses(v: Vault, issued: string, identities: string -> bool)
    requires identities(RecoveredBy(issued))
    ensures Uses(identities, CollidingRun(v, issued))
  {
    Words();
  }

  /**
   * The stored credentials pass their check after every run whose rotations carry only these identities exactly when
   * none of those is `recovery:` followed by a valid identity and itself valid.
   */
  lemma AlwaysValidIffNoneCollides(organizationId: string, competitionId: string, identities: string -> bool)
    requires NonBlank(organizationId) && NonBlank(competitionId)
    ensures AlwaysValid(organizationId, competitionId, identities) <==> forall id | identities(id) :: !Harmful(id)
  {
    if id :| identities(id) && Harmful(id) {
      CollisionsBreakTheCheck(organizationId, competitionId, id);
      var empty := Empty(organizationId, competitionId);
      var issued :| id == RecoveredBy(issued) && CollidingRun(empty, issued)[2].1.request.commandId == id
                    && !Verify(After(empty, CollidingRun(empty, issued)));
      CollidingRunUses(empty, issued, identities);
    } else {
      forall steps | Uses(identities, steps) ensures Verify(After(Empty(organizationId, competitionId), steps)) {
        CredentialsStayValid(organizationId, competitionId, steps);
      }
    }
  }
}
