/** The store of webhook claims, kept in a process-local map or in one row of a table for each event. */
module WebhookReplay {
  import opened Wrappers
  import opened CoordinationKeys

  datatype Store = InMemory | Postgres

  /** A claim. The map form keeps no status, so its claims stay pending. */
  datatype Claim = Claim(expiresAt: int, pending: bool)

  /** The claim after one more request for it, or nothing when an unexpired claim stands in the way. */
  function Claimed(held: Option<Claim>, nowMs: int, expiresAtMs: int): Option<Claim> {
    if held.Some? && held.value.expiresAt > nowMs then None else Some(Claim(expiresAtMs, true))
  }

  /** Whether a claimant with this expiry still owns the claim. */
  predicate Owns(store: Store, held: Option<Claim>, expiresAtMs: int) {
    held.Some? && held.value.expiresAt == expiresAtMs && (store.Postgres? ==> held.value.pending)
  }

  function Completed(store: Store, expiresAtMs: int): Claim {
    Claim(expiresAtMs, store.InMemory?)
  }

  function Released(store: Store, held: Option<Claim>, expiresAtMs: int): Option<Claim> {
    if Owns(store, held, expiresAtMs) then None else held
  }

  datatype ReplayError = InvalidTime | InvalidExpiry | InvalidKey | ClaimLost

  class InMemoryWebhookReplayStore {
    var entries: map<string, int>

    constructor ()
      ensures entries == map[]
    {
      entries := map[];
    }

    function Held(key: string): Option<Claim>
      reads this
    {
      if key in entries then Some(Claim(entries[key], true)) else None
    }

    method TryClaim(key: string, nowMs: int, expiresAtMs: int) returns (granted: bool)
      modifies this
      ensures granted <==> Claimed(old(Held(key)), nowMs, expiresAtMs).Some?
      ensures Held(key) == if granted then Claimed(old(Held(key)), nowMs, expiresAtMs) else old(Held(key))
      ensures forall other | other != key :: Held(other) == old(Held(other))
    {
      if key in entries && entries[key] > nowMs { return false; }
      entries := entries[key := expiresAtMs];
      granted := true;
    }

    method Complete(key: string, expiresAtMs: int) returns (r: Result<(), ReplayError>)
      modifies this
      ensures r == if Owns(InMemory, old(Held(key)), expiresAtMs) then Success(()) else Failure(ClaimLost)
      ensures Held(key) == if r.Success? then Some(Completed(InMemory, expiresAtMs)) else old(Held(key))
      ensures forall other | other != key :: Held(other) == old(Held(other))
    {
      if key !in entries || entries[key] != expiresAtMs { return Failure(ClaimLost); }
      entries := entries[key := expiresAtMs];
      r := Success(());
    }

    method Release(key: string, expiresAtMs: int)
      modifies this
      ensures Held(key) == Released(InMemory, old(Held(key)), expiresAtMs)
      ensures forall other | other != key :: Held(other) == old(Held(other))
    {
      if key in entries && entries[key] == expiresAtMs { entries := entries - {key}; }
    }
  }

  class PostgresWebhookReplayStore {
    var rows: map<string, Claim>

    constructor ()
      ensures rows == map[]
    {
      rows := map[];
    }

    function Held(key: string): Option<Claim>
      reads this
    {
      if key in rows then Some(rows[key]) else None
    }

    method TryClaim(key: string, nowMs: int, expiresAtMs: int) returns (r: Result<bool, ReplayError>)
      modifies this
      ensures r == if !SafeTime(nowMs) || !SafeTime(expiresAtMs) then Failure(InvalidTime)
                   else if expiresAtMs <= nowMs then Failure(InvalidExpiry)
                   else if !ValidKey(key) then Failure(InvalidKey)
                   else Success(Claimed(old(Held(key)), nowMs, expiresAtMs).Some?)
      ensures Held(key) == if r == Success(true) then Claimed(old(Held(key)), nowMs, expiresAtMs) else old(Held(key))
      ensures forall other | other != key :: Held(other) == old(Held(other))
    {
      if !SafeTime(nowMs) || !SafeTime(expiresAtMs) { return Failure(InvalidTime); }
      if expiresAtMs <= nowMs { return Failure(InvalidExpiry); }
      if !ValidKey(key) { return Failure(InvalidKey); }
      if key in rows && !(rows[key].expiresAt <= nowMs) { return Success(false); }
      rows := rows[key := Claim(expiresAtMs, true)];
      r := Success(true);
    }

    method Complete(key: string, expiresAtMs: int) returns (r: Result<(), ReplayError>)
      modifies this
      ensures r == if !SafeTime(expiresAtMs) then Failure(InvalidTime)
                   else if !ValidKey(key) then Failure(InvalidKey)
                   else if Owns(Postgres, old(Held(key)), expiresAtMs) then Success(()) else Failure(ClaimLost)
      ensures Held(key) == if r.Success? then Some(Completed(Postgres, expiresAtMs)) else old(Held(key))
      ensures forall other | other != key :: Held(other) == old(Held(other))
    {
      if !SafeTime(expiresAtMs) { return Failure(InvalidTime); }
      if !ValidKey(key) { return Failure(InvalidKey); }
      if !(key in rows && rows[key].pending && rows[key].expiresAt == expiresAtMs) { return Failure(ClaimLost); }
      rows := rows[key := rows[key].(pending := false)];
      r := Success(());
    }

    method Release(key: string, expiresAtMs: int) returns (r: Result<(), ReplayError>)
      modifies this
      ensures r == if !SafeTime(expiresAtMs) then Failure(InvalidTime) else if !ValidKey(key) then Failure(InvalidKey) else Success(())
      ensures Held(key) == if r.Success? then Released(Postgres, old(Held(key)), expiresAtMs) else old(Held(key))
      ensures forall other | other != key :: Held(other) == old(Held(other))
    {
      if !SafeTime(expiresAtMs) { return Failure(InvalidTime); }
      if !ValidKey(key) { return Failure(InvalidKey); }
      if key in rows && rows[key].pending && rows[key].expiresAt == expiresAtMs { rows := rows - {key}; }
      r := Success(());
    }
  }
}

/**
 * Workers delivering one webhook event, under every interleaving. A worker reads the clock when its request
 * arrives and claims later; the claim, the completion and the release are each one atomic row update.
 */
module WebhookDelivery {
  import opened Wrappers
  import opened Numbers
  import opened WebhookReplay

  datatype Phase = Delivering | Completing | Releasing

  /** A request: `now` is the instant it read, `at` the instant its claim was granted. */
  datatype Worker =
    | Arrived(now: int)
    | Holding(now: int, at: int, phase: Phase)
    | Accepted(now: int, at: int)
    | Replayed(now: int)
    | Unavailable(now: int, at: int)
  {
    predicate Granted() {
      Holding? || Accepted? || Unavailable?
    }

    /** A worker whose claim was granted, and which did not fail. */
    predicate Keeps() {
      Holding? || Accepted?
    }
  }

  datatype Step = Tick(ms: nat) | Arrive(id: nat) | TryClaim(id: nat) | Received(id: nat, ok: bool) | Complete(id: nat) | Release(id: nat)

  datatype State = State(time: int, claim: Option<Claim>, workers: map<nat, Worker>)

  predicate InPhase(s: State, id: nat, phase: Phase) {
    id in s.workers && s.workers[id].Holding? && s.workers[id].phase == phase
  }

  predicate Enabled(s: State, step: Step) {
    match step
    case Tick(_) => true
    case Arrive(id) => id !in s.workers
    case TryClaim(id) => id in s.workers && s.workers[id].Arrived?
    case Received(id, _) => InPhase(s, id, Delivering)
    case Complete(id) => InPhase(s, id, Completing)
    case Release(id) => InPhase(s, id, Releasing)
  }

  function With(s: State, id: nat, w: Worker, claim: Option<Claim>): State {
    State(s.time, claim, s.workers[id := w])
  }

  function Next(store: Store, ttl: int, s: State, step: Step): State
    requires Enabled(s, step)
  {
    match step
    case Tick(ms) => State(s.time + ms, s.claim, s.workers)
    case Arrive(id) => With(s, id, Arrived(s.time), s.claim)
    case TryClaim(id) =>
      var now := s.workers[id].now;
      var claim := Claimed(s.claim, now, now + ttl);
      if claim.None? then With(s, id, Replayed(now), s.claim) else With(s, id, Holding(now, s.time, Delivering), claim)
    case Received(id, ok) =>
      var w := s.workers[id];
      With(s, id, Holding(w.now, w.at, if ok then Completing else Releasing), s.claim)
    case Complete(id) =>
      var w := s.workers[id];
      if Owns(store, s.claim, w.now + ttl) then With(s, id, Accepted(w.now, w.at), Some(Completed(store, w.now + ttl)))
      else With(s, id, Holding(w.now, w.at, Releasing), s.claim)
    case Release(id) =>
      var w := s.workers[id];
      With(s, id, Unavailable(w.now, w.at), Released(store, s.claim, w.now + ttl))
  }

  /** The state after these steps, from no claim and no request; nothing when a step is not enabled. */
  function After(store: Store, ttl: int, start: int, steps: seq<Step>): Option<State> {
    if steps == [] then Some(State(start, None, map[]))
    else
      var before := After(store, ttl, start, steps[..|steps| - 1]);
      if before.None? || !Enabled(before.value, steps[|steps| - 1]) then None
      else Some(Next(store, ttl, before.value, steps[|steps| - 1]))
  }

  // ---------------------------------------------------------------- under every interleaving

  /** A worker keeps an unexpired claim. */
  predicate KeepsUnexpired(ttl: int, s: State, id: nat) {
    id in s.workers && s.workers[id].Keeps() && s.workers[id].now + ttl > s.time
  }

  predicate Dated(s: State, id: nat) {
    id in s.workers ==> s.workers[id].now <= s.time && (s.workers[id].Granted() ==> s.workers[id].now <= s.workers[id].at <= s.time)
  }

  /** The claim is the one a worker keeps: pending until it is accepted. */
  predicate Backed(store: Store, ttl: int, s: State, id: nat) {
    KeepsUnexpired(ttl, s, id) ==>
      s.claim == Some(if s.workers[id].Accepted? then Completed(store, s.workers[id].now + ttl)
                      else Claim(s.workers[id].now + ttl, true))
  }

  /** One of two claims was granted only once the other had expired. */
  predicate Apart(ttl: int, s: State, id: nat, other: nat) {
    id in s.workers && other in s.workers && id != other && s.workers[id].Keeps() && s.workers[other].Keeps() ==>
      || s.workers[other].at >= s.workers[id].now + ttl
      || s.workers[id].at >= s.workers[other].now + ttl
  }

  ghost predicate Exclusive(store: Store, ttl: int, s: State) {
    && (forall id {:trigger Dated(s, id)} :: Dated(s, id))
    && (forall id {:trigger Backed(store, ttl, s, id)} :: Backed(store, ttl, s, id))
    && (forall id, other {:trigger Apart(ttl, s, id, other)} :: Apart(ttl, s, id, other))
  }

  lemma StepKeepsExclusive(store: Store, ttl: int, s: State, step: Step)
    requires ttl > 0 && Exclusive(store, ttl, s) && Enabled(s, step)
    ensures Exclusive(store, ttl, Next(store, ttl, s, step))
  {
    var t := Next(store, ttl, s, step);
    forall id ensures Dated(t, id) {
      assert Dated(s, id);
    }
    forall id ensures Backed(store, ttl, t, id) {
      assert Dated(s, id) && Backed(store, ttl, s, id);
      if !step.Tick? {
        assert Dated(s, step.id) && Backed(store, ttl, s, step.id) && Apart(ttl, s, id, step.id);
      }
    }
    forall id, other ensures Apart(ttl, t, id, other) {
      assert Apart(ttl, s, id, other) && Dated(s, id) && Dated(s, other) && Backed(store, ttl, s, id) && Backed(store, ttl, s, other);
    }
  }

  lemma {:induction false} AlwaysExclusive(store: Store, ttl: int, start: int, steps: seq<Step>)
    requires ttl > 0 && After(store, ttl, start, steps).Some?
    ensures Exclusive(store, ttl, After(store, ttl, start, steps).value)
  {
    if steps != [] {
      var front := steps[..|steps| - 1];
      AlwaysExclusive(store, ttl, start, front);
      StepKeepsExclusive(store, ttl, After(store, ttl, start, front).value, steps[|steps| - 1]);
    }
  }

  /** At most one worker keeps an unexpired claim, under every interleaving and for both stores. */
  lemma OneUnexpiredClaim(store: Store, ttl: int, start: int, steps: seq<Step>, id: nat, other: nat)
    requires ttl > 0 && After(store, ttl, start, steps).Some?
    requires var s := After(store, ttl, start, steps).value; KeepsUnexpired(ttl, s, id) && KeepsUnexpired(ttl, s, other)
    ensures id == other
  {
    AlwaysExclusive(store, ttl, start, steps);
    var s := After(store, ttl, start, steps).value;
    assert Apart(ttl, s, id, other) && Dated(s, id) && Dated(s, other);
  }

  /** Of two accepted deliveries of one event, one was claimed no earlier than the other's claim expired. */
  lemma AcceptedOncePerLifetime(store: Store, ttl: int, start: int, steps: seq<Step>, id: nat, other: nat)
    requires ttl > 0 && After(store, ttl, start, steps).Some? && id != other
    requires var s := After(store, ttl, start, steps).value;
             id in s.workers && other in s.workers && s.workers[id].Accepted? && s.workers[other].Accepted?
    ensures var workers := After(store, ttl, start, steps).value.workers;
            || workers[other].at >= workers[id].now + ttl
            || workers[id].at >= workers[other].now + ttl
  {
    AlwaysExclusive(store, ttl, start, steps);
    assert Apart(ttl, After(store, ttl, start, steps).value, id, other);
  }

  /** While one worker keeps an unexpired claim, no step of another worker touches it, and its own completion is accepted. */
  lemma UnexpiredClaimIsSafe(store: Store, ttl: int, start: int, steps: seq<Step>, id: nat, step: Step)
    requires ttl > 0 && After(store, ttl, start, steps).Some?
    requires var s := After(store, ttl, start, steps).value; KeepsUnexpired(ttl, s, id) && Enabled(s, step)
    ensures var s := After(store, ttl, start, steps).value;
            && (step.Tick? || step.id != id ==> Next(store, ttl, s, step).claim == s.claim)
            && (step == Complete(id) ==> Next(store, ttl, s, step).workers[id].Accepted?)
  {
    AlwaysExclusive(store, ttl, start, steps);
    var s := After(store, ttl, start, steps).value;
    assert Backed(store, ttl, s, id) && Dated(s, id);
    if !step.Tick? && step.id != id {
      assert Apart(ttl, s, id, step.id) && Dated(s, step.id);
    }
  }

  /** A worker that gives its unexpired claim back leaves the event free: whoever claims next is granted it. */
  lemma ReleaseFreesTheEvent(store: Store, ttl: int, start: int, steps: seq<Step>, id: nat, other: nat)
    requires ttl > 0 && After(store, ttl, start, steps).Some?
    requires var s := After(store, ttl, start, steps).value;
             && KeepsUnexpired(ttl, s, id) && Enabled(s, Release(id)) && Enabled(s, TryClaim(other))
    ensures var t := Next(store, ttl, After(store, ttl, start, steps).value, Release(id));
            && t.claim.None? && Enabled(t, TryClaim(other)) && Next(store, ttl, t, TryClaim(other)).workers[other].Granted()
  {
    AlwaysExclusive(store, ttl, start, steps);
    assert Backed(store, ttl, After(store, ttl, start, steps).value, id);
  }

  // ---------------------------------------------------------------- when claims run in the order of the instants they read

  predicate NoLater(s: State, id: nat, now: int) {
    id in s.workers && s.workers[id].Granted() ==> s.workers[id].now <= now
  }

  ghost predicate InOrderStep(s: State, step: Step) {
    step.TryClaim? && step.id in s.workers ==> forall id {:trigger NoLater(s, id, s.workers[step.id].now)} ::
      NoLater(s, id, s.workers[step.id].now)
  }

  /** Every claim is tried with an instant no earlier than those of the claims granted before it. */
  ghost predicate InOrder(store: Store, ttl: int, start: int, steps: seq<Step>) {
    steps != [] ==>
      && InOrder(store, ttl, start, steps[..|steps| - 1])
      && var before := After(store, ttl, start, steps[..|steps| - 1]);
         before.Some? ==> InOrderStep(before.value, steps[|steps| - 1])
  }

  /** What a worker's claim is, when `latest` is the instant of the claim granted last. */
  predicate Fenced(ttl: int, s: State, latest: int, id: nat) {
    id in s.workers && s.workers[id].Granted() ==>
      && s.workers[id].now <= latest
      && (s.workers[id].Keeps() ==>
            if s.workers[id].now == latest then s.claim == Some(Claim(latest + ttl, s.workers[id].Holding?))
            else s.workers[id].now + ttl <= latest)
  }

  /** Two workers that keep claims read instants at least one lifetime apart. */
  predicate LifetimeApart(ttl: int, s: State, id: nat, other: nat) {
    id in s.workers && other in s.workers && id != other && s.workers[id].Keeps() && s.workers[other].Keeps() ==>
      || s.workers[id].now + ttl <= s.workers[other].now
      || s.workers[other].now + ttl <= s.workers[id].now
  }

  ghost predicate Sequenced(ttl: int, s: State, latest: int) {
    && (forall id {:trigger Fenced(ttl, s, latest, id)} :: Fenced(ttl, s, latest, id))
    && (forall id, other {:trigger LifetimeApart(ttl, s, id, other)} :: LifetimeApart(ttl, s, id, other))
    && (s.claim.Some? ==> s.claim.value.expiresAt == latest + ttl)
    && ((exists id :: id in s.workers && s.workers[id].Granted() && s.workers[id].now == latest)
        || (s.claim.None? && forall id | id in s.workers :: !s.workers[id].Granted()))
  }

  predicate Grants(s: State, step: Step) {
    step.TryClaim? && Enabled(s, step) && Claimed(s.claim, s.workers[step.id].now, 0).Some?
  }

  lemma GrantKeepsSequenced(ttl: int, s: State, latest: int, step: Step)
    requires ttl > 0 && Sequenced(ttl, s, latest) && Grants(s, step) && InOrderStep(s, step)
    ensures Sequenced(ttl, Next(Postgres, ttl, s, step), s.workers[step.id].now)
  {
    var t, now := Next(Postgres, ttl, s, step), s.workers[step.id].now;
    if id :| id in s.workers && s.workers[id].Granted() && s.workers[id].now == latest {
      assert NoLater(s, id, now);
    }
    forall id ensures Fenced(ttl, t, now, id) {
      assert Fenced(ttl, s, latest, id) && NoLater(s, id, now);
    }
    forall id, other ensures LifetimeApart(ttl, t, id, other) {
      assert LifetimeApart(ttl, s, id, other);
      assert Fenced(ttl, s, latest, id) && NoLater(s, id, now) && Fenced(ttl, s, latest, other) && NoLater(s, other, now);
    }
    assert t.workers[step.id].now == now;
  }

  lemma OtherStepKeepsFences(ttl: int, s: State, latest: int, step: Step, id: nat)
    requires ttl > 0 && Sequenced(ttl, s, latest) && Enabled(s, step) && !Grants(s, step)
    ensures Fenced(ttl, Next(Postgres, ttl, s, step), latest, id)
  {
    assert Fenced(ttl, s, latest, id);
    if !step.Tick? {
      assert Fenced(ttl, s, latest, step.id) && LifetimeApart(ttl, s, id, step.id);
    }
  }

  lemma OtherStepKeepsWorkers(ttl: int, s: State, step: Step, id: nat)
    requires Enabled(s, step) && !Grants(s, step) && id in s.workers
    ensures var t := Next(Postgres, ttl, s, step);
            && id in t.workers && t.workers[id].now == s.workers[id].now
            && (t.workers[id].Granted() <==> s.workers[id].Granted())
            && (t.workers[id].Keeps() ==> s.workers[id].Keeps())
  {
  }

  lemma OtherStepKeepsSequenced(ttl: int, s: State, latest: int, step: Step)
    requires ttl > 0 && Sequenced(ttl, s, latest) && Enabled(s, step) && !Grants(s, step)
    ensures Sequenced(ttl, Next(Postgres, ttl, s, step), latest)
  {
    var t := Next(Postgres, ttl, s, step);
    forall id ensures Fenced(ttl, t, latest, id) { OtherStepKeepsFences(ttl, s, latest, step, id); }
    forall id, other ensures LifetimeApart(ttl, t, id, other) {
      assert LifetimeApart(ttl, s, id, other);
      if id in s.workers { OtherStepKeepsWorkers(ttl, s, step, id); }
      if other in s.workers { OtherStepKeepsWorkers(ttl, s, step, other); }
    }
    if id :| id in s.workers && s.workers[id].Granted() && s.workers[id].now == latest {
      OtherStepKeepsWorkers(ttl, s, step, id);
    }
  }

  lemma {:induction false} InOrderSequenced(ttl: int, start: int, steps: seq<Step>) returns (latest: int)
    requires ttl > 0 && After(Postgres, ttl, start, steps).Some? && InOrder(Postgres, ttl, start, steps)
    ensures Sequenced(ttl, After(Postgres, ttl, start, steps).value, latest)
  {
    if steps == [] {
      latest := start;
    } else {
      var front, step := steps[..|steps| - 1], steps[|steps| - 1];
      latest := InOrderSequenced(ttl, start, front);
      var s := After(Postgres, ttl, start, front).value;
      if Grants(s, step) {
        GrantKeepsSequenced(ttl, s, latest, step);
        latest := s.workers[step.id].now;
      } else {
        OtherStepKeepsSequenced(ttl, s, latest, step);
      }
    }
  }

  /** Two accepted deliveries of one event read instants at least one lifetime apart, however late they claim. */
  lemma InOrderInstantsApart(ttl: int, start: int, steps: seq<Step>, id: nat, other: nat)
    requires ttl > 0 && After(Postgres, ttl, start, steps).Some? && InOrder(Postgres, ttl, start, steps) && id != other
    requires var s := After(Postgres, ttl, start, steps).value;
             id in s.workers && other in s.workers && s.workers[id].Accepted? && s.workers[other].Accepted?
    ensures var workers := After(Postgres, ttl, start, steps).value.workers;
            workers[id].now + ttl <= workers[other].now || workers[other].now + ttl <= workers[id].now
  {
    var latest := InOrderSequenced(ttl, start, steps);
    assert LifetimeApart(ttl, After(Postgres, ttl, start, steps).value, id, other);
  }

  /** A claimant whose claim was replaced, expired or not, can neither complete nor release the newer claim. */
  lemma InOrderClaimantIsFenced(ttl: int, start: int, steps: seq<Step>, replaced: nat, newer: nat, step: Step)
    requires ttl > 0 && After(Postgres, ttl, start, steps).Some? && InOrder(Postgres, ttl, start, steps)
    requires var s := After(Postgres, ttl, start, steps).value;
             && replaced in s.workers && newer in s.workers && replaced != newer && s.workers[newer].Keeps()
             && s.workers[newer].now >= s.workers[replaced].now
             && step in {Complete(replaced), Release(replaced)} && Enabled(s, step)
    ensures var s := After(Postgres, ttl, start, steps).value;
            var t := Next(Postgres, ttl, s, step);
            t.claim == s.claim && !t.workers[replaced].Accepted?
  {
    var latest := InOrderSequenced(ttl, start, steps);
    var s := After(Postgres, ttl, start, steps).value;
    assert Fenced(ttl, s, latest, replaced) && Fenced(ttl, s, latest, newer) && LifetimeApart(ttl, s, replaced, newer);
  }

  // ---------------------------------------------------------------- the two stores answer alike

  /** The two forms hold claims with the same expiry, for the same workers. */
  predicate Alike(inMemory: State, postgres: State) {
    && inMemory.time == postgres.time && inMemory.workers == postgres.workers
    && (inMemory.claim.Some? <==> postgres.claim.Some?)
    && (inMemory.claim.Some? ==> inMemory.claim.value == Claim(postgres.claim.value.expiresAt, true))
  }

  lemma StepAlike(ttl: int, m: State, s: State, latest: int, step: Step)
    requires Alike(m, s) && Sequenced(ttl, s, latest) && Enabled(s, step)
    ensures Alike(Next(InMemory, ttl, m, step), Next(Postgres, ttl, s, step))
  {
    if !step.Tick? { assert Fenced(ttl, s, latest, step.id); }
  }

  /** When claims run in order, every worker gets the same answers from the map form and from the table form. */
  lemma {:induction false} InOrderStoresAnswerAlike(ttl: int, start: int, steps: seq<Step>)
    requires ttl > 0 && InOrder(Postgres, ttl, start, steps)
    ensures After(InMemory, ttl, start, steps).Some? <==> After(Postgres, ttl, start, steps).Some?
    ensures After(Postgres, ttl, start, steps).Some? ==>
              Alike(After(InMemory, ttl, start, steps).value, After(Postgres, ttl, start, steps).value)
  {
    if steps != [] {
      var front, step := steps[..|steps| - 1], steps[|steps| - 1];
      InOrderStoresAnswerAlike(ttl, start, front);
      if After(Postgres, ttl, start, front).Some? {
        var s := After(Postgres, ttl, start, front).value;
        var latest := InOrderSequenced(ttl, start, front);
        if Enabled(s, step) { StepAlike(ttl, After(InMemory, ttl, start, front).value, s, latest, step); }
      }
    }
  }

  // ---------------------------------------------------------------- when claims run soon after their instants are read

  /** Every granted claim was granted at most this long after its instant was read. */
  ghost predicate Prompt(delay: int, s: State) {
    forall id | id in s.workers && s.workers[id].Granted() :: s.workers[id].at - s.workers[id].now <= delay
  }

  /** The worker whose claim is held: no worker that keeps a claim was granted one later. */
  ghost predicate Leads(store: Store, ttl: int, s: State, id: nat) {
    && id in s.workers && s.workers[id].Keeps()
    && s.claim == Some(Claim(s.workers[id].now + ttl, store.InMemory? || s.workers[id].Holding?))
    && forall other | other in s.workers && s.workers[other].Keeps() :: s.workers[other].at <= s.workers[id].at
  }

  ghost predicate Led(store: Store, ttl: int, s: State) {
    s.claim.Some? ==> exists id :: Leads(store, ttl, s, id)
  }

  lemma PromptBefore(store: Store, ttl: int, delay: int, s: State, step: Step)
    requires Enabled(s, step) && Prompt(delay, Next(store, ttl, s, step))
    ensures Prompt(delay, s)
  {
    var t := Next(store, ttl, s, step);
    forall id | id in s.workers && s.workers[id].Granted() ensures s.workers[id].at - s.workers[id].now <= delay {
      assert id in t.workers && t.workers[id].Granted() && t.workers[id].at == s.workers[id].at && t.workers[id].now == s.workers[id].now;
    }
  }

  /** Two workers that keep claims read different instants, when their claims ran within a lifetime of them. */
  lemma InstantsDiffer(store: Store, ttl: int, delay: int, s: State, id: nat, other: nat)
    requires ttl > delay && Exclusive(store, ttl, s) && Prompt(delay, s) && id != other
    requires id in s.workers && other in s.workers && s.workers[id].Keeps() && s.workers[other].Keeps()
    ensures s.workers[id].now != s.workers[other].now && s.workers[id].at != s.workers[other].at
  {
    assert Apart(ttl, s, id, other);
  }

  lemma StepKeepsLed(store: Store, ttl: int, delay: int, s: State, step: Step)
    requires ttl > delay && Exclusive(store, ttl, s) && Prompt(delay, s) && Led(store, ttl, s) && Enabled(s, step)
    ensures Led(store, ttl, Next(store, ttl, s, step))
  {
    var t := Next(store, ttl, s, step);
    if Grants(s, step) {
      forall other | other in t.workers && t.workers[other].Keeps() ensures t.workers[other].at <= s.time {
        if other != step.id { assert Dated(s, other); }
      }
      assert Leads(store, ttl, t, step.id);
    } else if t.claim.Some? {
      var id :| Leads(store, ttl, s, id);
      if !step.Tick? && id != step.id && step.id in s.workers && s.workers[step.id].Holding? {
        InstantsDiffer(store, ttl, delay, s, id, step.id);
      }
      assert Leads(store, ttl, t, id);
    }
  }

  lemma {:induction false} PromptLed(store: Store, ttl: int, delay: int, start: int, steps: seq<Step>)
    requires ttl > 0 && ttl > delay && After(store, ttl, start, steps).Some? && Prompt(delay, After(store, ttl, start, steps).value)
    ensures Led(store, ttl, After(store, ttl, start, steps).value)
  {
    if steps != [] {
      var front, step := steps[..|steps| - 1], steps[|steps| - 1];
      var s := After(store, ttl, start, front).value;
      PromptBefore(store, ttl, delay, s, step);
      PromptLed(store, ttl, delay, start, front);
      AlwaysExclusive(store, ttl, start, front);
      StepKeepsLed(store, ttl, delay, s, step);
    }
  }

  /** The instants that two accepted deliveries read are at least this far apart. */
  predicate ApartBy(gap: int, s: State, id: nat, other: nat) {
    id in s.workers && other in s.workers && id != other && s.workers[id].Accepted? && s.workers[other].Accepted? ==>
      s.workers[id].now - s.workers[other].now >= gap || s.workers[other].now - s.workers[id].now >= gap
  }

  /** Accepted deliveries of one event read instants a lifetime apart, less the longest wait of an accepted claim. */
  lemma AcceptedInstantsApart(store: Store, ttl: int, delay: int, start: int, steps: seq<Step>, id: nat, other: nat)
    requires ttl > 0 && After(store, ttl, start, steps).Some?
    requires forall w | w in After(store, ttl, start, steps).value.workers.Values && w.Accepted? :: w.at - w.now <= delay
    ensures ApartBy(ttl - delay, After(store, ttl, start, steps).value, id, other)
  {
    AlwaysExclusive(store, ttl, start, steps);
    var s := After(store, ttl, start, steps).value;
    assert Apart(ttl, s, id, other);
    if id in s.workers && other in s.workers { assert s.workers[id] in s.workers.Values && s.workers[other] in s.workers.Values; }
  }

  /** The worker's completion or release leaves the claim alone and is not accepted, if another was granted one since. */
  predicate FencedBy(store: Store, ttl: int, s: State, replaced: nat, newer: nat, step: Step)
    requires Enabled(s, step)
  {
    && replaced in s.workers && newer in s.workers && replaced != newer
    && s.workers[replaced].Holding? && s.workers[newer].Keeps() && s.workers[newer].at >= s.workers[replaced].at
    && step in {Complete(replaced), Release(replaced)} ==>
      var t := Next(store, ttl, s, step);
      t.claim == s.claim && replaced in t.workers && !t.workers[replaced].Accepted?
  }

  /** A claimant whose claim was replaced can neither complete nor release the newer one, if claims run within a lifetime. */
  lemma ReplacedClaimantIsFenced(store: Store, ttl: int, delay: int, start: int, steps: seq<Step>, replaced: nat, newer: nat, step: Step)
    requires ttl > 0 && ttl > delay && After(store, ttl, start, steps).Some?
    requires Prompt(delay, After(store, ttl, start, steps).value) && Enabled(After(store, ttl, start, steps).value, step)
    ensures FencedBy(store, ttl, After(store, ttl, start, steps).value, replaced, newer, step)
  {
    AlwaysExclusive(store, ttl, start, steps);
    PromptLed(store, ttl, delay, start, steps);
    var s := After(store, ttl, start, steps).value;
    if replaced in s.workers && newer in s.workers && replaced != newer && s.workers[replaced].Holding? && s.workers[newer].Keeps() {
      InstantsDiffer(store, ttl, delay, s, replaced, newer);
      if s.claim.Some? {
        var id :| Leads(store, ttl, s, id);
        if id != replaced { InstantsDiffer(store, ttl, delay, s, id, replaced); }
      }
    }
  }

  lemma PromptStepAlike(ttl: int, delay: int, m: State, s: State, step: Step)
    requires ttl > delay && Alike(m, s) && Exclusive(Postgres, ttl, s) && Prompt(delay, s) && Led(Postgres, ttl, s) && Enabled(s, step)
    ensures Alike(Next(InMemory, ttl, m, step), Next(Postgres, ttl, s, step))
  {
    if s.claim.Some? && !step.Tick? && step.id in s.workers && s.workers[step.id].Holding? {
      var id :| Leads(Postgres, ttl, s, id);
      if id != step.id { InstantsDiffer(Postgres, ttl, delay, s, id, step.id); }
    }
  }

  /** When claims run within a lifetime, every worker gets the same answers from the map form and from the table form. */
  lemma {:induction false} StoresAnswerAlike(store: Store, ttl: int, delay: int, start: int, steps: seq<Step>)
    requires ttl > 0 && ttl > delay && After(store, ttl, start, steps).Some? && Prompt(delay, After(store, ttl, start, steps).value)
    ensures AnsweredAlike(ttl, start, steps)
  {
    if steps != [] {
      var front, step := steps[..|steps| - 1], steps[|steps| - 1];
      PromptBefore(store, ttl, delay, After(store, ttl, start, front).value, step);
      StoresAnswerAlike(store, ttl, delay, start, front);
      var m, s := After(InMemory, ttl, start, front).value, After(Postgres, ttl, start, front).value;
      AlwaysExclusive(Postgres, ttl, start, front);
      PromptLed(Postgres, ttl, delay, start, front);
      PromptStepAlike(ttl, delay, m, s, step);
    }
  }

  /** Both forms run this schedule, with the same answers. */
  ghost predicate AnsweredAlike(ttl: int, start: int, steps: seq<Step>) {
    var m, s := After(InMemory, ttl, start, steps), After(Postgres, ttl, start, steps);
    m.Some? && s.Some? && Alike(m.value, s.value)
  }

  // ---------------------------------------------------------------- exactly how late a claim may run

  lemma Extend(store: Store, ttl: int, start: int, steps: seq<Step>, s: State, step: Step)
    requires After(store, ttl, start, steps) == Some(s) && Enabled(s, step)
    ensures After(store, ttl, start, steps + [step]) == Some(Next(store, ttl, s, step))
  {
    assert (steps + [step])[..|steps|] == steps;
  }

  /** One worker from its claim to its answer, with nobody in between. */
  function Delivery(id: nat, ok: bool): seq<Step> {
    [TryClaim(id), Received(id, ok), if ok then Complete(id) else Release(id)]
  }

  lemma Deliver(store: Store, ttl: int, start: int, steps: seq<Step>, s: State, id: nat, ok: bool)
    requires After(store, ttl, start, steps) == Some(s) && id in s.workers && s.workers[id].Arrived?
    requires s.claim.None? || s.claim.value.expiresAt <= s.workers[id].now
    ensures var now := s.workers[id].now;
            After(store, ttl, start, steps + Delivery(id, ok))
            == Some(With(s, id, if ok then Accepted(now, s.time) else Unavailable(now, s.time),
                         if ok then Some(Completed(store, now + ttl)) else None))
  {
    var now := s.workers[id].now;
    Extend(store, ttl, start, steps, s, TryClaim(id));
    var claimed := With(s, id, Holding(now, s.time, Delivering), Some(Claim(now + ttl, true)));
    assert Next(store, ttl, s, TryClaim(id)) == claimed;
    Extend(store, ttl, start, steps + [TryClaim(id)], claimed, Received(id, ok));
    var received := With(s, id, Holding(now, s.time, if ok then Completing else Releasing), Some(Claim(now + ttl, true)));
    assert Next(store, ttl, claimed, Received(id, ok)) == received;
    var last := if ok then Complete(id) else Release(id);
    Extend(store, ttl, start, steps + [TryClaim(id)] + [Received(id, ok)], received, last);
    assert Next(store, ttl, received, last)
        == With(s, id, if ok then Accepted(now, s.time) else Unavailable(now, s.time),
                if ok then Some(Completed(store, now + ttl)) else None);
    assert steps + Delivery(id, ok) == steps + [TryClaim(id)] + [Received(id, ok)] + [last];
  }

  /** Worker 2 reads its instant this long before the claim of worker 1 expires, and claims just as a later claim is released. */
  function LateClaim(ttl: nat, delay: nat): seq<Step>
    requires delay <= ttl
  {
    [] + [Arrive(1)] + Delivery(1, true) + [Tick(ttl - delay)] + [Arrive(2)] + [Tick(delay)] + [Arrive(3)]
    + Delivery(3, false) + Delivery(2, true)
  }

  /** Two accepted deliveries whose instants are a lifetime apart less the second one's wait. */
  lemma LateClaimIsAccepted(store: Store, ttl: nat, delay: nat)
    requires ttl > 0 && delay <= ttl
    ensures After(store, ttl, 0, LateClaim(ttl, delay)).Some?
    ensures var s := After(store, ttl, 0, LateClaim(ttl, delay)).value;
            && Prompt(delay, s) && 1 in s.workers && 2 in s.workers
            && s.workers[1] == Accepted(0, 0) && s.workers[2] == Accepted(ttl - delay, ttl)
  {
    var s0 := State(0, None, map[]);
    Extend(store, ttl, 0, [], s0, Arrive(1));
    var s1 := With(s0, 1, Arrived(0), None);
    Deliver(store, ttl, 0, [] + [Arrive(1)], s1, 1, true);
    var steps := [] + [Arrive(1)] + Delivery(1, true);
    var s2 := With(s1, 1, Accepted(0, 0), Some(Completed(store, ttl)));
    Extend(store, ttl, 0, steps, s2, Tick(ttl - delay));
    var s3 := State(ttl - delay, s2.claim, s2.workers);
    Extend(store, ttl, 0, steps + [Tick(ttl - delay)], s3, Arrive(2));
    var s4 := With(s3, 2, Arrived(ttl - delay), s3.claim);
    steps := steps + [Tick(ttl - delay)] + [Arrive(2)];
    Extend(store, ttl, 0, steps, s4, Tick(delay));
    var s5 := State(ttl, s4.claim, s4.workers);
    Extend(store, ttl, 0, steps + [Tick(delay)], s5, Arrive(3));
    var s6 := With(s5, 3, Arrived(ttl), s5.claim);
    steps := steps + [Tick(delay)] + [Arrive(3)];
    Deliver(store, ttl, 0, steps, s6, 3, false);
    var s7 := With(s6, 3, Unavailable(ttl, ttl), None);
    Deliver(store, ttl, 0, steps + Delivery(3, false), s7, 2, true);
  }

  /** In every run whose claims wait no longer than this, accepted deliveries read instants this far apart. */
  ghost predicate AlwaysApart(store: Store, ttl: int, delay: int, gap: int) {
    forall start, steps, id, other | After(store, ttl, start, steps).Some? && Prompt(delay, After(store, ttl, start, steps).value) ::
      ApartBy(gap, After(store, ttl, start, steps).value, id, other)
  }

  /** A lifetime less the longest wait is all that is promised; so a whole lifetime is promised exactly when no claim waits. */
  lemma ApartByLifetimeLessDelay(store: Store, ttl: nat, delay: nat, gap: int)
    requires ttl > 0
    ensures AlwaysApart(store, ttl, delay, gap) <==> gap <= Max(0, ttl - delay)
    ensures AlwaysApart(store, ttl, delay, ttl) <==> delay == 0
  {
    ApartByAtMost(store, ttl, delay, gap);
    ApartByAtMost(store, ttl, delay, ttl);
  }

  lemma ApartByAtMost(store: Store, ttl: nat, delay: nat, gap: int)
    requires ttl > 0
    ensures AlwaysApart(store, ttl, delay, gap) <==> gap <= Max(0, ttl - delay)
  {
    if gap <= Max(0, ttl - delay) {
      forall start, steps, id, other | After(store, ttl, start, steps).Some? && Prompt(delay, After(store, ttl, start, steps).value)
        ensures ApartBy(gap, After(store, ttl, start, steps).value, id, other)
      {
        var s := After(store, ttl, start, steps).value;
        forall w | w in s.workers.Values && w.Accepted? ensures w.at - w.now <= delay {
          var k :| k in s.workers && s.workers[k] == w;
        }
        AcceptedInstantsApart(store, ttl, delay, start, steps, id, other);
      }
    } else {
      var wait := Min(delay, ttl);
      LateClaimIsAccepted(store, ttl, wait);
      assert !ApartBy(gap, After(store, ttl, 0, LateClaim(ttl, wait)).value, 1, 2);
    }
  }

  /** Two claimants read one instant; the second is granted once a later claim has come and gone. */
  function SharedInstantClaims(ttl: nat): seq<Step> {
    SharedInstantReads(ttl) + Delivery(3, false) + [TryClaim(2)]
  }

  /** Then the first completes, and after it the second. */
  function SharedInstant(ttl: nat): seq<Step> {
    SharedInstantClaims(ttl) + [Complete(1)] + [Received(2, true)] + [Complete(2)]
  }

  /** The first of the two has delivered when its claim expires, and a later claim comes and goes. */
  function SharedInstantReads(ttl: nat): seq<Step> {
    [] + [Arrive(1)] + [Arrive(2)] + [TryClaim(1)] + [Received(1, true)] + [Tick(ttl)] + [Arrive(3)]
  }

  lemma SharedInstantRead(store: Store, ttl: nat) returns (s: State)
    requires ttl > 0
    ensures After(store, ttl, 0, SharedInstantReads(ttl)) == Some(s) && s.time == ttl && s.claim == Some(Claim(ttl, true))
    ensures s.workers == map[1 := Holding(0, 0, Completing), 2 := Arrived(0), 3 := Arrived(ttl)]
  {
    var s0 := State(0, None, map[]);
    Extend(store, ttl, 0, [], s0, Arrive(1));
    var s1 := With(s0, 1, Arrived(0), None);
    Extend(store, ttl, 0, [] + [Arrive(1)], s1, Arrive(2));
    var s2 := With(s1, 2, Arrived(0), None);
    var a := [] + [Arrive(1)] + [Arrive(2)];
    Extend(store, ttl, 0, a, s2, TryClaim(1));
    var s3 := With(s2, 1, Holding(0, 0, Delivering), Some(Claim(ttl, true)));
    Extend(store, ttl, 0, a + [TryClaim(1)], s3, Received(1, true));
    var s4 := With(s3, 1, Holding(0, 0, Completing), s3.claim);
    var b := a + [TryClaim(1)] + [Received(1, true)];
    Extend(store, ttl, 0, b, s4, Tick(ttl));
    var s5 := State(ttl, s4.claim, s4.workers);
    Extend(store, ttl, 0, b + [Tick(ttl)], s5, Arrive(3));
    s := With(s5, 3, Arrived(ttl), s5.claim);
  }

  lemma SharedInstantReclaimed(store: Store, ttl: nat) returns (s: State)
    requires ttl > 0
    ensures After(store, ttl, 0, SharedInstantClaims(ttl)) == Some(s) && Prompt(ttl, s) && s.time == ttl
    ensures s.claim == Some(Claim(ttl, true)) && s.workers.Keys == {1, 2, 3}
    ensures s.workers[1] == Holding(0, 0, Completing) && s.workers[2] == Holding(0, ttl, Delivering) && s.workers[3] == Unavailable(ttl, ttl)
  {
    var read := SharedInstantRead(store, ttl);
    var steps := SharedInstantReads(ttl);
    Deliver(store, ttl, 0, steps, read, 3, false);
    var released := With(read, 3, Unavailable(ttl, ttl), None);
    Extend(store, ttl, 0, steps + Delivery(3, false), released, TryClaim(2));
    s := With(released, 2, Holding(0, ttl, Delivering), Some(Claim(ttl, true)));
  }

  /** The map form accepts both deliveries of one instant, the table form only the first. */
  lemma SharedInstantAnswers(store: Store, ttl: nat)
    requires ttl > 0
    ensures After(store, ttl, 0, SharedInstant(ttl)).Some?
    ensures var s := After(store, ttl, 0, SharedInstant(ttl)).value;
            && Prompt(ttl, s) && 1 in s.workers && s.workers[1] == Accepted(0, 0) && 2 in s.workers
            && s.workers[2] == if store.InMemory? then Accepted(0, ttl) else Holding(0, ttl, Releasing)
  {
    var s := SharedInstantReclaimed(store, ttl);
    var steps := SharedInstantClaims(ttl);
    Extend(store, ttl, 0, steps, s, Complete(1));
    var s1 := With(s, 1, Accepted(0, 0), Some(Completed(store, ttl)));
    Extend(store, ttl, 0, steps + [Complete(1)], s1, Received(2, true));
    var s2 := With(s1, 2, Holding(0, ttl, Completing), s1.claim);
    Extend(store, ttl, 0, steps + [Complete(1)] + [Received(2, true)], s2, Complete(2));
  }

  /** In every run whose claims wait no longer than this, a replaced claimant is fenced. */
  ghost predicate AlwaysFenced(store: Store, ttl: int, delay: int) {
    forall start, steps, replaced, newer, step | After(store, ttl, start, steps).Some?
        && Prompt(delay, After(store, ttl, start, steps).value) && Enabled(After(store, ttl, start, steps).value, step) ::
      FencedBy(store, ttl, After(store, ttl, start, steps).value, replaced, newer, step)
  }

  /** In every run whose claims wait no longer than this, the two forms answer alike. */
  ghost predicate AlwaysAlike(ttl: int, delay: int) {
    forall store, start, steps | After(store, ttl, start, steps).Some? && Prompt(delay, After(store, ttl, start, steps).value) ::
      AnsweredAlike(ttl, start, steps)
  }

  /** Replaced claimants are always fenced exactly when claims run within a lifetime of the instants they read. */
  lemma FencedIffWithinALifetime(store: Store, ttl: nat, delay: nat)
    requires ttl > 0
    ensures AlwaysFenced(store, ttl, delay) <==> delay < ttl
  {
    if delay < ttl {
      forall start, steps, replaced, newer, step | After(store, ttl, start, steps).Some?
          && Prompt(delay, After(store, ttl, start, steps).value) && Enabled(After(store, ttl, start, steps).value, step)
        ensures FencedBy(store, ttl, After(store, ttl, start, steps).value, replaced, newer, step)
      {
        ReplacedClaimantIsFenced(store, ttl, delay, start, steps, replaced, newer, step);
      }
    } else {
      var s := SharedInstantReclaimed(store, ttl);
      assert !FencedBy(store, ttl, s, 1, 2, Complete(1));
    }
  }

  /** The two forms always answer alike exactly when claims run within a lifetime of the instants they read. */
  lemma AlikeIffWithinALifetime(ttl: nat, delay: nat)
    requires ttl > 0
    ensures AlwaysAlike(ttl, delay) <==> delay < ttl
  {
    if delay < ttl {
      forall store, start, steps | After(store, ttl, start, steps).Some? && Prompt(delay, After(store, ttl, start, steps).value)
        ensures AnsweredAlike(ttl, start, steps)
      {
        StoresAnswerAlike(store, ttl, delay, start, steps);
      }
    } else {
      SharedInstantAnswers(InMemory, ttl);
      SharedInstantAnswers(Postgres, ttl);
      assert !AnsweredAlike(ttl, 0, SharedInstant(ttl));
    }
  }
}
