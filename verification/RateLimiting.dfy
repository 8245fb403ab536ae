/** The instants and keys that the table forms of the coordination stores accept. */
module CoordinationKeys {
  const MAX_DATE: int := 8_640_000_000_000_000

  predicate SafeTime(value: int) {
    0 <= value <= MAX_DATE
  }

  function Utf8Length(text: string): nat {
    if text == "" then 0
    else
      var c := text[0] as int;
      (if c < 0x80 then 1 else if c < 0x800 then 2 else if c < 0x1_0000 then 3 else 4) + Utf8Length(text[1..])
  }

  predicate ValidKey(key: string) {
    key != "" && Utf8Length(key) <= 1_024 && forall c | c in key :: c as int >= 0x20
  }
}

/** The fixed-window request limiter, kept in a process-local map or in one row of a table for each key. */
module RateLimiting {
  import opened Wrappers
  import opened Lists
  import opened Numbers
  import opened CoordinationKeys

  datatype Bucket = Bucket(count: nat, startsAt: int)

  datatype Row = Row(windowStartedAt: int, expiresAt: int, requestCount: nat)

  datatype Decision = Decision(allowed: bool, retryAfterSeconds: int)

  datatype StoreError = InvalidLimit | InvalidWindow | InvalidTime | InvalidKey

  /** `Math.ceil(ms / 1000)`. */
  function CeilSeconds(ms: int): int {
    -((-ms) / 1000)
  }

  /** The bucket a request falls in, the request counted. */
  function Counted(current: Option<Bucket>, windowMs: int, nowMs: int): Bucket {
    if current.None? || nowMs - current.value.startsAt >= windowMs then Bucket(1, nowMs)
    else current.value.(count := current.value.count + 1)
  }

  function Decide(bucket: Bucket, limit: int, windowMs: int, nowMs: int): Decision {
    var remainingMs := Max(0, windowMs - (nowMs - bucket.startsAt));
    Decision(bucket.count <= limit, Max(1, CeilSeconds(remainingMs)))
  }

  class InMemoryRateLimitStore {
    var buckets: map<string, Bucket>

    constructor ()
      ensures buckets == map[]
    {
      buckets := map[];
    }

    function Current(key: string): Option<Bucket>
      reads this
    {
      if key in buckets then Some(buckets[key]) else None
    }

    method Consume(key: string, limit: int, windowMs: int, nowMs: int) returns (r: Decision)
      modifies this
      ensures var bucket := Counted(old(Current(key)), windowMs, nowMs);
              buckets == old(buckets)[key := bucket] && r == Decide(bucket, limit, windowMs, nowMs)
    {
      var bucket := if key !in buckets || nowMs - buckets[key].startsAt >= windowMs then Bucket(0, nowMs) else buckets[key];
      bucket := bucket.(count := bucket.count + 1);
      buckets := buckets[key := bucket];
      var remainingMs := Max(0, windowMs - (nowMs - bucket.startsAt));
      r := Decision(bucket.count <= limit, Max(1, CeilSeconds(remainingMs)));
    }
  }

  /** The conflict clause of the upsert: an expired row restarts, any other counts one more request. */
  function Upserted(current: Option<Row>, windowMs: int, nowMs: int): Row {
    if current.None? || current.value.expiresAt <= nowMs then Row(nowMs, nowMs + windowMs, 1)
    else current.value.(requestCount := current.value.requestCount + 1)
  }

  function DecideRow(row: Row, limit: int, nowMs: int): Decision {
    Decision(row.requestCount <= limit, Max(1, CeilSeconds(row.expiresAt - nowMs)))
  }

  function Refusal(key: string, limit: int, windowMs: int, nowMs: int): Option<StoreError> {
    if !(1 <= limit <= 1_000_000) then Some(InvalidLimit)
    else if !(1_000 <= windowMs <= 86_400_000) then Some(InvalidWindow)
    else if !SafeTime(nowMs) then Some(InvalidTime)
    else if !ValidKey(key) then Some(InvalidKey)
    else None
  }

  class PostgresRateLimitStore {
    var rows: map<string, Row>

    constructor ()
      ensures rows == map[]
    {
      rows := map[];
    }

    function Current(key: string): Option<Row>
      reads this
    {
      if key in rows then Some(rows[key]) else None
    }

    method Consume(key: string, limit: int, windowMs: int, nowMs: int) returns (r: Result<Decision, StoreError>)
      modifies this
      ensures Refusal(key, limit, windowMs, nowMs).Some? ==>
                rows == old(rows) && r == Failure(Refusal(key, limit, windowMs, nowMs).value)
      ensures Refusal(key, limit, windowMs, nowMs).None? ==>
                var row := Upserted(old(Current(key)), windowMs, nowMs);
                rows == old(rows)[key := row] && r == Success(DecideRow(row, limit, nowMs))
    {
      var refusal := Refusal(key, limit, windowMs, nowMs);
      if refusal.Some? { return Failure(refusal.value); }
      if key in rows {
        var expired := rows[key].expiresAt <= nowMs;
        rows := rows[key := Row(if expired then nowMs else rows[key].windowStartedAt,
                                if expired then nowMs + windowMs else rows[key].expiresAt,
                                if expired then 1 else rows[key].requestCount + 1)];
      } else {
        rows := rows[key := Row(nowMs, nowMs + windowMs, 1)];
      }
      r := Success(DecideRow(rows[key], limit, nowMs));
    }
  }

  // ---------------------------------------------------------------- the table form refines the map form

  datatype Call = Call(key: string, limit: int, windowMs: int, nowMs: int)

  predicate Valid(call: Call) {
    Refusal(call.key, call.limit, call.windowMs, call.nowMs).None?
  }

  function MapAnswers(buckets: map<string, Bucket>, calls: seq<Call>): seq<Decision>
    decreases |calls|
  {
    if calls == [] then []
    else
      var call := calls[0];
      var bucket := Counted(if call.key in buckets then Some(buckets[call.key]) else None, call.windowMs, call.nowMs);
      [Decide(bucket, call.limit, call.windowMs, call.nowMs)] + MapAnswers(buckets[call.key := bucket], calls[1..])
  }

  function TableAnswers(rows: map<string, Row>, calls: seq<Call>): seq<Result<Decision, StoreError>>
    decreases |calls|
  {
    if calls == [] then []
    else
      var call := calls[0];
      var refusal := Refusal(call.key, call.limit, call.windowMs, call.nowMs);
      if refusal.Some? then [Failure(refusal.value)] + TableAnswers(rows, calls[1..])
      else
        var row := Upserted(if call.key in rows then Some(rows[call.key]) else None, call.windowMs, call.nowMs);
        [Success(DecideRow(row, call.limit, call.nowMs))] + TableAnswers(rows[call.key := row], calls[1..])
  }

  /** Answers of the map form, as the table form gives them. */
  function Answered(decisions: seq<Decision>): seq<Result<Decision, StoreError>> {
    Map(decisions, (d: Decision) => Success(d))
  }

  /** Both forms count the same requests from the same instants. */
  ghost predicate Agree(buckets: map<string, Bucket>, rows: map<string, Row>, windows: string -> int) {
    && buckets.Keys == rows.Keys
    && forall key | key in buckets ::
         rows[key] == Row(buckets[key].startsAt, buckets[key].startsAt + windows(key), buckets[key].count)
  }

  lemma CountedAlike(bucket: Option<Bucket>, row: Option<Row>, limit: int, windowMs: int, nowMs: int)
    requires windowMs > 0 && (bucket.None? <==> row.None?)
    requires bucket.Some? ==>
               row.value == Row(bucket.value.startsAt, bucket.value.startsAt + windowMs, bucket.value.count)
    ensures var counted, upserted := Counted(bucket, windowMs, nowMs), Upserted(row, windowMs, nowMs);
            && upserted == Row(counted.startsAt, counted.startsAt + windowMs, counted.count)
            && DecideRow(upserted, limit, nowMs) == Decide(counted, limit, windowMs, nowMs)
  {
  }

  lemma AnsweredFirst(first: Decision, rest: seq<Decision>)
    ensures Answered([first] + rest) == [Success(first)] + Answered(rest)
  {
  }

  lemma AnswersFirst(buckets: map<string, Bucket>, rows: map<string, Row>, calls: seq<Call>)
    requires calls != [] && Valid(calls[0])
    ensures var call := calls[0];
            var bucket := Counted(if call.key in buckets then Some(buckets[call.key]) else None, call.windowMs, call.nowMs);
            var row := Upserted(if call.key in rows then Some(rows[call.key]) else None, call.windowMs, call.nowMs);
            && MapAnswers(buckets, calls)
               == [Decide(bucket, call.limit, call.windowMs, call.nowMs)] + MapAnswers(buckets[call.key := bucket], calls[1..])
            && TableAnswers(rows, calls)
               == [Success(DecideRow(row, call.limit, call.nowMs))] + TableAnswers(rows[call.key := row], calls[1..])
  {
  }

  /** Call by call, the table form gives the map form's answer to every valid call, if each key keeps its window. */
  lemma {:induction false} TableRefinesMap(buckets: map<string, Bucket>, rows: map<string, Row>, windows: string -> int, calls: seq<Call>)
    requires Agree(buckets, rows, windows)
    requires forall call | call in calls :: Valid(call) && call.windowMs == windows(call.key)
    ensures TableAnswers(rows, calls) == Answered(MapAnswers(buckets, calls))
    decreases |calls|
  {
    if calls != [] {
      var call, rest := calls[0], calls[1..];
      var window := windows(call.key);
      var held := if call.key in buckets then Some(buckets[call.key]) else None;
      var stored := if call.key in rows then Some(rows[call.key]) else None;
      CountedAlike(held, stored, call.limit, window, call.nowMs);
      AnswersFirst(buckets, rows, calls);
      var bucket := Counted(held, window, call.nowMs);
      var counted := buckets[call.key := bucket];
      TableRefinesMap(counted, rows[call.key := Upserted(stored, window, call.nowMs)], windows, rest);
      AnsweredFirst(Decide(bucket, call.limit, window, call.nowMs), MapAnswers(counted, rest));
    }
  }

  /** One request under the first window, and the next one when the shorter of the two windows ends. */
  function ChangingCalls(key: string, first: int, second: int): seq<Call> {
    [Call(key, 1, first, 0), Call(key, 1, second, Min(first, second))]
  }

  /** For any two windows, the map form judges the second call by the new window, the table form by the stored one. */
  lemma ChangedWindowDiffers(key: string, first: int, second: int)
    requires first > 0 && second > 0 && first != second
    ensures var bucket, row, now := Counted(None, first, 0), Upserted(None, first, 0), Min(first, second);
            && Decide(Counted(Some(bucket), second, now), 1, second, now).allowed == (second < first)
            && DecideRow(Upserted(Some(row), second, now), 1, now).allowed == (first < second)
    ensures forall call | call in ChangingCalls(key, first, second) :: call.key == key && call.windowMs in {first, second}
    ensures (forall call | call in ChangingCalls(key, first, second) :: Valid(call)) ==>
              TableAnswers(map[], ChangingCalls(key, first, second)) != Answered(MapAnswers(map[], ChangingCalls(key, first, second)))
  {
    var calls := ChangingCalls(key, first, second);
    if forall call | call in calls :: Valid(call) {
      var bucket, row := Counted(None, first, 0), Upserted(None, first, 0);
      SecondAnswers(calls, bucket, row);
      assert Answered(MapAnswers(map[], calls))[1] == Success(MapAnswers(map[], calls)[1]);
    }
  }

  lemma SecondAnswers(calls: seq<Call>, bucket: Bucket, row: Row)
    requires |calls| == 2 && calls[0].key == calls[1].key && Valid(calls[0]) && Valid(calls[1])
    requires bucket == Counted(None, calls[0].windowMs, calls[0].nowMs) && row == Upserted(None, calls[0].windowMs, calls[0].nowMs)
    ensures |MapAnswers(map[], calls)| == 2 == |TableAnswers(map[], calls)|
    ensures MapAnswers(map[], calls)[1]
            == Decide(Counted(Some(bucket), calls[1].windowMs, calls[1].nowMs), calls[1].limit, calls[1].windowMs, calls[1].nowMs)
    ensures TableAnswers(map[], calls)[1]
            == Success(DecideRow(Upserted(Some(row), calls[1].windowMs, calls[1].nowMs), calls[1].limit, calls[1].nowMs))
  {
    var key := calls[0].key;
    assert calls[1..] == [calls[1]] && [calls[1]][1..] == [];
    assert |MapAnswers(map[key := bucket], [calls[1]])| == 1 == |TableAnswers(map[key := row], [calls[1]])|;
  }

  /** The windows that callers may pass with each key. */
  type Policy = (string, int) -> bool

  ghost predicate Follows(policy: Policy, calls: seq<Call>) {
    forall call | call in calls :: Valid(call) && policy(call.key, call.windowMs)
  }

  ghost predicate FormsAgree(policy: Policy) {
    forall calls | Follows(policy, calls) ::
      TableAnswers(map[], calls) == Answered(MapAnswers(map[], calls))
  }

  predicate Window(windowMs: int) {
    1_000 <= windowMs <= 86_400_000
  }

  /** No key is called with two windows. */
  ghost predicate ConstantWindows(policy: Policy) {
    forall key, first, second {:trigger policy(key, first), policy(key, second)} |
      ValidKey(key) && Window(first) && Window(second) && policy(key, first) && policy(key, second) :: first == second
  }

  ghost function WindowOf(policy: Policy, key: string): int {
    if exists w :: Window(w) && policy(key, w) then (var w :| Window(w) && policy(key, w); w) else 0
  }

  /** The two forms answer every list of valid calls alike exactly when each key always has the same window. */
  lemma FormsAgreeIffWindowsAreConstant(policy: Policy)
    ensures FormsAgree(policy) <==> ConstantWindows(policy)
  {
    if ConstantWindows(policy) {
      forall calls | Follows(policy, calls)
        ensures TableAnswers(map[], calls) == Answered(MapAnswers(map[], calls))
      {
        var windows := (key: string) => WindowOf(policy, key);
        forall call | call in calls ensures Valid(call) && call.windowMs == windows(call.key) {
          assert Window(call.windowMs) && policy(call.key, call.windowMs);
        }
        TableRefinesMap(map[], map[], windows, calls);
      }
    } else {
      var key, first, second :|
        ValidKey(key) && Window(first) && Window(second) && policy(key, first) && policy(key, second) && first != second;
      ChangedWindowDiffers(key, first, second);
      assert Follows(policy, ChangingCalls(key, first, second));
    }
  }

  // ---------------------------------------------------------------- when to try again

  /**
   * The seconds to wait are the fewest whole ones, of at least one, after which the key's next request opens a bucket of its
   * own; a request is allowed exactly while its bucket has counted no more than the limit.
   */
  lemma RetryAfterIsLeast(current: Option<Bucket>, limit: int, windowMs: int, nowMs: int)
    requires windowMs > 0 && (current.Some? ==> current.value.startsAt <= nowMs)
    ensures var bucket := Counted(current, windowMs, nowMs);
            var d := Decide(bucket, limit, windowMs, nowMs);
            && (d.allowed <==> bucket.count <= limit) && d.retryAfterSeconds >= 1
            && (forall seconds: int | seconds >= d.retryAfterSeconds ::
                  Counted(Some(bucket), windowMs, nowMs + 1_000 * seconds) == Bucket(1, nowMs + 1_000 * seconds))
            && (forall seconds: int | 1 <= seconds < d.retryAfterSeconds ::
                  Counted(Some(bucket), windowMs, nowMs + 1_000 * seconds).startsAt == bucket.startsAt)
  {
    var bucket := Counted(current, windowMs, nowMs);
    var left := windowMs - (nowMs - bucket.startsAt);
    SecondsCover(left);
  }

  lemma SecondsCover(ms: int)
    ensures 1_000 * (CeilSeconds(ms) - 1) < ms <= 1_000 * CeilSeconds(ms)
  {
  }

  // ---------------------------------------------------------------- how many requests a window admits

  /** The bucket after calls of one key at these instants. */
  function BucketAfter(windowMs: int, calls: seq<int>): Option<Bucket> {
    if calls == [] then None
    else Some(Counted(BucketAfter(windowMs, calls[..|calls| - 1]), windowMs, calls[|calls| - 1]))
  }

  predicate AllowedAt(limit: int, windowMs: int, calls: seq<int>, i: nat)
    requires i < |calls|
  {
    Decide(BucketAfter(windowMs, calls[..i + 1]).value, limit, windowMs, calls[i]).allowed
  }

  /** How many of these calls are allowed at an instant of the half-open interval of one window from `from`. */
  function Admitted(limit: int, windowMs: int, calls: seq<int>, from: int): nat {
    if calls == [] then 0
    else
      var last := |calls| - 1;
      Admitted(limit, windowMs, calls[..last], from)
      + if from <= calls[last] < from + windowMs && AllowedAt(limit, windowMs, calls, last) then 1 else 0
  }

  ghost predicate NonDecreasing(calls: seq<int>) {
    forall i, j | 0 <= i <= j < |calls| :: calls[i] <= calls[j]
  }

  /** What is admitted from each instant on, in terms of the current bucket. */
  ghost predicate Bounded(limit: int, windowMs: int, calls: seq<int>, from: int) {
    var admitted := Admitted(limit, windowMs, calls, from);
    match BucketAfter(windowMs, calls)
    case None => admitted == 0
    case Some(Bucket(count, startsAt)) =>
      if from >= startsAt + windowMs then admitted == 0
      else if from > startsAt then admitted <= Min(count, limit) - 1
      else if from == startsAt then admitted <= Min(count, limit)
      else if from > startsAt - windowMs then admitted <= limit - 1 + Min(count, limit)
      else admitted <= 2 * limit - 1
  }

  lemma {:induction false} BucketHoldsLast(windowMs: int, calls: seq<int>)
    requires windowMs > 0 && NonDecreasing(calls) && calls != []
    ensures var bucket := BucketAfter(windowMs, calls).value;
            bucket.startsAt <= calls[|calls| - 1] < bucket.startsAt + windowMs && bucket.count >= 1
  {
    var front := calls[..|calls| - 1];
    if front != [] {
      BucketHoldsLast(windowMs, front);
      assert front[|front| - 1] <= calls[|calls| - 1];
    }
  }

  lemma {:induction false} AdmissionsBounded(limit: int, windowMs: int, calls: seq<int>, from: int)
    requires limit >= 1 && windowMs > 0 && NonDecreasing(calls)
    ensures Bounded(limit, windowMs, calls, from)
  {
    if calls != [] {
      var last := |calls| - 1;
      var front := calls[..last];
      AdmissionsBounded(limit, windowMs, front, from);
      BucketHoldsLast(windowMs, calls);
      assert calls[..last + 1] == calls;
      if front != [] {
        BucketHoldsLast(windowMs, front);
        assert front[last - 1] <= calls[last];
      }
    }
  }

  /** With a clock that never goes back, no interval of one window admits two full limits. */
  lemma WindowAdmitsUnderTwiceTheLimit(limit: int, windowMs: int, calls: seq<int>, from: int)
    requires limit >= 1 && windowMs > 0 && NonDecreasing(calls)
    ensures Admitted(limit, windowMs, calls, from) <= 2 * limit - 1
  {
    AdmissionsBounded(limit, windowMs, calls, from);
  }

  /** One call opens a bucket, the rest of its limit comes at its very end, and the next limit just after it. */
  function BurstCall(limit: nat, windowMs: int, i: nat): int {
    if i == 0 then 0 else if i < limit then windowMs - 1 else windowMs
  }

  function Burst(limit: nat, windowMs: int, n: nat): seq<int> {
    seq(n, i requires 0 <= i => BurstCall(limit, windowMs, i))
  }

  lemma {:induction false} BurstBucket(limit: nat, windowMs: int, n: nat)
    requires limit >= 1 && windowMs >= 2 && 1 <= n
    ensures BucketAfter(windowMs, Burst(limit, windowMs, n)) == Some(if n <= limit then Bucket(n, 0) else Bucket(n - limit, windowMs))
  {
    assert Burst(limit, windowMs, n)[..n - 1] == Burst(limit, windowMs, n - 1);
    if n > 1 { BurstBucket(limit, windowMs, n - 1); }
  }

  lemma {:induction false} BurstAdmitted(limit: nat, windowMs: int, n: nat)
    requires limit >= 1 && windowMs >= 2 && 1 <= n <= 2 * limit
    ensures Admitted(limit, windowMs, Burst(limit, windowMs, n), windowMs - 1) == n - 1
  {
    var calls := Burst(limit, windowMs, n);
    assert calls[..n - 1] == Burst(limit, windowMs, n - 1) && calls[..n] == calls;
    BurstBucket(limit, windowMs, n);
    assert AllowedAt(limit, windowMs, calls, n - 1);
    if n > 1 {
      BurstAdmitted(limit, windowMs, n - 1);
    } else {
      assert Burst(limit, windowMs, 0) == [];
    }
  }

  /** The bound is the least one: every limit has calls that reach it. */
  lemma TwiceTheLimitLessOneIsReached(limit: nat, windowMs: int)
    requires limit >= 1 && windowMs >= 2
    ensures exists calls :: NonDecreasing(calls) && Admitted(limit, windowMs, calls, windowMs - 1) == 2 * limit - 1
  {
    BurstAdmitted(limit, windowMs, 2 * limit);
    assert NonDecreasing(Burst(limit, windowMs, 2 * limit));
  }
}
