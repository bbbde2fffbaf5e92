/** The fixed-window rate limiter of apps/api/src/infra/http/postgres-throttler-storage.ts.

    One call of `increment` holds a row lock from the read to the write, so it is one atomic step
    at the database's clock reading `now` (milliseconds).  The clock readings are parameters. */
module Throttler {
  import opened Common

  /** A row of rate_limit_buckets; times in milliseconds. */
  datatype Bucket = Bucket(totalHits: nat, windowExpiresAt: int, blockedUntil: Option<int>)

  datatype Key = Key(hash: string, throttler: string)

  /** `ttl` and `blockDuration` in milliseconds. */
  datatype Rule = Rule(ttl: real, limit: real, blockDuration: real) {
    predicate Accepted() {
      ttl > 0.0 && limit > 0.0 && blockDuration >= 0.0
    }

    /** Whole milliseconds by which `new Date(now + d)` exceeds a whole `now`. */
    function Window(): int {
      ttl.Floor
    }

    function Block(): int {
      blockDuration.Floor
    }

    /** The calls a window admits. */
    function Limit(): int {
      limit.Floor
    }

    /** The shorter of the two. */
    function Span(): int {
      if Window() < Block() then Window() else Block()
    }
  }

  datatype Answer = Answer(totalHits: nat, timeToExpire: int, isBlocked: bool, timeToBlockExpire: int)

  datatype Outcome = Counted(answer: Answer) | KeyRequired | ParametersRejected

  /** `Math.max(0, Math.ceil((until - from) / 1000))`. */
  function SecondsUntil(from: int, until: int): int {
    if until <= from then 0 else (until - from + 999) / 1000
  }

  /** The inserted row: no hits, and a window that has already expired.  The insert reads the
      clock at or before `now`; any such reading expires the window all the same. */
  function Inserted(now: int): Bucket {
    Bucket(0, now, None)
  }

  predicate Blocked(b: Bucket, now: int) {
    b.blockedUntil.Some? && b.blockedUntil.value > now
  }

  predicate Resets(b: Bucket, now: int) {
    !Blocked(b, now) && (b.blockedUntil.Some? || b.windowExpiresAt <= now)
  }

  /** The row after a call. */
  function Updated(b: Bucket, rule: Rule, now: int): Bucket {
    if Blocked(b, now) then b else
    var hits := if Resets(b, now) then 1 else b.totalHits + 1;
    Bucket(hits,
           if Resets(b, now) then now + rule.Window() else b.windowExpiresAt,
           if hits as real > rule.limit then Some(now + rule.Block()) else None)
  }

  /** What the caller is told, given the row before and after. */
  function Told(before: Bucket, after: Bucket, now: int): Answer {
    var blocked := Blocked(before, now) || after.blockedUntil.Some?;
    Answer(after.totalHits, SecondsUntil(now, after.windowExpiresAt), blocked,
           if blocked && after.blockedUntil.Some? then SecondsUntil(now, after.blockedUntil.value) else 0)
  }

  const DAY: int := 24 * 60 * 60 * 1000

  /** What the retention query deletes. */
  predicate Expired(b: Bucket, now: int) {
    b.windowExpiresAt < now - DAY && (b.blockedUntil.None? || b.blockedUntil.value < now - DAY)
  }

  function Row(buckets: map<Key, Bucket>, key: Key, now: int): Bucket {
    if key in buckets then buckets[key] else Inserted(now)
  }

  function Retained(buckets: map<Key, Bucket>, now: int): map<Key, Bucket> {
    map k | k in buckets && !Expired(buckets[k], now) :: buckets[k]
  }

  /** `k` is the least number of whole seconds after which `until` is reached. */
  ghost predicate Seconds(k: int, from: int, until: int) {
    0 <= k && until <= from + 1000 * k && (k > 0 ==> from + 1000 * (k - 1) < until)
  }

  lemma SecondsCounted(from: int, until: int)
    ensures Seconds(SecondsUntil(from, until), from, until)
  {}

  /** A call counts, starts a new window with it, or meets a block and changes nothing; the answer
      gives the hits, the seconds left of the window, and those left of a block if there is one. */
  lemma CallDoes(before: Bucket, rule: Rule, now: int)
    ensures var after := Updated(before, rule, now);
      if before.blockedUntil.Some? && now < before.blockedUntil.value then after == before
      else
        && (if before.blockedUntil.Some? || before.windowExpiresAt <= now then
              after.totalHits == 1 && after.windowExpiresAt == now + rule.ttl.Floor
            else after.totalHits == before.totalHits + 1 && after.windowExpiresAt == before.windowExpiresAt)
        && after.blockedUntil == if after.totalHits as real > rule.limit then Some(now + rule.blockDuration.Floor)
                                 else None
  {}

  lemma AnswerTells(before: Bucket, rule: Rule, now: int)
    ensures var after := Updated(before, rule, now); var a := Told(before, after, now);
      && a.totalHits == after.totalHits && Seconds(a.timeToExpire, now, after.windowExpiresAt)
      && a.isBlocked == after.blockedUntil.Some?
      && (if a.isBlocked then Seconds(a.timeToBlockExpire, now, after.blockedUntil.value)
          else a.timeToBlockExpire == 0)
  {
    var after := Updated(before, rule, now);
    SecondsCounted(now, after.windowExpiresAt);
    if after.blockedUntil.Some? { SecondsCounted(now, after.blockedUntil.value); }
  }

  /** Pruning takes the rows whose window and block ended more than a day ago, and no other. */
  lemma PruningTakes(buckets: map<Key, Bucket>, key: Key, now: int)
    requires key in buckets
    ensures var b := buckets[key];
            key !in Retained(buckets, now) <==>
              now - b.windowExpiresAt > 86400000
              && (b.blockedUntil.Some? ==> now - b.blockedUntil.value > 86400000)
    ensures key in Retained(buckets, now) ==> Retained(buckets, now)[key] == buckets[key]
  {}

  class ThrottlerStorage {
    var operations: nat
    /** The shared table. */
    var buckets: map<Key, Bucket>

    constructor ()
      ensures operations == 0 && buckets == map[]
    {
      operations, buckets := 0, map[];
    }

    /** `now` is read under the row lock, `later` by the retention query. */
    method Increment(key: Key, rule: Rule, now: int, later: int) returns (r: Outcome)
      requires now <= later
      modifies this
      ensures (key.hash == "" || key.throttler == "") ==>
                r == KeyRequired && buckets == old(buckets) && operations == old(operations)
      ensures !(key.hash == "" || key.throttler == "") && !rule.Accepted() ==>
                r == ParametersRejected && buckets == old(buckets) && operations == old(operations)
      ensures !(key.hash == "" || key.throttler == "") && rule.Accepted() ==>
                var before := Row(old(buckets), key, now);
                var after := Updated(before, rule, now);
                && r == Counted(Told(before, after, now))
                && operations == old(operations) + 1
                && buckets == if operations % 1000 == 0 then Retained(old(buckets)[key := after], later)
                              else old(buckets)[key := after]
    {
      if key.hash == "" || key.throttler == "" { return KeyRequired; }
      if rule.ttl <= 0.0 || rule.limit <= 0.0 || rule.blockDuration < 0.0 { return ParametersRejected; }
      if key !in buckets { buckets := buckets[key := Inserted(now)]; }
      var bucket := buckets[key];
      if bucket.blockedUntil.Some? && bucket.blockedUntil.value > now {
        r := Counted(Answer(bucket.totalHits, SecondsUntil(now, bucket.windowExpiresAt), true,
                            SecondsUntil(now, bucket.blockedUntil.value)));
        buckets := buckets[key := bucket];
      } else {
        var blockExpired := bucket.blockedUntil.Some? && bucket.blockedUntil.value <= now;
        var windowExpired := bucket.windowExpiresAt <= now;
        var reset := blockExpired || windowExpired;
        var totalHits := if reset then 1 else bucket.totalHits + 1;
        var windowExpiresAt := if reset then now + rule.ttl.Floor else bucket.windowExpiresAt;
        var blockedUntil := if totalHits as real > rule.limit then Some(now + rule.blockDuration.Floor) else None;
        buckets := buckets[key := Bucket(totalHits, windowExpiresAt, blockedUntil)];
        r := Counted(Answer(totalHits, SecondsUntil(now, windowExpiresAt), blockedUntil.Some?,
                            if blockedUntil.Some? then SecondsUntil(now, blockedUntil.value) else 0));
      }
      operations := operations + 1;
      if operations % 1000 == 0 { buckets := Retained(buckets, later); }
    }
  }

  // ---------------------------------------------------------------- one bucket over a whole run

  /** The row after the first `n` calls, the calls being given by their times. */
  function After(b: Bucket, rule: Rule, times: seq<int>, n: nat): Bucket
    requires n <= |times|
  {
    if n == 0 then b else Updated(After(b, rule, times, n - 1), rule, times[n - 1])
  }

  predicate Admitted(b: Bucket, rule: Rule, times: seq<int>, i: nat)
    requires i < |times|
  {
    !Told(After(b, rule, times, i), After(b, rule, times, i + 1), times[i]).isBlocked
  }

  /** Calls admitted among those with index from `i` up to `j`. */
  function Count(b: Bucket, rule: Rule, times: seq<int>, i: nat, j: nat): nat
    requires i <= j <= |times|
  {
    if i == j then 0
    else Count(b, rule, times, i, j - 1) + (if Admitted(b, rule, times, j - 1) then 1 else 0)
  }

  ghost predicate NonDecreasing(times: seq<int>) {
    forall i, j :: 0 <= i <= j < |times| ==> times[i] <= times[j]
  }

  /** A clock that never goes back, from `start` on. */
  ghost predicate Clock(start: int, times: seq<int>) {
    NonDecreasing(times) && (times != [] ==> start <= times[0])
  }

  ghost predicate ResetAt(b: Bucket, rule: Rule, times: seq<int>, i: nat)
    requires i < |times|
  {
    Resets(After(b, rule, times, i), times[i])
  }

  /** Any row: blocked exactly when over the limit, the block not ending before `Span` has
      passed since the window began. */
  predicate Consistent(b: Bucket, rule: Rule) {
    && (b.blockedUntil.Some? <==> b.totalHits as real > rule.limit)
    && (b.blockedUntil.Some? ==> b.blockedUntil.value >= b.windowExpiresAt - rule.Window() + rule.Block())
  }

  lemma UpdatedConsistent(b: Bucket, rule: Rule, now: int)
    requires rule.Accepted() && Consistent(b, rule) && b.windowExpiresAt - rule.Window() <= now
    ensures Consistent(Updated(b, rule, now), rule)
    ensures Updated(b, rule, now).windowExpiresAt - rule.Window() <= now
  {}

  /** The bucket that a fresh key starts from, the first call being at `start`. */
  lemma {:induction false} RunConsistent(rule: Rule, start: int, times: seq<int>, n: nat)
    requires rule.Accepted() && Clock(start, times) && n <= |times|
    ensures var b := After(Inserted(start), rule, times, n);
            Consistent(b, rule) && (n > 0 ==> b.windowExpiresAt - rule.Window() <= times[n - 1])
            && b.windowExpiresAt >= start
  {
    if n > 0 {
      RunConsistent(rule, start, times, n - 1);
      UpdatedConsistent(After(Inserted(start), rule, times, n - 1), rule, times[n - 1]);
    }
  }

  /** One call: whether it counts, and whether it is admitted. */
  lemma OneCall(b: Bucket, rule: Rule, now: int)
    ensures var after := Updated(b, rule, now);
            && after.totalHits == (if Blocked(b, now) then b.totalHits
                                   else if Resets(b, now) then 1 else b.totalHits + 1)
            && (!Told(b, after, now).isBlocked <==> !Blocked(b, now) && after.totalHits <= rule.Limit())
  {}

  /** Without a reset in between, the hits only grow, and every admitted call is a hit. */
  lemma {:induction false} AdmittedAreHits(b: Bucket, rule: Rule, times: seq<int>, i: nat, j: nat)
    requires i <= j <= |times|
    requires forall k :: i <= k < j ==> !ResetAt(b, rule, times, k)
    ensures After(b, rule, times, j).totalHits >= After(b, rule, times, i).totalHits + Count(b, rule, times, i, j)
    ensures Count(b, rule, times, i, j) > 0 ==>
            After(b, rule, times, i).totalHits + Count(b, rule, times, i, j) <= rule.Limit()
    decreases j
  {
    if i < j {
      AdmittedAreHits(b, rule, times, i, j - 1);
      OneCall(After(b, rule, times, j - 1), rule, times[j - 1]);
      assert !ResetAt(b, rule, times, j - 1);
    }
  }

  /** A window, from the call that resets it to the next reset, admits at most `limit` calls. */
  lemma {:induction false} WindowAdmits(b: Bucket, rule: Rule, times: seq<int>, i: nat, j: nat)
    requires rule.Accepted() && i <= j <= |times|
    requires forall k :: i < k < j ==> !ResetAt(b, rule, times, k)
    ensures Count(b, rule, times, i, j) <= rule.Limit()
  {
    if i < j && ResetAt(b, rule, times, i) {
      AdmittedAreHits(b, rule, times, i + 1, j);
      OneCall(After(b, rule, times, i), rule, times[i]);
      CountSplit(b, rule, times, i, i + 1, j);
    } else {
      AdmittedAreHits(b, rule, times, i, j);
    }
  }

  lemma {:induction false} CountSplit(b: Bucket, rule: Rule, times: seq<int>, i: nat, m: nat, j: nat)
    requires i <= m <= j <= |times|
    ensures Count(b, rule, times, i, j) == Count(b, rule, times, i, m) + Count(b, rule, times, m, j)
    decreases j
  {
    if m < j { CountSplit(b, rule, times, i, m, j - 1); }
  }

  /** As long as no window has begun after it, a row keeps its window and a block outlasts `Span`. */
  lemma {:induction false} NoEarlyReset(rule: Rule, start: int, times: seq<int>, r: nat, k: nat)
    requires rule.Accepted() && Clock(start, times)
    requires r < k <= |times| && ResetAt(Inserted(start), rule, times, r)
    requires forall q :: r < q < k ==> !ResetAt(Inserted(start), rule, times, q)
    ensures After(Inserted(start), rule, times, k).windowExpiresAt == times[r] + rule.Window()
    decreases k
  {
    if r + 1 < k {
      NoEarlyReset(rule, start, times, r, k - 1);
      assert !ResetAt(Inserted(start), rule, times, k - 1);
    }
  }

  /** Two resets are at least `Span` apart. */
  lemma ResetsApart(rule: Rule, start: int, times: seq<int>, r: nat, k: nat)
    requires rule.Accepted() && Clock(start, times)
    requires r < k < |times| && ResetAt(Inserted(start), rule, times, r) && ResetAt(Inserted(start), rule, times, k)
    requires forall q :: r < q < k ==> !ResetAt(Inserted(start), rule, times, q)
    ensures times[k] - times[r] >= rule.Span()
  {
    NoEarlyReset(rule, start, times, r, k);
    RunConsistent(rule, start, times, k);
  }

  /** The bound: among calls less than `Span` apart, in particular among the calls of any
      half-open interval of that length, at most twice the limit is admitted. */
  lemma AdmissionBound(rule: Rule, start: int, times: seq<int>, i: nat, j: nat)
    requires rule.Accepted() && Clock(start, times)
    requires i < j <= |times| && times[j - 1] - times[i] < rule.Span()
    ensures Count(Inserted(start), rule, times, i, j) <= 2 * rule.Limit()
  {
    var b := Inserted(start);
    if exists q :: i < q < j && ResetAt(b, rule, times, q) {
      var r := FirstReset(b, rule, times, i, j);
      if exists q :: r < q < j && ResetAt(b, rule, times, q) {
        var k := FirstReset(b, rule, times, r, j);
        ResetsApart(rule, start, times, r, k);
        assert false;
      }
      WindowAdmits(b, rule, times, i, r);
      WindowAdmits(b, rule, times, r, j);
      CountSplit(b, rule, times, i, r, j);
    } else {
      WindowAdmits(b, rule, times, i, j);
    }
  }

  lemma FirstReset(b: Bucket, rule: Rule, times: seq<int>, i: nat, j: nat) returns (r: nat)
    requires i < j <= |times| && exists q :: i < q < j && ResetAt(b, rule, times, q)
    ensures i < r < j && ResetAt(b, rule, times, r) && forall q :: i < q < r ==> !ResetAt(b, rule, times, q)
  {
    r := i + 1;
    while !ResetAt(b, rule, times, r)
      invariant i < r < j && forall q :: i < q < r ==> !ResetAt(b, rule, times, q)
      invariant exists q :: r <= q < j && ResetAt(b, rule, times, q)
      decreases j - r
    {
      r := r + 1;
    }
  }

  // ---------------------------------------------------------------- intervals of time

  /** Calls admitted at times from `lo` up to `hi`, among the first `n`. */
  function AdmittedIn(b: Bucket, rule: Rule, times: seq<int>, lo: int, hi: int, n: nat): nat
    requires n <= |times|
  {
    if n == 0 then 0
    else AdmittedIn(b, rule, times, lo, hi, n - 1)
         + (if lo <= times[n - 1] < hi && Admitted(b, rule, times, n - 1) then 1 else 0)
  }

  /** Under a non-decreasing clock the calls of an interval are consecutive. */
  lemma {:induction false} IntervalIsRun(b: Bucket, rule: Rule, times: seq<int>, lo: int, hi: int, n: nat)
    returns (i: nat)
    requires NonDecreasing(times) && n <= |times| && (n > 0 ==> times[n - 1] < hi)
    ensures i <= n && (forall k :: i <= k < n ==> lo <= times[k])
    ensures AdmittedIn(b, rule, times, lo, hi, n) == Count(b, rule, times, i, n)
  {
    if n == 0 {
      i := 0;
    } else {
      i := IntervalIsRun(b, rule, times, lo, hi, n - 1);
      if times[n - 1] < lo { i := n; NoneBefore(b, rule, times, lo, hi, n); }
    }
  }

  lemma {:induction false} NoneBefore(b: Bucket, rule: Rule, times: seq<int>, lo: int, hi: int, n: nat)
    requires NonDecreasing(times) && n <= |times| && (n > 0 ==> times[n - 1] < lo)
    ensures AdmittedIn(b, rule, times, lo, hi, n) == 0
  {
    if n > 1 { NoneBefore(b, rule, times, lo, hi, n - 1); }
  }

  /** Every half-open interval no longer than the window and the block admits at most
      `2 * limit` calls. */
  lemma {:induction false} IntervalBound(rule: Rule, start: int, times: seq<int>, lo: int, hi: int, n: nat)
    requires rule.Accepted() && Clock(start, times)
    requires n <= |times| && hi - lo <= rule.Span()
    ensures AdmittedIn(Inserted(start), rule, times, lo, hi, n) <= 2 * rule.Limit()
  {
    if n > 0 && times[n - 1] >= hi {
      IntervalBound(rule, start, times, lo, hi, n - 1);
    } else {
      var i := IntervalIsRun(Inserted(start), rule, times, lo, hi, n);
      if i < n { AdmissionBound(rule, start, times, i, n); }
    }
  }

  // ---------------------------------------------------------------- when the bound holds

  /** With a real window and a real block, a row that has just been used does not reset at once. */
  lemma NoResetTwice(b: Bucket, rule: Rule, now: int)
    requires rule.Window() >= 1 && rule.Block() >= 1
    ensures !Resets(Updated(b, rule, now), now)
  {}

  lemma {:induction false} NoResetSameTime(b: Bucket, rule: Rule, times: seq<int>, i: nat, k: nat)
    requires rule.Window() >= 1 && rule.Block() >= 1 && NonDecreasing(times)
    requires i < k < |times| && times[i] == times[k]
    ensures !ResetAt(b, rule, times, k)
    decreases k
  {
    assert times[i] <= times[k - 1] <= times[k];
    NoResetTwice(After(b, rule, times, k - 1), rule, times[k - 1]);
  }

  /** No call but the first of all is admitted without a hit before it or a reset. */
  lemma {:induction false} HitsArePositive(rule: Rule, start: int, times: seq<int>, n: nat)
    requires rule.Accepted() && Clock(start, times) && n <= |times|
    ensures n > 0 ==> After(Inserted(start), rule, times, n).totalHits >= 1
  {
    if n > 1 { HitsArePositive(rule, start, times, n - 1); }
  }

  /** Calls before the next reset, none of them a reset, are not admitted under a limit of one. */
  lemma OneLimitAdmitsResets(rule: Rule, start: int, times: seq<int>, i: nat, j: nat)
    requires rule.Accepted() && rule.Limit() == 1 && Clock(start, times)
    requires i < j <= |times| && forall k :: i <= k < j ==> !ResetAt(Inserted(start), rule, times, k)
    ensures Count(Inserted(start), rule, times, i, j) == 0
  {
    var b := Inserted(start);
    assert !ResetAt(b, rule, times, i);
    HitsArePositive(rule, start, times, i);
    AdmittedAreHits(b, rule, times, i, j);
  }

  /** The condition on a rule. */
  predicate Bounding(rule: Rule) {
    || rule.Limit() == 0
    || rule.Window() == 0
    || (rule.Limit() == 1 && 2 * rule.Block() >= rule.Window())
    || (rule.Limit() >= 2 && rule.Block() >= 1 && rule.Block() + 1 >= rule.Window())
  }

  /** Two resets after the first call of a stretch take it past a window, unless nothing is
      admitted before the first of them. */
  lemma TwoResetsSpread(rule: Rule, start: int, times: seq<int>, i: nat, r: nat, k: nat)
    requires rule.Accepted() && Bounding(rule) && rule.Limit() >= 1 && rule.Window() >= 1
    requires Clock(start, times) && i < r < k < |times|
    requires ResetAt(Inserted(start), rule, times, r) && ResetAt(Inserted(start), rule, times, k)
    requires forall q :: i < q < k && q != r ==> !ResetAt(Inserted(start), rule, times, q)
    ensures times[k] - times[i] >= rule.Window() || Count(Inserted(start), rule, times, i, r) == 0
  {
    var b := Inserted(start);
    ResetsApart(rule, start, times, r, k);
    if rule.Limit() == 1 {
      if ResetAt(b, rule, times, i) {
        ResetsApart(rule, start, times, i, r);
      } else {
        OneLimitAdmitsResets(rule, start, times, i, r);
      }
    } else if times[i] == times[r] {
      NoResetSameTime(b, rule, times, i, r);
    } else {
      assert times[i] < times[r];
    }
  }

  /** Three resets after the first call always do. */
  lemma ThreeResetsSpread(rule: Rule, start: int, times: seq<int>, r: nat, k: nat, l: nat)
    requires rule.Accepted() && Bounding(rule) && rule.Limit() >= 1 && rule.Window() >= 1
    requires Clock(start, times) && r < k < l < |times|
    requires ResetAt(Inserted(start), rule, times, r) && ResetAt(Inserted(start), rule, times, k)
    requires ResetAt(Inserted(start), rule, times, l)
    requires forall q :: r < q < l && q != k ==> !ResetAt(Inserted(start), rule, times, q)
    ensures times[l] - times[r] >= rule.Window()
  {
    ResetsApart(rule, start, times, r, k);
    ResetsApart(rule, start, times, k, l);
  }

  lemma StretchBound(rule: Rule, start: int, times: seq<int>, i: nat, j: nat)
    requires rule.Accepted() && Bounding(rule) && rule.Limit() >= 1 && rule.Window() >= 1
    requires Clock(start, times)
    requires i < j <= |times| && times[j - 1] - times[i] < rule.Window()
    ensures Count(Inserted(start), rule, times, i, j) <= 2 * rule.Limit()
  {
    var b := Inserted(start);
    if exists q :: i < q < j && ResetAt(b, rule, times, q) {
      var r := FirstReset(b, rule, times, i, j);
      WindowAdmits(b, rule, times, i, r);
      CountSplit(b, rule, times, i, r, j);
      if exists q :: r < q < j && ResetAt(b, rule, times, q) {
        var k := FirstReset(b, rule, times, r, j);
        if exists q :: k < q < j && ResetAt(b, rule, times, q) {
          var l := FirstReset(b, rule, times, k, j);
          ThreeResetsSpread(rule, start, times, r, k, l);
          assert false;
        }
        TwoResetsSpread(rule, start, times, i, r, k);
        WindowAdmits(b, rule, times, r, k);
        WindowAdmits(b, rule, times, k, j);
        CountSplit(b, rule, times, r, k, j);
      } else {
        WindowAdmits(b, rule, times, r, j);
      }
    } else {
      WindowAdmits(b, rule, times, i, j);
    }
  }

  lemma {:induction false} NothingAdmitted(rule: Rule, start: int, times: seq<int>, lo: int, hi: int, n: nat)
    requires rule.Accepted() && Clock(start, times) && n <= |times|
    requires rule.Limit() == 0 || hi <= lo
    ensures AdmittedIn(Inserted(start), rule, times, lo, hi, n) == 0
  {
    if n > 0 {
      NothingAdmitted(rule, start, times, lo, hi, n - 1);
      OneCall(After(Inserted(start), rule, times, n - 1), rule, times[n - 1]);
      HitsArePositive(rule, start, times, n);
    }
  }

  lemma {:induction false} BoundingBounds(rule: Rule, start: int, times: seq<int>, lo: int, n: nat)
    requires rule.Accepted() && Bounding(rule)
    requires Clock(start, times) && n <= |times|
    ensures AdmittedIn(Inserted(start), rule, times, lo, lo + rule.Window(), n) <= 2 * rule.Limit()
  {
    var hi := lo + rule.Window();
    if rule.Limit() == 0 || rule.Window() == 0 {
      NothingAdmitted(rule, start, times, lo, hi, n);
    } else if n > 0 && times[n - 1] >= hi {
      BoundingBounds(rule, start, times, lo, n - 1);
    } else {
      var i := IntervalIsRun(Inserted(start), rule, times, lo, hi, n);
      if i < n { StretchBound(rule, start, times, i, n); }
    }
  }

  /** The calls made so far, all from time 0 up to `last`: the row they leave, and how many of
      those in [lo, hi) were admitted. */
  ghost predicate Reaches(rule: Rule, times: seq<int>, last: int, b: Bucket, lo: int, hi: int, admitted: nat) {
    && Clock(0, times) && (forall i :: 0 <= i < |times| ==> times[i] <= last)
    && After(Inserted(0), rule, times, |times|) == b
    && AdmittedIn(Inserted(0), rule, times, lo, hi, |times|) == admitted
  }

  lemma {:induction false} AdmittedPrefix(b: Bucket, rule: Rule, times: seq<int>, t: int, lo: int, hi: int, n: nat)
    requires n <= |times|
    ensures AdmittedIn(b, rule, times + [t], lo, hi, n) == AdmittedIn(b, rule, times, lo, hi, n)
  {
    if n > 0 {
      AdmittedPrefix(b, rule, times, t, lo, hi, n - 1);
      AfterPrefix(b, rule, times, [t], n - 1);
      AfterPrefix(b, rule, times, [t], n);
    }
  }

  /** One call more. */
  lemma OneMore(rule: Rule, times: seq<int>, last: int, b: Bucket, lo: int, hi: int, admitted: nat, t: int)
    requires Reaches(rule, times, last, b, lo, hi, admitted) && 0 <= last <= t
    ensures var after := Updated(b, rule, t);
            Reaches(rule, times + [t], t, after, lo, hi,
                    admitted + (if lo <= t < hi && !Told(b, after, t).isBlocked then 1 else 0))
  {
    var more, n := times + [t], |times|;
    AfterPrefix(Inserted(0), rule, times, [t], n);
    AdmittedPrefix(Inserted(0), rule, times, t, lo, hi, n);
    assert After(Inserted(0), rule, more, n + 1) == Updated(b, rule, t);
  }

  /** `n` calls at one moment, within the limit. */
  lemma {:induction false} Grow(rule: Rule, times: seq<int>, last: int, b: Bucket, lo: int, hi: int, admitted: nat,
                                t: int, n: nat)
    returns (more: seq<int>)
    requires Reaches(rule, times, last, b, lo, hi, admitted) && 0 <= last <= t
    requires b.blockedUntil.None? && b.windowExpiresAt > t && b.totalHits + n <= rule.Limit()
    ensures Reaches(rule, more, t, b.(totalHits := b.totalHits + n), lo, hi, admitted + (if lo <= t < hi then n else 0))
    decreases n
  {
    if n == 0 {
      more := times;
    } else {
      OneMore(rule, times, last, b, lo, hi, admitted, t);
      more := Grow(rule, times + [t], t, Updated(b, rule, t), lo, hi,
                   admitted + (if lo <= t < hi then 1 else 0), t, n - 1);
    }
  }

  /** From a row that resets: the whole limit at one moment, and the call that blocks. */
  lemma Refill(rule: Rule, times: seq<int>, last: int, b: Bucket, lo: int, hi: int, admitted: nat, t: int)
    returns (more: seq<int>)
    requires rule.Accepted() && rule.Limit() >= 1 && rule.Window() >= 1
    requires Reaches(rule, times, last, b, lo, hi, admitted) && 0 <= last <= t && Resets(b, t)
    ensures Reaches(rule, more, t, Bucket(rule.Limit() + 1, t + rule.Window(), Some(t + rule.Block())), lo, hi,
                    admitted + (if lo <= t < hi then rule.Limit() else 0))
  {
    OneMore(rule, times, last, b, lo, hi, admitted, t);
    var one := admitted + (if lo <= t < hi then 1 else 0);
    var full := admitted + (if lo <= t < hi then rule.Limit() else 0);
    more := Grow(rule, times + [t], t, Bucket(1, t + rule.Window(), None), lo, hi, one, t, rule.Limit() - 1);
    OneMore(rule, more, t, Bucket(rule.Limit(), t + rule.Window(), None), lo, hi, full, t);
    more := more + [t];
  }

  /** With two blocks shorter than a window: three refills, each as soon as the block ends. */
  lemma ThreeRefills(rule: Rule) returns (times: seq<int>)
    requires rule.Accepted() && rule.Limit() >= 1 && rule.Window() >= 1 && 2 * rule.Block() < rule.Window()
    ensures Clock(0, times)
    ensures AdmittedIn(Inserted(0), rule, times, 0, rule.Window(), |times|) == 3 * rule.Limit()
  {
    var w, d, l := rule.Window(), rule.Block(), rule.Limit();
    times := Refill(rule, [], 0, Inserted(0), 0, w, 0, 0);
    times := Refill(rule, times, 0, Bucket(l + 1, w, Some(d)), 0, w, l, d);
    times := Refill(rule, times, d, Bucket(l + 1, d + w, Some(2 * d)), 0, w, 2 * l, 2 * d);
  }

  /** With a block two milliseconds shorter than the window: one early call, the rest of the limit
      just before the window ends, and two refills. */
  lemma LateFill(rule: Rule) returns (times: seq<int>)
    requires rule.Accepted() && rule.Limit() >= 2 && rule.Block() >= 1 && rule.Block() + 2 <= rule.Window()
    ensures Clock(0, times)
    ensures AdmittedIn(Inserted(0), rule, times, rule.Window() - 1, 2 * rule.Window() - 1, |times|)
         == 3 * rule.Limit() - 1
  {
    var w, d, l := rule.Window(), rule.Block(), rule.Limit();
    var lo, hi := w - 1, 2 * w - 1;
    OneMore(rule, [], 0, Inserted(0), lo, hi, 0, 0);
    times := Grow(rule, [0], 0, Bucket(1, w, None), lo, hi, 0, w - 1, l - 1);
    times := Refill(rule, times, w - 1, Bucket(l, w, None), lo, hi, l - 1, w);
    times := Refill(rule, times, w, Bucket(l + 1, 2 * w, Some(w + d)), lo, hi, 2 * l - 1, w + d);
  }

  /** Calls admitted in the interval of the length of a window that starts at `lo`. */
  function AdmittedFrom(rule: Rule, start: int, times: seq<int>, lo: int): nat {
    AdmittedIn(Inserted(start), rule, times, lo, lo + rule.Window(), |times|)
  }

  /** Whatever is called when, no such interval admits more than twice the limit. */
  ghost predicate NeverExceeds(rule: Rule) {
    forall start, times, lo :: Clock(start, times) ==> AdmittedFrom(rule, start, times, lo) <= 2 * rule.Limit()
  }

  /** The bound holds exactly for the bounding rules.  A limit of one needs a block of half a window;
      a larger limit needs a block that lasts, but for a millisecond, as long as the window. */
  lemma BoundHoldsExactly(rule: Rule)
    requires rule.Accepted()
    ensures NeverExceeds(rule) <==> Bounding(rule)
  {
    if Bounding(rule) {
      forall start, times, lo | Clock(start, times) ensures AdmittedFrom(rule, start, times, lo) <= 2 * rule.Limit() {
        BoundingBounds(rule, start, times, lo, |times|);
      }
    } else if 2 * rule.Block() < rule.Window() {
      var times := ThreeRefills(rule);
      assert AdmittedFrom(rule, 0, times, 0) > 2 * rule.Limit();
    } else {
      var times := LateFill(rule);
      assert AdmittedFrom(rule, 0, times, rule.Window() - 1) > 2 * rule.Limit();
    }
  }

  /** In particular it holds when a block lasts at least as long as a window. */
  lemma WindowBound(rule: Rule, start: int, times: seq<int>, lo: int)
    requires rule.Accepted() && rule.blockDuration >= rule.ttl && Clock(start, times)
    ensures AdmittedFrom(rule, start, times, lo) <= 2 * rule.Limit()
  {
    BoundHoldsExactly(rule);
  }

  // ---------------------------------------------------------------- the shared table

  /** One thing that happens to the table: a call for a key, or a retention query. */
  datatype Event = Hit(key: Key, rule: Rule, now: int) | Retention(now: int)

  /** The table after the first `n` events; `prune` says whether retention deletes anything. */
  function Table(events: seq<Event>, n: nat, prune: bool): map<Key, Bucket>
    requires n <= |events|
  {
    if n == 0 then map[] else
    var before := Table(events, n - 1, prune);
    match events[n - 1]
    case Hit(key, rule, now) => before[key := Updated(Row(before, key, now), rule, now)]
    case Retention(now) => if prune then Retained(before, now) else before
  }

  /** The answer to event `n`, a call. */
  function AnswerTo(events: seq<Event>, n: nat, prune: bool): Answer
    requires n < |events| && events[n].Hit?
  {
    var Hit(key, rule, now) := events[n];
    var before := Row(Table(events, n, prune), key, now);
    Told(before, Updated(before, rule, now), now)
  }

  ghost predicate InOrder(events: seq<Event>) {
    forall i, j :: 0 <= i <= j < |events| ==> events[i].now <= events[j].now
  }

  /** The pruned table lacks only rows that have long expired. */
  ghost predicate Pruned(pruned: map<Key, Bucket>, full: map<Key, Bucket>, now: int) {
    && (forall k :: k in pruned ==> k in full && full[k] == pruned[k])
    && (forall k :: k in full && k !in pruned ==> Expired(full[k], now))
  }

  lemma SameStep(pruned: map<Key, Bucket>, full: map<Key, Bucket>, key: Key, rule: Rule, now: int)
    requires Pruned(pruned, full, now)
    ensures var p, f := Row(pruned, key, now), Row(full, key, now);
            Updated(p, rule, now) == Updated(f, rule, now)
            && Told(p, Updated(p, rule, now), now) == Told(f, Updated(f, rule, now), now)
  {}

  lemma {:induction false} RetentionPrunes(events: seq<Event>, n: nat, now: int)
    requires InOrder(events) && n <= |events| && (n > 0 ==> events[n - 1].now <= now)
    ensures Pruned(Table(events, n, true), Table(events, n, false), now)
    decreases n
  {
    if n > 0 {
      var at := events[n - 1].now;
      RetentionPrunes(events, n - 1, at);
      var p, f := Table(events, n - 1, true), Table(events, n - 1, false);
      match events[n - 1] {
        case Hit(key, rule, t) =>
          SameStep(p, f, key, rule, t);
        case Retention(t) =>
          assert forall k :: k in f && k !in Retained(p, t) ==> Expired(f[k], t);
      }
    }
  }

  /** The retention query changes no answer, whenever it runs. */
  lemma RetentionInvisible(events: seq<Event>, n: nat)
    requires InOrder(events) && n < |events| && events[n].Hit?
    ensures AnswerTo(events, n, true) == AnswerTo(events, n, false)
  {
    if n > 0 { assert events[n - 1].now <= events[n].now; }
    RetentionPrunes(events, n, events[n].now);
    SameStep(Table(events, n, true), Table(events, n, false), events[n].key, events[n].rule, events[n].now);
  }

  /** The times of the calls for one key. */
  function TimesOf(events: seq<Event>, key: Key, n: nat): seq<int>
    requires n <= |events|
  {
    if n == 0 then []
    else if events[n - 1].Hit? && events[n - 1].key == key
    then TimesOf(events, key, n - 1) + [events[n - 1].now]
    else TimesOf(events, key, n - 1)
  }

  lemma {:induction false} TimesInOrder(events: seq<Event>, key: Key, n: nat)
    requires InOrder(events) && n <= |events|
    ensures NonDecreasing(TimesOf(events, key, n))
    ensures forall t :: t in TimesOf(events, key, n) ==> n > 0 && t <= events[n - 1].now
  {
    if n > 0 {
      TimesInOrder(events, key, n - 1);
      var before := TimesOf(events, key, n - 1);
      assert forall i :: 0 <= i < |before| ==> before[i] in before;
    }
  }

  ghost predicate OneRule(events: seq<Event>, key: Key, rule: Rule) {
    forall e :: e in events && e.Hit? && e.key == key ==> e.rule == rule
  }

  lemma {:induction false} AfterPrefix(b: Bucket, rule: Rule, times: seq<int>, more: seq<int>, n: nat)
    requires n <= |times|
    ensures After(b, rule, times + more, n) == After(b, rule, times, n)
  {
    if n > 0 { AfterPrefix(b, rule, times, more, n - 1); }
  }

  /** Calls for other keys leave a row alone, so each key runs its own bucket. */
  lemma {:induction false} KeysAreIndependent(events: seq<Event>, key: Key, rule: Rule, n: nat)
    requires n <= |events| && OneRule(events, key, rule)
    ensures var times, table := TimesOf(events, key, n), Table(events, n, false);
            && (key in table <==> times != [])
            && (times != [] ==> table[key] == After(Inserted(times[0]), rule, times, |times|))
  {
    if n > 0 {
      KeysAreIndependent(events, key, rule, n - 1);
      var before, e := TimesOf(events, key, n - 1), events[n - 1];
      assert e in events;
      if e.Hit? && e.key == key {
        var times := before + [e.now];
        AfterPrefix(Inserted(times[0]), rule, before, [e.now], |before|);
      }
    }
  }

  /** Whatever else happens to the table, retention included, the answers for a key are those of
      the bucket that `WindowBound` is about. */
  lemma AnswersOfOneKey(events: seq<Event>, key: Key, rule: Rule, n: nat)
    requires InOrder(events) && OneRule(events, key, rule)
    requires n < |events| && events[n].Hit? && events[n].key == key
    ensures var times := TimesOf(events, key, n + 1);
            var b, m := Inserted(times[0]), |times| - 1;
            AnswerTo(events, n, true) == Told(After(b, rule, times, m), After(b, rule, times, m + 1), events[n].now)
            && times[m] == events[n].now
            && (AnswerTo(events, n, true).isBlocked <==> !Admitted(b, rule, times, m))
  {
    RetentionInvisible(events, n);
    KeysAreIndependent(events, key, rule, n);
    var before := TimesOf(events, key, n);
    assert events[n] in events && TimesOf(events, key, n + 1) == before + [events[n].now];
    if before != [] { AfterPrefix(Inserted(before[0]), rule, before, [events[n].now], |before|); }
  }
}
