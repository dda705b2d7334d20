/** GCRA rate limiting: the step on one key, the bound it enforces, and the token bucket
    it is. Times are nanoseconds since the store was made. */
module RateLimits {
  // ----- limits

  newtype int64 = x: int | -0x8000_0000_0000_0000 <= x <= 0x7FFF_FFFF_FFFF_FFFF

  const MAX_INT64: int64 := 0x7FFF_FFFF_FFFF_FFFF

  /** Go's int is 64 bits wide. A burst of 0 means rate. */
  datatype Limit = Limit(rate: int64, per: int64, burst: int64)

  datatype Refusal = RateNotPositive | PerNotPositive | BurstNegative | IntervalTooShort | TooLong

  datatype Params = Params(interval: int64, burst: int64) | Refused(why: Refusal)

  /** What the limit admits at once. */
  function Burst(l: Limit): int64 { if l.burst == 0 then l.rate else l.burst }

  /** The emission interval is per/rate rounded down. */
  function ParamsOf(l: Limit): Params {
    if l.rate <= 0 then Refused(RateNotPositive)
    else if l.per <= 0 then Refused(PerNotPositive)
    else if l.burst < 0 then Refused(BurstNegative)
    else
      var interval := l.per / l.rate;
      if interval == 0 then Refused(IntervalTooShort)
      else
        var burst := Burst(l);
        if burst > MAX_INT64 / 4 / interval then Refused(TooLong) else Params(interval, burst)
  }

  /** A limit is accepted exactly when its interval is at least a nanosecond and the whole
      burst takes at most a quarter of the range: the division the code compares with
      loses nothing, and the product it avoids would not have wrapped. */
  lemma AcceptedLimits(l: Limit)
    ensures ParamsOf(l).Params? <==>
      && 0 < l.rate <= l.per && 0 <= l.burst
      && Burst(l) as int * (l.per as int / l.rate as int) <= MAX_INT64 as int / 4
    ensures var p := ParamsOf(l); p.Params? ==>
      && p.interval > 0 && p.burst == Burst(l) > 0
      && (l.burst > 0 ==> p.burst == l.burst) && (l.burst == 0 ==> p.burst == l.rate)
      && p.interval as int * l.rate as int <= l.per as int < (p.interval as int + 1) * l.rate as int
      && p.burst as int * p.interval as int <= MAX_INT64 as int / 4
  {
    if l.rate > 0 && l.per > 0 && l.burst >= 0 {
      QuotientIs(l.per as int, l.rate as int);
      var interval := l.per as int / l.rate as int;
      if interval > 0 {
        QuotientBounds(Burst(l) as int, MAX_INT64 as int / 4, interval);
      }
    }
  }

  lemma ProductGrows(a: int, b: int, c: int)
    requires a <= b && c >= 0
    ensures a * c <= b * c
  {
  }

  lemma QuotientIs(p: int, r: int)
    requires r > 0 && p > 0
    ensures (p / r) * r <= p < (p / r + 1) * r
    ensures p / r > 0 <==> r <= p
    ensures p / r >= 0
  {
    assert p == (p / r) * r + p % r;
    assert (p / r + 1) * r == (p / r) * r + r;
    if p / r > 0 {
      ProductGrows(1, p / r, r);
    }
  }

  lemma QuotientBounds(b: int, q: int, i: int)
    requires i > 0 && q >= 0
    ensures b <= q / i <==> b * i <= q
  {
    var d := q / i;
    assert d * i <= q < d * i + i by {
      assert q == d * i + q % i;
    }
    if b <= d {
      ProductGrows(b, d, i);
    } else {
      ProductGrows(d + 1, b, i);
      assert (d + 1) * i == d * i + i;
    }
  }

  // ----- one key

  function Max(a: int, b: int): int { if a < b then b else a }

  /** Whether a charge at now is admitted when the key's theoretical arrival time is tat,
      and the wait when it is not. */
  function Wait(tat: int, now: int, interval: int, burst: int): int {
    Max(tat, now) + interval - burst * interval - now
  }

  predicate Admitted(tat: int, now: int, interval: int, burst: int) {
    Wait(tat, now, interval, burst) <= 0
  }

  function TatAfter(tat: int, now: int, interval: int, burst: int): int {
    if Admitted(tat, now, interval, burst) then Max(tat, now) + interval else tat
  }

  /** The wait of a refusal is exact: with no charge between, a later request is admitted
      if and only if at least that long has passed. */
  lemma WaitIsExact(tat: int, now: int, later: int, interval: int, burst: int)
    requires interval > 0 && burst > 0 && !Admitted(tat, now, interval, burst) && now <= later
    ensures TatAfter(tat, now, interval, burst) == tat
    ensures Admitted(tat, later, interval, burst) <==> later >= now + Wait(tat, now, interval, burst)
  {
    assert (burst - 1) * interval >= 0;
    assert (burst - 1) * interval == burst * interval - interval;
  }

  // ----- Retry-After

  const SECOND: int64 := 1_000_000_000

  /** Go's division and remainder truncate toward zero. */
  function Quotient(a: int, b: int): int
    requires b > 0
  {
    if a >= 0 then a / b else -(-a / b)
  }

  function Remainder(a: int, b: int): int
    requires b > 0
  {
    a - Quotient(a, b) * b
  }

  function RetryAfter(wait: int64): int {
    var s := Quotient(wait as int, SECOND as int);
    var up := if Remainder(wait as int, SECOND as int) != 0 then s + 1 else s;
    if up < 1 then 1 else up
  }

  /** The least whole number of seconds, at least one, that covers the wait. */
  lemma LeastSeconds(wait: int64, r: int)
    ensures RetryAfter(wait) >= 1 && RetryAfter(wait) * SECOND as int >= wait as int
    ensures r >= 1 && r * SECOND as int >= wait as int ==> RetryAfter(wait) <= r
  {
  }

  /** A client that waits as told is admitted, if nothing was charged to its key meanwhile. */
  lemma WaitingSuffices(tat: int, now: int, interval: int, burst: int, wait: int64, later: int)
    requires interval > 0 && burst > 0 && !Admitted(tat, now, interval, burst)
    requires wait as int == Wait(tat, now, interval, burst)
    requires later >= now + RetryAfter(wait) * SECOND as int
    ensures Admitted(tat, later, interval, burst)
  {
    LeastSeconds(wait, 1);
    WaitIsExact(tat, now, later, interval, burst);
  }

  // ----- runs of one key under one limit

  predicate Ordered(times: seq<int>) {
    forall i, j :: 0 <= i <= j < |times| ==> times[i] <= times[j]
  }

  /** The theoretical arrival time after the requests at these times. */
  function TatAfterAll(tat: int, times: seq<int>, interval: int, burst: int): int
    decreases |times|
  {
    if times == [] then tat
    else TatAfter(TatAfterAll(tat, times[..|times| - 1], interval, burst), times[|times| - 1], interval, burst)
  }

  /** Whether request i of the run is admitted. */
  predicate AdmittedAt(tat: int, times: seq<int>, i: nat, interval: int, burst: int)
    requires i < |times|
  {
    Admitted(TatAfterAll(tat, times[..i], interval, burst), times[i], interval, burst)
  }

  /** How many of the requests from i up to j are admitted. */
  function Admissions(tat: int, times: seq<int>, i: nat, j: nat, interval: int, burst: int): nat
    requires i <= j <= |times|
    decreases j
  {
    if i == j then 0
    else
      Admissions(tat, times, i, j - 1, interval, burst) +
      if AdmittedAt(tat, times, j - 1, interval, burst) then 1 else 0
  }

  lemma {:induction false} TatGrows(tat: int, times: seq<int>, i: nat, j: nat, interval: int, burst: int)
    requires i < j <= |times| && interval > 0 && AdmittedAt(tat, times, i, interval, burst)
    ensures TatAfterAll(tat, times[..j], interval, burst) >=
            times[i] + Admissions(tat, times, i, j, interval, burst) * interval
    decreases j
  {
    assert times[..j][..j - 1] == times[..j - 1];
    if j > i + 1 {
      TatGrows(tat, times, i, j - 1, interval, burst);
      var before := TatAfterAll(tat, times[..j - 1], interval, burst);
      StepGrows(before, times[j - 1], times[i], Admissions(tat, times, i, j - 1, interval, burst), interval, burst);
    }
  }

  lemma StepGrows(tat: int, now: int, start: int, n: nat, interval: int, burst: int)
    requires interval > 0 && tat >= start + n * interval
    ensures TatAfter(tat, now, interval, burst) >=
            start + (if Admitted(tat, now, interval, burst) then n + 1 else n) * interval
  {
    assert (n + 1) * interval == n * interval + interval;
  }

  /** The rate that is enforced: admissions from the one at i to the one at j, both counted,
      are at most the burst plus the whole intervals that have passed. */
  lemma RateBound(tat: int, times: seq<int>, i: nat, j: nat, interval: int, burst: int)
    requires i <= j < |times| && interval > 0 && burst > 0 && Ordered(times)
    requires AdmittedAt(tat, times, i, interval, burst) && AdmittedAt(tat, times, j, interval, burst)
    ensures Admissions(tat, times, i, j + 1, interval, burst) <= burst + (times[j] - times[i]) / interval
  {
    hide Ordered;
    assert times[i] <= times[j] by { InOrder(times, i, j); }
    var k := Admissions(tat, times, i, j + 1, interval, burst);
    TatGrows(tat, times, i, j + 1, interval, burst);
    assert times[..j + 1][..j] == times[..j];
    WithinIntervals(k, burst, times[j] - times[i], interval);
  }

  lemma InOrder(times: seq<int>, i: nat, j: nat)
    requires i <= j < |times| && Ordered(times)
    ensures times[i] <= times[j]
  {
  }

  lemma WithinIntervals(k: int, burst: int, elapsed: int, interval: int)
    requires interval > 0 && elapsed >= 0 && k * interval <= elapsed + burst * interval
    ensures k <= burst + elapsed / interval
  {
    assert (k - burst) * interval == k * interval - burst * interval;
    QuotientBounds(k - burst, elapsed, interval);
  }

  /** So no window admits more than the burst plus the intervals it lasts. */
  lemma {:induction false} WindowBound(tat: int, times: seq<int>, i: nat, j: nat, interval: int, burst: int,
                                       window: int)
    requires i <= j <= |times| && interval > 0 && burst > 0 && Ordered(times)
    requires window >= 0 && (i < j ==> times[j - 1] - times[i] <= window)
    ensures Admissions(tat, times, i, j, interval, burst) <= burst + window / interval
    decreases j - i
  {
    QuotientBounds(0, window, interval);
    if i < j {
      if !AdmittedAt(tat, times, j - 1, interval, burst) {
        WindowBound(tat, times, i, j - 1, interval, burst, window);
      } else if !AdmittedAt(tat, times, i, interval, burst) {
        FirstRefused(tat, times, i, j, interval, burst);
        WindowBound(tat, times, i + 1, j, interval, burst, window);
      } else {
        RateBound(tat, times, i, j - 1, interval, burst);
        QuotientGrows(times[j - 1] - times[i], window, interval);
      }
    }
  }

  lemma QuotientGrows(a: int, b: int, i: int)
    requires 0 <= a <= b && i > 0
    ensures a / i <= b / i
  {
    QuotientBounds(a / i, a, i);
    QuotientBounds(a / i, b, i);
  }

  lemma {:induction false} FirstRefused(tat: int, times: seq<int>, i: nat, j: nat, interval: int, burst: int)
    requires i < j <= |times| && !AdmittedAt(tat, times, i, interval, burst)
    ensures Admissions(tat, times, i, j, interval, burst) == Admissions(tat, times, i + 1, j, interval, burst)
    decreases j
  {
    if j > i + 1 {
      FirstRefused(tat, times, i, j - 1, interval, burst);
    }
  }

  /** The bound is reached: a key that has been idle gets exactly its burst at one instant. */
  lemma {:induction false} BurstAtOnce(tat: int, now: int, n: nat, interval: int, burst: int)
    requires interval > 0 && burst > 0 && tat <= now
    ensures var times := seq(n, _ => now);
      && TatAfterAll(tat, times, interval, burst) ==
           (if n == 0 then tat else now + (if n <= burst then n else burst) * interval)
      && forall i: nat :: i < n ==> (AdmittedAt(tat, times, i, interval, burst) <==> i < burst)
  {
    var times := seq(n, _ => now);
    if n > 0 {
      var before := seq(n - 1, _ => now);
      BurstAtOnce(tat, now, n - 1, interval, burst);
      assert times[..n - 1] == before;
      forall i: nat | i < n - 1 ensures AdmittedAt(tat, times, i, interval, burst) <==> i < burst {
        assert times[..i] == before[..i];
        assert AdmittedAt(tat, before, i, interval, burst) <==> i < burst;
      }
      var full := if n - 1 <= burst then n - 1 else burst;
      InstantStep(tat, now, n - 1, full, interval, burst);
    }
  }

  lemma InstantStep(tat: int, now: int, before: nat, full: nat, interval: int, burst: int)
    requires interval > 0 && burst > 0 && tat <= now && full == (if before <= burst then before else burst)
    ensures var t := if before == 0 then tat else now + full * interval;
      && (Admitted(t, now, interval, burst) <==> before < burst)
      && TatAfter(t, now, interval, burst) == now + (if before + 1 <= burst then before + 1 else burst) * interval
  {
    assert full * interval >= 0;
    assert (full + 1) * interval == full * interval + interval;
    if full < burst {
      assert (burst - full - 1) * interval >= 0;
      assert (burst - full - 1) * interval == burst * interval - full * interval - interval;
    }
  }

  // ----- the rate that was asked for

  /** The most a key can send: the burst at once, then one request every interval. */
  function Greedy(interval: nat, burst: nat, more: nat): (times: seq<int>)
    ensures |times| == burst + more
  {
    seq(burst + more, i requires 0 <= i < burst + more => GreedyTime(interval, burst, i))
  }

  function GreedyTime(interval: nat, burst: nat, i: nat): nat {
    if i < burst then 0 else (i - burst + 1) * interval
  }

  lemma GreedyIsOrdered(interval: nat, burst: nat, more: nat)
    ensures Ordered(Greedy(interval, burst, more))
  {
    forall i, j | 0 <= i <= j < burst + more
      ensures GreedyTime(interval, burst, i) <= GreedyTime(interval, burst, j)
    {
      if i >= burst {
        ProductGrows(i - burst + 1, j - burst + 1, interval);
      }
    }
  }

  /** A new key admits all of it. */
  lemma {:induction false} GreedyIsAdmitted(interval: nat, burst: nat, more: nat, n: nat)
    requires interval > 0 && burst > 0 && n <= burst + more
    ensures var times := Greedy(interval, burst, more);
      && TatAfterAll(0, times[..n], interval, burst) == n * interval
      && Admissions(0, times, 0, n, interval, burst) == n
  {
    if n > 0 {
      var times := Greedy(interval, burst, more);
      GreedyIsAdmitted(interval, burst, more, n - 1);
      assert times[..n][..n - 1] == times[..n - 1];
      GreedyStep(interval, burst, n - 1);
    }
  }

  lemma GreedyStep(interval: nat, burst: nat, i: nat)
    requires interval > 0 && burst > 0
    ensures var now := GreedyTime(interval, burst, i);
      Admitted(i * interval, now, interval, burst) && TatAfter(i * interval, now, interval, burst) == (i + 1) * interval
  {
    assert (i + 1) * interval == i * interval + interval;
    if i < burst {
      ProductGrows(i + 1, burst, interval);
    } else {
      ProductGrows(i - burst + 1, i, interval);
      assert (i - burst + 1) * interval == (i + 1) * interval - burst * interval;
    }
  }

  /** WindowBound is reached, in a window of any length. */
  lemma WindowIsReached(interval: nat, burst: nat, window: nat) returns (times: seq<int>)
    requires interval > 0 && burst > 0
    ensures Ordered(times) && times != [] && times[|times| - 1] - times[0] <= window
    ensures Admissions(0, times, 0, |times|, interval, burst) == burst + window / interval
  {
    var more := window / interval;
    times := Greedy(interval, burst, more);
    GreedyIsOrdered(interval, burst, more);
    GreedyIsAdmitted(interval, burst, more, burst + more);
    QuotientBounds(more, window, interval);
  }

  /** Whatever a key has sent before, no window of some whole number of pers admits more than
      the burst plus rate for each of them. */
  ghost predicate KeepsRate(l: Limit)
    requires ParamsOf(l).Params?
  {
    forall tat: int, times: seq<int>, i: nat, j: nat, k: nat :: WithinRate(l, tat, times, i, j, k)
  }

  predicate WithinRate(l: Limit, tat: int, times: seq<int>, i: nat, j: nat, k: nat)
    requires ParamsOf(l).Params?
  {
    Ordered(times) && InWindow(times, i, j, k * l.per as int) ==>
      Admissions(tat, times, i, j, ParamsOf(l).interval as int, ParamsOf(l).burst as int)
        <= Burst(l) as int + k * l.rate as int
  }

  predicate InWindow(times: seq<int>, i: nat, j: nat, window: int) {
    i <= j <= |times| && (i < j ==> times[j - 1] - times[i] <= window)
  }

  /** Rate requests every per is what is enforced if and only if per/rate has no remainder:
      rounding the interval down admits more. */
  lemma RateIsKept(l: Limit)
    requires ParamsOf(l).Params?
    ensures KeepsRate(l) <==> l.per as int % l.rate as int == 0
  {
    AcceptedLimits(l);
    var per, rate, interval, burst :=
      l.per as int, l.rate as int, ParamsOf(l).interval as int, ParamsOf(l).burst as int;
    var rest := per % rate;
    assert per == (per / rate) * rate + rest && interval == per / rate;
    if rest == 0 {
      forall tat: int, times: seq<int>, i: nat, j: nat, k: nat ensures WithinRate(l, tat, times, i, j, k) {
        if Ordered(times) && InWindow(times, i, j, k * per) {
          WholePers(k, per, rate, interval);
          WindowBound(tat, times, i, j, interval, burst, k * per);
        }
      }
    } else {
      var times := WindowIsReached(interval, burst, interval * per);
      ExtraRequests(per, rate, interval, rest);
      assert InWindow(times, 0, |times|, interval * per);
      assert !WithinRate(l, 0, times, 0, |times|, interval);
    }
  }

  lemma WholePers(k: nat, per: int, rate: int, interval: int)
    requires interval > 0 && rate > 0 && per == interval * rate
    ensures 0 <= k * per && (k * per) / interval == k * rate
  {
    Associates(k, rate, interval);
    WholeQuotient(k * rate, interval);
  }

  lemma WholeQuotient(n: nat, interval: int)
    requires interval > 0
    ensures 0 <= n * interval && (n * interval) / interval == n
  {
    QuotientBounds(n, n * interval, interval);
    QuotientBounds(n + 1, n * interval, interval);
  }

  lemma Associates(a: int, b: int, c: int)
    ensures a * (c * b) == (a * b) * c
  {
  }

  /** After interval pers there have been as many intervals as nanoseconds in one per. */
  lemma ExtraRequests(per: int, rate: int, interval: int, rest: int)
    requires interval > 0 && rate > 0 && rest > 0 && per == interval * rate + rest
    ensures interval * per >= 0 && (interval * per) / interval == per > interval * rate
  {
    ProductGrows(0, per, interval);
    QuotientBounds(per, interval * per, interval);
    QuotientBounds(per + 1, interval * per, interval);
    assert (per + 1) * interval == per * interval + interval;
  }

  // ----- the token bucket

  /** What is left in the bucket, in nanoseconds of refill, and when that was so. */
  datatype Bucket = Bucket(level: int, at: int)

  function Refilled(b: Bucket, now: int, capacity: int): int {
    if b.level + (now - b.at) < capacity then b.level + (now - b.at) else capacity
  }

  /** Fills by one a nanosecond up to its capacity; a request costs cost. */
  function Draw(b: Bucket, now: int, capacity: int, cost: int): (r: (Bucket, bool)) {
    var level := Refilled(b, now, capacity);
    if level >= cost then (Bucket(level - cost, now), true) else (Bucket(level, now), false)
  }

  /** The bucket holds what the theoretical arrival time leaves of its capacity. */
  predicate Agrees(tat: int, b: Bucket, capacity: int) {
    b.level == capacity - Max(0, tat - b.at)
  }

  /** A key is a token bucket of capacity burst*interval and cost interval. */
  lemma IsTokenBucket(tat: int, b: Bucket, now: int, interval: int, burst: int)
    requires interval > 0 && burst > 0 && b.at <= now && Agrees(tat, b, burst * interval)
    ensures var (b', taken) := Draw(b, now, burst * interval, interval);
      && taken == Admitted(tat, now, interval, burst)
      && Agrees(TatAfter(tat, now, interval, burst), b', burst * interval)
      && b'.at == now
      && (!taken ==> Wait(tat, now, interval, burst) == interval - b'.level)
  {
  }

  /** The answers of a bucket to a run of requests. */
  function Draws(b: Bucket, times: seq<int>, capacity: int, cost: int): seq<bool>
    decreases |times|
  {
    if times == [] then []
    else var (b', taken) := Draw(b, times[0], capacity, cost); [taken] + Draws(b', times[1..], capacity, cost)
  }

  function Answers(tat: int, times: seq<int>, interval: int, burst: int): seq<bool>
    decreases |times|
  {
    if times == [] then []
    else
      [Admitted(tat, times[0], interval, burst)] +
      Answers(TatAfter(tat, times[0], interval, burst), times[1..], interval, burst)
  }

  lemma {:induction false} RunIsTokenBucket(tat: int, b: Bucket, times: seq<int>, interval: int, burst: int)
    requires interval > 0 && burst > 0 && Ordered(times) && (times != [] ==> b.at <= times[0])
    requires Agrees(tat, b, burst * interval)
    decreases |times|
    ensures Answers(tat, times, interval, burst) == Draws(b, times, burst * interval, interval)
  {
    if times != [] {
      IsTokenBucket(tat, b, times[0], interval, burst);
      var (b', taken) := Draw(b, times[0], burst * interval, interval);
      RunIsTokenBucket(TatAfter(tat, times[0], interval, burst), b', times[1..], interval, burst);
    }
  }
}
