/** The in-memory store: 64 shards, each a map under its own lock, swept lazily. A Take
    holds its shard's lock from the sweep to the charge, so Takes on one shard come one
    after another; each reads the clock before it locks. */
module MemoryStores {
  import opened RateLimits

  const SHARDS: nat := 64

  /** The uptime up to which no sum can wrap: half the range, about 146 years. */
  const UPTIME: int64 := MAX_INT64 / 2

  /** The theoretical arrival time of a key that has none is 0: nothing is owed. */
  function TatOf(tats: map<string, int>, key: string): int {
    if key in tats then tats[key] else 0
  }

  /** What a Take answers: a refused limit, or how long to wait, 0 meaning admitted. */
  datatype Taken = Wait(ns: int64) | BadLimit(why: Refusal)

  class Shard {
    var tat: map<string, int64>
    var lastSweep: int64
    ghost var tats: map<string, int>   // of every key ever charged, swept or not
    ghost var clock: int               // the latest reading a Take has used

    ghost predicate Valid()
      reads this
    {
      && 0 <= lastSweep as int <= clock
      && (forall k :: k in tat ==> k in tats && tats[k] == tat[k] as int)
      && (forall k :: k in tats && k !in tat ==> tats[k] <= lastSweep as int)
      && (forall k :: k in tats ==> 0 <= tats[k] <= UPTIME as int + MAX_INT64 as int / 4)
    }

    constructor ()
      ensures Valid() && tats == map[] && clock == 0 && tat == map[] && lastSweep == 0
    {
      tat, lastSweep, tats, clock := map[], 0, map[], 0;
    }

    /** Deletes the keys whose theoretical arrival time has passed: they are the same as
        absent ones, so no key's meaning changes. */
    method Sweep(now: int64)
      requires Valid() && clock <= now as int
      modifies this`tat, this`lastSweep, this`clock
      ensures Valid() && lastSweep == now && clock == now as int
      ensures tat == map k | k in old(tat) && old(tat)[k] > now :: old(tat)[k]
    {
      var todo := tat.Keys;
      clock := now as int;
      while todo != {}
        invariant todo <= tat.Keys <= old(tat).Keys && tats == old(tats) && clock == now as int
        invariant forall k :: k in tat ==> tat[k] == old(tat)[k] && (k in todo || tat[k] > now)
        invariant forall k :: k in old(tat) && k !in tat ==> old(tat)[k] <= now
        decreases |todo|
      {
        var k :| k in todo;
        todo := todo - {k};
        if tat[k] <= now {
          tat := tat - {k};
        }
      }
      lastSweep := now;
      assert forall k :: k in tats && k !in tat ==> tats[k] <= now as int;
    }

    /** The part of Take under the lock. */
    method Charge(key: string, interval: int64, burst: int64, now: int64, sweepEvery: int64) returns (wait: int64)
      requires Valid() && 0 <= now <= UPTIME && clock <= now as int && sweepEvery >= 0
      requires interval > 0 && burst > 0 && burst as int * interval as int <= MAX_INT64 as int / 4
      modifies this
      ensures Valid() && clock == now as int
      ensures var was := TatOf(old(tats), key);
        && wait as int == (if Admitted(was, now as int, interval as int, burst as int) then 0
                           else RateLimits.Wait(was, now as int, interval as int, burst as int))
        && wait >= 0
        && tats == (if wait == 0 then old(tats)[key := TatAfter(was, now as int, interval as int, burst as int)]
                    else old(tats))
      ensures now - old(lastSweep) >= sweepEvery ==> forall k :: k in tat && k != key ==> tat[k] > now
    {
      clock := now as int;
      if now - lastSweep >= sweepEvery {
        Sweep(now);
      }
      var tatNow := now;
      if key in tat && !(tat[key] < now) {
        tatNow := tat[key];
      }
      assert tatNow as int == Max(TatOf(tats, key), now as int);
      FitsOnce(interval as int, burst as int);
      assert Max(TatOf(tats, key), now as int) == tatNow as int;
      var next := tatNow + interval;
      var allowAt := next - burst * interval;
      assert allowAt as int - now as int ==
        RateLimits.Wait(TatOf(tats, key), now as int, interval as int, burst as int);
      if now < allowAt {
        return allowAt - now;
      }
      tat := tat[key := next];
      tats := tats[key := next as int];
      wait := 0;
    }
  }

  lemma FitsOnce(interval: int, burst: int)
    requires interval > 0 && burst > 0
    ensures interval <= burst * interval
  {
    ProductGrows(1, burst, interval);
  }

  class MemoryStore {
    const hash: string -> nat
    const sweepEvery: int64
    const shards: seq<Shard>
    ghost var table: map<string, int>   // the theoretical arrival time of every key charged

    function Home(key: string): nat
      ensures Home(key) < SHARDS
    {
      hash(key) % SHARDS
    }

    ghost predicate Distinct() {
      |shards| == SHARDS && sweepEvery >= 0 && forall i, j :: 0 <= i < j < SHARDS ==> shards[i] != shards[j]
    }

    ghost predicate Valid()
      reads this, shards
    {
      && Distinct()
      && (forall i :: 0 <= i < SHARDS ==> shards[i].Valid())
      && (forall k :: k in table <==> k in shards[Home(k)].tats)
      && (forall k :: k in table ==> table[k] == shards[Home(k)].tats[k])
    }

    constructor (hash: string -> nat, sweepEvery: int64)
      requires sweepEvery >= 0
      ensures Valid() && table == map[] && this.hash == hash && fresh(shards)
      ensures forall s :: s in shards ==> s.clock == 0
    {
      var made: seq<Shard> := [];
      for i := 0 to SHARDS
        invariant |made| == i
        invariant forall j :: 0 <= j < i ==>
          fresh(made[j]) && made[j].Valid() && made[j].tats == map[] && made[j].clock == 0
        invariant forall j, k :: 0 <= j < k < i ==> made[j] != made[k]
      {
        var s := new Shard();
        made := made + [s];
      }
      this.hash, this.sweepEvery, shards, table := hash, sweepEvery, made, map[];
    }

    /** Charges one request to the key. Sweeping, sharding and every other key are invisible:
        the answer is the one a lone theoretical arrival time per key gives, a refusal
        changes nothing, and no sum wraps. */
    method Take(key: string, l: Limit, now: int64) returns (r: Taken)
      requires Valid() && 0 <= now <= UPTIME && shards[Home(key)].clock <= now as int
      modifies shards, this`table
      ensures Valid()
      ensures var p := ParamsOf(l);
        match p {
          case Refused(why) => r == BadLimit(why) && table == old(table)
          case Params(interval, burst) =>
            && r.Wait?
            && var was := TatOf(old(table), key);
               if Admitted(was, now as int, interval as int, burst as int)
               then r.ns == 0 && table == old(table)[key := TatAfter(was, now as int, interval as int, burst as int)]
               else
                 && r.ns > 0 && r.ns as int == RateLimits.Wait(was, now as int, interval as int, burst as int)
                 && table == old(table)
        }
      ensures forall i :: 0 <= i < SHARDS && i != Home(key) ==> shards[i].clock == old(shards[i].clock)
      ensures shards[Home(key)].clock <= now as int
    {
      match ParamsOf(l)
      case Refused(why) =>
        r := BadLimit(why);
      case Params(interval, burst) =>
        AcceptedLimits(l);
        var shard := shards[Home(key)];
        label locked:
        var wait := shard.Charge(key, interval, burst, now, sweepEvery);
        if wait == 0 {
          table := table[key := TatAfter(TatOf(table, key), now as int, interval as int, burst as int)];
        }
        r := Wait(wait);
        assert forall i :: 0 <= i < SHARDS && i != Home(key) ==> shards[i] != shard;
    }
  }

  // ----- the middleware

  datatype Outcome = PassedOn | TooManyRequests(retryAfter: int) | Failed

  datatype KeyResult = Key(key: string) | KeyError

  /** The rate-limiting handler: one charge; a refusal carries the least whole number of
      seconds after which the key is admitted again. */
  method Limited(store: MemoryStore, key: KeyResult, l: Limit, now: int64) returns (o: Outcome)
    requires store.Valid() && ParamsOf(l).Params? && 0 <= now <= UPTIME
    requires key.Key? ==> store.shards[store.Home(key.key)].clock <= now as int
    modifies store.shards, store`table
    ensures store.Valid()
    ensures key.KeyError? ==> o == Failed && store.table == old(store.table)
    ensures key.Key? ==>
      var was, interval, burst :=
        TatOf(old(store.table), key.key), ParamsOf(l).interval as int, ParamsOf(l).burst as int;
      if Admitted(was, now as int, interval, burst) then
        o == PassedOn && TatOf(store.table, key.key) == TatAfter(was, now as int, interval, burst)
      else
        && o.TooManyRequests? && o.retryAfter >= 1 && store.table == old(store.table)
        && Admitted(was, now as int + o.retryAfter * SECOND as int, interval, burst)
        && (o.retryAfter > 1 ==> !Admitted(was, now as int + (o.retryAfter - 1) * SECOND as int, interval, burst))
  {
    if key.KeyError? {
      return Failed;
    }
    ghost var was := TatOf(store.table, key.key);
    var taken := store.Take(key.key, l, now);
    AcceptedLimits(l);
    if taken.ns > 0 {
      var seconds := RetryAfter(taken.ns);
      ghost var interval, burst := ParamsOf(l).interval as int, ParamsOf(l).burst as int;
      LeastSeconds(taken.ns, seconds - 1);
      WaitIsExact(was, now as int, now as int + seconds * SECOND as int, interval, burst);
      if seconds > 1 {
        WaitIsExact(was, now as int, now as int + (seconds - 1) * SECOND as int, interval, burst);
      }
      return TooManyRequests(seconds);
    }
    o := PassedOn;
  }

  // ----- many keys

  datatype Request = Request(key: string, now: int)

  /** The answers of the table to a run of requests, each key under its own limit. */
  function Replies(tats: map<string, int>, reqs: seq<Request>, interval: string -> int,
                   burst: string -> int): (r: seq<bool>)
    ensures |r| == |reqs|
    decreases |reqs|
  {
    if reqs == [] then []
    else
      var q := reqs[0];
      var tat := TatOf(tats, q.key);
      [Admitted(tat, q.now, interval(q.key), burst(q.key))]
      + Replies(tats[q.key := TatAfter(tat, q.now, interval(q.key), burst(q.key))], reqs[1..], interval, burst)
  }

  function TimesOf(reqs: seq<Request>, key: string): seq<int> {
    if reqs == [] then []
    else (if reqs[0].key == key then [reqs[0].now] else []) + TimesOf(reqs[1..], key)
  }

  function RepliesTo(reqs: seq<Request>, replies: seq<bool>, key: string): seq<bool>
    requires |reqs| == |replies|
  {
    if reqs == [] then []
    else (if reqs[0].key == key then [replies[0]] else []) + RepliesTo(reqs[1..], replies[1..], key)
  }

  /** Each key is answered as if it were alone. */
  lemma {:induction false} KeysAreApart(tats: map<string, int>, reqs: seq<Request>, interval: string -> int,
                                        burst: string -> int, key: string)
    ensures RepliesTo(reqs, Replies(tats, reqs, interval, burst), key)
         == Answers(TatOf(tats, key), TimesOf(reqs, key), interval(key), burst(key))
    decreases |reqs|
  {
    if reqs != [] {
      var q := reqs[0];
      var after := TatAfter(TatOf(tats, q.key), q.now, interval(q.key), burst(q.key));
      KeysAreApart(tats[q.key := after], reqs[1..], interval, burst, key);
      assert TatOf(tats[q.key := after], key) == if q.key == key then after else TatOf(tats, key);
      var replies := Replies(tats, reqs, interval, burst);
      assert replies[1..] == Replies(tats[q.key := after], reqs[1..], interval, burst);
      if q.key == key {
        assert TimesOf(reqs, key)[0] == q.now && TimesOf(reqs, key)[1..] == TimesOf(reqs[1..], key);
      } else {
        assert TimesOf(reqs, key) == TimesOf(reqs[1..], key);
        assert RepliesTo(reqs, replies, key) == RepliesTo(reqs[1..], replies[1..], key);
      }
    }
  }

  /** The store is one token bucket per key: a new store answers each key as a full bucket
      of that key's limit does. */
  lemma StoreIsTokenBuckets(reqs: seq<Request>, interval: string -> int, burst: string -> int, key: string, start: int)
    requires interval(key) > 0 && burst(key) > 0 && Ordered(TimesOf(reqs, key))
    requires 0 <= start && (TimesOf(reqs, key) != [] ==> start <= TimesOf(reqs, key)[0])
    ensures RepliesTo(reqs, Replies(map[], reqs, interval, burst), key)
         == Draws(Bucket(burst(key) * interval(key), start), TimesOf(reqs, key), burst(key) * interval(key),
                  interval(key))
  {
    KeysAreApart(map[], reqs, interval, burst, key);
    RunIsTokenBucket(0, Bucket(burst(key) * interval(key), start), TimesOf(reqs, key), interval(key), burst(key));
  }

  // ----- a run of Takes

  /** From request n on, readings of the clock do not go back on any shard: neither behind what
      its Takes have used, nor from one request of the run to a later one. */
  ghost predicate InLockOrder(store: MemoryStore, reqs: seq<Request>, n: nat)
    reads store, store.shards
    requires store.Distinct()
  {
    && (forall i :: n <= i < |reqs| ==> store.shards[store.Home(reqs[i].key)].clock <= reqs[i].now)
    && (forall i, j :: n <= i < j < |reqs| && store.Home(reqs[i].key) == store.Home(reqs[j].key) ==>
          reqs[i].now <= reqs[j].now)
  }

  /** The interval and the burst of each key's limit. */
  function Intervals(limit: string -> Limit): string -> int {
    key => if ParamsOf(limit(key)).Params? then ParamsOf(limit(key)).interval as int else 1
  }

  function Bursts(limit: string -> Limit): string -> int {
    key => if ParamsOf(limit(key)).Params? then ParamsOf(limit(key)).burst as int else 1
  }

  /** Requests to the store one after another, whatever their keys and shards, are answered as
      the table says; so a new store answers each key as a full token bucket of its limit. */
  method TakeAll(store: MemoryStore, reqs: seq<Request>, limit: string -> Limit) returns (admitted: seq<bool>)
    requires store.Valid() && InLockOrder(store, reqs, 0)
    requires forall q :: q in reqs ==> 0 <= q.now <= UPTIME as int && ParamsOf(limit(q.key)).Params?
    modifies store.shards, store`table
    ensures store.Valid()
    ensures admitted == Replies(old(store.table), reqs, Intervals(limit), Bursts(limit))
    ensures old(store.table) == map[] ==>
      forall q :: q in reqs ==> BucketAnswers(reqs, admitted, q.key, Intervals(limit)(q.key), Bursts(limit)(q.key))
  {
    hide Replies;
    admitted := [];
    assert reqs[0..] == reqs;
    assert [] + Replies(store.table, reqs, Intervals(limit), Bursts(limit))
        == Replies(store.table, reqs, Intervals(limit), Bursts(limit));
    for n := 0 to |reqs|
      invariant store.Valid() && InLockOrder(store, reqs, n)
      invariant admitted + Replies(store.table, reqs[n..], Intervals(limit), Bursts(limit))
             == Replies(old(store.table), reqs, Intervals(limit), Bursts(limit))
    {
      var yes := TakeNext(store, reqs, n, limit);
      ghost var left := Replies(store.table, reqs[n + 1..], Intervals(limit), Bursts(limit));
      assert admitted + ([yes] + left) == admitted + [yes] + left;
      admitted := admitted + [yes];
    }
    NoReplies(store.table, reqs[|reqs|..], Intervals(limit), Bursts(limit));
    if old(store.table) == map[] {
      AllBuckets(reqs, limit);
    }
  }

  /** Request n. */
  method TakeNext(store: MemoryStore, reqs: seq<Request>, n: nat, limit: string -> Limit) returns (admitted: bool)
    requires store.Valid() && n < |reqs| && InLockOrder(store, reqs, n)
    requires 0 <= reqs[n].now <= UPTIME as int && ParamsOf(limit(reqs[n].key)).Params?
    modifies store.shards, store`table
    ensures store.Valid() && InLockOrder(store, reqs, n + 1)
    ensures Replies(old(store.table), reqs[n..], Intervals(limit), Bursts(limit))
         == [admitted] + Replies(store.table, reqs[n + 1..], Intervals(limit), Bursts(limit))
  {
    hide Replies, Admitted, TatAfter;
    var q := reqs[n];
    var taken := store.Take(q.key, limit(q.key), q.now as int64);
    assert reqs[n..][0] == q && reqs[n..][1..] == reqs[n + 1..];
    RefusedStays(TatOf(old(store.table), q.key), q.now, Intervals(limit)(q.key), Bursts(limit)(q.key));
    OneReply(old(store.table), store.table, reqs[n..], Intervals(limit), Bursts(limit));
    admitted := taken == Wait(0);
  }

  lemma RefusedStays(tat: int, now: int, interval: int, burst: int)
    ensures !Admitted(tat, now, interval, burst) ==> TatAfter(tat, now, interval, burst) == tat
  {
  }

  lemma AllBuckets(reqs: seq<Request>, limit: string -> Limit)
    requires forall i, j :: 0 <= i < j < |reqs| && reqs[i].key == reqs[j].key ==> reqs[i].now <= reqs[j].now
    requires forall q :: q in reqs ==> 0 <= q.now && ParamsOf(limit(q.key)).Params?
    ensures var admitted := Replies(map[], reqs, Intervals(limit), Bursts(limit));
      forall q :: q in reqs ==> BucketAnswers(reqs, admitted, q.key, Intervals(limit)(q.key), Bursts(limit)(q.key))
  {
    forall q | q in reqs
      ensures BucketAnswers(reqs, Replies(map[], reqs, Intervals(limit), Bursts(limit)), q.key,
                            Intervals(limit)(q.key), Bursts(limit)(q.key))
    {
      OneBucket(reqs, limit, q.key);
    }
  }

  lemma OneBucket(reqs: seq<Request>, limit: string -> Limit, key: string)
    requires forall i, j :: 0 <= i < j < |reqs| && reqs[i].key == reqs[j].key ==> reqs[i].now <= reqs[j].now
    requires forall q :: q in reqs ==> 0 <= q.now
    requires ParamsOf(limit(key)).Params?
    ensures BucketAnswers(reqs, Replies(map[], reqs, Intervals(limit), Bursts(limit)), key,
                          Intervals(limit)(key), Bursts(limit)(key))
  {
    hide Ordered, Replies;
    KeyInOrder(reqs, key);
    AcceptedLimits(limit(key));
    var times := TimesOf(reqs, key);
    assert times != [] ==> times[0] in times;
    StoreIsTokenBuckets(reqs, Intervals(limit), Bursts(limit), key, 0);
  }

  /** The key's requests were answered as a bucket that was full at the start answers them. */
  predicate BucketAnswers(reqs: seq<Request>, admitted: seq<bool>, key: string, interval: int, burst: int)
  {
    && |admitted| == |reqs|
    && RepliesTo(reqs, admitted, key)
         == Draws(Bucket(burst * interval, 0), TimesOf(reqs, key), burst * interval, interval)
  }

  lemma NoReplies(tats: map<string, int>, reqs: seq<Request>, interval: string -> int, burst: string -> int)
    requires reqs == []
    ensures Replies(tats, reqs, interval, burst) == []
  {
  }

  lemma OneReply(before: map<string, int>, after: map<string, int>, reqs: seq<Request>,
                 interval: string -> int, burst: string -> int)
    requires reqs != []
    requires forall k :: k != reqs[0].key ==> TatOf(after, k) == TatOf(before, k)
    requires var q := reqs[0];
      TatOf(after, q.key) == TatAfter(TatOf(before, q.key), q.now, interval(q.key), burst(q.key))
    ensures Replies(before, reqs, interval, burst) ==
      [Admitted(TatOf(before, reqs[0].key), reqs[0].now, interval(reqs[0].key), burst(reqs[0].key))]
      + Replies(after, reqs[1..], interval, burst)
  {
    var q := reqs[0];
    var told := before[q.key := TatAfter(TatOf(before, q.key), q.now, interval(q.key), burst(q.key))];
    SameReplies(told, after, reqs[1..], interval, burst);
  }

  lemma StillSame(a: map<string, int>, b: map<string, int>, a': map<string, int>, b': map<string, int>,
                  key: string, tat: int)
    requires SameTats(a, b) && a' == a[key := tat] && b' == b[key := tat]
    ensures SameTats(a', b')
  {
    forall k ensures TatOf(a', k) == TatOf(b', k) {
      assert TatOf(a, k) == TatOf(b, k);
    }
  }

  ghost predicate SameTats(a: map<string, int>, b: map<string, int>) {
    forall k :: TatOf(a, k) == TatOf(b, k)
  }

  lemma {:induction false} SameReplies(a: map<string, int>, b: map<string, int>, reqs: seq<Request>,
                                       interval: string -> int, burst: string -> int)
    requires SameTats(a, b)
    ensures Replies(a, reqs, interval, burst) == Replies(b, reqs, interval, burst)
    decreases |reqs|
  {
    if reqs != [] {
      var q := reqs[0];
      var tat := TatAfter(TatOf(a, q.key), q.now, interval(q.key), burst(q.key));
      StillSame(a, b, a[q.key := tat], b[q.key := tat], q.key, tat);
      SameReplies(a[q.key := tat], b[q.key := tat], reqs[1..], interval, burst);
    }
  }

  lemma {:induction false} KeyInOrder(reqs: seq<Request>, key: string)
    requires forall i, j :: 0 <= i < j < |reqs| && reqs[i].key == reqs[j].key ==> reqs[i].now <= reqs[j].now
    requires forall q :: q in reqs ==> 0 <= q.now
    ensures Ordered(TimesOf(reqs, key))
    ensures forall t :: t in TimesOf(reqs, key) ==> 0 <= t && exists q :: q in reqs && q.key == key && q.now == t
  {
    if reqs != [] {
      var rest := reqs[1..];
      KeyInOrder(rest, key);
      forall t | t in TimesOf(reqs, key)
        ensures 0 <= t && exists q :: q in reqs && q.key == key && q.now == t
      {
        if t in TimesOf(rest, key) {
          var q :| q in rest && q.key == key && q.now == t;
          assert q in reqs;
        } else {
          assert reqs[0] in reqs;
        }
      }
      if reqs[0].key == key {
        forall t | t in TimesOf(rest, key) ensures reqs[0].now <= t {
          var q :| q in rest && q.key == key && q.now == t;
          var i :| 0 <= i < |rest| && rest[i] == q;
          assert reqs[i + 1] == q;
        }
        FirstIsLeast(reqs[0].now, TimesOf(rest, key));
      } else {
        assert TimesOf(reqs, key) == TimesOf(rest, key);
      }
    }
  }

  lemma FirstIsLeast(t: int, times: seq<int>)
    requires Ordered(times) && forall u :: u in times ==> t <= u
    ensures Ordered([t] + times)
  {
    forall i, j | 0 <= i <= j < |times| + 1 ensures ([t] + times)[i] <= ([t] + times)[j] {
      if i == 0 && j > 0 {
        assert times[j - 1] in times;
      }
    }
  }
}
