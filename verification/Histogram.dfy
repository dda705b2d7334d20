/** The log-linear histogram: exact below 16ns, 16 buckets per power of two above. */
module Histograms {
  const BUCKETS: nat := 1024

  const UINT64: nat := 0x1_0000_0000_0000_0000

  function Pow2(n: nat): nat {
    if n == 0 then 1 else 2 * Pow2(n - 1)
  }

  /** bits.Len64. */
  function Len(n: nat): nat {
    if n == 0 then 0 else Len(n / 2) + 1
  }

  lemma {:induction false} LenBounds(n: nat)
    requires n > 0
    ensures Len(n) > 0 && Pow2(Len(n) - 1) <= n < Pow2(Len(n))
  {
    if n > 1 {
      LenBounds(n / 2);
    }
  }

  lemma {:induction false} Pow2Grows(a: nat, b: nat)
    requires a <= b
    ensures 0 < Pow2(a) <= Pow2(b)
  {
    if a < b {
      Pow2Grows(a, b - 1);
    } else if a > 0 {
      Pow2Grows(a - 1, b - 1);
    }
  }

  // ----- buckets

  function BucketOf(ns: nat): nat {
    if ns < 16 then ns
    else
      var e := Len(ns) - 1;
      FourBits(ns);
      (e - 3) * 16 + (ns / Scale(e)) % 16
  }

  /** The width of a bucket of values with e + 1 bits. */
  function Scale(e: nat): nat
    requires e >= 4
    ensures Scale(e) > 0
  {
    Pow2Grows(0, e - 4);
    Pow2(e - 4)
  }

  lemma FourBits(ns: nat)
    requires ns >= 16
    ensures Len(ns) >= 5
  {
    LenBounds(ns);
    assert Pow2(4) == 16;
    if Len(ns) < 5 {
      Pow2Grows(Len(ns), 4);
    }
  }

  /** The lower bound of a bucket, on unbounded integers. */
  function Bound(i: nat): nat {
    if i < 16 then i else (16 + i % 16) * Scale(i / 16 + 3)
  }

  /** The same as the code computes it, in 64 bits. */
  function LowerBound(i: nat): nat { Bound(i) % UINT64 }

  lemma BoundsGrow(i: nat)
    ensures Bound(i) < Bound(i + 1)
    ensures i >= 16 ==> Bound(i + 1) == Bound(i) + Scale(i / 16 + 3)
  {
    if i >= 16 {
      var e, sub := i / 16 + 3, i % 16;
      var p := Scale(e);
      if sub < 15 {
        assert (i + 1) / 16 == i / 16 && (i + 1) % 16 == sub + 1;
        assert (16 + (sub + 1)) * p == (16 + sub) * p + p;
      } else {
        assert (i + 1) / 16 == i / 16 + 1 && (i + 1) % 16 == 0;
        assert Scale(e + 1) == 2 * p;
        assert (16 + sub) * p == 31 * p;
      }
    } else if i == 15 {
      assert Bound(16) == 16 * Pow2(0);
    }
  }

  lemma {:induction false} BoundsAreOrdered(i: nat, j: nat)
    requires i < j
    ensures Bound(i) < Bound(j)
  {
    BoundsGrow(j - 1);
    if i < j - 1 {
      BoundsAreOrdered(i, j - 1);
    }
  }

  /** Every value lies in its bucket, and within a sixteenth of the bucket's bound. */
  lemma BucketBrackets(v: nat)
    ensures Bound(BucketOf(v)) <= v < Bound(BucketOf(v) + 1)
    ensures 16 * (v - Bound(BucketOf(v))) <= v
  {
    BoundsGrow(BucketOf(v));
    if v >= 16 {
      FourBits(v);
      LenBounds(v);
      var e := Len(v) - 1;
      var p := Scale(e);
      assert Pow2(e) == 16 * p by {
        assert Pow2(e) == 2 * Pow2(e - 1) && Pow2(e - 1) == 2 * Pow2(e - 2) && Pow2(e - 2) == 2 * Pow2(e - 3);
      }
      InBucket(v, p);
      var sub := (v / p) % 16;
      assert BucketOf(v) / 16 + 3 == e && BucketOf(v) % 16 == sub;
    }
  }

  lemma InBucket(v: nat, p: nat)
    requires p > 0 && 16 * p <= v < 32 * p
    ensures (16 + (v / p) % 16) * p <= v < (16 + (v / p) % 16) * p + p
  {
    var q := v / p;
    Quotient(v, p);
    if q < 16 {
      Product(q, 15, p);
    } else if q >= 32 {
      Product(32, q, p);
    }
    assert q % 16 == q - 16;
  }

  lemma Quotient(v: nat, p: nat)
    requires p > 0
    ensures (v / p) * p <= v < (v / p) * p + p
  {
    assert v == p * (v / p) + v % p;
  }

  lemma Product(a: nat, b: nat, p: nat)
    requires a <= b
    ensures a * p <= b * p
  {
  }

  /** A value belongs to the one bucket whose bounds are around it; so the bounds are the
      smallest values of their buckets, and buckets follow the values' order. */
  lemma BucketIsUnique(v: nat, i: nat)
    ensures BucketOf(v) == i <==> Bound(i) <= v < Bound(i + 1)
  {
    BucketBrackets(v);
    var b := BucketOf(v);
    if i < b {
      if i + 1 < b {
        BoundsAreOrdered(i + 1, b);
      }
    } else if b < i {
      if b + 1 < i {
        BoundsAreOrdered(b + 1, i);
      }
    }
  }

  lemma BucketsAreOrdered(v: nat, w: nat)
    requires v <= w
    ensures BucketOf(v) <= BucketOf(w)
  {
    BucketBrackets(v);
    BucketBrackets(w);
    if BucketOf(w) < BucketOf(v) {
      if BucketOf(w) + 1 < BucketOf(v) {
        BoundsAreOrdered(BucketOf(w) + 1, BucketOf(v));
      }
    }
  }

  /** No 64-bit value needs more than 976 of the 1024 buckets, and up to there no bound wraps. */
  lemma BucketsSuffice(v: nat)
    requires v < UINT64
    ensures BucketOf(v) < 976 < BUCKETS && LowerBound(BucketOf(v)) == Bound(BucketOf(v))
  {
    hide BucketOf, Bound;
    FewBuckets(v);
    BucketBrackets(v);
    Unwrapped(Bound(BucketOf(v)));
  }

  lemma Unwrapped(u: nat)
    requires u < UINT64
    ensures u % UINT64 == u
  {
  }

  lemma FewBuckets(v: nat)
    requires v < UINT64
    ensures BucketOf(v) < 976
  {
    hide Len, Pow2, Scale;
    if v >= 16 {
      FourBits(v);
      AtMost64(v);
    }
  }

  lemma AtMost64(v: nat)
    requires 0 < v < UINT64
    ensures Len(v) <= 64
  {
    hide Len, Pow2;
    LenBounds(v);
    Pow2Of64();
    if Len(v) > 64 {
      Pow2Grows(64, Len(v) - 1);
    }
  }

  lemma Pow2Of64()
    ensures Pow2(64) == UINT64
  {
    Pow2Adds(8, 8);
    Pow2Adds(16, 16);
    Pow2Adds(32, 32);
    assert Pow2(8) == 256;
  }

  lemma {:induction false} Pow2Adds(a: nat, b: nat)
    ensures Pow2(a + b) == Pow2(a) * Pow2(b)
  {
    if b > 0 {
      Pow2Adds(a, b - 1);
      assert Pow2(a) * (2 * Pow2(b - 1)) == 2 * (Pow2(a) * Pow2(b - 1));
    }
  }

  // ----- ranks

  /** How many of the values are below x. */
  function Below(values: seq<nat>, x: nat): nat {
    if values == [] then 0
    else Below(values[..|values| - 1], x) + if values[|values| - 1] < x then 1 else 0
  }

  /** v is the target-th smallest of the values. */
  predicate IsRanked(values: seq<nat>, target: nat, v: nat) {
    Below(values, v) < target <= Below(values, v + 1)
  }

  lemma {:induction false} BelowGrows(values: seq<nat>, x: nat, y: nat)
    requires x <= y
    ensures Below(values, x) <= Below(values, y) <= |values|
  {
    if values != [] {
      BelowGrows(values[..|values| - 1], x, y);
    }
  }

  lemma {:induction false} BelowAdds(a: seq<nat>, b: seq<nat>, x: nat)
    ensures Below(a + b, x) == Below(a, x) + Below(b, x)
  {
    if b == [] {
      assert a + b == a;
    } else {
      BelowAdds(a, b[..|b| - 1], x);
      assert (a + b)[..|a + b| - 1] == a + b[..|b| - 1];
    }
  }

  /** Every rank has its value, and only one. */
  lemma RankExists(values: seq<nat>, target: nat) returns (v: nat)
    requires 1 <= target <= |values|
    ensures IsRanked(values, target, v)
    ensures forall w: nat :: IsRanked(values, target, w) ==> w == v
  {
    v := 0;
    NoneBelowZero(values);
    var top := AllBelow(values);
    while Below(values, v + 1) < target
      invariant Below(values, v) < target
      decreases top - v
    {
      if v + 1 >= top {
        BelowGrows(values, top, v + 1);
      }
      v := v + 1;
    }
    forall w: nat | IsRanked(values, target, w) ensures w == v {
      if w < v {
        BelowGrows(values, w + 1, v);
      } else if v < w {
        BelowGrows(values, v + 1, w);
      }
    }
  }

  lemma {:induction false} NoneBelowZero(values: seq<nat>)
    ensures Below(values, 0) == 0
  {
    if values != [] {
      NoneBelowZero(values[..|values| - 1]);
    }
  }

  lemma {:induction false} AllBelow(values: seq<nat>) returns (top: nat)
    ensures Below(values, top) == |values|
  {
    if values == [] {
      top := 0;
    } else {
      var t := AllBelow(values[..|values| - 1]);
      top := t + values[|values| - 1] + 1;
      BelowGrows(values[..|values| - 1], t, top);
    }
  }

  /** How many of the values fall in bucket i. */
  function InBucketCount(values: seq<nat>, i: nat): nat {
    Below(values, Bound(i + 1)) - BelowBound(values, i)
  }

  function BelowBound(values: seq<nat>, i: nat): (n: nat)
    ensures n <= Below(values, Bound(i + 1))
  {
    BoundsGrow(i);
    BelowGrows(values, Bound(i), Bound(i + 1));
    Below(values, Bound(i))
  }

  lemma OneMore(values: seq<nat>, v: nat, i: nat)
    ensures InBucketCount(values + [v], i) == InBucketCount(values, i) + if BucketOf(v) == i then 1 else 0
  {
    assert (values + [v])[..|values|] == values;
    BucketIsUnique(v, i);
    BoundsGrow(i);
  }

  lemma Merged(a: seq<nat>, b: seq<nat>, i: nat)
    ensures InBucketCount(a + b, i) == InBucketCount(a, i) + InBucketCount(b, i)
  {
    BelowAdds(a, b, Bound(i));
    BelowAdds(a, b, Bound(i + 1));
  }

  /** The two's-complement reading of a 64-bit value. */
  function AsInt64(u: nat): int { if u < UINT64 / 2 then u else u - UINT64 }

  class Histogram {
    const counts: array<nat>
    var n: nat
    ghost var values: seq<nat>      // everything recorded

    ghost predicate Valid()
      reads this, counts
    {
      && counts.Length == BUCKETS && n == |values|
      && (forall i :: 0 <= i < BUCKETS ==> counts[i] == InBucketCount(values, i))
      && (forall i :: 0 <= i < |values| ==> values[i] < UINT64 / 2)
    }

    constructor ()
      ensures Valid() && values == [] && fresh(counts)
    {
      counts, n, values := new nat[BUCKETS](_ => 0), 0, [];
    }

    /** Adds one duration; a negative one counts as zero. */
    method Record(d: int)
      requires Valid() && d < UINT64 / 2
      modifies this, counts
      ensures Valid() && values == old(values) + [if d < 0 then 0 else d]
    {
      var ns: nat := if d < 0 then 0 else d;
      BucketsSuffice(ns);
      var b := BucketOf(ns);
      forall i | 0 <= i < BUCKETS
        ensures InBucketCount(values + [ns], i) == InBucketCount(values, i) + if b == i then 1 else 0
      {
        OneMore(values, ns, i);
      }
      counts[b] := counts[b] + 1;
      n := n + 1;
      values := values + [ns];
    }

    /** Adds every count of o, which may be this histogram and is otherwise left as it was. */
    method Merge(o: Histogram)
      requires Valid() && o.Valid() && (o == this || o.counts != counts)
      modifies this, counts
      ensures Valid() && values == old(values) + old(o.values)
      ensures o != this ==> o.Valid() && o.values == old(o.values)
    {
      ghost var before, added := values, o.values;
      for i := 0 to BUCKETS
        invariant values == before && n == |before| && (o == this ==> added == before)
        invariant o != this ==> o.Valid() && o.values == added
        invariant forall j :: 0 <= j < i ==> counts[j] == InBucketCount(before + added, j)
        invariant forall j :: i <= j < BUCKETS ==> counts[j] == InBucketCount(before, j)
      {
        Merged(before, added, i);
        counts[i] := counts[i] + o.counts[i];
      }
      n := n + o.n;
      values := values + added;
    }

    /** The bound reported for a rank, of which the first is also the 0th: the smallest value
        of the bucket that holds the true value of that rank, so at most that value and
        within a sixteenth of it. */
    method Quantile(rank: nat) returns (d: int)
      requires Valid()
      ensures n == 0 ==> d == 0
      ensures forall v: nat :: n > 0 && IsRanked(values, if rank == 0 then 1 else rank, v) ==>
        d == Bound(BucketOf(v)) && d <= v && 16 * (v - d) <= v
      ensures n > 0 && rank > n ==> d == AsInt64(LowerBound(BUCKETS - 1))
    {
      if n == 0 {
        return 0;
      }
      var target := if rank == 0 then 1 else rank;
      var seen := 0;
      NoneBelowZero(values);
      for i := 0 to BUCKETS
        invariant seen == Below(values, Bound(i)) && seen < target
      {
        seen := seen + counts[i];
        if seen >= target {
          forall v: nat | IsRanked(values, target, v)
            ensures BucketOf(v) == i && v < UINT64 / 2
          {
            RankedIn(values, target, v, i);
          }
          Reported(i);
          BelowGrows(values, Bound(i + 1), Bound(i + 1));
          return AsInt64(LowerBound(i));
        }
      }
      AllInBuckets(values);
      NoRankPast(values, target);
      d := AsInt64(LowerBound(BUCKETS - 1));
    }
  }

  /** The value of a rank lies in the first bucket up to which there are that many. */
  lemma RankedIn(values: seq<nat>, target: nat, v: nat, i: nat)
    requires IsRanked(values, target, v) && Below(values, Bound(i)) < target <= Below(values, Bound(i + 1))
    ensures BucketOf(v) == i
    ensures (forall k :: 0 <= k < |values| ==> values[k] < UINT64 / 2) ==> v < UINT64 / 2
  {
    BucketIsUnique(v, i);
    if v < Bound(i) {
      BelowGrows(values, v + 1, Bound(i));
    } else if v >= Bound(i + 1) {
      BelowGrows(values, Bound(i + 1), v);
    }
    if forall k :: 0 <= k < |values| ==> values[k] < UINT64 / 2 {
      AllSmall(values, UINT64 / 2);
      if v >= UINT64 / 2 {
        BelowGrows(values, UINT64 / 2, v);
        BelowGrows(values, v, v + 1);
      }
    }
  }

  lemma NoRankPast(values: seq<nat>, target: nat)
    requires target > |values|
    ensures forall v: nat :: !IsRanked(values, target, v)
  {
    forall v: nat ensures !IsRanked(values, target, v) {
      BelowGrows(values, v + 1, v + 1);
    }
  }

  lemma {:induction false} AllSmall(values: seq<nat>, top: nat)
    requires forall k :: 0 <= k < |values| ==> values[k] < top
    ensures Below(values, top) == |values|
  {
    if values != [] {
      AllSmall(values[..|values| - 1], top);
    }
  }

  lemma Reported(i: nat)
    ensures forall v: nat :: BucketOf(v) == i && v < UINT64 / 2 ==>
      AsInt64(LowerBound(i)) == Bound(i) <= v && 16 * (v - Bound(i)) <= v
  {
    forall v: nat | BucketOf(v) == i && v < UINT64 / 2
      ensures AsInt64(LowerBound(i)) == Bound(i) <= v && 16 * (v - Bound(i)) <= v
    {
      BucketBrackets(v);
      BucketsSuffice(v);
    }
  }

  lemma AllInBuckets(values: seq<nat>)
    requires forall k :: 0 <= k < |values| ==> values[k] < UINT64 / 2
    ensures Below(values, Bound(BUCKETS)) == |values|
  {
    var top := UINT64 / 2;
    BucketsSuffice(top);
    BucketBrackets(top);
    if BucketOf(top) + 1 < BUCKETS {
      BoundsAreOrdered(BucketOf(top) + 1, BUCKETS);
    }
    AllSmall(values, top);
    BelowGrows(values, top, Bound(BUCKETS));
  }
}
