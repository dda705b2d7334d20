/** Two trees filled with the same routes in two orders. */
module TreeOrders {
  import opened Options
  import opened Routes
  import opened PatternParser
  import opened CaptureStore
  import opened RadixTree
  import opened RouteOrder

  ghost function PatternOf(path: string): Pattern {
    if Acceptable(path) then Spelt(path) else []
  }

  ghost function PatternsOf<H>(rs: seq<(string, H)>): (ps: seq<Pattern>)
    ensures |ps| == |rs| && forall i :: 0 <= i < |rs| ==> ps[i] == PatternOf(rs[i].0)
  {
    seq(|rs|, i requires 0 <= i < |rs| => PatternOf(rs[i].0))
  }

  ghost predicate AllAcceptable<H>(rs: seq<(string, H)>) {
    forall i :: 0 <= i < |rs| ==> Acceptable(rs[i].0)
  }

  ghost function TableOf<H>(rs: seq<(string, H)>): map<Pattern, H> {
    if rs == [] then map[] else TableOf(rs[..|rs| - 1])[PatternOf(rs[|rs| - 1].0) := rs[|rs| - 1].1]
  }

  /** Registers the routes in a new tree, up to the first that is rejected. */
  method Fill<H>(rs: seq<(string, H)>) returns (t: Tree<H>, ok: bool)
    ensures t.Valid() && fresh(t) && fresh(t.nodes)
    ensures ok <==> AllAcceptable(rs) && AcceptedInOrder(PatternsOf(rs))
    ensures ok ==> t.routes == TableOf(rs)
  {
    hide Tree.Valid, Acceptable, PatternsOf, TableOf, Before, AcceptedUpTo;
    t := new Tree<H>();
    Nothing(rs);
    for n := 0 to |rs|
      invariant t.Valid() && fresh(t) && fresh(t.nodes)
      invariant t.routes == TableOf(rs[..n]) && t.routes.Keys == Before(PatternsOf(rs), n)
      invariant AcceptedUpTo(rs, n)
    {
      OneMore(rs, n);
      var accepted := Next(t, rs[n]);
      if !accepted {
        Rejected(rs, n);
        return t, false;
      }
    }
    AllOfThem(rs);
    ok := true;
  }

  ghost predicate AcceptedUpTo<H>(rs: seq<(string, H)>, n: nat)
    requires n <= |rs|
  {
    forall i :: 0 <= i < n ==> Acceptable(rs[i].0) && Compatible(Before(PatternsOf(rs), i), PatternOf(rs[i].0))
  }

  lemma Nothing<H>(rs: seq<(string, H)>)
    ensures TableOf(rs[..0]) == map[] && Before(PatternsOf(rs), 0) == {} && AcceptedUpTo(rs, 0)
  {
  }

  lemma OneMore<H>(rs: seq<(string, H)>, n: nat)
    requires n < |rs|
    ensures TableOf(rs[..n + 1]) == TableOf(rs[..n])[PatternOf(rs[n].0) := rs[n].1]
    ensures Before(PatternsOf(rs), n + 1) == Before(PatternsOf(rs), n) + {PatternOf(rs[n].0)}
    ensures AcceptedUpTo(rs, n) && Acceptable(rs[n].0) && Compatible(Before(PatternsOf(rs), n), PatternOf(rs[n].0)) ==>
      AcceptedUpTo(rs, n + 1)
  {
    hide PatternOf, Acceptable, Compatible, Before, PatternsOf;
    var more := rs[..n + 1];
    assert more[..n] == rs[..n] && |more| == n + 1 && more[n] == rs[n];
    NextBefore(PatternsOf(rs), n);
    OneMoreAccepted(rs, n);
  }

  lemma OneMoreAccepted<H>(rs: seq<(string, H)>, n: nat)
    requires n < |rs|
    ensures AcceptedUpTo(rs, n) && Acceptable(rs[n].0) && Compatible(Before(PatternsOf(rs), n), PatternOf(rs[n].0)) ==>
      AcceptedUpTo(rs, n + 1)
  {
    hide PatternOf, Acceptable, Compatible, Before, PatternsOf;
  }

  lemma Rejected<H>(rs: seq<(string, H)>, n: nat)
    requires n < |rs| && !(Acceptable(rs[n].0) && Compatible(Before(PatternsOf(rs), n), PatternOf(rs[n].0)))
    ensures !(AllAcceptable(rs) && AcceptedInOrder(PatternsOf(rs)))
  {
  }

  lemma AllOfThem<H>(rs: seq<(string, H)>)
    ensures AcceptedUpTo(rs, |rs|) <==> AllAcceptable(rs) && AcceptedInOrder(PatternsOf(rs))
    ensures rs[..|rs|] == rs
  {
  }

  method Next<H>(t: Tree<H>, r: (string, H)) returns (ok: bool)
    requires t.Valid()
    modifies t, t.nodes
    ensures t.Valid() && old(t.nodes) <= t.nodes && fresh(t.nodes - old(t.nodes))
    ensures ok <==> Acceptable(r.0) && Compatible(old(t.routes.Keys), PatternOf(r.0))
    ensures t.routes == if ok then old(t.routes)[PatternOf(r.0) := r.1] else old(t.routes)
  {
    hide Tree.Valid, Acceptable, Spelt, Clashes, Markers;
    var result := t.Insert(r.0, r.1);
    ok := result.Inserted?;
  }

  lemma NextBefore(ps: seq<Pattern>, n: nat)
    requires n < |ps|
    ensures Before(ps, n + 1) == Before(ps, n) + {ps[n]}
  {
    assert ps[..n + 1] == ps[..n] + [ps[n]];
  }

  /** Whatever the order, both trees are filled or both registrations are rejected, and the
      trees hold the same routes. */
  method FillBoth<H(==)>(rs: seq<(string, H)>, qs: seq<(string, H)>)
      returns (t: Tree<H>, u: Tree<H>, ok: bool, same: bool)
    requires multiset(rs) == multiset(qs)
    ensures t.Valid() && u.Valid() && t != u && fresh(t) && fresh(u) && fresh(t.nodes) && fresh(u.nodes)
    ensures same == ok
    ensures ok ==> t.routes == u.routes
  {
    hide Tree.Valid, Acceptable, Spelt, Clashes, AcceptedInOrder;
    t, ok := Fill(rs);
    u, same := Fill(qs);
    SamePatterns(rs, qs);
    AnyOrder(PatternsOf(rs), PatternsOf(qs));
    if AllAcceptable(rs) {
      SameAcceptable(rs, qs);
    } else if AllAcceptable(qs) {
      SameAcceptable(qs, rs);
    }
    if ok {
      SameTables(rs, qs);
    }
  }

  /** Trees that hold the same routes answer every path alike: the same handler and the same
      captures, or nothing and none. */
  method LookupBoth<H>(t: Tree<H>, u: Tree<H>, path: string, a: Params, b: Params)
      returns (h: Option<H>, k: Option<H>)
    requires t.Valid() && u.Valid() && t.routes == u.routes
    requires a.Valid() && b.Valid() && a != b && a.slots != b.slots && a.Contents() == b.Contents()
    modifies a, a.slots, b, b.slots
    ensures a.Valid() && b.Valid() && h == k && a.Contents() == b.Contents()
  {
    hide Tree.Valid, IsBest, Matches, Matchable, Captured, WellFormed;
    ghost var p, v, q, w;
    RoutesSound(t);
    h, p, v := t.Lookup(path, a);
    k, q, w := u.Lookup(path, b);
    if h.Some? {
      BestMatches(t.routes.Keys, path, p);
    }
    if k.Some? {
      BestMatches(u.routes.Keys, path, q);
      OneAnswer(t.routes.Keys, path, p, v, q, w);
    }
  }

  lemma RoutesSound<H>(t: Tree<H>)
    requires t.Valid()
    ensures forall p :: p in t.routes ==> WellFormed(p)
  {
  }

  lemma BestMatches(registered: set<Pattern>, path: string, p: Pattern)
    requires IsBest(registered, path, p)
    ensures p in registered && Matchable(p, path)
  {
  }

  // ----- the same routes in another order

  /** qs without its element j. */
  function Without<T>(qs: seq<T>, j: nat): seq<T>
    requires j < |qs|
  {
    qs[..j] + qs[j + 1..]
  }

  lemma {:induction false} SamePatterns<H>(rs: seq<(string, H)>, qs: seq<(string, H)>)
    requires multiset(rs) == multiset(qs)
    ensures multiset(PatternsOf(rs)) == multiset(PatternsOf(qs))
  {
    if rs == [] {
      assert |multiset(qs)| == 0;
      assert qs == [];
    } else {
      hide PatternsOf;
      var n := |rs| - 1;
      var r := rs[n];
      assert r in multiset(rs) && r in multiset(qs);
      var j :| 0 <= j < |qs| && qs[j] == r;
      Removed(rs, n);
      Removed(qs, j);
      assert Without(rs, n) == rs[..n];
      assert multiset(rs[..n]) == multiset(rs) - multiset{r} == multiset(Without(qs, j));
      SamePatterns(rs[..n], Without(qs, j));
    }
  }

  /** Taking out one route takes out its pattern. */
  lemma Removed<H>(rs: seq<(string, H)>, j: nat)
    requires j < |rs|
    ensures multiset(rs) == multiset(Without(rs, j)) + multiset{rs[j]}
    ensures multiset(PatternsOf(rs)) == multiset(PatternsOf(Without(rs, j))) + multiset{PatternOf(rs[j].0)}
  {
    hide PatternOf;
    var a, r, b := rs[..j], rs[j], rs[j + 1..];
    assert rs == a + [r] + b;
    PatternsAppend(a + [r], b);
    PatternsAppend(a, [r]);
    PatternsAppend(a, b);
    assert PatternsOf([r]) == [PatternOf(r.0)];
    hide PatternsOf;
  }

  lemma PatternsAppend<H>(a: seq<(string, H)>, b: seq<(string, H)>)
    ensures PatternsOf(a + b) == PatternsOf(a) + PatternsOf(b)
  {
  }

  lemma SameAcceptable<H>(rs: seq<(string, H)>, qs: seq<(string, H)>)
    requires multiset(rs) == multiset(qs) && AllAcceptable(rs)
    ensures AllAcceptable(qs)
  {
    forall i | 0 <= i < |qs| ensures Acceptable(qs[i].0) {
      assert qs[i] in multiset(qs);
      assert qs[i] in multiset(rs);
      var j :| 0 <= j < |rs| && rs[j] == qs[i];
    }
  }

  /** A table of distinct patterns holds each route. */
  lemma {:induction false} Holds<H>(rs: seq<(string, H)>, i: nat)
    requires AcceptedInOrder(PatternsOf(rs)) && i < |rs|
    ensures PatternOf(rs[i].0) in TableOf(rs) && TableOf(rs)[PatternOf(rs[i].0)] == rs[i].1
  {
    hide PatternOf, AcceptedInOrder;
    var n := |rs| - 1;
    if i < n {
      AcceptedShort(PatternsOf(rs));
      assert PatternsOf(rs)[..n] == PatternsOf(rs[..n]);
      Holds(rs[..n], i);
      Earlier(PatternsOf(rs), i, n);
    }
  }

  lemma Earlier(ps: seq<Pattern>, i: nat, n: nat)
    requires i < n < |ps| && Compatible(Before(ps, n), ps[n])
    ensures ps[i] != ps[n]
  {
    assert ps[..n][i] == ps[i];
  }

  lemma {:induction false} HoldsOnly<H>(rs: seq<(string, H)>, p: Pattern) returns (i: nat)
    requires p in TableOf(rs)
    ensures i < |rs| && PatternOf(rs[i].0) == p
  {
    var n := |rs| - 1;
    if PatternOf(rs[n].0) == p {
      i := n;
    } else {
      i := HoldsOnly(rs[..n], p);
    }
  }

  lemma SameTables<H>(rs: seq<(string, H)>, qs: seq<(string, H)>)
    requires multiset(rs) == multiset(qs)
    requires AcceptedInOrder(PatternsOf(rs)) && AcceptedInOrder(PatternsOf(qs))
    ensures TableOf(rs) == TableOf(qs)
  {
    forall p | p in TableOf(rs) ensures p in TableOf(qs) && TableOf(qs)[p] == TableOf(rs)[p] {
      HeldBoth(rs, qs, p);
    }
    forall p | p in TableOf(qs) ensures p in TableOf(rs) {
      HeldBoth(qs, rs, p);
    }
  }

  lemma HeldBoth<H>(rs: seq<(string, H)>, qs: seq<(string, H)>, p: Pattern)
    requires multiset(rs) == multiset(qs) && p in TableOf(rs)
    requires AcceptedInOrder(PatternsOf(rs)) && AcceptedInOrder(PatternsOf(qs))
    ensures p in TableOf(qs) && TableOf(qs)[p] == TableOf(rs)[p]
  {
    hide AcceptedInOrder, TableOf;
    var i := HoldsOnly(rs, p);
    Holds(rs, i);
    assert rs[i] in multiset(rs);
    assert rs[i] in multiset(qs);
    var j :| 0 <= j < |qs| && qs[j] == rs[i];
    Holds(qs, j);
  }
}
