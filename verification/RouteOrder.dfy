/** The order in which routes are registered does not matter. */
module RouteOrder {
  import opened Routes

  /** Registering the patterns one after another, each is accepted. */
  ghost predicate AcceptedInOrder(ps: seq<Pattern>) {
    forall i :: 0 <= i < |ps| ==> Compatible(Before(ps, i), ps[i])
  }

  ghost function Before(ps: seq<Pattern>, i: nat): set<Pattern>
    requires i <= |ps|
  {
    set p | p in ps[..i]
  }

  /** No pattern twice, and no two that clash: a property of the patterns without order. */
  ghost predicate AcceptedAsSet(ps: multiset<Pattern>) {
    && (forall p :: p in ps ==> ps[p] == 1)
    && (forall p, q :: p in ps && q in ps ==> !Conflict(p, q))
  }

  lemma ConflictIsMutual(p: Pattern, q: Pattern)
    ensures Conflict(p, q) <==> Conflict(q, p)
  {
    forall i: nat | DivergeAt(p, q, i) ensures DivergeAt(q, p, i) {}
    forall i: nat | DivergeAt(q, p, i) ensures DivergeAt(p, q, i) {}
  }

  lemma NoConflictWithSelf(p: Pattern)
    ensures !Conflict(p, p)
  {
  }

  lemma AcceptedShort(ps: seq<Pattern>)
    requires ps != []
    ensures var front := ps[..|ps| - 1];
      AcceptedInOrder(ps) <==> AcceptedInOrder(front) && Compatible(Before(ps, |ps| - 1), ps[|ps| - 1])
  {
    var n := |ps| - 1;
    var front := ps[..n];
    forall i | 0 <= i < n ensures Before(front, i) == Before(ps, i) && front[i] == ps[i] {
      assert front[..i] == ps[..i];
    }
    if AcceptedInOrder(front) && Compatible(Before(ps, n), ps[n]) {
      forall i | 0 <= i < |ps| ensures Compatible(Before(ps, i), ps[i]) {
        if i < n {
          assert Compatible(Before(front, i), front[i]);
        }
      }
    }
    if AcceptedInOrder(ps) {
      forall i | 0 <= i < n ensures Compatible(Before(front, i), front[i]) {
        assert Compatible(Before(ps, i), ps[i]);
      }
    }
  }

  /** Whether a list is accepted does not depend on its order. */
  lemma {:induction false} OrderFree(ps: seq<Pattern>)
    ensures AcceptedInOrder(ps) <==> AcceptedAsSet(multiset(ps))
  {
    if ps != [] {
      var n := |ps| - 1;
      var front, last := ps[..n], ps[n];
      assert ps == front + [last];
      OrderFree(front);
      AcceptedShort(ps);
      AddOne(front, last);
      assert Before(ps, n) == set p | p in front;
    }
  }

  lemma AddOne(front: seq<Pattern>, last: Pattern)
    ensures AcceptedAsSet(multiset(front + [last])) <==>
            AcceptedAsSet(multiset(front)) && Compatible((set p | p in front), last)
  {
    var some, all := multiset(front), multiset(front + [last]);
    var registered := set p | p in front;
    assert all == some + multiset{last};
    assert forall p :: p in some <==> p in registered;
    NoConflictWithSelf(last);
    if AcceptedAsSet(some) && Compatible(registered, last) {
      forall p, q | p in all && q in all ensures !Conflict(p, q) {
        ConflictIsMutual(p, q);
        assert p == last || p in registered;
        assert q == last || q in registered;
      }
    }
    if AcceptedAsSet(all) {
      assert all[last] == 1;
      assert last !in some;
      forall p | p in some ensures some[p] == 1 { assert p in all; }
      forall p, q | p in some && q in some ensures !Conflict(p, q) { assert p in all && q in all; }
      forall q | q in registered ensures !Conflict(q, last) { assert q in all && last in all; }
    }
  }

  /** Two registration orders of the same patterns are both accepted or both rejected. */
  lemma AnyOrder(ps: seq<Pattern>, qs: seq<Pattern>)
    requires multiset(ps) == multiset(qs)
    ensures AcceptedInOrder(ps) <==> AcceptedInOrder(qs)
  {
    OrderFree(ps);
    OrderFree(qs);
  }

  /** What a lookup must answer is decided by the registered patterns alone: two answers
      that are both best, with captures that both spell the path, are the same answer. */
  lemma OneAnswer(registered: set<Pattern>, path: string, p: Pattern, v: seq<string>, q: Pattern, w: seq<string>)
    requires IsBest(registered, path, p) && Matches(p, path, v)
    requires IsBest(registered, path, q) && Matches(q, path, w)
    requires WellFormed(p)
    ensures p == q && v == w && Captured(p, v) == Captured(q, w)
  {
    BestIsUnique(registered, path, p, q);
    MatchIsUnique(p, path, v, w);
  }
}
