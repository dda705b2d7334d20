/** Why following one static child, then the parameter, then the wildcard finds the best
    route: what the routes below a node are, in terms of the routes below its children. */
module RadixSearch {
  import opened Options
  import opened Routes
  import opened RadixGraph

  /** Below key, s is the best completion that matches path. */
  ghost predicate BestFrom(registered: set<Pattern>, key: Pattern, path: string, s: Pattern) {
    && key + s in registered
    && Matchable(s, path)
    && forall t :: key + t in registered && Matchable(t, path) ==> t == s || Better(s, t)
  }

  /** Below key, no completion matches path. */
  ghost predicate NoneFrom(registered: set<Pattern>, key: Pattern, path: string) {
    forall t :: key + t in registered ==> !Matchable(t, path)
  }

  /** Below key, no completion that starts with a symbol of this rank matches path. */
  ghost predicate NoneOfRank(registered: set<Pattern>, key: Pattern, path: string, rank: nat) {
    forall t :: key + t in registered && t != [] && Rank(t[0]) == rank ==> !Matchable(t, path)
  }

  ghost predicate AllWellFormed(registered: set<Pattern>) {
    forall k :: k in registered ==> WellFormed(k)
  }

  lemma RestOfPattern(key: Pattern, s: Sym, t: Pattern)
    requires WellFormed(key + ([s] + t))
    ensures s.Param? ==> t == [] || t[0] == Byte('/')
    ensures s.Wild? ==> t == []
  {
    var k := key + ([s] + t);
    assert k[|key|] == s;
    if t != [] {
      assert k[|key| + 1] == t[0];
    }
  }

  /** At the end of the path the only route left is the node's own. */
  lemma AtEnd(registered: set<Pattern>, key: Pattern)
    ensures key !in registered ==> NoneFrom(registered, key, "")
    ensures key in registered ==> BestFrom(registered, key, "", []) && Matches([], "", [])
  {
    assert key + [] == key;
    assert Matches([], "", []);
    forall t | Matchable(t, "") ensures t == [] {
      EmptyPath(t);
    }
  }

  /** With every rank ruled out nothing matches. */
  lemma NoneAtAll(registered: set<Pattern>, key: Pattern, path: string)
    requires path != ""
    requires NoneOfRank(registered, key, path, 0)
    requires NoneOfRank(registered, key, path, 1)
    requires NoneOfRank(registered, key, path, 2)
    ensures NoneFrom(registered, key, path)
  {
    forall t | key + t in registered ensures !Matchable(t, path) {
      if t == [] {
        assert !Matchable(t, path) by {
          forall vals ensures !Matches(t, path, vals) {}
        }
      } else {
        assert Rank(t[0]) in {0, 1, 2};
      }
    }
  }

  // ----- static children

  /** A route that goes on from n with a literal byte goes on through a static child. */
  lemma ThroughStatic<H>(g: Graph<H>, root: Node<H>, routes: map<Pattern, H>, n: Node<H>, t: Pattern)
      returns (c: Node<H>, t': Pattern)
    requires Sound(g, root) && Holds(g, routes) && n in g
    requires g[n].key + t in routes && t != [] && t[0].Byte?
    ensures c in g && c in g[n].statics && g[c].prefix != ""
    ensures t == Bytes(g[c].prefix) + t' && g[n].key + t == g[c].key + t'
    ensures t[0].b == g[c].prefix[0]
  {
    var m :| m in g && g[m].key == g[n].key + t && g[m].handler.Some?;
    assert g[m].key[|g[n].key|] == t[0];
    c := StaticTowards(g, root, n, m);
    assert StaticsOk(g, n);
    SplitPrefix(g[n].key, Bytes(g[c].prefix), t);
    t' := t[|g[c].prefix|..];
    assert g[n].key + (Bytes(g[c].prefix) + t') == g[n].key + Bytes(g[c].prefix) + t';
  }

  lemma SplitPrefix(key: Pattern, p: Pattern, t: Pattern)
    requires key + p <= key + t
    ensures p <= t && t == p + t[|p|..]
  {
    assert (key + p)[|key|..] == p && (key + t)[|key|..] == t;
  }

  /** Static children have distinct first bytes: the child with a given one is unique. */
  lemma OneStatic<H>(g: Graph<H>, n: Node<H>, c: Node<H>, c': Node<H>)
    requires n in g && StaticsOk(g, n)
    requires c in g[n].statics && c' in g[n].statics
    requires g[c].prefix[0] == g[c'].prefix[0]
    ensures c == c'
  {
    var i :| 0 <= i < |g[n].statics| && g[n].statics[i] == c;
    var j :| 0 <= j < |g[n].statics| && g[n].statics[j] == c';
  }

  lemma StaticAbsent<H>(g: Graph<H>, root: Node<H>, routes: map<Pattern, H>, n: Node<H>, path: string)
    requires Grown(g, root, routes, routes.Keys) && n in g && path != ""
    requires forall c :: c in g[n].statics && c in g && g[c].prefix != "" ==> g[c].prefix[0] != path[0]
    ensures NoneOfRank(routes.Keys, g[n].key, path, 0)
  {
    forall t: Pattern | g[n].key + t in routes && t != [] && Rank(t[0]) == 0 ensures !Matchable(t, path) {
      var c, _ := ThroughStatic(g, root, routes, n, t);
      assert t == [Byte(t[0].b)] + t[1..];
      ByteStep(t[0].b, t[1..], path);
    }
  }

  lemma StaticNone<H>(g: Graph<H>, root: Node<H>, routes: map<Pattern, H>, n: Node<H>, c: Node<H>, path: string)
    requires Grown(g, root, routes, routes.Keys) && n in g && path != ""
    requires c in g[n].statics && c in g && g[c].prefix != "" && g[c].prefix[0] == path[0]
    requires g[c].prefix <= path ==> NoneFrom(routes.Keys, g[c].key, path[|g[c].prefix|..])
    ensures NoneOfRank(routes.Keys, g[n].key, path, 0)
  {
    assert StaticsOk(g, n);
    forall t: Pattern | g[n].key + t in routes && t != [] && Rank(t[0]) == 0 ensures !Matchable(t, path) {
      var c', t' := ThroughStatic(g, root, routes, n, t);
      BytesStep(g[c'].prefix, t', path);
      if g[c'].prefix <= path {
        OneStatic(g, n, c, c');
        assert g[c].key + t' in routes.Keys;
      }
    }
  }

  lemma StaticBeats<H>(g: Graph<H>, root: Node<H>, routes: map<Pattern, H>, n: Node<H>, c: Node<H>,
                       path: string, s: Pattern, t: Pattern)
    requires Grown(g, root, routes, routes.Keys) && n in g && path != ""
    requires c in g[n].statics && c in g && g[c].prefix != "" && g[c].prefix <= path
    requires BestFrom(routes.Keys, g[c].key, path[|g[c].prefix|..], s)
    requires g[n].key + t in routes && Matchable(t, path)
    ensures t == Bytes(g[c].prefix) + s || Better(Bytes(g[c].prefix) + s, t)
  {
    var head := Bytes(g[c].prefix);
    if t == [] {
      EmptyFill(path);
    } else if t[0].Byte? {
      assert StaticsOk(g, n);
      var c', t' := ThroughStatic(g, root, routes, n, t);
      BytesStep(g[c'].prefix, t', path);
      assert g[c'].prefix[0] == path[0];
      OneStatic(g, n, c, c');
      assert g[c].key + t' in routes.Keys;
      if t' != s {
        BetterUnderPrefix(head, s, t');
      }
    } else {
      BetterAtOnce(head + s, t);
    }
  }

  lemma StaticBest<H>(g: Graph<H>, root: Node<H>, routes: map<Pattern, H>, n: Node<H>, c: Node<H>,
                      path: string, s: Pattern, vals: seq<string>)
    requires Grown(g, root, routes, routes.Keys) && n in g && path != ""
    requires c in g[n].statics && c in g && g[c].prefix != "" && g[c].prefix <= path
    requires BestFrom(routes.Keys, g[c].key, path[|g[c].prefix|..], s)
    requires Matches(s, path[|g[c].prefix|..], vals)
    ensures BestFrom(routes.Keys, g[n].key, path, Bytes(g[c].prefix) + s)
    ensures Matches(Bytes(g[c].prefix) + s, path, vals)
    ensures Captured(Bytes(g[c].prefix) + s, vals) == Captured(s, vals)
    ensures g[n].key + (Bytes(g[c].prefix) + s) == g[c].key + s
  {
    hide Grown, Matchable, Captured, Better;
    GrownStatics(g, root, routes, routes.Keys, n);
    var head := Bytes(g[c].prefix);
    assert g[n].key + (head + s) == g[n].key + head + s == g[c].key + s;
    BytesFill(g[c].prefix, s, path, vals);
    forall t: Pattern | g[n].key + t in routes && Matchable(t, path)
      ensures t == head + s || Better(head + s, t)
    {
      StaticBeats(g, root, routes, n, c, path, s, t);
    }
  }

  lemma EmptyFill(path: string)
    requires Matchable([], path)
    ensures path == ""
  {
  }

  lemma BetterAtOnce(s: Pattern, t: Pattern)
    requires s != [] && t != [] && Rank(s[0]) < Rank(t[0])
    ensures Better(s, t)
  {
    assert s[..0] == t[..0];
    assert DivergeAt(s, t, 0);
  }

  // ----- marker children

  /** A route that goes on from n with a marker goes on through that marker's child. */
  lemma ThroughMarker<H>(g: Graph<H>, root: Node<H>, routes: map<Pattern, H>, n: Node<H>, t: Pattern)
    requires Sound(g, root) && Holds(g, routes) && n in g
    requires g[n].key + t in routes && t != [] && !t[0].Byte?
    ensures t[0].Param? ==>
      var c := g[n].param;
      c != null && c in g && t[0] == Param(g[c].name) && g[n].key + t == g[c].key + t[1..]
    ensures t[0].Wild? ==>
      var c := g[n].wildcard;
      c != null && c in g && t[0] == Wild(g[c].name) && g[n].key + t == g[c].key + t[1..]
  {
    var m :| m in g && g[m].key == g[n].key + t && g[m].handler.Some?;
    assert g[m].key[|g[n].key|] == t[0];
    MarkerTowards(g, root, n, m);
    assert MarkersOk(g, n);
    assert g[n].key + t == g[n].key + [t[0]] + t[1..];
  }

  lemma ParamNone<H>(g: Graph<H>, root: Node<H>, routes: map<Pattern, H>, n: Node<H>, path: string)
    requires Grown(g, root, routes, routes.Keys) && n in g && AllWellFormed(routes.Keys)
    requires g[n].param != null && g[n].param in g && SegLen(path) > 0 ==>
               NoneFrom(routes.Keys, g[g[n].param].key, path[SegLen(path)..])
    ensures NoneOfRank(routes.Keys, g[n].key, path, 1)
  {
    forall t: Pattern | g[n].key + t in routes && t != [] && Rank(t[0]) == 1 ensures !Matchable(t, path) {
      ThroughMarker(g, root, routes, n, t);
      assert t == [t[0]] + t[1..];
      RestOfPattern(g[n].key, t[0], t[1..]);
      ParamStep(t[0].name, t[1..], path);
    }
  }

  lemma ParamBeats<H>(g: Graph<H>, root: Node<H>, routes: map<Pattern, H>, n: Node<H>,
                      path: string, s: Pattern, t: Pattern)
    requires Grown(g, root, routes, routes.Keys) && n in g && AllWellFormed(routes.Keys)
    requires g[n].param != null && g[n].param in g && SegLen(path) > 0
    requires NoneOfRank(routes.Keys, g[n].key, path, 0)
    requires BestFrom(routes.Keys, g[g[n].param].key, path[SegLen(path)..], s)
    requires g[n].key + t in routes && Matchable(t, path)
    ensures t == [Param(g[g[n].param].name)] + s || Better([Param(g[g[n].param].name)] + s, t)
  {
    hide Grown, Matchable, Better, BestFrom, AllWellFormed;
    var head := Param(g[g[n].param].name);
    if t == [] {
      EmptyFill(path);
    } else if t[0].Param? {
      ThroughParam(g, root, routes, n, t, path);
      BestOfParam(routes.Keys, g[g[n].param].key, head, path, s, t[1..]);
    } else {
      assert t[0].Wild?;
      BetterAtOnce([head] + s, t);
    }
  }

  lemma ThroughParam<H>(g: Graph<H>, root: Node<H>, routes: map<Pattern, H>, n: Node<H>, t: Pattern, path: string)
    requires Grown(g, root, routes, routes.Keys) && n in g && AllWellFormed(routes.Keys)
    requires g[n].param != null && g[n].param in g
    requires g[n].key + t in routes && t != [] && t[0].Param? && Matchable(t, path)
    ensures t == [Param(g[g[n].param].name)] + t[1..] && g[g[n].param].key + t[1..] in routes
    ensures SegLen(path) > 0 && Matchable(t[1..], path[SegLen(path)..])
  {
    ThroughMarker(g, root, routes, n, t);
    assert t == [t[0]] + t[1..];
    RestOfPattern(g[n].key, t[0], t[1..]);
    ParamStep(t[0].name, t[1..], path);
  }

  lemma BestOfParam(registered: set<Pattern>, key: Pattern, head: Sym, path: string, s: Pattern, t: Pattern)
    requires SegLen(path) <= |path| && BestFrom(registered, key, path[SegLen(path)..], s)
    requires key + t in registered && Matchable(t, path[SegLen(path)..])
    ensures [head] + t == [head] + s || Better([head] + s, [head] + t)
  {
    if t != s {
      BetterUnderPrefix([head], s, t);
    }
  }

  lemma ParamBest<H>(g: Graph<H>, root: Node<H>, routes: map<Pattern, H>, n: Node<H>,
                     path: string, s: Pattern, vals: seq<string>)
    requires Grown(g, root, routes, routes.Keys) && n in g && AllWellFormed(routes.Keys)
    requires g[n].param != null && g[n].param in g && SegLen(path) > 0
    requires NoneOfRank(routes.Keys, g[n].key, path, 0)
    requires BestFrom(routes.Keys, g[g[n].param].key, path[SegLen(path)..], s)
    requires Matches(s, path[SegLen(path)..], vals)
    ensures var name := g[g[n].param].name; var v := path[..SegLen(path)];
      && BestFrom(routes.Keys, g[n].key, path, [Param(name)] + s)
      && Matches([Param(name)] + s, path, [v] + vals)
      && Captured([Param(name)] + s, [v] + vals) == [Capture(name, v)] + Captured(s, vals)
      && g[n].key + ([Param(name)] + s) == g[g[n].param].key + s
  {
    hide Grown, Matches, Matchable, Captured, Better;
    GrownMarkers(g, root, routes, routes.Keys, n);
    var head := Param(g[g[n].param].name);
    ParamFill(head.name, s, path, vals);
    assert g[n].key + ([head] + s) == g[n].key + [head] + s;
    forall t: Pattern | g[n].key + t in routes && Matchable(t, path)
      ensures t == [head] + s || Better([head] + s, t)
    {
      ParamBeats(g, root, routes, n, path, s, t);
    }
  }

  /** A wildcard child without a handler would lead nowhere, so there is none. */
  lemma WildNone<H>(g: Graph<H>, root: Node<H>, routes: map<Pattern, H>, n: Node<H>, path: string)
    requires Grown(g, root, routes, routes.Keys) && n in g
    requires g[n].wildcard != null && g[n].wildcard in g ==> g[g[n].wildcard].handler.None?
    ensures NoneOfRank(routes.Keys, g[n].key, path, 2)
  {
    if g[n].wildcard != null {
      WildcardHolds(g, root, routes, n);
      assert false;
    }
    forall t: Pattern | g[n].key + t in routes && t != [] ensures Rank(t[0]) != 2 {
      if !t[0].Byte? {
        ThroughMarker(g, root, routes, n, t);
      }
    }
  }

  lemma WildBest<H>(g: Graph<H>, root: Node<H>, routes: map<Pattern, H>, n: Node<H>, path: string)
    requires Grown(g, root, routes, routes.Keys) && n in g && AllWellFormed(routes.Keys) && path != ""
    requires g[n].wildcard != null && g[n].wildcard in g && g[g[n].wildcard].handler.Some?
    requires NoneOfRank(routes.Keys, g[n].key, path, 0)
    requires NoneOfRank(routes.Keys, g[n].key, path, 1)
    ensures var s := [Wild(g[g[n].wildcard].name)];
      && BestFrom(routes.Keys, g[n].key, path, s)
      && Matches(s, path, [path])
      && Captured(s, [path]) == [Capture(s[0].name, path)]
      && g[n].key + s == g[g[n].wildcard].key
  {
    assert MarkersOk(g, n);
    var s := [Wild(g[g[n].wildcard].name)];
    WildStep(s[0].name, path);
    forall t: Pattern | g[n].key + t in routes && Matchable(t, path) ensures t == s {
      if t == [] {
        EmptyFill(path);
      } else {
        assert Rank(t[0]) == 2;
        ThroughMarker(g, root, routes, n, t);
        assert t == [t[0]] + t[1..];
        RestOfPattern(g[n].key, t[0], t[1..]);
      }
    }
  }

  // ----- how many captures a lookup may still make

  lemma RoomAt<H>(g: Graph<H>, root: Node<H>, routes: map<Pattern, H>, n: Node<H>, most: nat)
    requires Grown(g, root, routes, routes.Keys) && n in g
    requires forall k :: k in routes ==> Markers(k) <= most
    ensures Markers(g[n].key) <= most
  {
    if n != root {
      assert OnTheWay(g[n].key, routes.Keys);
      var k :| k in routes.Keys && g[n].key <= k;
      assert k == g[n].key + k[|g[n].key|..];
      MarkersAppend(g[n].key, k[|g[n].key|..]);
    }
  }

  lemma StaticRoom<H>(g: Graph<H>, root: Node<H>, routes: map<Pattern, H>, n: Node<H>, c: Node<H>)
    requires Grown(g, root, routes, routes.Keys) && n in g && c in g[n].statics
    ensures c in g && Markers(g[c].key) == Markers(g[n].key)
  {
    assert StaticsOk(g, n);
    MarkersAppend(g[n].key, Bytes(g[c].prefix));
    BytesHaveNoMarkers(g[c].prefix);
  }

  lemma MarkerRoom<H>(g: Graph<H>, root: Node<H>, routes: map<Pattern, H>, n: Node<H>)
    requires Grown(g, root, routes, routes.Keys) && n in g
    ensures g[n].param != null ==> g[n].param in g && Markers(g[g[n].param].key) == Markers(g[n].key) + 1
    ensures g[n].wildcard != null ==> g[n].wildcard in g && Markers(g[g[n].wildcard].key) == Markers(g[n].key) + 1
  {
    assert MarkersOk(g, n);
    if g[n].param != null {
      MarkersAppend(g[n].key, [Param(g[g[n].param].name)]);
    }
    if g[n].wildcard != null {
      MarkersAppend(g[n].key, [Wild(g[g[n].wildcard].name)]);
    }
  }
}
