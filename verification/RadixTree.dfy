/** The radix tree: insertion that splits nodes in place, and backtracking lookup. */
module RadixTree {
  import opened Options
  import opened Routes
  import opened Segments
  import opened PatternParser
  import opened CaptureStore
  import opened RadixGraph
  import opened RadixSearch
  import opened RadixGrowth

  datatype InsertResult = Inserted | Duplicate | NameClash | BadPattern(error: ParseError)

  /** m is the largest number of markers in any of the patterns, or 0 when there are none. */
  ghost predicate MostMarkers(keys: set<Pattern>, m: nat) {
    && (forall k :: k in keys ==> Markers(k) <= m)
    && (m == 0 || exists k :: k in keys && Markers(k) == m)
  }

  function Max(a: nat, b: nat): nat {
    if a < b then b else a
  }

  /** The length of the longest common prefix. */
  method CommonPrefixLen(a: string, b: string) returns (n: nat)
    ensures n <= |a| && n <= |b| && a[..n] == b[..n]
    ensures n < |a| && n < |b| ==> a[n] != b[n]
  {
    n := 0;
    while n < |a| && n < |b| && a[n] == b[n]
      invariant n <= |a| && n <= |b| && a[..n] == b[..n]
    {
      n := n + 1;
    }
  }

  /** The length of the path segment in front of path. */
  method SegmentLength(path: string) returns (i: nat)
    ensures i == SegLen(path)
  {
    i := 0;
    while i < |path| && path[i] != '/'
      invariant i <= |path| && SegLen(path) == i + SegLen(path[i..])
    {
      assert path[i..][1..] == path[i + 1..];
      i := i + 1;
    }
  }

  class Tree<H> {
    var root: Node?<H>
    var count: nat
    var maxParams: nat
    ghost var nodes: set<Node<H>>
    /** The registered patterns and their handlers: the meaning of the tree. */
    ghost var routes: map<Pattern, H>

    ghost predicate Valid()
      reads this, nodes
    {
      && count == |routes|
      && MostMarkers(routes.Keys, maxParams)
      && AllWellFormed(routes.Keys) && [] !in routes
      && if root == null then nodes == {} && routes == map[]
         else Grown(Snapshot(nodes), root, routes, routes.Keys)
    }

    constructor ()
      ensures Valid() && fresh(nodes) && routes == map[]
    {
      root := null;
      count := 0;
      maxParams := 0;
      nodes := {};
      routes := map[];
    }

    /** The static child of n whose prefix starts with b. */
    method StaticChild(n: Node<H>, b: char) returns (child: Node?<H>)
      requires n in nodes && StaticsOk(Snapshot(nodes), n)
      ensures child != null ==> child in n.statics && child in nodes && child.prefix != "" && child.prefix[0] == b
      ensures child == null ==> forall c :: c in n.statics ==> c in nodes && c.prefix != "" && c.prefix[0] != b
    {
      ghost var g := Snapshot(nodes);
      var i := 0;
      while i < |n.statics|
        invariant 0 <= i <= |n.statics|
        invariant forall j :: 0 <= j < i ==> g[n.statics[j]].prefix[0] != b
      {
        var c := n.statics[i];
        assert c in n.statics;
        if c.prefix[0] == b {
          return c;
        }
        i := i + 1;
      }
      forall c | c in n.statics ensures c in nodes && c.prefix != "" && c.prefix[0] != b {
        var j :| 0 <= j < |n.statics| && n.statics[j] == c;
      }
      return null;
    }

    /** Append a new static leaf spelling text to cur. */
    method AddLeaf(cur: Node<H>, text: string) returns (leaf: Node<H>)
      requires cur in nodes
      modifies this`nodes, cur`statics
      ensures fresh(leaf) && nodes == old(nodes) + {leaf}
      ensures Snapshot(nodes) == WithLeaf(old(Snapshot(nodes)), cur, leaf, text)
    {
      leaf := new Node(text, "", cur.key + Bytes(text));
      cur.statics := cur.statics + [leaf];
      nodes := nodes + {leaf};
    }

    /** Give cur a new parameter or wildcard child. */
    method AddMarker(cur: Node<H>, seg: Segment) returns (child: Node<H>)
      requires cur in nodes && !seg.StaticSeg?
      modifies this`nodes, cur`param, cur`wildcard
      ensures fresh(child) && nodes == old(nodes) + {child}
      ensures Snapshot(nodes) == WithMarker(old(Snapshot(nodes)), cur, child, SymbolsOf(seg)[0])
    {
      child := new Node("", seg.name, cur.key + SymbolsOf(seg));
      if seg.ParamSeg? {
        cur.param := child;
      } else {
        cur.wildcard := child;
      }
      nodes := nodes + {child};
    }

    /** Split child, a static child of n, after the first cp bytes of its prefix. */
    method SplitChild(n: Node<H>, child: Node<H>, cp: nat) returns (ghost tail: Node<H>)
      requires n in nodes && child in nodes && n != child && cp <= |child.prefix|
      modifies this`nodes, child
      ensures fresh(tail) && nodes == old(nodes) + {tail}
      ensures Snapshot(nodes) == WithCut(old(Snapshot(nodes)), n, child, tail, cp)
    {
      hide Bytes, WithCut;
      ghost var g := Snapshot(nodes);
      var rest := new Node<H>.TakeOver(child.prefix[cp..], child);
      child.Behead(cp, rest, n.key + Bytes(child.prefix[..cp]));
      nodes := nodes + {rest};
      tail := rest;
      assert forall m :: m in g && m != child ==> m.View() == g[m];
      CutIs(g, Snapshot(nodes), n, child, rest, cp);
    }

    /** AddLeaf, with the invariant it keeps. */
    method HangLeaf(cur: Node<H>, text: string, ghost keys: set<Pattern>, ghost target: Pattern) returns (leaf: Node<H>)
      requires root != null && Grown(Snapshot(nodes), root, routes, keys)
      requires target in keys && WellFormed(target)
      requires cur in nodes && text != "" && cur.key + Bytes(text) <= target
      requires forall c :: c in cur.statics && c in nodes && c.prefix != "" ==> c.prefix[0] != text[0]
      modifies this`nodes, cur`statics
      ensures Grown(Snapshot(nodes), root, routes, keys)
      ensures fresh(leaf) && nodes == old(nodes) + {leaf}
      ensures leaf.View() == Fields(text, None, [], null, null, "", cur.key + Bytes(text))
    {
      ghost var g := Snapshot(nodes);
      leaf := AddLeaf(cur, text);
      LeafGrows(g, root, routes, keys, cur, leaf, text, target);
      assert leaf.View() == Snapshot(nodes)[leaf];
    }

    /** SplitChild, with the invariant it keeps. */
    method Divide(cur: Node<H>, child: Node<H>, cp: nat, ghost keys: set<Pattern>)
      requires root != null && Grown(Snapshot(nodes), root, routes, keys)
      requires cur in nodes && child in cur.statics && child in nodes && cur != child && 0 < cp < |child.prefix|
      modifies this`nodes, child
      ensures Grown(Snapshot(nodes), root, routes, keys)
      ensures old(nodes) <= nodes && fresh(nodes - old(nodes))
      ensures child.key == cur.key + Bytes(old(child.prefix[..cp]))
      ensures child.handler == None && child.param == null && child.wildcard == null
      ensures forall c :: c in child.statics && c in nodes && c.prefix != "" ==> c.prefix[0] == old(child.prefix[cp])
    {
      ghost var g := Snapshot(nodes);
      ghost var tail := SplitChild(cur, child, cp);
      CutGrows(g, root, routes, keys, cur, child, tail, cp);
      assert child.View() == Snapshot(nodes)[child] && tail.View() == Snapshot(nodes)[tail];
    }

    /** Descend into child as far as it shares rest, splitting it if that is not all of it. */
    method Enter(cur: Node<H>, child: Node<H>, rest: string, ghost keys: set<Pattern>)
        returns (cp: nat, ghost cut: bool)
      requires root != null && Grown(Snapshot(nodes), root, routes, keys)
      requires cur in nodes && child in nodes && child in cur.statics
      requires rest != "" && child.prefix != "" && child.prefix[0] == rest[0]
      modifies this`nodes, child
      ensures Grown(Snapshot(nodes), root, routes, keys)
      ensures old(nodes) <= nodes && fresh(nodes - old(nodes))
      ensures 0 < cp <= |rest| && child.key + Bytes(rest[cp..]) == old(cur.key) + Bytes(rest)
      ensures !cut ==> nodes == old(nodes) && Snapshot(nodes) == old(Snapshot(nodes))
      ensures cut ==> child.handler == None && child.param == null && child.wildcard == null
      ensures cut && cp < |rest| ==>
        forall c :: c in child.statics && c in nodes && c.prefix != "" ==> c.prefix[0] != rest[cp]
    {
      ghost var g := Snapshot(nodes);
      cp := CommonPrefixLen(child.prefix, rest);
      GrownStatics(g, root, routes, keys, cur);
      HeadKey(g, cur, child, rest, cp);
      cut := cp < |child.prefix|;
      if cp < |child.prefix| {
        Divide(cur, child, cp, keys);
      }
    }

    /** Descend into, or create, the static nodes spelling text below n, splitting a node
        that shares only the head of its prefix. */
    method InsertStatic(n: Node<H>, text: string, ghost keys: set<Pattern>, ghost target: Pattern)
        returns (cur: Node<H>, ghost changed: bool)
      requires root != null && Grown(Snapshot(nodes), root, routes, keys)
      requires target in keys && WellFormed(target)
      requires n in nodes && n.key + Bytes(text) <= target
      modifies this`nodes, nodes
      ensures Grown(Snapshot(nodes), root, routes, keys)
      ensures old(nodes) <= nodes && fresh(nodes - old(nodes))
      ensures cur in nodes && cur.key == old(n.key) + Bytes(text)
      ensures !changed ==> nodes == old(nodes) && Snapshot(nodes) == old(Snapshot(nodes))
      ensures changed ==> cur.handler == None && cur.param == null && cur.wildcard == null
    {
      hide Grown;
      ghost var goal := n.key + Bytes(text);
      var rest := text;
      cur, changed := n, false;
      while rest != ""
        invariant Grown(Snapshot(nodes), root, routes, keys)
        invariant old(nodes) <= nodes && fresh(nodes - old(nodes))
        invariant cur in nodes && cur.key + Bytes(rest) == goal
        invariant !changed ==> nodes == old(nodes) && Snapshot(nodes) == old(Snapshot(nodes))
        invariant changed ==> cur.handler == None && cur.param == null && cur.wildcard == null
        invariant changed && rest != "" ==>
          forall c :: c in cur.statics && c in nodes && c.prefix != "" ==> c.prefix[0] != rest[0]
        decreases |rest|
      {
        ghost var g := Snapshot(nodes);
        GrownStatics(g, root, routes, keys, cur);
        var child := StaticChild(cur, rest[0]);
        if child == null {
          var leaf := HangLeaf(cur, rest, keys, target);
          assert leaf.View().key == goal;
          return leaf, true;
        }
        ghost var cut: bool;
        var cp;
        cp, cut := Enter(cur, child, rest, keys);
        changed := changed || cut;
        rest := rest[cp..];
        cur := child;
      }
      assert Bytes(rest) == [];
    }

    /** Follow the marker child of cur, or create it; a marker of that kind under another
        name cannot be followed. */
    method InsertMarker(cur: Node<H>, seg: Segment, ghost keys: set<Pattern>, ghost target: Pattern)
        returns (child: Node?<H>, ghost changed: bool)
      requires root != null && Grown(Snapshot(nodes), root, routes, keys)
      requires keys == routes.Keys + {target} && WellFormed(target)
      requires !seg.StaticSeg? && cur in nodes && cur.key + SymbolsOf(seg) <= target
      modifies this`nodes, cur`param, cur`wildcard
      ensures Grown(Snapshot(nodes), root, routes, keys)
      ensures old(nodes) <= nodes && fresh(nodes - old(nodes))
      ensures child == null ==> !changed && NameTaken(routes.Keys, cur.key, SymbolsOf(seg)[0])
      ensures child == null ==> old(cur.param) != null || old(cur.wildcard) != null
      ensures child != null ==> child in nodes && child.key == cur.key + SymbolsOf(seg)
      ensures !changed ==> nodes == old(nodes) && Snapshot(nodes) == old(Snapshot(nodes))
      ensures changed ==> child != null && Bare(child) && child.statics == []
      ensures !changed ==> old(cur.param) != null || old(cur.wildcard) != null
    {
      hide Grown;
      ghost var g := Snapshot(nodes);
      var existing := if seg.ParamSeg? then cur.param else cur.wildcard;
      if existing == null {
        child := AddMarker(cur, seg);
        MarkerGrows(g, root, routes, keys, cur, child, SymbolsOf(seg)[0], target);
        assert child.View() == Snapshot(nodes)[child];
        return child, true;
      }
      GrownMarkers(g, root, routes, keys, cur);
      if existing.name != seg.name {
        GrownLive(g, root, routes, keys);
        TakenName(g, root, routes, keys, cur, existing, SymbolsOf(seg)[0], target);
        return null, false;
      }
      return existing, false;
    }

    /** One segment of the walk: the node it leads to, or null where a name clashes. */
    method Follow(cur: Node<H>, seg: Segment, ghost keys: set<Pattern>, ghost target: Pattern)
        returns (next: Node?<H>, ghost moved: bool)
      requires root != null && Grown(Snapshot(nodes), root, routes, keys)
      requires keys == routes.Keys + {target} && WellFormed(target)
      requires cur in nodes && cur.key + SymbolsOf(seg) <= target && SymbolsOf(seg) != []
      modifies this`nodes, nodes
      ensures Grown(Snapshot(nodes), root, routes, keys)
      ensures old(nodes) <= nodes && fresh(nodes - old(nodes))
      ensures !moved ==> nodes == old(nodes) && Snapshot(nodes) == old(Snapshot(nodes))
      ensures !moved ==> old(cur.statics) != [] || old(cur.param) != null || old(cur.wildcard) != null
      ensures moved ==> next != null && Bare(next) && (seg.StaticSeg? || next.statics == [])
      ensures !moved && !seg.StaticSeg? ==> old(cur.param) != null || old(cur.wildcard) != null
      ensures next != null ==> next in nodes && next.key == old(cur.key) + SymbolsOf(seg)
      ensures next == null ==> Clashes(routes.Keys, target)
    {
      hide Grown;
      if seg.StaticSeg? {
        ghost var g := Snapshot(nodes);
        next, moved := InsertStatic(cur, seg.text, keys, target);
        if !moved {
          HasChild(g, root, routes, keys, cur, next);
        }
      } else {
        next, moved := InsertMarker(cur, seg, keys, target);
        if next == null {
          Taken(routes.Keys, cur.key, SymbolsOf(seg)[0], target);
        }
      }
    }

    /** The walk over all segments, creating what is missing. */
    method Walk(segs: seq<Segment>, ghost keys: set<Pattern>, ghost target: Pattern)
        returns (cur: Node?<H>, ghost changed: bool)
      requires root != null && Grown(Snapshot(nodes), root, routes, keys)
      requires root in nodes && root.key == [] && Alternates(segs)
      requires target == Symbols(segs) && keys == routes.Keys + {target}
      modifies this`nodes, nodes
      ensures cur != null ==> Grown(Snapshot(nodes), root, routes, keys)
      ensures old(nodes) <= nodes && fresh(nodes - old(nodes))
      ensures cur != null ==> cur in nodes && cur.key == target
      ensures cur == null ==> !changed && Clashes(routes.Keys, target)
      ensures !changed ==> nodes == old(nodes) && Snapshot(nodes) == old(Snapshot(nodes))
      ensures changed ==> cur != null && Bare(cur)
    {
      hide Grown, Alternates, Symbols, SymbolsOf, WellFormed, Clashes;
      AlternatesSpell(segs);
      EmptySymbols();
      assert segs[..|segs|] == segs && segs[..0] == [];
      cur, changed := root, false;
      var i := 0;
      while i < |segs|
        invariant 0 <= i <= |segs|
        invariant Grown(Snapshot(nodes), root, routes, keys)
        invariant old(nodes) <= nodes && fresh(nodes - old(nodes))
        invariant cur != null && cur in nodes && cur.key == Symbols(segs[..i])
        invariant !changed ==> nodes == old(nodes) && Snapshot(nodes) == old(Snapshot(nodes))
        invariant changed ==> Bare(cur)
        invariant changed && i < |segs| && segs[i].StaticSeg? ==> cur.statics == []
      {
        SymbolsPush(segs, i);
        SymbolsGrow(segs, i + 1);
        TakeTurns(segs, i);
        ghost var moved: bool;
        var next;
        next, moved := Follow(cur, segs[i], keys, target);
        if next == null {
          return null, false;
        }
        cur := next;
        changed := changed || moved;
        i := i + 1;
      }
    }

    /** Register h at pattern. A rejected pattern leaves the tree as it was, node for node. */
    method Insert(pattern: string, h: H) returns (r: InsertResult)
      requires Valid()
      modifies this, nodes
      ensures Valid() && old(nodes) <= nodes && fresh(nodes - old(nodes))
      ensures r.BadPattern? <==> !Acceptable(pattern)
      ensures r.BadPattern? ==> Malformed(r.error) == ParseOf(pattern)
      ensures !r.BadPattern? ==> (r.NameClash? <==> Clashes(old(routes.Keys), Spelt(pattern)))
      ensures !r.BadPattern? ==> (r.Duplicate? <==> Spelt(pattern) in old(routes))
      ensures r.Inserted? ==> routes == old(routes)[Spelt(pattern) := h] && count == old(count) + 1
      ensures r.Inserted? ==> maxParams == Max(old(maxParams), Markers(Spelt(pattern)))
      ensures !r.Inserted? ==> root == old(root) && nodes == old(nodes) && routes == old(routes)
      ensures !r.Inserted? ==> count == old(count) && maxParams == old(maxParams)
      ensures !r.Inserted? ==> Snapshot(nodes) == old(Snapshot(nodes))
    {
      hide Grown, Snapshot, Clashes, Acceptable, Spelt, Symbols, ParseOf;
      var parsed := ParsePattern(pattern);
      if parsed.Malformed? {
        return BadPattern(parsed.error);
      }
      GoodAlternates(parsed.segs, {});
      r := InsertSegments(parsed.segs, h);
    }

    /** Leave the handler at the end of the walk, unless there is one already. */
    method InsertSegments(segs: seq<Segment>, h: H) returns (r: InsertResult)
      requires Valid() && Alternates(segs) && segs != []
      modifies this, nodes
      ensures Valid() && old(nodes) <= nodes && fresh(nodes - old(nodes))
      ensures !r.BadPattern?
      ensures r.NameClash? <==> Clashes(old(routes.Keys), Symbols(segs))
      ensures r.Duplicate? <==> Symbols(segs) in old(routes)
      ensures r.Inserted? ==> routes == old(routes)[Symbols(segs) := h] && count == old(count) + 1
      ensures r.Inserted? ==> maxParams == Max(old(maxParams), Markers(Symbols(segs)))
      ensures !r.Inserted? ==> root == old(root) && nodes == old(nodes) && routes == old(routes)
      ensures !r.Inserted? ==> count == old(count) && maxParams == old(maxParams)
      ensures !r.Inserted? ==> Snapshot(nodes) == old(Snapshot(nodes))
    {
      hide Grown, Alternates, Symbols, Clashes, MostMarkers, AllWellFormed, Snapshot;
      RegisteredAgree();
      var cur := Place(segs);
      if cur == null {
        return NameClash;
      }
      WalkEnd(Snapshot(nodes), root, routes, Symbols(segs), cur, h);
      if cur.handler.Some? {
        return Duplicate;
      }
      Register(cur, segs, h);
      return Inserted;
    }

    /** The node of a pattern, with whatever was missing on the way to it created. */
    method Place(segs: seq<Segment>) returns (cur: Node?<H>)
      requires Valid() && Alternates(segs) && segs != []
      modifies this`root, this`nodes, nodes
      ensures old(nodes) <= nodes && fresh(nodes - old(nodes))
      ensures cur == null ==> Clashes(routes.Keys, Symbols(segs))
      ensures cur != null ==>
        && root != null && Grown(Snapshot(nodes), root, routes, routes.Keys + {Symbols(segs)})
        && cur in nodes && cur.key == Symbols(segs)
      ensures cur == null || cur.handler.Some? ==>
        Valid() && root == old(root) && nodes == old(nodes) && Snapshot(nodes) == old(Snapshot(nodes))
    {
      hide Grown, Alternates, Symbols, Clashes, MostMarkers, AllWellFormed, Snapshot;
      ghost var target := Symbols(segs);
      NoClashWithNone(routes.Keys, target);
      Start(routes.Keys + {target});
      ghost var changed: bool;
      cur, changed := Walk(segs, routes.Keys + {target}, target);
    }

    /** Make cur the node of a new route: its handler, the route count and the largest
        number of parameters. */
    method Register(cur: Node<H>, segs: seq<Segment>, h: H)
      requires root != null && Grown(Snapshot(nodes), root, routes, routes.Keys + {Symbols(segs)})
      requires cur in nodes && cur.key == Symbols(segs) && cur.handler == None && Symbols(segs) !in routes
      requires Alternates(segs) && segs != []
      requires count == |routes| && MostMarkers(routes.Keys, maxParams)
      requires AllWellFormed(routes.Keys) && [] !in routes
      modifies cur`handler, this`count, this`routes, this`maxParams
      ensures Valid()
      ensures routes == old(routes)[Symbols(segs) := h] && count == old(count) + 1
      ensures maxParams == Max(old(maxParams), Markers(Symbols(segs)))
    {
      hide Grown, Alternates, Symbols, MostMarkers, AllWellFormed, Snapshot;
      AlternatesSpell(segs);
      StoreHandler(cur, h, Symbols(segs));
      var n := CountMarkers(segs);
      RaiseMost(old(routes), maxParams, Symbols(segs), h, n);
      maxParams := Max(maxParams, n);
    }

    /** The handler of a new route, and its place in the meaning of the tree. */
    method StoreHandler(cur: Node<H>, h: H, ghost target: Pattern)
      requires root != null && Grown(Snapshot(nodes), root, routes, routes.Keys + {target})
      requires cur in nodes && cur.key == target && cur.handler == None && target !in routes
      modifies cur`handler, this`count, this`routes
      ensures Grown(Snapshot(nodes), root, routes, routes.Keys)
      ensures routes == old(routes)[target := h] && count == old(count) + 1
    {
      hide Grown;
      ghost var g := Snapshot(nodes);
      cur.handler := Some(h);
      count := count + 1;
      routes := routes[target := h];
      HandlerGrows(g, root, old(routes), cur, h, target);
      assert Snapshot(nodes) == g[cur := g[cur].(handler := Some(h))];
    }

    /** Registered patterns do not clash with each other. */
    lemma RegisteredAgree()
      requires Valid()
      ensures forall p :: p in routes ==> !Clashes(routes.Keys, p)
    {
      if root != null {
        var g := Snapshot(nodes);
        forall p, q | p in routes && q in routes ensures !Conflict(q, p) {
          var m :| m in g && g[m].key == p && g[m].handler.Some?;
          var m' :| m' in g && g[m'].key == q && g[m'].handler.Some?;
          NoConflictInside(g, root, m', m);
        }
      }
    }

    /** The answer for path below the node with this key: the best completion and its
        captures appended to what was captured before, or nothing and no trace. */
    ghost predicate Answers(h: Option<H>, s: Pattern, vals: seq<string>, key: Pattern, path: string,
                            before: seq<Capture>, after: seq<Capture>)
      reads this
    {
      match h
      case Some(v) =>
        && BestFrom(routes.Keys, key, path, s)
        && Matches(s, path, vals)
        && routes[key + s] == v
        && after == before + Captured(s, vals)
      case None =>
        NoneFrom(routes.Keys, key, path) && after == before
    }

    /** What storage a lookup may have used that can still meet room markers. */
    twostate predicate Stored(room: int, params: Params)
      reads params, params.slots
    {
      && params.Valid()
      && (params.slots == old(params.slots) || fresh(params.slots))
      && (old(params.count) + room <= old(params.slots.Length) ==> params.slots == old(params.slots))
      && (params.peak <= old(params.peak) || params.peak <= old(params.count) + room)
    }

    lemma HandlerHere(c: Node<H>)
      requires Valid() && root != null && c in nodes
      ensures c.key in routes <==> c.handler.Some?
      ensures c.handler.Some? ==> routes[c.key] == c.handler.value
    {
      HandlerAt(Snapshot(nodes), root, routes, c);
    }

    lemma RoomHere(n: Node<H>)
      requires Valid() && root != null && n in nodes
      ensures Markers(n.key) <= maxParams
      ensures n.param != null ==> n.param in nodes && Markers(n.param.key) == Markers(n.key) + 1 <= maxParams
      ensures n.wildcard != null ==>
        n.wildcard in nodes && Markers(n.wildcard.key) == Markers(n.key) + 1 <= maxParams
    {
      var g := Snapshot(nodes);
      RoomAt(g, root, routes, n, maxParams);
      MarkerRoom(g, root, routes, n);
      if n.param != null {
        RoomAt(g, root, routes, n.param, maxParams);
      }
      if n.wildcard != null {
        RoomAt(g, root, routes, n.wildcard, maxParams);
      }
    }

    /** Try the static child, then the parameter, then the wildcard. */
    method LookupFrom(n: Node<H>, path: string, params: Params)
        returns (h: Option<H>, ghost s: Pattern, ghost vals: seq<string>)
      requires Valid() && root != null && n in nodes && params.Valid() && path != ""
      modifies params, params.slots
      ensures Stored(maxParams - Markers(n.key), params)
      ensures Answers(h, s, vals, n.key, path, old(params.Contents()), params.Contents())
      decreases |path|, 1
    {
      hide Grown, BestFrom, NoneFrom, NoneOfRank, Matches, Captured, MostMarkers, AllWellFormed, Markers, Snapshot,
        Bytes;
      h, s, vals := TryStatic(n, path, params);
      if h.Some? {
        return;
      }
      h, s, vals := TryParam(n, path, params);
      if h.Some? {
        return;
      }
      h, s, vals := TryWildcard(n, path, params);
      if h.None? {
        NoneAtAll(routes.Keys, n.key, path);
      }
    }

    /** Look below a child: its own handler at the end of the path, its children before it. */
    method LookupChild(c: Node<H>, rest: string, params: Params)
        returns (h: Option<H>, ghost s: Pattern, ghost vals: seq<string>)
      requires Valid() && root != null && c in nodes && params.Valid()
      modifies params, params.slots
      ensures Stored(maxParams - Markers(c.key), params)
      ensures Answers(h, s, vals, c.key, rest, old(params.Contents()), params.Contents())
      decreases |rest|, 2
    {
      hide Grown, BestFrom, NoneFrom, NoneOfRank, Matches, Captured, MostMarkers, AllWellFormed, Markers, Snapshot;
      if rest == "" {
        AtEnd(routes.Keys, c.key);
        HandlerHere(c);
        assert c.key + [] == c.key;
        return c.handler, [], [];
      }
      h, s, vals := LookupFrom(c, rest, params);
    }

    method TryStatic(n: Node<H>, path: string, params: Params)
        returns (h: Option<H>, ghost s: Pattern, ghost vals: seq<string>)
      requires Valid() && root != null && n in nodes && params.Valid() && path != ""
      modifies params, params.slots
      ensures Stored(maxParams - Markers(n.key), params)
      ensures h.Some? ==> Answers(h, s, vals, n.key, path, old(params.Contents()), params.Contents())
      ensures h.None? ==> params.Contents() == old(params.Contents()) && NoneOfRank(routes.Keys, n.key, path, 0)
      decreases |path|, 0
    {
      hide Grown, BestFrom, NoneFrom, NoneOfRank, Matches, Captured, MostMarkers, AllWellFormed, Markers, Snapshot;
      ghost var g := Snapshot(nodes);
      s, vals := [], [];
      GrownStatics(g, root, routes, routes.Keys, n);
      var child := StaticChild(n, path[0]);
      if child == null {
        StaticAbsent(g, root, routes, n, path);
        return None, [], [];
      }
      if |path| >= |child.prefix| && path[..|child.prefix|] == child.prefix {
        var rest := path[|child.prefix|..];
        StaticRoom(g, root, routes, n, child);
        h, s, vals := LookupChild(child, rest, params);
        if h.Some? {
          StaticBest(g, root, routes, n, child, path, s, vals);
          s := Bytes(child.prefix) + s;
          return;
        }
      }
      StaticNone(g, root, routes, n, child, path);
      return None, [], [];
    }

    method TryParam(n: Node<H>, path: string, params: Params)
        returns (h: Option<H>, ghost s: Pattern, ghost vals: seq<string>)
      requires Valid() && root != null && n in nodes && params.Valid() && path != ""
      requires NoneOfRank(routes.Keys, n.key, path, 0)
      modifies params, params.slots
      ensures Stored(maxParams - Markers(n.key), params)
      ensures h.Some? ==> Answers(h, s, vals, n.key, path, old(params.Contents()), params.Contents())
      ensures h.None? ==> params.Contents() == old(params.Contents()) && NoneOfRank(routes.Keys, n.key, path, 1)
      decreases |path|, 0
    {
      hide Grown, BestFrom, NoneFrom, NoneOfRank, Matches, Captured, MostMarkers, AllWellFormed, Markers, Snapshot;
      ghost var g := Snapshot(nodes);
      RoomHere(n);
      if n.param != null {
        var i := SegmentLength(path);
        if i > 0 {
          var saved := params.count;
          params.Add(n.param.name, path[..i]);
          h, s, vals := LookupChild(n.param, path[i..], params);
          if h.Some? {
            assert Answers(h, s, vals, n.param.key, path[i..],
                           old(params.Contents()) + [Capture(n.param.name, path[..i])], params.Contents());
            ParamBest(g, root, routes, n, path, s, vals);
            MatchLength(s, path[i..], vals);
            AppendTwice(old(params.Contents()), Capture(n.param.name, path[..i]), Captured(s, vals));
            s, vals := [Param(n.param.name)] + s, [path[..i]] + vals;
            return;
          }
          params.Truncate(saved);
        }
      }
      ParamNone(g, root, routes, n, path);
      return None, [], [];
    }

    method TryWildcard(n: Node<H>, path: string, params: Params)
        returns (h: Option<H>, ghost s: Pattern, ghost vals: seq<string>)
      requires Valid() && root != null && n in nodes && params.Valid() && path != ""
      requires NoneOfRank(routes.Keys, n.key, path, 0) && NoneOfRank(routes.Keys, n.key, path, 1)
      modifies params, params.slots
      ensures Stored(maxParams - Markers(n.key), params)
      ensures h.Some? ==> Answers(h, s, vals, n.key, path, old(params.Contents()), params.Contents())
      ensures h.None? ==> params.Contents() == old(params.Contents()) && NoneOfRank(routes.Keys, n.key, path, 2)
    {
      hide Grown, BestFrom, NoneFrom, NoneOfRank, Matches, Captured, MostMarkers, AllWellFormed, Markers, Snapshot;
      ghost var g := Snapshot(nodes);
      RoomHere(n);
      if n.wildcard != null {
        var saved := params.count;
        params.Add(n.wildcard.name, path);
        if n.wildcard.handler.Some? {
          WildBest(g, root, routes, n, path);
          HandlerHere(n.wildcard);
          return n.wildcard.handler, [Wild(n.wildcard.name)], [path];
        }
        params.Truncate(saved);
      }
      WildNone(g, root, routes, n, path);
      return None, [], [];
    }

    /** The handler of the best route for path, with its captures appended to params.

        Every parameter slot past the length is still zero afterwards (`params.Valid()`),
        whatever branches were tried and given up, and storage that has room for the largest
        route is never outgrown, not even for a moment. */
    method Lookup(path: string, params: Params) returns (h: Option<H>, ghost p: Pattern, ghost vals: seq<string>)
      requires Valid() && params.Valid()
      modifies params, params.slots
      ensures params.Valid()
      ensures h.Some? ==>
        && IsBest(routes.Keys, path, p) && Matches(p, path, vals) && h.value == routes[p]
        && params.Contents() == old(params.Contents()) + Captured(p, vals)
      ensures h.None? ==>
        && (forall q :: q in routes ==> !Matchable(q, path))
        && params.Contents() == old(params.Contents())
      ensures old(params.count) + maxParams <= old(params.slots.Length) ==> params.slots == old(params.slots)
      ensures params.slots == old(params.slots) || fresh(params.slots)
      ensures params.peak <= old(params.peak) || params.peak <= old(params.count) + maxParams
    {
      hide Grown;
      p, vals := [], [];
      if root == null {
        return None, [], [];
      }
      if path == "" {
        forall q | q in routes ensures !Matchable(q, path) {
          EmptyPath(q);
        }
        return None, [], [];
      }
      RootKey();
      h, p, vals := LookupFrom(root, path, params);
      FromRoot(routes.Keys, path, p);
    }

    lemma RootKey()
      requires Valid() && root != null
      ensures root in nodes && root.key == [] && Markers(root.key) == 0
    {
    }

    /** Create the root on the first insertion. */
    method Start(ghost keys: set<Pattern>)
      requires Valid() && routes.Keys <= keys
      modifies this`root, this`nodes
      ensures root != null && Grown(Snapshot(nodes), root, routes, keys)
      ensures old(root) != null ==> root == old(root) && nodes == old(nodes)
      ensures old(root) == null ==> fresh(root) && nodes == {root} && Bare(root) && root.statics == []
      ensures root in nodes && root.key == []
    {
      if root == null {
        root := new Node("", "", []);
        nodes := {root};
      }
    }
  }

  lemma CutIs<H>(g: Graph<H>, g': Graph<H>, n: Node<H>, child: Node<H>, tail: Node<H>, cp: nat)
    requires n in g && child in g && tail !in g && cp <= |g[child].prefix|
    requires g'.Keys == g.Keys + {tail} && forall m :: m in g && m != child ==> g'[m] == g[m]
    requires g'[child] == Fields(g[child].prefix[..cp], None, [tail], null, null, g[child].name,
                                 g[n].key + Bytes(g[child].prefix[..cp]))
    requires g'[tail] == g[child].(prefix := g[child].prefix[cp..], name := "")
    ensures g' == WithCut(g, n, child, tail, cp)
  {
  }

  /** How many segments are markers. */
  method CountMarkers(segs: seq<Segment>) returns (n: nat)
    ensures n == Markers(Symbols(segs))
  {
    n := 0;
    assert segs[..|segs|] == segs;
    for i := 0 to |segs|
      invariant n == MarkerCount(segs[..i])
    {
      SymbolsPush(segs, i);
      if !segs[i].StaticSeg? {
        n := n + 1;
      }
    }
    MarkerCounts(segs);
  }

  lemma RaiseMost<H>(routes: map<Pattern, H>, m: nat, p: Pattern, h: H, n: nat)
    requires MostMarkers(routes.Keys, m) && n == Markers(p)
    requires AllWellFormed(routes.Keys) && [] !in routes && WellFormed(p) && p != [] && p !in routes
    ensures MostMarkers(routes[p := h].Keys, Max(m, n))
    ensures AllWellFormed(routes[p := h].Keys) && [] !in routes[p := h]
    ensures |routes[p := h]| == |routes| + 1
  {
    assert routes[p := h].Keys == routes.Keys + {p};
    assert |routes[p := h].Keys| == |routes.Keys| + 1;
    RaiseMostSet(routes.Keys, m, p, n);
  }

  lemma RaiseMostSet(keys: set<Pattern>, m: nat, p: Pattern, n: nat)
    requires MostMarkers(keys, m) && n == Markers(p)
    ensures MostMarkers(keys + {p}, Max(m, n))
  {
    hide Markers;
    if Max(m, n) == n {
      assert p in keys + {p};
    } else {
      var k :| k in keys && Markers(k) == m;
      assert k in keys + {p};
    }
  }

  /** At the end of the walk: a handler there is the pattern's own, and no registered
      pattern clashes with one the tree has room for. */
  lemma WalkEnd<H>(g: Graph<H>, root: Node<H>, routes: map<Pattern, H>, target: Pattern, cur: Node<H>, h: H)
    requires Grown(g, root, routes, routes.Keys + {target}) && cur in g && g[cur].key == target
    ensures !Clashes(routes.Keys, target)
    ensures target in routes <==> g[cur].handler.Some?
  {
    HandlerAt(g, root, routes, cur);
    forall q | q in routes ensures !Conflict(q, target) {
      var m :| m in g && g[m].key == q && g[m].handler.Some?;
      NoConflictInside(g, root, m, cur);
    }
  }

  lemma HandlerGrows<H>(g: Graph<H>, root: Node<H>, routes: map<Pattern, H>, cur: Node<H>, h: H, target: Pattern)
    requires Grown(g, root, routes, routes.Keys + {target}) && cur in g && g[cur].key == target && target !in routes
    ensures Grown(g[cur := g[cur].(handler := Some(h))], root, routes[target := h], routes[target := h].Keys)
  {
    var g', routes' := g[cur := g[cur].(handler := Some(h))], routes[target := h];
    assert routes'.Keys == routes.Keys + {target};
    HandlerSound(g, root, cur, h);
    forall k | k in routes' ensures exists n :: n in g' && g'[n].key == k && g'[n].handler.Some? {
      if k == target {
        assert g'[cur].key == k;
      } else {
        var n: Node<H> :| n in g && g[n].key == k && g[n].handler.Some?;
        assert n in g' && g'[n].key == k && g'[n].handler.Some?;
      }
    }
  }

  lemma HandlerSound<H>(g: Graph<H>, root: Node<H>, cur: Node<H>, h: H)
    requires Sound(g, root) && cur in g
    ensures Sound(g[cur := g[cur].(handler := Some(h))], root)
  {
    var g' := g[cur := g[cur].(handler := Some(h))];
    forall n | n in g' ensures StaticsOk(g', n) && MarkersOk(g', n) {
      assert StaticsOk(g, n) && MarkersOk(g, n);
    }
    HandlerCovered(g, g');
  }

  lemma HandlerCovered<H>(g: Graph<H>, g': Graph<H>)
    requires Covered(g) && g'.Keys == g.Keys
    requires forall n :: n in g ==> g'[n] == g[n].(handler := g'[n].handler)
    ensures Covered(g')
  {
    forall n, m | n in g' && m in g' && g'[n].key < g'[m].key ensures LeadsTo(g', n, g'[m].key) {
      assert LeadsTo(g, n, g[m].key);
      var c :| IsChild(g, n, c) && c in g && g[c].key <= g[m].key;
      assert IsChild(g', n, c);
    }
  }

  /** Below the root the completions are the routes themselves. */
  lemma FromRoot(registered: set<Pattern>, path: string, p: Pattern)
    ensures BestFrom(registered, [], path, p) ==> IsBest(registered, path, p) && [] + p == p
    ensures NoneFrom(registered, [], path) ==> forall q :: q in registered ==> !Matchable(q, path)
  {
    assert [] + p == p;
    forall q: Pattern ensures [] + q == q {}
    if BestFrom(registered, [], path, p) {
      forall q | q in registered && Matchable(q, path) ensures q == p || Better(p, q) {
        assert [] + q in registered;
      }
    }
    if NoneFrom(registered, [], path) {
      forall q | q in registered ensures !Matchable(q, path) {
        assert [] + q in registered;
      }
    }
  }

  lemma NoClashWithNone(registered: set<Pattern>, p: Pattern)
    ensures registered == {} ==> !Clashes(registered, p)
  {
  }

  lemma MatchLength(p: Pattern, path: string, vals: seq<string>)
    requires Matches(p, path, vals)
    ensures |vals| == Markers(p)
  {
  }

  lemma AppendTwice(before: seq<Capture>, c: Capture, rest: seq<Capture>)
    ensures before + [c] + rest == before + ([c] + rest)
  {
  }

  /** A node with nothing to its right: no handler and no marker child. */
  ghost predicate Bare<H>(n: Node<H>)
    reads n
  {
    n.handler == None && n.param == null && n.wildcard == null
  }

  /** Some registered pattern goes on from key with s's kind of marker under another name. */
  ghost predicate NameTaken(registered: set<Pattern>, key: Pattern, s: Sym) {
    exists k :: k in registered && key < k && k[|key|] != s && Rank(k[|key|]) == Rank(s)
  }

  lemma Taken(registered: set<Pattern>, key: Pattern, s: Sym, target: Pattern)
    requires NameTaken(registered, key, s) && !s.Byte? && key + [s] <= target
    ensures Clashes(registered, target)
  {
    var k :| k in registered && key < k && k[|key|] != s && Rank(k[|key|]) == Rank(s);
    assert k[..|key|] == key == target[..|key|];
    assert DivergeAt(k, target, |key|);
  }

  lemma TakenName<H>(g: Graph<H>, root: Node<H>, routes: map<Pattern, H>, keys: set<Pattern>,
                     cur: Node<H>, child: Node<H>, s: Sym, target: Pattern)
    requires Live(g, root, keys) && root in g && g[root].key == [] && keys <= routes.Keys + {target}
    requires cur in g && MarkersOk(g, cur) && !s.Byte? && g[cur].key + [s] <= target
    requires child in g && child == if s.Param? then g[cur].param else g[cur].wildcard
    requires g[child].name != s.name
    ensures NameTaken(routes.Keys, g[cur].key, s)
  {
    assert child != root;
    assert OnTheWay(g[child].key, keys);
    var k :| k in keys && g[child].key <= k;
    PrefixIndex(g[child].key, k, |g[cur].key|);
    PrefixIndex(g[cur].key + [s], target, |g[cur].key|);
  }

  /** A node above another has a child. */
  lemma HasChild<H>(g: Graph<H>, root: Node<H>, routes: map<Pattern, H>, keys: set<Pattern>, n: Node<H>, m: Node<H>)
    requires Grown(g, root, routes, keys) && n in g && m in g && g[n].key < g[m].key
    ensures g[n].statics != [] || g[n].param != null || g[n].wildcard != null
  {
    var c := ChildTowards(g, root, n, m);
  }

  /** Moving past the shared head of a child's prefix keeps the symbols still to spell. */
  lemma HeadKey<H>(g: Graph<H>, cur: Node<H>, child: Node<H>, rest: string, cp: nat)
    requires cur in g && child in g && StaticsOk(g, cur) && child in g[cur].statics
    requires cp <= |g[child].prefix| && cp <= |rest| && g[child].prefix[..cp] == rest[..cp]
    ensures g[cur].key + Bytes(g[child].prefix[..cp]) + Bytes(rest[cp..]) == g[cur].key + Bytes(rest)
    ensures cp == |g[child].prefix| ==> g[child].key == g[cur].key + Bytes(g[child].prefix[..cp])
    ensures cur != child
  {
    BytesSplit(rest, cp);
    assert |g[child].key| > |g[cur].key|;
  }
}
