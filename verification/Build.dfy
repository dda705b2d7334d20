/** Registration and Build: the trees that reject bad routes while they are written, and
    the trees, rebuilt once with compiled chains, that serve. */
module Application {
  import opened Options
  import opened Routes
  import opened PatternParser
  import opened CaptureStore
  import opened RadixGraph
  import opened RadixTree
  import opened RouteOrder
  import opened Chain
  import opened GroupJoins

  /** What a route tree holds: the handler and the pattern it was registered under. */
  datatype Entry = Entry(h: Handler, pattern: string)

  datatype Route = Route(verb: string, path: string, h: Handler, group: Group?, mws: seq<Middleware>)

  datatype Registration =
    | Registered
    | AfterBuild
    | EmptyMethod
    | LowercaseMethod
    | BadGroupPath
    | Rejected(reason: InsertResult)

  predicate HasLowercase(s: string) {
    exists i :: 0 <= i < |s| && 'a' <= s[i] <= 'z'
  }

  /** A route prefix and middleware; its parent is fixed when it is made. */
  class Group {
    const parent: Group?
    const prefix: string
    /** The groups around this one, outermost first. */
    ghost const above: seq<Group>
    var mws: seq<Middleware>

    constructor (parent: Group?, prefix: string, mws: seq<Middleware>)
      requires parent != null ==> Nested(parent)
      ensures Nested(this) && this.parent == parent && this.mws == mws
      ensures this.prefix == (if parent == null then "" else parent.prefix) + prefix
    {
      this.parent := parent;
      this.prefix := (if parent == null then "" else parent.prefix) + prefix;
      this.above := if parent == null then [] else parent.above + [parent];
      this.mws := mws;
    }

  }

  /** The chain of parents ends, and is the one recorded. */
  ghost predicate Nested(g: Group)
    decreases |g.above|
  {
    if g.parent == null then g.above == []
    else |g.above| > |g.parent.above| && g.above == g.parent.above + [g.parent] && Nested(g.parent)
  }

  /** A group and the groups around it, outermost first. */
  ghost function Line(g: Group?): seq<Group> {
    if g == null then [] else g.above + [g]
  }

  /** The middleware of a list of groups, the first group's first. */
  ghost function Gathered(groups: seq<Group>): seq<Middleware>
    reads groups
  {
    if groups == [] then [] else Gathered(groups[..|groups| - 1]) + groups[|groups| - 1].mws
  }

  /** The whole chain of a route: application, groups from the outside in, its own. */
  ghost function FullChain(app: seq<Middleware>, g: Group?, own: seq<Middleware>): seq<Middleware>
    reads Line(g)
  {
    app + Gathered(Line(g)) + own
  }

  /** What happens around inner when a group's middleware is wrapped around it, and around
      that its parent's, and so on. */
  ghost function Inside(g: Group?, inner: seq<Event>): seq<Event>
    requires g != null ==> Nested(g)
    reads Line(g)
    decreases |Line(g)|
  {
    if g == null then inner
    else
      assert Line(g)[|g.above|] == g;
      Inside(g.parent, Entering(g.mws) + inner + Leaving(g.mws))
  }

  /** What happens when a route is called, told along the parents of its group: the
      application's middleware is outermost and the route's own innermost. */
  ghost function Course(app: seq<Middleware>, r: Route): seq<Event>
    requires r.group != null ==> Nested(r.group)
    reads Line(r.group)
  {
    Entering(app) + Inside(r.group, Entering(r.mws) + Trace(r.h) + Leaving(r.mws)) + Leaving(app)
  }

  /** Swap ends towards the middle. */
  method Reverse(list: seq<Group>) returns (out: seq<Group>)
    ensures |out| == |list| && forall k :: 0 <= k < |list| ==> out[k] == list[|list| - 1 - k]
  {
    out := list;
    var i, j := 0, |out| - 1;
    while i < j
      invariant 0 <= i <= j + 1 <= |out| == |list| && i + j == |list| - 1
      invariant forall k :: 0 <= k < i || j < k < |list| ==> out[k] == list[|list| - 1 - k]
      invariant forall k :: i <= k <= j ==> out[k] == list[k]
    {
      out := out[i := out[j]][j := out[i]];
      i, j := i + 1, j - 1;
    }
  }

  /** Walk up to the outermost group, then reverse. */
  method GroupChain(g: Group?) returns (out: seq<Group>)
    requires g != null ==> Nested(g)
    ensures out == Line(g)
  {
    var upwards := [];
    var cur := g;
    ghost var line := Line(g);
    while cur != null
      invariant cur != null ==> Nested(cur)
      invariant |upwards| + |Line(cur)| == |line| && Line(cur) == line[..|Line(cur)|]
      invariant forall k :: 0 <= k < |upwards| ==> upwards[k] == line[|line| - 1 - k]
      decreases |Line(cur)|
    {
      assert Line(cur) == Line(cur.parent) + [cur];
      upwards := upwards + [cur];
      cur := cur.parent;
    }
    out := Reverse(upwards);
  }

  // ----- what a list of registrations means

  /** The symbols of a registered path; only acceptable paths are ever registered. */
  ghost function Key(path: string): Pattern {
    if Acceptable(path) then Spelt(path) else []
  }

  /** The routes of one verb: pattern to entry, for the registrations in order. */
  ghost function TableOf(verb: string, rs: seq<Route>, es: seq<Entry>): map<Pattern, Entry>
    requires |rs| == |es|
  {
    if rs == [] then map[]
    else
      var n := |rs| - 1;
      var front := TableOf(verb, rs[..n], es[..n]);
      if rs[n].verb == verb then front[Key(rs[n].path) := es[n]] else front
  }

  ghost function KeysOf(verb: string, rs: seq<Route>): set<Pattern> {
    if rs == [] then {}
    else
      var n := |rs| - 1;
      KeysOf(verb, rs[..n]) + if rs[n].verb == verb then {Key(rs[n].path)} else {}
  }

  lemma {:induction false} TableKeys(verb: string, rs: seq<Route>, es: seq<Entry>)
    requires |rs| == |es|
    ensures TableOf(verb, rs, es).Keys == KeysOf(verb, rs)
  {
    if rs != [] {
      var n := |rs| - 1;
      TableKeys(verb, rs[..n], es[..n]);
    }
  }

  /** Each registration was accepted by the routes of its verb before it. */
  ghost predicate AllAccepted(rs: seq<Route>) {
    forall i :: 0 <= i < |rs| ==> AcceptedAt(rs, i)
  }

  ghost predicate AcceptedAt(rs: seq<Route>, i: nat)
    requires i < |rs|
  {
    Acceptable(rs[i].path) && Compatible(KeysOf(rs[i].verb, rs[..i]), Key(rs[i].path))
  }

  lemma AcceptedFront(rs: seq<Route>, n: nat)
    requires AllAccepted(rs) && n <= |rs|
    ensures AllAccepted(rs[..n])
  {
    forall i | 0 <= i < n ensures AcceptedAt(rs[..n], i) {
      assert AcceptedAt(rs, i);
      assert rs[..n][..i] == rs[..i];
    }
  }

  lemma AcceptedPush(rs: seq<Route>, r: Route)
    requires AllAccepted(rs) && Acceptable(r.path)
    requires Compatible(KeysOf(r.verb, rs), Key(r.path))
    ensures AllAccepted(rs + [r])
  {
    var all := rs + [r];
    forall i | 0 <= i < |all| ensures AcceptedAt(all, i) {
      if i < |rs| {
        assert AcceptedAt(rs, i);
        assert all[..i] == rs[..i];
      } else {
        assert all[..i] == rs;
      }
    }
  }

  /** Every accepted registration is found under its pattern. */
  lemma {:induction false} EntryAt(rs: seq<Route>, es: seq<Entry>, i: nat)
    requires AllAccepted(rs) && |es| == |rs| && i < |rs|
    ensures var t := TableOf(rs[i].verb, rs, es);
      Key(rs[i].path) in t && t[Key(rs[i].path)] == es[i]
  {
    hide Key;
    var n := |rs| - 1;
    if i < n {
      AcceptedFront(rs, n);
      EntryAt(rs[..n], es[..n], i);
      assert AcceptedAt(rs, n);
      TableKeys(rs[n].verb, rs[..n], es[..n]);
    }
  }

  // ----- the application

  class App {
    var trees: map<string, Tree<Entry>>
    var maxParams: nat
    var mws: seq<Middleware>
    var routes: seq<Route>
    var built: bool
    var miss: Handler
    /** The entries the trees hold, route by route. */
    ghost var entries: seq<Entry>

    ghost function Nodes(): set<Node<Entry>>
      reads this`trees, trees.Values
    {
      set t, n | t in trees.Values && n in t.nodes :: n
    }

    /** One valid tree per verb, and no node shared between them. */
    ghost predicate Forest()
      reads this`trees, trees.Values, Nodes()
    {
      && (forall m :: m in trees ==> trees[m].Valid())
      && (forall m, m' :: m in trees && m' in trees && m != m' ==>
            trees[m] != trees[m'] && trees[m].nodes !! trees[m'].nodes)
    }

    /** The routes the tree of a verb answers with. */
    ghost function Table(verb: string): map<Pattern, Entry>
      reads this`trees, trees.Values
    {
      if verb in trees then trees[verb].routes else map[]
    }

    /** The trees hold exactly these registrations. */
    ghost predicate Holding(rs: seq<Route>, es: seq<Entry>)
      reads this`trees, trees.Values, Nodes()
    {
      && Forest()
      && |rs| == |es| && AllAccepted(rs)
      && (forall verb :: Table(verb) == TableOf(verb, rs, es))
    }

    /** Pooled parameter storage has room for every route. */
    ghost predicate Sized(rs: seq<Route>)
      reads this`maxParams
    {
      forall r :: r in rs ==> Markers(Key(r.path)) <= maxParams
    }

    ghost predicate Valid()
      reads this, trees.Values, Nodes()
    {
      && Holding(routes, entries) && Sized(routes)
      && (forall r :: r in routes && r.group != null ==> Nested(r.group))
    }

    constructor ()
      ensures Valid() && fresh(trees.Values) && fresh(Nodes()) && !built && routes == [] && mws == []
    {
      trees := map[];
      maxParams := 0;
      mws := [];
      routes := [];
      built := false;
      miss := Own(0);
      entries := [];
    }

    /** The tree of a verb, created on its first use. */
    method TreeFor(verb: string, ghost rs: seq<Route>, ghost es: seq<Entry>) returns (t: Tree<Entry>)
      requires Holding(rs, es)
      modifies this`trees
      ensures Holding(rs, es)
      ensures verb in trees && t == trees[verb]
      ensures fresh(trees.Values - old(trees.Values)) && fresh(Nodes() - old(Nodes()))
    {
      hide Tree.Valid, AllAccepted, TableOf;
      if verb in trees {
        return trees[verb];
      }
      t := new Tree<Entry>();
      trees := trees[verb := t];
    }

    /** Insert into the tree of a verb; the trees of other verbs are not touched. */
    method InsertInto(verb: string, path: string, entry: Entry) returns (res: InsertResult, size: nat)
      requires Forest() && verb in trees
      modifies trees[verb], trees[verb].nodes
      ensures Forest()
      ensures forall m :: m != verb ==> Table(m) == old(Table(m))
      ensures res.Inserted? <==> Acceptable(path) && Compatible(old(Table(verb).Keys), Spelt(path))
      ensures res.BadPattern? <==> !Acceptable(path)
      ensures res.Duplicate? <==> Acceptable(path) && Spelt(path) in old(Table(verb).Keys)
      ensures Table(verb) == if res.Inserted? then old(Table(verb))[Spelt(path) := entry] else old(Table(verb))
      ensures res.Inserted? ==> Markers(Spelt(path)) <= size
      ensures fresh(Nodes() - old(Nodes()))
    {
      hide Tree.Valid, Acceptable, Spelt, Clashes;
      var t := trees[verb];
      res := t.Insert(path, entry);
      size := t.maxParams;
    }

    /** Add one route. */
    method Index(r: Route, entry: Entry, ghost rs: seq<Route>, ghost es: seq<Entry>)
        returns (res: InsertResult, size: nat)
      requires Holding(rs, es)
      modifies this`trees, trees.Values, Nodes()
      ensures Holding(if res.Inserted? then rs + [r] else rs, if res.Inserted? then es + [entry] else es)
      ensures res.Inserted? <==> Acceptable(r.path) && Compatible(KeysOf(r.verb, rs), Key(r.path))
      ensures res.BadPattern? <==> !Acceptable(r.path)
      ensures res.Duplicate? <==> Acceptable(r.path) && Key(r.path) in KeysOf(r.verb, rs)
      ensures res.Inserted? ==> Markers(Key(r.path)) <= size
      ensures fresh(trees.Values - old(trees.Values)) && fresh(Nodes() - old(Nodes()))
    {
      hide Tree.Valid, Acceptable, Spelt, Forest, Compatible, TableOf, KeysOf;
      var _ := TreeFor(r.verb, rs, es);
      TableKeys(r.verb, rs, es);
      res, size := InsertInto(r.verb, r.path, entry);
      if res.Inserted? {
        AcceptedPush(rs, r);
        forall verb ensures Table(verb) == TableOf(verb, rs + [r], es + [entry]) {
          TablePush(verb, rs, es, r, entry);
        }
      }
    }

    /** Application middleware; it wraps routes registered before it too. */
    method Use(more: seq<Middleware>) returns (ok: bool)
      requires Valid()
      modifies this`mws
      ensures Valid() && ok == !built
      ensures mws == if ok then old(mws) + more else old(mws)
    {
      hide TableOf, AllAccepted, Tree.Valid, Key, Nested;
      if built {
        return false;
      }
      mws := mws + more;
      return true;
    }

    /** A group of the application, or one nested in another. */
    method MakeGroup(parent: Group?, prefix: string, own: seq<Middleware>) returns (g: Group?)
      requires Valid() && (parent != null ==> Nested(parent))
      ensures g != null <==> ValidPrefix(prefix) && !built
      ensures g != null ==>
        && fresh(g) && Nested(g) && g.parent == parent && g.mws == own
        && g.prefix == (if parent == null then "" else parent.prefix) + prefix
    {
      if !ValidPrefix(prefix) || built {
        return null;
      }
      g := new Group(parent, prefix, own);
    }

    /** Middleware of a group, for routes already on it or in it as much as for later ones. */
    method GroupUse(g: Group, more: seq<Middleware>) returns (ok: bool)
      requires Valid()
      modifies g`mws
      ensures Valid() && ok == !built
      ensures g.mws == if ok then old(g.mws) + more else old(g.mws)
    {
      hide TableOf, AllAccepted, Tree.Valid, Key, Nested;
      if built {
        return false;
      }
      g.mws := g.mws + more;
      ok := true;
    }

    /** The single path every registration takes. */
    method Register(verb: string, path: string, h: Handler, g: Group?, own: seq<Middleware>) returns (res: Registration)
      requires Valid() && (g != null ==> Nested(g))
      modifies this`trees, this`maxParams, this`routes, this`entries, trees.Values, Nodes()
      ensures Valid() && fresh(trees.Values - old(trees.Values)) && fresh(Nodes() - old(Nodes()))
      ensures res.Registered? <==>
        && !built && verb != "" && !HasLowercase(verb)
        && Acceptable(path) && Compatible(KeysOf(verb, old(routes)), Key(path))
      ensures res.AfterBuild? <==> built
      ensures res.EmptyMethod? <==> !built && verb == ""
      ensures res.LowercaseMethod? <==> !built && verb != "" && HasLowercase(verb)
      ensures res.Rejected? ==>
        && !res.reason.Inserted?
        && (res.reason.BadPattern? <==> !Acceptable(path))
        && (res.reason.Duplicate? <==> Acceptable(path) && Key(path) in KeysOf(verb, old(routes)))
      ensures !res.BadGroupPath?
      ensures routes == if res.Registered? then old(routes) + [Route(verb, path, h, g, own)] else old(routes)
      ensures entries == if res.Registered? then old(entries) + [Entry(h, path)] else old(entries)
    {
      hide Forest, Acceptable, Compatible, TableOf, KeysOf, AllAccepted, Key, Markers, Nested;
      if built {
        return AfterBuild;
      }
      if verb == "" {
        return EmptyMethod;
      }
      if HasLowercase(verb) {
        return LowercaseMethod;
      }
      var r := Route(verb, path, h, g, own);
      var result, size := Index(r, Entry(h, path), routes, entries);
      if !result.Inserted? {
        return Rejected(result);
      }
      maxParams := Max(maxParams, size);
      routes := routes + [r];
      entries := entries + [Entry(h, path)];
      return Registered;
    }

    /** A group's registration: its prefix joined with the path, which may be empty only
        when the prefix is not. */
    method GroupHandle(g: Group, verb: string, path: string, h: Handler, own: seq<Middleware>)
        returns (res: Registration)
      requires Valid() && Nested(g)
      modifies this`trees, this`maxParams, this`routes, this`entries, trees.Values, Nodes()
      ensures Valid() && fresh(trees.Values - old(trees.Values)) && fresh(Nodes() - old(Nodes()))
      ensures res.Registered? <==>
        && (if path == "" then g.prefix != "" else path[0] == '/')
        && !built && verb != "" && !HasLowercase(verb)
        && Acceptable(g.prefix + path) && Compatible(KeysOf(verb, old(routes)), Key(g.prefix + path))
      ensures res.BadGroupPath? <==> !(if path == "" then g.prefix != "" else path[0] == '/')
      ensures routes == if res.Registered? then old(routes) + [Route(verb, g.prefix + path, h, g, own)] else old(routes)
    {
      hide Forest, Acceptable, Compatible, TableOf, KeysOf, AllAccepted, Key, Markers, Nested;
      if path == "" {
        if g.prefix == "" {
          return BadGroupPath;
        }
      } else if path[0] != '/' {
        return BadGroupPath;
      }
      res := Register(verb, g.prefix + path, h, g, own);
    }

    /** The full chain of one route. */
    method MiddlewareFor(r: Route) returns (chain: seq<Middleware>)
      requires r.group != null ==> Nested(r.group)
      ensures chain == old(FullChain(mws, r.group, r.mws))
      ensures Trace(Around(chain, r.h)) == old(Course(mws, r))
    {
      hide Trace, Around, Course;
      FullChainRuns(mws, r);
      var groups := GroupChain(r.group);
      chain := mws;
      var i := 0;
      assert groups[..|groups|] == groups;
      while i < |groups|
        invariant 0 <= i <= |groups| && groups == Line(r.group)
        invariant chain == mws + Gathered(groups[..i])
      {
        assert groups[..i + 1][..i] == groups[..i];
        chain := chain + groups[i].mws;
        i := i + 1;
      }
      chain := chain + r.mws;
    }

    /** What Build compiles a route to, with the middleware there is now. */
    ghost function Compiled(r: Route): Entry
      reads this`mws, Line(r.group)
    {
      Entry(Around(FullChain(mws, r.group, r.mws), r.h), r.path)
    }

    twostate lemma CompiledKept(r: Route)
      requires mws == old(mws) && forall g :: g in Line(r.group) ==> g.mws == old(g.mws)
      ensures Compiled(r) == old(Compiled(r))
    {
      GatheredKept(Line(r.group));
    }

    /** Entries that Build has compiled run as told along the parents. */
    twostate lemma Composed()
      requires Valid() && routes == old(routes) && mws == old(mws)
      requires old(forall r :: r in routes && r.group != null ==> Nested(r.group))
      requires forall r, g :: r in routes && g in Line(r.group) ==> g.mws == old(g.mws)
      requires |entries| == |routes| && forall i :: 0 <= i < |routes| ==> entries[i] == old(Compiled(routes[i]))
      ensures forall i :: 0 <= i < |routes| ==>
        entries[i].pattern == routes[i].path && Trace(entries[i].h) == Course(mws, routes[i])
    {
      hide Forest, Acceptable, Compatible, TableOf, KeysOf, Key, Markers, FullChain, AllAccepted, Sized, Course;
      forall i | 0 <= i < |routes|
        ensures entries[i].pattern == routes[i].path && Trace(entries[i].h) == Course(mws, routes[i])
      {
        assert routes[i] in routes;
        CompiledKept(routes[i]);
        FullChainRuns(mws, routes[i]);
      }
    }

    /** Insert every route again, compiled, into fresh trees; no insertion can fail. */
    method Rebuild() returns (ghost es: seq<Entry>)
      requires Valid()
      modifies this`trees
      ensures Holding(routes, es) && fresh(trees.Values) && fresh(Nodes())
      ensures |es| == |routes| && forall k :: 0 <= k < |routes| ==> es[k] == old(Compiled(routes[k]))
    {
      hide Forest, Acceptable, Compatible, TableOf, KeysOf, Key, Markers, Nested, FullChain, Compiled, Sized,
        AcceptedAt;
      es := [];
      trees := map[];
      Emptied();
      var i := 0;
      while i < |routes|
        invariant 0 <= i <= |routes| && |es| == i
        invariant Holding(routes[..i], es)
        invariant forall k :: 0 <= k < i ==> es[k] == old(Compiled(routes[k]))
        invariant fresh(trees.Values) && fresh(Nodes())
      {
        var r := routes[i];
        CompiledKept(r);
        var compiled := CompileRoute(r);
        ListStep(routes, i);
        var result, _ := Index(r, Entry(compiled, r.path), routes[..i], es);
        assert result.Inserted?;
        es := es + [Entry(compiled, r.path)];
        i := i + 1;
      }
      assert routes[..|routes|] == routes;
    }

    method CompileRoute(r: Route) returns (compiled: Handler)
      requires r.group != null ==> Nested(r.group)
      ensures Entry(compiled, r.path) == old(Compiled(r))
    {
      var chain := MiddlewareFor(r);
      compiled := Compile(r.h, chain);
    }

    /** Runs once; later calls do nothing. */
    method Build()
      requires Valid()
      modifies this`trees, this`entries, this`miss, this`built
      ensures Valid() && built
      ensures old(built) ==> trees == old(trees) && entries == old(entries) && miss == old(miss)
      ensures !old(built) ==>
        && fresh(trees.Values) && fresh(Nodes())
        && |entries| == |routes| && (forall i :: 0 <= i < |routes| ==> entries[i] == old(Compiled(routes[i])))
        && (forall i :: 0 <= i < |routes| ==>
              entries[i].pattern == routes[i].path && Trace(entries[i].h) == Course(mws, routes[i]))
        && Trace(miss) == Entering(mws) + [Run(0)] + Leaving(mws)
      ensures forall verb :: Table(verb).Keys == old(Table(verb).Keys)
    {
      hide TableOf, AllAccepted, Tree.Valid, Key, Nested, Compiled, Course;
      if !built {
        Compose();
        Composed();
        ChainOrder(mws, Own(0));
      }
    }

    /** Replace the trees by trees that hold compiled chains. */
    method Compose()
      requires Valid() && !built
      modifies this`trees, this`entries, this`miss, this`built
      ensures Valid() && built && fresh(trees.Values) && fresh(Nodes())
      ensures |entries| == |routes| && forall i :: 0 <= i < |routes| ==> entries[i] == old(Compiled(routes[i]))
      ensures miss == Around(mws, Own(0))
      ensures forall verb :: Table(verb).Keys == old(Table(verb).Keys)
    {
      hide Forest, Acceptable, Compatible, TableOf, KeysOf, Key, Markers, Nested, FullChain, Compiled, AllAccepted;
      SameKeys();
      entries := Rebuild();
      miss := Compile(Own(0), mws);
      built := true;
      SameKeys();
    }

    /** The entry of the best route for a request, or none. Parameter storage with room for
        maxParams captures is not outgrown, whatever branches were tried. */
    method LookupEntry(verb: string, path: string, params: Params)
        returns (e: Option<Entry>, ghost p: Pattern, ghost vals: seq<string>)
      requires Valid() && params.Valid()
      modifies params, params.slots
      ensures Valid() && params.Valid()
      ensures e.Some? ==>
        && IsBest(Table(verb).Keys, path, p) && Matches(p, path, vals) && e.value == Table(verb)[p]
        && params.Contents() == old(params.Contents()) + Captured(p, vals)
      ensures e.None? ==>
        && (forall q :: q in Table(verb) ==> !Matchable(q, path))
        && params.Contents() == old(params.Contents())
      ensures old(params.count) + maxParams <= old(params.slots.Length) ==> params.slots == old(params.slots)
      ensures params.slots == old(params.slots) || fresh(params.slots)
      ensures params.peak <= old(params.peak) || params.peak <= old(params.count) + maxParams
    {
      hide Tree.Valid, IsBest, Matches, Matchable, Captured;
      if verb !in trees {
        return None, [], [];
      }
      TreeFits(verb);
      e, p, vals := trees[verb].Lookup(path, params);
    }

    /** No tree needs more room than the App has been told of. */
    lemma TreeFits(verb: string)
      requires Valid() && verb in trees
      ensures trees[verb].maxParams <= maxParams
    {
      var t := trees[verb];
      assert t.Valid() && MostMarkers(t.routes.Keys, t.maxParams);
      if t.maxParams > 0 {
        var k :| k in t.routes.Keys && Markers(k) == t.maxParams;
        assert k in Table(verb);
        var i := Served(verb, k);
        assert routes[i] in routes;
      }
    }

    lemma TablesSound()
      requires Valid()
      ensures forall verb, k :: k in Table(verb) ==> WellFormed(k)
    {
      forall verb, k | k in Table(verb) ensures WellFormed(k) {
        assert trees[verb].Valid();
      }
    }

    /** Every route that can answer is a registered one, and answers with its own entry. */
    lemma Served(verb: string, p: Pattern) returns (i: nat)
      requires Valid() && p in Table(verb)
      ensures i < |routes| && routes[i].verb == verb && Key(routes[i].path) == p
      ensures Table(verb)[p] == entries[i]
    {
      i := Registrant(verb, routes, entries, p);
    }

    /** And every registered route is there to answer, with its own entry. */
    lemma Answering(i: nat)
      requires Valid() && i < |routes|
      ensures var r := routes[i]; Key(r.path) in Table(r.verb) && Table(r.verb)[Key(r.path)] == entries[i]
    {
      EntryAt(routes, entries, i);
    }

    lemma SameKeys()
      requires Holding(routes, entries)
      ensures forall verb :: Table(verb).Keys == KeysOf(verb, routes)
    {
      forall verb ensures Table(verb).Keys == KeysOf(verb, routes) {
        TableKeys(verb, routes, entries);
      }
    }

    lemma Emptied()
      requires trees == map[]
      ensures Holding([], [])
    {
    }
  }

  twostate lemma {:induction false} GatheredKept(groups: seq<Group>)
    requires forall g :: g in groups ==> g.mws == old(g.mws)
    ensures Gathered(groups) == old(Gathered(groups))
  {
    if groups != [] {
      GatheredKept(groups[..|groups| - 1]);
    }
  }

  lemma {:induction false} Registrant(verb: string, rs: seq<Route>, es: seq<Entry>, p: Pattern) returns (i: nat)
    requires |rs| == |es| && p in TableOf(verb, rs, es)
    ensures i < |rs| && rs[i].verb == verb && Key(rs[i].path) == p && TableOf(verb, rs, es)[p] == es[i]
  {
    var n := |rs| - 1;
    if rs[n].verb == verb && Key(rs[n].path) == p {
      i := n;
    } else {
      i := Registrant(verb, rs[..n], es[..n], p);
    }
  }

  /** So the whole chain of a route runs as told along its parents. */
  lemma FullChainRuns(app: seq<Middleware>, r: Route)
    requires r.group != null ==> Nested(r.group)
    ensures Trace(Around(FullChain(app, r.group, r.mws), r.h)) == Course(app, r)
  {
    hide Entering, Leaving, Trace, Around, Gathered;
    var groups := Gathered(Line(r.group));
    var inner := Entering(r.mws) + Trace(r.h) + Leaving(r.mws);
    CompiledTrace(app, groups, r.mws, r.h);
    InsideIs(r.group, inner);
    Unwound(Entering(app), Entering(groups), Entering(r.mws), Trace(r.h),
            Leaving(r.mws), Leaving(groups), Leaving(app));
  }

  lemma Unwound(a: seq<Event>, b: seq<Event>, c: seq<Event>, h: seq<Event>, d: seq<Event>, e: seq<Event>, f: seq<Event>)
    ensures a + (b + (c + h + d) + e) + f == a + b + c + h + d + e + f
  {
  }

  lemma {:induction false} InsideIs(g: Group?, inner: seq<Event>)
    requires g != null ==> Nested(g)
    ensures Inside(g, inner) == Entering(Gathered(Line(g))) + inner + Leaving(Gathered(Line(g)))
    decreases |Line(g)|
  {
    if g != null {
      var outer := Gathered(Line(g.parent));
      assert Line(g)[..|Line(g)| - 1] == Line(g.parent);
      assert Gathered(Line(g)) == outer + g.mws;
      InsideIs(g.parent, Entering(g.mws) + inner + Leaving(g.mws));
      EnteringBoth(outer, g.mws);
      Regroup(Entering(outer), Entering(g.mws), inner, Leaving(g.mws));
    } else {
      assert Gathered(Line(g)) == [];
    }
  }

  lemma EnteringBoth(outer: seq<Middleware>, inner: seq<Middleware>)
    ensures Entering(outer + inner) == Entering(outer) + Entering(inner)
    ensures Leaving(outer + inner) == Leaving(inner) + Leaving(outer)
  {
  }

  /** A compiled route enters the application's middleware, then its groups' from the
      outermost in, then its own, runs the handler, and leaves them all in reverse. */
  lemma CompiledTrace(app: seq<Middleware>, groups: seq<Middleware>, own: seq<Middleware>, h: Handler)
    ensures Trace(Around(app + groups + own, h)) ==
            Entering(app) + Entering(groups) + Entering(own) + Trace(h)
              + Leaving(own) + Leaving(groups) + Leaving(app)
  {
    hide Entering, Leaving, Trace, Around;
    var g, o := Around(groups, Around(own, h)), Around(own, h);
    AroundTwice(app + groups, own, h);
    AroundTwice(app, groups, o);
    ChainOrder(app, g);
    ChainOrder(groups, o);
    ChainOrder(own, h);
    var core := Entering(own) + Trace(h) + Leaving(own);
    Regroup(Entering(app), Entering(groups), core, Leaving(groups));
    Regroup(Entering(app) + Entering(groups), Entering(own), Trace(h), Leaving(own));
  }

  lemma Regroup(a: seq<Event>, b: seq<Event>, c: seq<Event>, d: seq<Event>)
    ensures a + (b + c + d) == a + b + c + d
  {
  }

  /** Rebuilding changes handlers, not answers. A request is looked up before Build and after
      it: it is a hit both times or neither, on the same registered route and with the same
      captures, and after Build its handler is that route's, wrapped in its whole chain. */
  method AnswersKept(app: App, verb: string, path: string, first: Params, second: Params)
      returns (before: Option<Entry>, after: Option<Entry>, ghost i: nat)
    requires app.Valid() && !app.built && first.Valid() && second.Valid()
    requires first != second && first.slots != second.slots && first.Contents() == second.Contents()
    modifies first, first.slots, second, second.slots, app`trees, app`entries, app`miss, app`built
    ensures app.Valid() && app.built && first.Valid() && second.Valid()
    ensures before.Some? <==> after.Some?
    ensures first.Contents() == second.Contents()
    ensures before.Some? ==>
      && i < |app.routes| && app.routes[i].verb == verb
      && before.value == old(app.entries[i]) && after.value == old(app.Compiled(app.routes[i]))
  {
    hide App.Valid, App.Compiled, IsBest, Matches, Matchable, Captured;
    ghost var p, v, q, w, k;
    before, p, v, i := Answer(app, verb, path, first);
    if before.Some? {
      app.CompiledKept(app.routes[i]);
    }
    ghost var keys := app.Table(verb).Keys;
    app.Build();
    after, q, w, k := Answer(app, verb, path, second);
    if before.Some? {
      StillMatched(keys, path, p);
    }
    if after.Some? {
      StillMatched(keys, path, q);
      OneAnswer(keys, path, p, v, q, w);
      app.Answering(i);
    }
  }

  /** LookupEntry, and the registration that answers. */
  method Answer(app: App, verb: string, path: string, params: Params)
      returns (e: Option<Entry>, ghost p: Pattern, ghost vals: seq<string>, ghost i: nat)
    requires app.Valid() && params.Valid()
    modifies params, params.slots
    ensures app.Valid() && params.Valid() && (params.slots == old(params.slots) || fresh(params.slots))
    ensures e.None? ==>
      (forall q :: q in app.Table(verb) ==> !Matchable(q, path)) && params.Contents() == old(params.Contents())
    ensures e.Some? ==>
      && p in app.Table(verb) && IsBest(app.Table(verb).Keys, path, p) && Matches(p, path, vals) && WellFormed(p)
      && params.Contents() == old(params.Contents()) + Captured(p, vals)
      && i < |app.routes| && app.routes[i].verb == verb && Key(app.routes[i].path) == p
      && e.value == app.entries[i] == app.Table(verb)[p]
  {
    hide App.Valid, IsBest, Matches, Matchable, Captured;
    e, p, vals := app.LookupEntry(verb, path, params);
    i := 0;
    if e.Some? {
      StillMatched(app.Table(verb).Keys, path, p);
      i := app.Served(verb, p);
      app.TablesSound();
    }
  }

  lemma StillMatched(keys: set<Pattern>, path: string, p: Pattern)
    requires IsBest(keys, path, p)
    ensures p in keys && Matchable(p, path)
  {
  }

  lemma ListStep(rs: seq<Route>, i: nat)
    requires AllAccepted(rs) && i < |rs|
    ensures rs[..i + 1] == rs[..i] + [rs[i]]
    ensures Acceptable(rs[i].path) && Compatible(KeysOf(rs[i].verb, rs[..i]), Key(rs[i].path))
  {
    assert AcceptedAt(rs, i);
  }

  lemma TablePush(verb: string, rs: seq<Route>, es: seq<Entry>, r: Route, e: Entry)
    requires |rs| == |es|
    ensures TableOf(verb, rs + [r], es + [e]) ==
            if r.verb == verb then TableOf(verb, rs, es)[Key(r.path) := e] else TableOf(verb, rs, es)
  {
    assert (rs + [r])[..|rs|] == rs && (es + [e])[..|es|] == es;
  }
}
