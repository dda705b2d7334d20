/** The nodes of the radix tree and the invariant they keep.

    The tree is a web of mutable nodes, rewired in place.  Every node carries a ghost
    `key`: the symbols spelt on the way from the root to it.  The invariant is stated on a
    snapshot of the nodes (a map from node to field values), one node or one pair of nodes
    at a time, so splitting a node is a local change of the snapshot and no recursion over
    the tree is needed. */
module RadixGraph {
  import opened Options
  import opened Routes

  class Node<H> {
    var prefix: string
    var handler: Option<H>
    var statics: seq<Node<H>>
    var param: Node?<H>
    var wildcard: Node?<H>
    var name: string
    ghost var key: Pattern

    constructor (prefix: string, name: string, ghost key: Pattern)
      ensures View() == Fields(prefix, None, [], null, null, name, key)
    {
      this.prefix := prefix;
      this.handler := None;
      this.statics := [];
      this.param := null;
      this.wildcard := null;
      this.name := name;
      this.key := key;
    }

    /** A node that takes over everything a node holds, under a shorter prefix. */
    constructor TakeOver(prefix: string, from: Node<H>)
      ensures View() == from.View().(prefix := prefix, name := "")
    {
      this.prefix := prefix;
      this.handler := from.handler;
      this.statics := from.statics;
      this.param := from.param;
      this.wildcard := from.wildcard;
      this.name := "";
      this.key := from.key;
    }

    /** Keep only the first cp bytes of the prefix, with rest below them. */
    method Behead(cp: nat, rest: Node<H>, ghost key: Pattern)
      requires cp <= |prefix|
      modifies this
      ensures View() == Fields(old(prefix[..cp]), None, [rest], null, null, old(name), key)
    {
      prefix := prefix[..cp];
      handler := None;
      statics := [rest];
      param := null;
      wildcard := null;
      this.key := key;
    }

    ghost function View(): Fields<H>
      reads this
    {
      Fields(prefix, handler, statics, param, wildcard, name, key)
    }
  }

  /** The fields of one node at one moment. */
  datatype Fields<H> = Fields(
    prefix: string,
    handler: Option<H>,
    statics: seq<Node<H>>,
    param: Node?<H>,
    wildcard: Node?<H>,
    name: string,
    key: Pattern)

  type Graph<H> = map<Node<H>, Fields<H>>

  ghost function Snapshot<H>(nodes: set<Node<H>>): (g: Graph<H>)
    reads nodes
    ensures g.Keys == nodes
    ensures forall n :: n in nodes ==> g[n] == n.View()
  {
    map n | n in nodes :: n.View()
  }

  ghost predicate IsChild<H>(g: Graph<H>, n: Node<H>, c: Node<H>)
    requires n in g
  {
    c in g[n].statics || g[n].param == c || g[n].wildcard == c
  }

  /** Static children are non-empty runs with distinct first bytes. */
  ghost predicate StaticsOk<H>(g: Graph<H>, n: Node<H>)
    requires n in g
  {
    && (forall c :: c in g[n].statics ==>
         c in g && g[c].prefix != "" && g[c].key == g[n].key + Bytes(g[c].prefix))
    && (forall i, j :: 0 <= i < j < |g[n].statics| ==>
         g[g[n].statics[i]].prefix[0] != g[g[n].statics[j]].prefix[0])
  }

  /** Marker children spell one symbol, and a wildcard is a leaf. */
  ghost predicate MarkersOk<H>(g: Graph<H>, n: Node<H>)
    requires n in g
  {
    && (g[n].param != null ==>
         g[n].param in g && g[g[n].param].key == g[n].key + [Param(g[g[n].param].name)])
    && (g[n].wildcard != null ==>
         && g[n].wildcard in g
         && g[g[n].wildcard].key == g[n].key + [Wild(g[g[n].wildcard].name)]
         && g[g[n].wildcard].statics == []
         && g[g[n].wildcard].param == null
         && g[g[n].wildcard].wildcard == null)
  }

  ghost predicate Linked<H>(g: Graph<H>) {
    forall n {:trigger StaticsOk(g, n)} {:trigger MarkersOk(g, n)} :: n in g ==> StaticsOk(g, n) && MarkersOk(g, n)
  }

  /** No two nodes spell the same symbols. */
  ghost predicate KeysDistinct<H>(g: Graph<H>) {
    forall m, n :: m in g && n in g && g[m].key == g[n].key ==> m == n
  }

  /** Towards every deeper node there is a child to follow. */
  ghost predicate Covered<H>(g: Graph<H>) {
    forall n, m {:trigger LeadsTo(g, n, g[m].key)} ::
      n in g && m in g && g[n].key < g[m].key ==> LeadsTo(g, n, g[m].key)
  }

  ghost predicate LeadsTo<H>(g: Graph<H>, n: Node<H>, key: Pattern)
    requires n in g
  {
    exists c :: IsChild(g, n, c) && c in g && g[c].key <= key
  }

  ghost predicate Sound<H>(g: Graph<H>, root: Node<H>) {
    && root in g && g[root].key == []
    && Linked(g) && KeysDistinct(g) && Covered(g)
  }

  /** The registered routes are exactly the nodes that hold a handler. */
  ghost predicate Holds<H>(g: Graph<H>, routes: map<Pattern, H>) {
    && (forall n :: n in g && g[n].handler.Some? ==>
         g[n].key in routes && routes[g[n].key] == g[n].handler.value)
    && (forall k :: k in routes ==> exists n :: n in g && g[n].key == k && g[n].handler.Some?)
  }

  /** Every node but the root lies on the way to one of the given patterns. */
  ghost predicate Live<H>(g: Graph<H>, root: Node<H>, keys: set<Pattern>) {
    forall n :: n in g && n != root ==> OnTheWay(g[n].key, keys)
  }

  ghost predicate OnTheWay(key: Pattern, keys: set<Pattern>) {
    exists k :: k in keys && key <= k
  }

  /** The invariant of a tree that holds the given routes, all of whose nodes lead to keys. */
  ghost predicate Grown<H>(g: Graph<H>, root: Node<H>, routes: map<Pattern, H>, keys: set<Pattern>) {
    Sound(g, root) && Holds(g, routes) && Live(g, root, keys)
  }

  lemma GrownMarkers<H>(g: Graph<H>, root: Node<H>, routes: map<Pattern, H>, keys: set<Pattern>, n: Node<H>)
    requires Grown(g, root, routes, keys) && n in g
    ensures MarkersOk(g, n)
  {
  }

  lemma GrownStatics<H>(g: Graph<H>, root: Node<H>, routes: map<Pattern, H>, keys: set<Pattern>, n: Node<H>)
    requires Grown(g, root, routes, keys) && n in g
    ensures StaticsOk(g, n)
  {
  }

  lemma GrownLive<H>(g: Graph<H>, root: Node<H>, routes: map<Pattern, H>, keys: set<Pattern>)
    requires Grown(g, root, routes, keys)
    ensures Live(g, root, keys) && root in g && g[root].key == []
  {
  }

  // ----- walking towards a key

  /** A node that holds a handler is where its key says. */
  lemma HandlerAt<H>(g: Graph<H>, root: Node<H>, routes: map<Pattern, H>, n: Node<H>)
    requires Sound(g, root) && Holds(g, routes) && n in g
    ensures g[n].key in routes <==> g[n].handler.Some?
    ensures g[n].handler.Some? ==> routes[g[n].key] == g[n].handler.value
  {
  }

  /** The child to follow from n towards a deeper node m. */
  lemma ChildTowards<H>(g: Graph<H>, root: Node<H>, n: Node<H>, m: Node<H>) returns (c: Node<H>)
    requires Sound(g, root) && n in g && m in g && g[n].key < g[m].key
    ensures IsChild(g, n, c) && c in g && g[c].key <= g[m].key
    ensures |g[n].key| < |g[c].key|
    ensures forall i :: |g[n].key| <= i < |g[c].key| && !g[m].key[i].Byte? ==> i == |g[n].key| == |g[c].key| - 1
    ensures g[m].key[|g[n].key|] == g[c].key[|g[n].key|]
  {
    assert LeadsTo(g, n, g[m].key);
    c :| IsChild(g, n, c) && c in g && g[c].key <= g[m].key;
    assert StaticsOk(g, n) && MarkersOk(g, n);
    forall i | |g[n].key| <= i < |g[c].key| ensures g[m].key[i] == g[c].key[i] {}
  }

  /** Where the key goes on with a literal byte, the child to follow is static. */
  lemma StaticTowards<H>(g: Graph<H>, root: Node<H>, n: Node<H>, m: Node<H>)
      returns (c: Node<H>)
    requires Sound(g, root) && n in g && m in g
    requires g[n].key < g[m].key && g[m].key[|g[n].key|].Byte?
    ensures c in g && c in g[n].statics && g[c].key <= g[m].key
    ensures g[c].prefix != "" && g[m].key[|g[n].key|] == Byte(g[c].prefix[0])
  {
    c := ChildTowards(g, root, n, m);
    assert StaticsOk(g, n) && MarkersOk(g, n);
  }

  /** Where the key goes on with a marker, there is a marker child of that name. */
  lemma MarkerTowards<H>(g: Graph<H>, root: Node<H>, n: Node<H>, m: Node<H>)
    requires Sound(g, root) && n in g && m in g
    requires g[n].key < g[m].key && !g[m].key[|g[n].key|].Byte?
    ensures var s := g[m].key[|g[n].key|];
            && (s.Param? ==> g[n].param != null && g[n].param in g && g[g[n].param].name == s.name)
            && (s.Wild? ==> g[n].wildcard != null && g[n].wildcard in g && g[g[n].wildcard].name == s.name)
  {
    var c := ChildTowards(g, root, n, m);
    assert StaticsOk(g, n) && MarkersOk(g, n);
  }

  /** The way to a marker passes a node just before it. */
  lemma {:induction false} NodeBeforeMarker<H>(g: Graph<H>, root: Node<H>, n: Node<H>, m: Node<H>, i: nat)
      returns (x: Node<H>)
    requires Sound(g, root) && n in g && m in g
    requires i < |g[m].key| && !g[m].key[i].Byte?
    requires |g[n].key| <= i && g[n].key <= g[m].key
    ensures x in g && g[x].key == g[m].key[..i]
    decreases i - |g[n].key|
  {
    if |g[n].key| == i {
      x := n;
    } else {
      var c := ChildTowards(g, root, n, m);
      x := NodeBeforeMarker(g, root, c, m, i);
    }
  }

  lemma ProperPrefix(p: Pattern, i: nat)
    requires i < |p|
    ensures p[..i] < p && p[|p[..i]|] == p[i]
  {
  }

  /** No two nodes of one tree spell conflicting patterns. */
  lemma NoConflictInside<H>(g: Graph<H>, root: Node<H>, m: Node<H>, m': Node<H>)
    requires Sound(g, root) && m in g && m' in g
    ensures !Conflict(g[m].key, g[m'].key)
  {
    if Conflict(g[m].key, g[m'].key) {
      var i: nat :| DivergeAt(g[m].key, g[m'].key, i) && !g[m].key[i].Byte? && Rank(g[m].key[i]) == Rank(g[m'].key[i]);
      NoConflictAt(g, root, m, m', i);
    }
  }

  lemma NoConflictAt<H>(g: Graph<H>, root: Node<H>, m: Node<H>, m': Node<H>, i: nat)
    requires Sound(g, root) && m in g && m' in g
    requires i < |g[m].key| && i < |g[m'].key| && g[m].key[..i] == g[m'].key[..i]
    requires !g[m].key[i].Byte? && Rank(g[m].key[i]) == Rank(g[m'].key[i])
    ensures g[m].key[i] == g[m'].key[i]
  {
    var x := NodeBeforeMarker(g, root, root, m, i);
    ProperPrefix(g[m].key, i);
    ProperPrefix(g[m'].key, i);
    MarkerTowards(g, root, x, m);
    MarkerTowards(g, root, x, m');
  }

  /** A wildcard node on the way to a route is that route. */
  lemma WildcardHolds<H>(g: Graph<H>, root: Node<H>, routes: map<Pattern, H>, n: Node<H>)
    requires Sound(g, root) && Holds(g, routes) && Live(g, root, routes.Keys)
    requires n in g && g[n].wildcard != null
    ensures g[n].wildcard in g && g[g[n].wildcard].handler.Some?
  {
    assert MarkersOk(g, n);
    var w := g[n].wildcard;
    assert OnTheWay(g[w].key, routes.Keys);
    var k :| k in routes.Keys && g[w].key <= k;
    var m :| m in g && g[m].key == k && g[m].handler.Some?;
    if g[w].key != k {
      var _ := ChildTowards(g, root, w, m);
      assert false;
    }
  }
}
