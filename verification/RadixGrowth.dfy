/** The two ways insertion rewires the tree, and why each keeps the invariant: hanging a
    new leaf under a node, and splitting a static node in two. */
module RadixGrowth {
  import opened Options
  import opened Routes
  import opened RadixGraph

  /** No node goes on from cur with the symbol s. */
  ghost predicate Clear<H>(g: Graph<H>, cur: Node<H>, s: Sym)
    requires cur in g
  {
    forall m :: m in g && g[cur].key < g[m].key ==> g[m].key[|g[cur].key|] != s
  }

  lemma ClearStatic<H>(g: Graph<H>, root: Node<H>, cur: Node<H>, b: char)
    requires Sound(g, root) && cur in g
    requires forall c :: c in g[cur].statics && c in g && g[c].prefix != "" ==> g[c].prefix[0] != b
    ensures Clear(g, cur, Byte(b))
  {
    forall m | m in g && g[cur].key < g[m].key ensures g[m].key[|g[cur].key|] != Byte(b) {
      if g[m].key[|g[cur].key|].Byte? {
        var _ := StaticTowards(g, root, cur, m);
      }
    }
  }

  lemma ClearMarker<H>(g: Graph<H>, root: Node<H>, cur: Node<H>, s: Sym)
    requires Sound(g, root) && cur in g
    requires s.Param? ==> g[cur].param == null
    requires s.Wild? ==> g[cur].wildcard == null
    requires !s.Byte?
    ensures Clear(g, cur, s)
  {
    forall m | m in g && g[cur].key < g[m].key ensures g[m].key[|g[cur].key|] != s {
      if !g[m].key[|g[cur].key|].Byte? {
        MarkerTowards(g, root, cur, m);
      }
    }
  }

  // ----- a new leaf

  /** g' is g with the new node x hung under cur, everything else as it was. */
  ghost predicate Hung<H>(g: Graph<H>, g': Graph<H>, cur: Node<H>, x: Node<H>) {
    && cur in g && x !in g && g'.Keys == g.Keys + {x}
    && (forall n :: n in g && n != cur ==> g'[n] == g[n])
    && g'[cur].key == g[cur].key && g'[cur].handler == g[cur].handler
    && g'[cur].prefix == g[cur].prefix && g'[cur].name == g[cur].name
    && (forall c :: c in g && IsChild(g, cur, c) ==> IsChild(g', cur, c))
    && IsChild(g', cur, x)
    && g'[x].handler == None && g'[x].statics == [] && g'[x].param == null && g'[x].wildcard == null
    && g[cur].key < g'[x].key
    && Clear(g, cur, g'[x].key[|g[cur].key|])
  }

  lemma PrefixIndex(p: Pattern, q: Pattern, i: nat)
    requires i < |p|
    ensures p <= q ==> i < |q| && p[i] == q[i]
  {
  }

  lemma BeyondLeaf<H>(g: Graph<H>, g': Graph<H>, cur: Node<H>, x: Node<H>, m: Node<H>)
    requires Hung(g, g', cur, x) && m in g
    ensures !(g'[x].key <= g[m].key)
  {
    PrefixIndex(g'[x].key, g[m].key, |g[cur].key|);
  }

  lemma HungDistinct<H>(g: Graph<H>, g': Graph<H>, cur: Node<H>, x: Node<H>)
    requires KeysDistinct(g) && Hung(g, g', cur, x)
    ensures KeysDistinct(g')
  {
    forall m | m in g ensures g[m].key != g'[x].key {
      BeyondLeaf(g, g', cur, x, m);
    }
  }

  lemma HungCovered<H>(g: Graph<H>, g': Graph<H>, root: Node<H>, cur: Node<H>, x: Node<H>)
    requires Sound(g, root) && Hung(g, g', cur, x)
    ensures Covered(g')
  {
    forall n, m | n in g' && m in g' && g'[n].key < g'[m].key ensures LeadsTo(g', n, g'[m].key) {
      if n == x {
        BeyondLeaf(g, g', cur, x, m);
      } else if m == x {
        TowardsLeaf(g, g', root, cur, x, n);
      } else {
        assert LeadsTo(g, n, g[m].key);
        KeepsLead(g, g', root, cur, x, n, g[m].key);
      }
    }
  }

  lemma KeepsLead<H>(g: Graph<H>, g': Graph<H>, root: Node<H>, cur: Node<H>, x: Node<H>, n: Node<H>, key: Pattern)
    requires Sound(g, root) && Hung(g, g', cur, x) && n in g && LeadsTo(g, n, key)
    ensures LeadsTo(g', n, key)
  {
    var c :| IsChild(g, n, c) && c in g && g[c].key <= key;
    assert IsChild(g', n, c) && g'[c].key <= key;
  }

  lemma TowardsLeaf<H>(g: Graph<H>, g': Graph<H>, root: Node<H>, cur: Node<H>, x: Node<H>, n: Node<H>)
    requires Sound(g, root) && Hung(g, g', cur, x) && n in g && g[n].key < g'[x].key
    ensures LeadsTo(g', n, g'[x].key)
  {
    if |g[n].key| < |g[cur].key| {
      assert g[n].key < g[cur].key;
      assert LeadsTo(g, n, g[cur].key);
      KeepsLead(g, g', root, cur, x, n, g[cur].key);
      var c :| IsChild(g', n, c) && c in g' && g'[c].key <= g[cur].key;
      assert g'[c].key <= g'[x].key;
    } else if |g[n].key| == |g[cur].key| {
      assert g[n].key == g[cur].key;
      assert IsChild(g', n, x);
    } else {
      assert false;
    }
  }

  lemma HungElsewhere<H>(g: Graph<H>, g': Graph<H>, cur: Node<H>, x: Node<H>, n: Node<H>)
    requires Hung(g, g', cur, x) && n in g && n != cur && StaticsOk(g, n) && MarkersOk(g, n)
    requires g[n].wildcard != cur
    ensures StaticsOk(g', n) && MarkersOk(g', n)
  {
    forall c | c in g[n].statics ensures g'[c].prefix == g[c].prefix && g'[c].key == g[c].key {}
  }

  /** Hanging a leaf keeps the invariant, provided the new child is a proper child. */
  lemma HungSound<H>(g: Graph<H>, g': Graph<H>, root: Node<H>, routes: map<Pattern, H>, cur: Node<H>, x: Node<H>)
    requires Sound(g, root) && Holds(g, routes) && Hung(g, g', cur, x)
    requires StaticsOk(g', cur) && MarkersOk(g', cur)
    requires forall n :: n in g && n != root ==> g[n].wildcard != cur
    requires g[root].wildcard != cur
    ensures Sound(g', root) && Holds(g', routes)
  {
    HungDistinct(g, g', cur, x);
    HungCovered(g, g', root, cur, x);
    forall n | n in g' ensures StaticsOk(g', n) && MarkersOk(g', n) {
      if n != cur && n != x {
        assert StaticsOk(g, n) && MarkersOk(g, n);
        HungElsewhere(g, g', cur, x, n);
      }
    }
    forall k | k in routes ensures exists n :: n in g' && g'[n].key == k && g'[n].handler.Some? {
      var n :| n in g && g[n].key == k && g[n].handler.Some?;
      assert n in g' && g'[n].key == k && g'[n].handler.Some?;
    }
  }

  /** Nothing that is on the way to a pattern stops being so. */
  lemma HungLive<H>(g: Graph<H>, g': Graph<H>, root: Node<H>, cur: Node<H>, x: Node<H>, keys: set<Pattern>,
                    target: Pattern)
    requires Hung(g, g', cur, x) && Live(g, root, keys) && target in keys && g'[x].key <= target
    ensures Live(g', root, keys)
  {
  }

  // ----- splitting a static node

  /** g' is g with the static child of n split at cp: child keeps the shared head of its
      prefix, and the new node tail takes the rest and everything that hung below. */
  ghost predicate Cut<H>(g: Graph<H>, g': Graph<H>, n: Node<H>, child: Node<H>, tail: Node<H>, cp: nat) {
    && n in g && child in g[n].statics && child in g && tail !in g
    && 0 < cp < |g[child].prefix|
    && g'.Keys == g.Keys + {tail}
    && (forall m :: m in g && m != child ==> g'[m] == g[m])
    && g'[tail] == g[child].(prefix := g[child].prefix[cp..], name := g'[tail].name)
    && g'[child] == Fields(g[child].prefix[..cp], None, [tail], null, null, g[child].name,
                           g[n].key + Bytes(g[child].prefix[..cp]))
  }

  lemma CutKeys<H>(g: Graph<H>, g': Graph<H>, root: Node<H>, n: Node<H>, child: Node<H>, tail: Node<H>, cp: nat)
    requires Sound(g, root) && Cut(g, g', n, child, tail, cp)
    ensures g[n].key < g'[child].key < g'[tail].key == g[child].key
    ensures g[child].key == g[n].key + Bytes(g[child].prefix)
    ensures g'[tail].key == g'[child].key + Bytes(g'[tail].prefix)
  {
    assert StaticsOk(g, n);
    SplitRun(g[n].key, g[child].prefix, cp);
  }

  lemma SplitRun(key: Pattern, text: string, cp: nat)
    requires 0 < cp < |text|
    ensures key + Bytes(text) == key + Bytes(text[..cp]) + Bytes(text[cp..])
    ensures key < key + Bytes(text[..cp]) < key + Bytes(text)
  {
    BytesSplit(text, cp);
    var a, b := Bytes(text[..cp]), Bytes(text[cp..]);
    Reassociate(key, a, b);
    Longer(key, a);
    Longer(key + a, b);
  }

  lemma Reassociate(p: Pattern, q: Pattern, r: Pattern)
    ensures p + (q + r) == (p + q) + r
  {
  }

  lemma Longer(p: Pattern, q: Pattern)
    requires q != []
    ensures p < p + q
  {
  }

  lemma BytesSplit(text: string, cp: nat)
    requires cp <= |text|
    ensures Bytes(text) == Bytes(text[..cp]) + Bytes(text[cp..])
  {
  }

  /** Every node beyond the cut point lay at or below the node that is cut. */
  lemma BeyondCut<H>(g: Graph<H>, g': Graph<H>, root: Node<H>, n: Node<H>, child: Node<H>, tail: Node<H>, cp: nat,
                     m: Node<H>)
    requires Sound(g, root) && Cut(g, g', n, child, tail, cp)
    requires m in g && g'[child].key <= g[m].key
    ensures g[child].key <= g[m].key
  {
    CutKeys(g, g', root, n, child, tail, cp);
    assert StaticsOk(g, n);
    assert g[m].key[|g[n].key|] == g'[child].key[|g[n].key|] == Byte(g[child].prefix[0]);
    var c := StaticTowards(g, root, n, m);
    var i :| 0 <= i < |g[n].statics| && g[n].statics[i] == c;
    var j :| 0 <= j < |g[n].statics| && g[n].statics[j] == child;
  }

  lemma CutDistinct<H>(g: Graph<H>, g': Graph<H>, root: Node<H>, n: Node<H>, child: Node<H>, tail: Node<H>, cp: nat)
    requires Sound(g, root) && Cut(g, g', n, child, tail, cp)
    ensures KeysDistinct(g')
  {
    CutKeys(g, g', root, n, child, tail, cp);
    forall m | m in g ensures g[m].key != g'[child].key {
      if g[m].key == g'[child].key {
        BeyondCut(g, g', root, n, child, tail, cp, m);
      }
    }
  }

  lemma CutCovered<H>(g: Graph<H>, g': Graph<H>, root: Node<H>, n: Node<H>, child: Node<H>, tail: Node<H>, cp: nat)
    requires Sound(g, root) && Cut(g, g', n, child, tail, cp)
    ensures Covered(g')
  {
    CutKeys(g, g', root, n, child, tail, cp);
    forall a, b | a in g' && b in g' && g'[a].key < g'[b].key ensures LeadsTo(g', a, g'[b].key) {
      if a == child {
        CutFromHead(g, g', root, n, child, tail, cp, b);
      } else if b == child {
        CutToHead(g, g', root, n, child, tail, cp, a);
      } else {
        var a' := if a == tail then child else a;
        var b' := if b == tail then child else b;
        CutElsewhere(g, g', root, n, child, tail, cp, a', b');
      }
    }
  }

  lemma CutFromHead<H>(g: Graph<H>, g': Graph<H>, root: Node<H>, n: Node<H>, child: Node<H>, tail: Node<H>, cp: nat,
                       b: Node<H>)
    requires Sound(g, root) && Cut(g, g', n, child, tail, cp)
    requires b in g' && g'[child].key < g'[b].key
    ensures LeadsTo(g', child, g'[b].key)
  {
    CutKeys(g, g', root, n, child, tail, cp);
    if b != tail {
      BeyondCut(g, g', root, n, child, tail, cp, b);
    }
    assert tail in g'[child].statics;
    assert IsChild(g', child, tail) && g'[tail].key <= g'[b].key;
  }

  lemma CutToHead<H>(g: Graph<H>, g': Graph<H>, root: Node<H>, n: Node<H>, child: Node<H>, tail: Node<H>, cp: nat,
                     a: Node<H>)
    requires Sound(g, root) && Cut(g, g', n, child, tail, cp)
    requires a in g' && a != child && g'[a].key < g'[child].key
    ensures LeadsTo(g', a, g'[child].key)
  {
    CutKeys(g, g', root, n, child, tail, cp);
    assert a in g && g[a].key < g[child].key;
    var c := ChildTowards(g, root, a, child);
    if c != child && |g'[child].key| <= |g[c].key| {
      assert g'[child].key <= g[c].key;
      BeyondCut(g, g', root, n, child, tail, cp, c);
    }
    assert IsChild(g', a, c) && g'[c].key <= g'[child].key;
  }

  lemma CutElsewhere<H>(g: Graph<H>, g': Graph<H>, root: Node<H>, n: Node<H>, child: Node<H>, tail: Node<H>, cp: nat,
                        a: Node<H>, b: Node<H>)
    requires Sound(g, root) && Cut(g, g', n, child, tail, cp)
    requires a in g && b in g && g[a].key < g[b].key
    ensures LeadsTo(g', if a == child then tail else a, g[b].key)
  {
    CutKeys(g, g', root, n, child, tail, cp);
    var c := ChildTowards(g, root, a, b);
    var a' := if a == child then tail else a;
    assert IsChild(g', a', c) && g'[c].key <= g[b].key;
  }

  lemma CutLinked<H>(g: Graph<H>, g': Graph<H>, root: Node<H>, n: Node<H>, child: Node<H>, tail: Node<H>, cp: nat)
    requires Sound(g, root) && Cut(g, g', n, child, tail, cp)
    ensures Linked(g')
  {
    CutKeys(g, g', root, n, child, tail, cp);
    forall a | a in g' ensures StaticsOk(g', a) && MarkersOk(g', a) {
      if a != child {
        var a' := if a == tail then child else a;
        CutLinkedAt(g, g', root, n, child, tail, cp, a');
      }
    }
  }

  lemma OneParent<H>(g: Graph<H>, root: Node<H>, n: Node<H>, child: Node<H>, a: Node<H>)
    requires Sound(g, root) && n in g && a in g
    requires child in g[n].statics && child in g[a].statics
    ensures a == n
  {
    assert StaticsOk(g, a) && StaticsOk(g, n);
    var p := Bytes(g[child].prefix);
    assert (g[a].key + p)[..|g[a].key|] == g[a].key && (g[n].key + p)[..|g[n].key|] == g[n].key;
  }

  lemma CutLinkedAt<H>(g: Graph<H>, g': Graph<H>, root: Node<H>, n: Node<H>, child: Node<H>, tail: Node<H>, cp: nat,
                       a: Node<H>)
    requires Sound(g, root) && Cut(g, g', n, child, tail, cp) && a in g
    ensures var a' := if a == child then tail else a; StaticsOk(g', a') && MarkersOk(g', a')
  {
    CutKeys(g, g', root, n, child, tail, cp);
    assert StaticsOk(g, a) && MarkersOk(g, a);
    if child in g[a].statics {
      OneParent(g, root, n, child, a);
    }
    CutStaticsAt(g, g', n, child, tail, cp, a);
    CutMarkersAt(g, g', n, child, tail, cp, a);
  }

  lemma CutStaticsAt<H>(g: Graph<H>, g': Graph<H>, n: Node<H>, child: Node<H>, tail: Node<H>, cp: nat, a: Node<H>)
    requires Cut(g, g', n, child, tail, cp) && a in g && StaticsOk(g, a)
    requires g[child].key == g[n].key + Bytes(g[child].prefix)
    requires child in g[a].statics ==> a == n
    ensures StaticsOk(g', if a == child then tail else a)
  {
    var a' := if a == child then tail else a;
    forall c | c in g[a].statics
      ensures c in g' && g'[c].prefix != "" && g'[c].key == g'[a'].key + Bytes(g'[c].prefix)
      ensures g'[c].prefix[0] == g[c].prefix[0]
    {
      if c == child {
        assert g'[child].key == g[n].key + Bytes(g[child].prefix[..cp]);
        assert |g[child].key| > |g[n].key|;
      }
    }
    forall i | 0 <= i < |g[a].statics|
      ensures g[a].statics[i] in g && g'[g[a].statics[i]].prefix[0] == g[g[a].statics[i]].prefix[0]
    {
      assert g[a].statics[i] in g[a].statics;
    }
  }

  lemma CutMarkersAt<H>(g: Graph<H>, g': Graph<H>, n: Node<H>, child: Node<H>, tail: Node<H>, cp: nat, a: Node<H>)
    requires Cut(g, g', n, child, tail, cp) && a in g && MarkersOk(g, a)
    requires g[child].key == g[n].key + Bytes(g[child].prefix)
    ensures MarkersOk(g', if a == child then tail else a)
  {
    assert g[child].key[|g[child].key| - 1] == Byte(g[child].prefix[|g[child].prefix| - 1]);
    assert g[a].param != child && g[a].wildcard != child;
  }

  lemma CutSound<H>(g: Graph<H>, g': Graph<H>, root: Node<H>, routes: map<Pattern, H>,
                    n: Node<H>, child: Node<H>, tail: Node<H>, cp: nat)
    requires Sound(g, root) && Holds(g, routes) && Cut(g, g', n, child, tail, cp)
    ensures Sound(g', root) && Holds(g', routes)
  {
    CutKeys(g, g', root, n, child, tail, cp);
    CutDistinct(g, g', root, n, child, tail, cp);
    CutCovered(g, g', root, n, child, tail, cp);
    CutLinked(g, g', root, n, child, tail, cp);
    forall k | k in routes ensures exists m :: m in g' && g'[m].key == k && g'[m].handler.Some? {
      var m: Node<H> :| m in g && g[m].key == k && g[m].handler.Some?;
      var m': Node<H> := if m == child then tail else m;
      assert m' in g' && g'[m'].key == k && g'[m'].handler.Some?;
    }
  }

  lemma CutLive<H>(g: Graph<H>, g': Graph<H>, root: Node<H>, n: Node<H>, child: Node<H>, tail: Node<H>, cp: nat,
                   keys: set<Pattern>)
    requires Sound(g, root) && Cut(g, g', n, child, tail, cp) && Live(g, root, keys)
    ensures Live(g', root, keys)
  {
    CutKeys(g, g', root, n, child, tail, cp);
    assert child != root;
    assert OnTheWay(g[child].key, keys);
    var k :| k in keys && g[child].key <= k;
    assert g'[child].key <= k && g'[tail].key <= k;
  }

  // ----- the steps of an insertion, as changes of the snapshot

  /** The snapshot after a static leaf is appended to cur. */
  ghost function WithLeaf<H>(g: Graph<H>, cur: Node<H>, leaf: Node<H>, text: string): Graph<H>
    requires cur in g
  {
    g[cur := g[cur].(statics := g[cur].statics + [leaf])]
     [leaf := Fields(text, None, [], null, null, "", g[cur].key + Bytes(text))]
  }

  /** The snapshot after cur gets a marker child. */
  ghost function WithMarker<H>(g: Graph<H>, cur: Node<H>, child: Node<H>, s: Sym): Graph<H>
    requires cur in g && !s.Byte?
  {
    g[cur := if s.Param? then g[cur].(param := child) else g[cur].(wildcard := child)]
     [child := Fields("", None, [], null, null, s.name, g[cur].key + [s])]
  }

  /** The snapshot after child, a static child of n, is split. */
  ghost function WithCut<H>(g: Graph<H>, n: Node<H>, child: Node<H>, tail: Node<H>, cp: nat): Graph<H>
    requires n in g && child in g && cp <= |g[child].prefix|
  {
    g[child := Fields(g[child].prefix[..cp], None, [tail], null, null, g[child].name,
                      g[n].key + Bytes(g[child].prefix[..cp]))]
     [tail := g[child].(prefix := g[child].prefix[cp..], name := "")]
  }

  /** Nothing goes on below a wildcard, so a node some well-formed pattern passes is none. */
  lemma NotWildcard<H>(g: Graph<H>, root: Node<H>, cur: Node<H>, target: Pattern)
    requires Sound(g, root) && cur in g && WellFormed(target) && g[cur].key < target
    ensures forall n :: n in g ==> g[n].wildcard != cur
  {
    forall n | n in g ensures g[n].wildcard != cur {
      assert MarkersOk(g, n);
      if g[cur].key != [] {
        PrefixIndex(g[cur].key, target, |g[cur].key| - 1);
      }
    }
  }

  lemma LeafGrows<H>(g: Graph<H>, root: Node<H>, routes: map<Pattern, H>, keys: set<Pattern>,
                     cur: Node<H>, leaf: Node<H>, text: string, target: Pattern)
    requires Grown(g, root, routes, keys) && target in keys && WellFormed(target)
    requires cur in g && leaf !in g && text != "" && g[cur].key + Bytes(text) <= target
    requires forall c :: c in g[cur].statics && c in g && g[c].prefix != "" ==> g[c].prefix[0] != text[0]
    ensures Grown(WithLeaf(g, cur, leaf, text), root, routes, keys)
  {
    var g' := WithLeaf(g, cur, leaf, text);
    ClearStatic(g, root, cur, text[0]);
    NotWildcard(g, root, cur, target);
    assert Hung(g, g', cur, leaf);
    LeafIsChild(g, root, cur, leaf, text);
    HungSound(g, g', root, routes, cur, leaf);
    HungLive(g, g', root, cur, leaf, keys, target);
  }

  lemma LeafIsChild<H>(g: Graph<H>, root: Node<H>, cur: Node<H>, leaf: Node<H>, text: string)
    requires Sound(g, root) && cur in g && leaf !in g && text != ""
    requires forall c :: c in g[cur].statics && c in g && g[c].prefix != "" ==> g[c].prefix[0] != text[0]
    ensures var g' := WithLeaf(g, cur, leaf, text); StaticsOk(g', cur) && MarkersOk(g', cur)
  {
    assert StaticsOk(g, cur) && MarkersOk(g, cur);
    var g', ss := WithLeaf(g, cur, leaf, text), g[cur].statics;
    forall c | c in ss + [leaf]
      ensures c in g' && g'[c].prefix != "" && g'[c].key == g'[cur].key + Bytes(g'[c].prefix)
    {
      if c != leaf {
        assert c in ss;
        assert c != cur by { assert |g[c].key| > |g[cur].key|; }
      }
    }
    forall i | 0 <= i < |ss| ensures ss[i] in g && g'[ss[i]].prefix == g[ss[i]].prefix {
      assert ss[i] in ss;
    }
  }

  lemma MarkerGrows<H>(g: Graph<H>, root: Node<H>, routes: map<Pattern, H>, keys: set<Pattern>,
                       cur: Node<H>, child: Node<H>, s: Sym, target: Pattern)
    requires Grown(g, root, routes, keys) && target in keys && WellFormed(target)
    requires cur in g && child !in g && !s.Byte? && g[cur].key + [s] <= target
    requires if s.Param? then g[cur].param == null else g[cur].wildcard == null
    ensures Grown(WithMarker(g, cur, child, s), root, routes, keys)
  {
    var g' := WithMarker(g, cur, child, s);
    ClearMarker(g, root, cur, s);
    NotWildcard(g, root, cur, target);
    assert Hung(g, g', cur, child);
    MarkerIsChild(g, root, cur, child, s);
    HungSound(g, g', root, routes, cur, child);
    HungLive(g, g', root, cur, child, keys, target);
  }

  lemma MarkerIsChild<H>(g: Graph<H>, root: Node<H>, cur: Node<H>, child: Node<H>, s: Sym)
    requires Sound(g, root) && cur in g && child !in g && !s.Byte?
    ensures var g' := WithMarker(g, cur, child, s); StaticsOk(g', cur) && MarkersOk(g', cur)
  {
    assert StaticsOk(g, cur) && MarkersOk(g, cur);
    var ss := g[cur].statics;
    forall c | c in ss ensures c != cur {
      assert |g[c].key| > |g[cur].key|;
    }
  }

  lemma CutGrows<H>(g: Graph<H>, root: Node<H>, routes: map<Pattern, H>, keys: set<Pattern>,
                    n: Node<H>, child: Node<H>, tail: Node<H>, cp: nat)
    requires Grown(g, root, routes, keys)
    requires n in g && child in g[n].statics && child in g && tail !in g && 0 < cp < |g[child].prefix|
    ensures Grown(WithCut(g, n, child, tail, cp), root, routes, keys)
  {
    var g' := WithCut(g, n, child, tail, cp);
    CutSound(g, g', root, routes, n, child, tail, cp);
    CutLive(g, g', root, n, child, tail, cp, keys);
  }
}
