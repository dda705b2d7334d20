/** What a route pattern means, independently of the tree that indexes it.

    A pattern is a sequence of symbols: literal bytes, `:name` parameters and a final
    `*name` wildcard.  A pattern matches a path when some captured values, put back in
    place of its markers, spell the path.  Among several registered patterns matching one
    path, the better is the one that has the stronger symbol where they first differ. */
module Routes {

  datatype Sym =
    | Byte(b: char)
    | Param(name: string)
    | Wild(name: string)

  type Pattern = seq<Sym>

  /** One captured parameter; the zero value is `Capture("", "")`. */
  datatype Capture = Capture(key: string, value: string)

  const NO_CAPTURE := Capture("", "")

  /** The symbols of a literal run. */
  function Bytes(text: string): (p: Pattern)
    ensures |p| == |text|
    ensures forall i :: 0 <= i < |text| ==> p[i] == Byte(text[i])
  {
    seq(|text|, i requires 0 <= i < |text| => Byte(text[i]))
  }

  /** How many values a pattern captures. */
  function Markers(p: Pattern): nat {
    if p == [] then 0 else (if p[0].Byte? then 0 else 1) + Markers(p[1..])
  }

  /** The pattern with its markers replaced by values. */
  function Fill(p: Pattern, vals: seq<string>): string
    requires |vals| == Markers(p)
  {
    if p == [] then ""
    else if p[0].Byte? then [p[0].b] + Fill(p[1..], vals)
    else vals[0] + Fill(p[1..], vals[1..])
  }

  /** A parameter takes one non-empty path segment, a wildcard any non-empty rest. */
  predicate Admissible(p: Pattern, vals: seq<string>)
    requires |vals| == Markers(p)
  {
    if p == [] then true
    else if p[0].Byte? then Admissible(p[1..], vals)
    else
      && vals[0] != ""
      && (p[0].Param? ==> '/' !in vals[0])
      && Admissible(p[1..], vals[1..])
  }

  ghost predicate Matches(p: Pattern, path: string, vals: seq<string>) {
    |vals| == Markers(p) && Admissible(p, vals) && Fill(p, vals) == path
  }

  ghost predicate Matchable(p: Pattern, path: string) {
    exists vals :: Matches(p, path, vals)
  }

  /** The captures a match records, in pattern order. */
  function Captured(p: Pattern, vals: seq<string>): (cs: seq<Capture>)
    requires |vals| == Markers(p)
    ensures |cs| == |vals|
  {
    if p == [] then []
    else if p[0].Byte? then Captured(p[1..], vals)
    else [Capture(p[0].name, vals[0])] + Captured(p[1..], vals[1..])
  }

  /** What the parser guarantees of every pattern it accepts: a parameter is a whole
      segment, and nothing follows a wildcard. */
  predicate WellFormed(p: Pattern) {
    forall i {:trigger p[i]} :: 0 <= i < |p| - 1 ==>
      && !p[i].Wild?
      && (p[i].Param? ==> p[i + 1] == Byte('/'))
  }

  function Rank(s: Sym): nat {
    match s
    case Byte(_) => 0
    case Param(_) => 1
    case Wild(_) => 2
  }

  /** Two patterns agree before position i and differ at it. */
  ghost predicate DivergeAt(p: Pattern, q: Pattern, i: nat) {
    i < |p| && i < |q| && p[..i] == q[..i] && p[i] != q[i]
  }

  /** p wins over q: static byte before parameter before wildcard, where they part. */
  ghost predicate Better(p: Pattern, q: Pattern) {
    exists i: nat :: DivergeAt(p, q, i) && Rank(p[i]) < Rank(q[i])
  }

  /** Two patterns that no tree can hold together: markers of one kind but with
      different names at one position. */
  ghost predicate Conflict(p: Pattern, q: Pattern) {
    exists i: nat :: DivergeAt(p, q, i) && !p[i].Byte? && Rank(p[i]) == Rank(q[i])
  }

  /** p clashes with a registered pattern over the name of a marker. */
  ghost predicate Clashes(registered: set<Pattern>, p: Pattern) {
    exists q :: q in registered && Conflict(q, p)
  }

  /** Whether p may join the registered patterns. */
  ghost predicate Compatible(registered: set<Pattern>, p: Pattern) {
    p !in registered && !Clashes(registered, p)
  }

  /** p is the route that must answer for path. */
  ghost predicate IsBest(registered: set<Pattern>, path: string, p: Pattern) {
    && p in registered
    && Matchable(p, path)
    && forall q :: q in registered && Matchable(q, path) ==> q == p || Better(p, q)
  }

  // ----- a match consumes something at every symbol

  lemma {:induction false} FillNonEmpty(p: Pattern, vals: seq<string>)
    requires |vals| == Markers(p) && Admissible(p, vals)
    ensures Fill(p, vals) == "" <==> p == []
  {
  }

  /** Only the empty pattern matches the empty path. */
  lemma EmptyPath(p: Pattern)
    ensures Matchable(p, "") <==> p == []
  {
    if p == [] {
      assert Matches(p, "", []);
    }
    forall vals | Matches(p, "", vals) ensures p == [] {
      FillNonEmpty(p, vals);
    }
  }

  // ----- reading a pattern one symbol at a time

  lemma ByteStep(b: char, p: Pattern, path: string)
    ensures Matchable([Byte(b)] + p, path) <==> path != "" && path[0] == b && Matchable(p, path[1..])
  {
    var q := [Byte(b)] + p;
    assert q[1..] == p;
    if Matchable(q, path) {
      var vals :| Matches(q, path, vals);
      assert path == [b] + Fill(p, vals);
      assert path[1..] == Fill(p, vals);
      assert Matches(p, path[1..], vals);
    }
    if path != "" && path[0] == b && Matchable(p, path[1..]) {
      var vals :| Matches(p, path[1..], vals);
      assert [b] + path[1..] == path;
      assert Matches(q, path, vals);
    }
  }

  /** A literal run in front of a pattern is a literal run in front of the path. */
  lemma {:induction false} BytesStep(text: string, p: Pattern, path: string)
    ensures Matchable(Bytes(text) + p, path) <==> text <= path && Matchable(p, path[|text|..])
  {
    if text == "" {
      assert Bytes(text) + p == p;
      assert path[0..] == path;
    } else {
      var t, rest := text[0], text[1..];
      assert Bytes(text) + p == [Byte(t)] + (Bytes(rest) + p);
      ByteStep(t, Bytes(rest) + p, path);
      if path != "" && path[0] == t {
        BytesStep(rest, p, path[1..]);
        assert text <= path <==> rest <= path[1..];
        if text <= path { assert path[1..][|rest|..] == path[|text|..]; }
      }
    }
  }

  /** The length of the path segment a lookup would capture: up to the next slash. */
  function SegLen(path: string): (n: nat)
    ensures n <= |path|
    ensures forall i :: 0 <= i < n ==> path[i] != '/'
    ensures n < |path| ==> path[n] == '/'
  {
    if path == "" || path[0] == '/' then 0 else 1 + SegLen(path[1..])
  }

  /** The value in front of what a slash-led or empty rest spells is the whole segment. */
  lemma {:induction false} SegLenOf(v: string, rest: string)
    requires '/' !in v
    requires rest == "" || rest[0] == '/'
    ensures SegLen(v + rest) == |v|
  {
    if v == "" {
      assert v + rest == rest;
    } else {
      assert (v + rest)[1..] == v[1..] + rest;
      SegLenOf(v[1..], rest);
    }
  }

  /** A parameter that is a whole segment captures exactly the next segment. */
  lemma ParamStep(name: string, p: Pattern, path: string)
    requires p == [] || p[0] == Byte('/')
    ensures Matchable([Param(name)] + p, path) <==>
            SegLen(path) > 0 && Matchable(p, path[SegLen(path)..])
    ensures forall vals :: Matches([Param(name)] + p, path, vals) ==>
            |vals| > 0 && vals[0] == path[..SegLen(path)] && Matches(p, path[SegLen(path)..], vals[1..])
  {
    var q := [Param(name)] + p;
    assert q[1..] == p;
    forall vals | Matches(q, path, vals)
      ensures SegLen(path) > 0 && |vals| > 0 && vals[0] == path[..SegLen(path)]
        && Matches(p, path[SegLen(path)..], vals[1..])
    {
      var rest := Fill(p, vals[1..]);
      assert path == vals[0] + rest;
      SegLenOf(vals[0], rest);
      assert path[..|vals[0]|] == vals[0] && path[|vals[0]|..] == rest;
    }
    var i := SegLen(path);
    if i > 0 && Matchable(p, path[i..]) {
      var vals :| Matches(p, path[i..], vals);
      ParamFill(name, p, path, vals);
      assert Matches(q, path, [path[..i]] + vals);
    }
  }

  /** Capturing the next segment and then matching the rest is a match. */
  lemma ParamFill(name: string, p: Pattern, path: string, vals: seq<string>)
    requires SegLen(path) > 0
    requires Matches(p, path[SegLen(path)..], vals)
    ensures Matches([Param(name)] + p, path, [path[..SegLen(path)]] + vals)
    ensures Matchable([Param(name)] + p, path)
    ensures Captured([Param(name)] + p, [path[..SegLen(path)]] + vals)
         == [Capture(name, path[..SegLen(path)])] + Captured(p, vals)
  {
    var q := [Param(name)] + p;
    var v := path[..SegLen(path)];
    var vs := [v] + vals;
    assert q[1..] == p && vs[1..] == vals;
    assert v + path[SegLen(path)..] == path;
    assert Matches(q, path, vs);
  }

  /** A literal run adds no captures. */
  lemma {:induction false} BytesFill(text: string, p: Pattern, path: string, vals: seq<string>)
    requires text <= path && Matches(p, path[|text|..], vals)
    ensures Matches(Bytes(text) + p, path, vals) && Matchable(Bytes(text) + p, path)
    ensures Captured(Bytes(text) + p, vals) == Captured(p, vals)
  {
    if text == "" {
      assert Bytes(text) + p == p;
      assert path[0..] == path;
    } else {
      var t, rest := text[0], text[1..];
      var q := Bytes(rest) + p;
      assert Bytes(text) + p == [Byte(t)] + q;
      assert ([Byte(t)] + q)[1..] == q;
      assert path[1..][|rest|..] == path[|text|..];
      BytesFill(rest, p, path[1..], vals);
      assert [t] + path[1..] == path;
    }
    assert Matches(Bytes(text) + p, path, vals);
  }

  lemma WildStep(name: string, path: string)
    ensures Matchable([Wild(name)], path) <==> path != ""
    ensures path != "" ==> Matches([Wild(name)], path, [path])
    ensures Captured([Wild(name)], [path]) == [Capture(name, path)]
  {
    var q := [Wild(name)];
    assert q[1..] == [];
    assert [path][1..] == [];
    assert path + "" == path;
    if path != "" {
      assert Fill(q, [path]) == path;
      assert Matches(q, path, [path]);
    }
    forall vals | Matches(q, path, vals) ensures path != "" {
      FillNonEmpty(q, vals);
    }
  }

  // ----- markers and divergence under a common prefix

  lemma {:induction false} MarkersAppend(p: Pattern, q: Pattern)
    ensures Markers(p + q) == Markers(p) + Markers(q)
  {
    if p == [] {
      assert p + q == q;
    } else {
      assert (p + q)[1..] == p[1..] + q;
      MarkersAppend(p[1..], q);
    }
  }

  lemma {:induction false} BytesHaveNoMarkers(text: string)
    ensures Markers(Bytes(text)) == 0
  {
    if text != "" {
      assert Bytes(text)[1..] == Bytes(text[1..]);
      BytesHaveNoMarkers(text[1..]);
    }
  }

  lemma BetterUnderPrefix(k: Pattern, p: Pattern, q: Pattern)
    requires Better(p, q)
    ensures Better(k + p, k + q)
  {
    var i: nat :| DivergeAt(p, q, i) && Rank(p[i]) < Rank(q[i]);
    assert (k + p)[..|k| + i] == k + p[..i] == k + q[..i] == (k + q)[..|k| + i];
    assert DivergeAt(k + p, k + q, |k| + i);
  }

  lemma AgreeBefore(p: Pattern, q: Pattern, i: nat)
    requires i <= |p| && i <= |q| && p[..i] == q[..i]
    ensures forall j :: 0 <= j < i ==> p[j] == q[j]
  {
    forall j | 0 <= j < i ensures p[j] == q[j] {
      assert p[j] == p[..i][j] && q[j] == q[..i][j];
    }
  }

  lemma DivergeOnce(p: Pattern, q: Pattern, i: nat, j: nat)
    requires DivergeAt(p, q, i) && (DivergeAt(p, q, j) || DivergeAt(q, p, j))
    ensures i == j
  {
    AgreeBefore(p, q, i);
    AgreeBefore(p, q, j);
  }

  lemma BetterIsOneWay(p: Pattern, q: Pattern)
    requires Better(p, q)
    ensures !Better(q, p) && p != q
  {
    var i: nat :| DivergeAt(p, q, i) && Rank(p[i]) < Rank(q[i]);
    forall j: nat | DivergeAt(q, p, j) ensures j == i {
      DivergeOnce(p, q, i, j);
    }
  }

  /** The best route is unique, so naming it is deciding the lookup. */
  lemma BestIsUnique(registered: set<Pattern>, path: string, p: Pattern, q: Pattern)
    requires IsBest(registered, path, p) && IsBest(registered, path, q)
    ensures p == q
  {
    if p != q {
      BetterIsOneWay(p, q);
    }
  }

  /** A well-formed pattern matches a path in at most one way. */
  lemma {:induction false} MatchIsUnique(p: Pattern, path: string, v: seq<string>, w: seq<string>)
    requires WellFormed(p)
    requires Matches(p, path, v) && Matches(p, path, w)
    ensures v == w
    decreases |p|
  {
    if p != [] {
      var tail := p[1..];
      assert p == [p[0]] + tail;
      assert WellFormed(tail) by {
        forall i | 0 <= i < |tail| - 1
          ensures !tail[i].Wild? && (tail[i].Param? ==> tail[i + 1] == Byte('/'))
        {
          assert tail[i] == p[i + 1];
        }
      }
      match p[0] {
        case Byte(b) =>
          assert path == [b] + Fill(tail, v) == [b] + Fill(tail, w);
          assert path[1..] == Fill(tail, v) == Fill(tail, w);
          MatchIsUnique(tail, path[1..], v, w);
        case Param(name) =>
          ParamStep(name, tail, path);
          MatchIsUnique(tail, path[SegLen(path)..], v[1..], w[1..]);
          assert v == [v[0]] + v[1..] && w == [w[0]] + w[1..];
        case Wild(_) =>
          assert tail == [];
          assert v[1..] == [] && w[1..] == [];
          assert path == v[0] + "" == w[0] + "";
          assert |v| == |w| == 1;
          assert Fill(tail, v[1..]) == "" && Fill(tail, w[1..]) == "";
          assert v[0] == v[0] + "" && w[0] == w[0] + "";
          assert v == [v[0]] && w == [w[0]];
      }
    }
  }
}
