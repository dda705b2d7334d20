/** The order of precedence among the elements of the Accept lines, by the text of their
    ranges: section 12.5.1 of RFC 9110. */
module AcceptOrder {
  import opened Options
  import opened AcceptRule

  /** The ranges that match a media type, the most general first. */
  datatype Kind = AnyType | AnySubtype | Exact

  predicate IsKind(range: string, kind: Kind, typ: string, sub: string) {
    match kind
    case AnyType => range == "*/*"
    case AnySubtype => SameFolded(range, typ + "/*")
    case Exact => SameFolded(range, typ + "/" + sub)
  }

  /** A range matches when its text is one of the three, and it is of one kind only. */
  lemma MatchingRanges(range: string, typ: string, sub: string)
    requires Token(typ) && Token(sub)
    ensures Specificity(range, typ, sub) > 0 <==> exists kind :: IsKind(range, kind, typ, sub)
    ensures forall kind, other ::
      IsKind(range, kind, typ, sub) && IsKind(range, other, typ, sub) ==> kind == other
  {
    KindsApart(range, typ, sub);
    if Specificity(range, typ, sub) > 0 {
      var kind := KindOf(range, typ, sub);
    }
    forall kind | IsKind(range, kind, typ, sub) ensures Specificity(range, typ, sub) > 0 {
      RankOfKind(range, kind, typ, sub);
    }
  }

  /** More specific kinds have the greater specificity. */
  lemma KindsAreOrdered(any: string, some: string, one: string, typ: string, sub: string)
    requires Token(typ) && Token(sub)
    requires IsKind(any, AnyType, typ, sub) && IsKind(some, AnySubtype, typ, sub) && IsKind(one, Exact, typ, sub)
    ensures 0 < Specificity(any, typ, sub) < Specificity(some, typ, sub) < Specificity(one, typ, sub)
  {
    RankOfKind(any, AnyType, typ, sub);
    RankOfKind(some, AnySubtype, typ, sub);
    RankOfKind(one, Exact, typ, sub);
  }

  function Rank(kind: Kind): nat {
    match kind
    case AnyType => 1
    case AnySubtype => 2
    case Exact => 3
  }

  lemma RankOfKind(range: string, kind: Kind, typ: string, sub: string)
    requires Token(typ) && Token(sub) && IsKind(range, kind, typ, sub)
    ensures Specificity(range, typ, sub) == Rank(kind)
  {
    TokenHas(typ);
    TokenHas(sub);
    match kind
    case AnyType =>
      IndexIs(range, '/', 1);
    case AnySubtype =>
      SlashAt(range, typ, "*");
    case Exact =>
      SlashAt(range, typ, sub);
  }

  /** A folding of a type and a subtype has its first slash between them. */
  lemma SlashAt(range: string, typ: string, sub: string)
    requires Token(typ) && (Token(sub) || sub == "*") && SameFolded(range, typ + "/" + sub)
    ensures IndexOf(range, '/') == |typ| && SameFolded(range[..|typ|], typ) && SameFolded(range[|typ| + 1..], sub)
    ensures range[..|typ|] != "*" && (range[|typ| + 1..] == "*" <==> sub == "*")
  {
    FoldedParts(range, typ + "/", sub);
    FoldedParts(range[..|typ| + 1], typ, "/");
    assert range[|typ| + 1..] == range[|typ + "/"|..];
    assert range[..|typ| + 1][..|typ|] == range[..|typ|];
    assert range[|typ|] == range[..|typ| + 1][|typ|..][0] == '/';
    NoSlash(range[..|typ|], typ);
    IndexIs(range, '/', |typ|);
    if Token(sub) {
      NoSlash(range[|typ| + 1..], sub);
      TokenHas(sub);
    } else {
      FoldedStar(range[|typ| + 1..]);
    }
  }

  lemma FoldedStar(s: string)
    requires SameFolded(s, "*")
    ensures s == "*"
  {
    assert s == [s[0]] && Lower(s[0]) == '*';
  }

  lemma FoldedParts(s: string, a: string, b: string)
    requires SameFolded(s, a + b)
    ensures SameFolded(s[..|a|], a) && SameFolded(s[|a|..], b)
  {
    assert forall i :: 0 <= i < |a| ==> (a + b)[i] == a[i];
    assert forall i :: 0 <= i < |b| ==> (a + b)[|a| + i] == b[i];
  }

  lemma NoSlash(s: string, token: string)
    requires Token(token) && SameFolded(s, token)
    ensures '/' !in s && s != "*"
  {
    forall i | 0 <= i < |s| ensures s[i] != '/' && s[i] != '*' {
      FoldedToken(token[i], s[i]);
    }
    assert s[0] != '*' && "*"[0] == '*';
  }

  lemma FoldedToken(c: char, d: char)
    requires TokenChar(c) && Lower(c) == Lower(d)
    ensures d != '/' && d != '*'
  {
  }

  lemma KindsApart(range: string, typ: string, sub: string)
    requires Token(typ) && Token(sub)
    ensures forall kind, other ::
      IsKind(range, kind, typ, sub) && IsKind(range, other, typ, sub) ==> kind == other
  {
    forall kind, other | IsKind(range, kind, typ, sub) && IsKind(range, other, typ, sub) ensures kind == other {
      RankOfKind(range, kind, typ, sub);
      RankOfKind(range, other, typ, sub);
    }
  }

  lemma KindOf(range: string, typ: string, sub: string) returns (kind: Kind)
    requires Token(typ) && Token(sub) && Specificity(range, typ, sub) > 0
    ensures IsKind(range, kind, typ, sub)
  {
    var i := IndexOf(range, '/');
    var rt, rs := range[..i], range[i + 1..];
    assert range == rt + "/" + rs;
    kind := if rt == "*" then AnyType else if rs == "*" then AnySubtype else Exact;
  }

  // ----- which element counts

  /** The element's range matches in this way, and its parameters give a weight. */
  predicate Applies(elem: string, kind: Kind, typ: string, sub: string) {
    && IsKind(Trim(elem[..FirstCut(elem, ';')]), kind, typ, sub)
    && Weight(Items(Tail(elem, FirstCut(elem, ';')), ';')).Some?
  }

  function WeightOf(elem: string): nat {
    var weight := Weight(Items(Tail(elem, FirstCut(elem, ';')), ';'));
    if weight.Some? then weight.value else 0
  }

  /** Where the first element stands that matches in this way, or their number. */
  function First(elems: seq<string>, kind: Kind, typ: string, sub: string): (i: nat)
    ensures i <= |elems|
    ensures i < |elems| ==> Applies(elems[i], kind, typ, sub)
    ensures forall j :: 0 <= j < i ==> !Applies(elems[j], kind, typ, sub)
  {
    if elems == [] then 0
    else if Applies(elems[0], kind, typ, sub) then 0
    else First(elems[1..], kind, typ, sub) + 1
  }

  /** The first exact range; failing that, the first of its type; failing that, the first of
      any type; failing that, nothing. */
  function Precedence(elems: seq<string>, typ: string, sub: string): nat {
    var exact, some, any := First(elems, Exact, typ, sub), First(elems, AnySubtype, typ, sub),
      First(elems, AnyType, typ, sub);
    if exact < |elems| then WeightOf(elems[exact])
    else if some < |elems| then WeightOf(elems[some])
    else if any < |elems| then WeightOf(elems[any])
    else 0
  }

  /** What the lines say of a media type is what that precedence says, wherever in them the
      elements stand. */
  lemma RatedByPrecedence(lines: seq<string>, typ: string, sub: string, q: nat)
    requires Token(typ) && Token(sub)
    ensures Rated(lines, typ, sub, q) <==> q == Precedence(Elements(lines), typ, sub)
  {
    hide Elements, Matches, Precedence, Leading;
    var elems := Elements(lines);
    var i, kind := Governing(elems, typ, sub);
    LeaderPrecedes(elems, i, kind, typ, sub);
    if Rated(lines, typ, sub, q) {
      RatedOnce(lines, typ, sub, q, Precedence(elems, typ, sub));
    }
  }

  /** Match i governs, it is of this kind, and so is the first element that has precedence. */
  predicate Leading(elems: seq<string>, i: nat, kind: Kind, typ: string, sub: string) {
    var ms := Matches(elems, typ, sub);
    if ms == [] then forall k :: First(elems, k, typ, sub) == |elems|
    else
      && Governs(ms, i) && First(elems, kind, typ, sub) < |elems|
      && ms[i] == Match(Rank(kind), WeightOf(elems[First(elems, kind, typ, sub)]))
      && forall k :: First(elems, k, typ, sub) < |elems| ==> Rank(k) <= Rank(kind)
  }

  lemma LeaderPrecedes(elems: seq<string>, i: nat, kind: Kind, typ: string, sub: string)
    requires Leading(elems, i, kind, typ, sub)
    ensures Gives(Matches(elems, typ, sub), Precedence(elems, typ, sub))
  {
    hide Matches, WeightOf, First;
    var exact, some, any := First(elems, Exact, typ, sub), First(elems, AnySubtype, typ, sub),
      First(elems, AnyType, typ, sub);
    assert exact < |elems| || some < |elems| || any < |elems| <==> Matches(elems, typ, sub) != [];
  }

  lemma {:induction false} Governing(elems: seq<string>, typ: string, sub: string) returns (i: nat, kind: Kind)
    requires Token(typ) && Token(sub)
    ensures Leading(elems, i, kind, typ, sub)
  {
    hide Leading;
    if elems == [] {
      i, kind := 0, AnyType;
      NothingLeads(typ, sub);
    } else {
      var before, elem := elems[..|elems| - 1], elems[|elems| - 1];
      i, kind := Governing(before, typ, sub);
      assert elems == before + [elem];
      i, kind := OneMoreLeads(before, elem, i, kind, typ, sub);
    }
  }

  lemma NothingLeads(typ: string, sub: string)
    ensures Leading([], 0, AnyType, typ, sub)
  {
  }

  lemma OneMoreLeads(before: seq<string>, elem: string, i: nat, kind: Kind, typ: string, sub: string)
      returns (i': nat, kind': Kind)
    requires Token(typ) && Token(sub) && Leading(before, i, kind, typ, sub)
    ensures Leading(before + [elem], i', kind', typ, sub)
  {
    hide Matches, MatchOf, First, WeightOf, Applies;
    i', kind' := i, kind;
    var ms := Matches(before, typ, sub);
    OneMoreElement(before, elem, typ, sub);
    forall k
      ensures First(before + [elem], k, typ, sub) == FirstIn(before, elem, k, typ, sub)
    {
      FirstPush(before, elem, k, typ, sub);
    }
    var m := MatchOf(elem, typ, sub);
    if m.Some? {
      var k := AppliesOnce(elem, typ, sub);
      if ms == [] || Rank(k) > Rank(kind) {
        i', kind' := |ms|, k;
        assert Governs(ms + [m.value], |ms|);
      } else {
        assert Governs(ms + [m.value], i);
      }
    } else {
      AppliesNever(elem, typ, sub);
      assert ms + [] == ms;
    }
  }

  /** Where the first stands when one more element follows. */
  function FirstIn(before: seq<string>, elem: string, kind: Kind, typ: string, sub: string): nat {
    if First(before, kind, typ, sub) < |before| then First(before, kind, typ, sub)
    else if Applies(elem, kind, typ, sub) then |before| else |before| + 1
  }

  lemma FirstPush(before: seq<string>, elem: string, kind: Kind, typ: string, sub: string)
    ensures First(before + [elem], kind, typ, sub) == FirstIn(before, elem, kind, typ, sub)
  {
    hide Applies;
    var i := First(before + [elem], kind, typ, sub);
    assert forall j :: 0 <= j < |before| ==> (before + [elem])[j] == before[j];
    assert (before + [elem])[|before|] == elem;
  }

  lemma AppliesOnce(elem: string, typ: string, sub: string) returns (kind: Kind)
    requires Token(typ) && Token(sub) && MatchOf(elem, typ, sub).Some?
    ensures MatchOf(elem, typ, sub) == Some(Match(Rank(kind), WeightOf(elem)))
    ensures forall k :: Applies(elem, k, typ, sub) <==> k == kind
  {
    hide Specificity, IsKind, Weight, Items;
    var range := Trim(elem[..FirstCut(elem, ';')]);
    kind := KindOf(range, typ, sub);
    RankOfKind(range, kind, typ, sub);
    KindsApart(range, typ, sub);
  }

  lemma AppliesNever(elem: string, typ: string, sub: string)
    requires Token(typ) && Token(sub) && MatchOf(elem, typ, sub).None?
    ensures forall k :: !Applies(elem, k, typ, sub)
  {
    hide Specificity, IsKind, Weight, Items;
    var range := Trim(elem[..FirstCut(elem, ';')]);
    forall k ensures !Applies(elem, k, typ, sub) {
      if Applies(elem, k, typ, sub) {
        RankOfKind(range, k, typ, sub);
      }
    }
  }
}
