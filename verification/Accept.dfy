/** The hand-written scanner behind Accepts, proved to compute the rule. */
module Accepting {
  import opened Options
  import opened AcceptRule

  // ----- scanning

  method TrimOws(b: string) returns (t: string)
    ensures t == Trim(b)
  {
    t := b;
    while |t| > 0 && IsOws(t[0])
      invariant TrimLeft(t) == TrimLeft(b)
      decreases |t|
    {
      t := t[1..];
    }
    while |t| > 0 && IsOws(t[|t| - 1])
      invariant TrimRight(t) == Trim(b)
      decreases |t|
    {
      t := t[..|t| - 1];
    }
  }

  /** The index of the first c, or the length. */
  method IndexByte(s: string, c: char) returns (i: nat)
    ensures i == IndexOf(s, c)
  {
    i := 0;
    while i < |s| && s[i] != c
      invariant i <= |s| && IndexOf(s, c) == i + IndexOf(s[i..], c)
    {
      assert s[i..][1..] == s[i + 1..];
      i := i + 1;
    }
  }

  method EqualFold(b: string, s: string) returns (same: bool)
    ensures same == SameFolded(b, s)
  {
    if |b| != |s| {
      return false;
    }
    for i := 0 to |b|
      invariant forall j :: 0 <= j < i ==> Lower(b[j]) == Lower(s[j])
    {
      if Lower(b[i]) != Lower(s[i]) {
        return false;
      }
    }
    same := true;
  }

  method IsMediaToken(s: string) returns (ok: bool)
    ensures ok == Token(s)
  {
    if s == "" {
      return false;
    }
    for i := 0 to |s|
      invariant forall j :: 0 <= j < i ==> TokenChar(s[j])
    {
      if !TokenChar(s[i]) {
        return false;
      }
    }
    ok := true;
  }

  /** Splits s at the first separator outside a quoted string. The scanner skips the byte
      after a backslash inside quotes, so it never meets an escaped byte. */
  method NextItem(s: string, sep: char) returns (item: string, rest: string)
    requires sep != '\"' && sep != '\\'
    ensures item == s[..FirstCut(s, sep)] && rest == Tail(s, FirstCut(s, sep))
  {
    var quoted := false;
    var i := 0;
    while i < |s|
      invariant i <= |s| ==> ModeAt(s, i) == if quoted then Quoted else Plain
      invariant forall j :: 0 <= j < i && j < |s| ==> !Cut(s, sep, j)
    {
      var c := s[i];
      if quoted && c == '\\' {
        Skipped(s, sep, i);
        i := i + 1;
      } else if c == '\"' {
        quoted := !quoted;
      } else if !quoted && c == sep {
        OnlyCut(s, sep, i);
        return s[..i], s[i + 1..];
      }
      i := i + 1;
    }
    OnlyCut(s, sep, |s|);
    return s, "";
  }

  lemma Skipped(s: string, sep: char, i: nat)
    requires i < |s| && ModeAt(s, i).Quoted? && s[i] == '\\'
    ensures !Cut(s, sep, i)
    ensures i + 1 < |s| ==> !Cut(s, sep, i + 1) && ModeAt(s, i + 2).Quoted?
  {
    assert ModeAt(s, i + 1) == Escaped;
  }

  lemma OnlyCut(s: string, sep: char, i: nat)
    requires i <= |s| && (i < |s| ==> Cut(s, sep, i)) && forall j :: 0 <= j < i ==> !Cut(s, sep, j)
    ensures FirstCut(s, sep) == i
  {
    var f := FirstCut(s, sep);
    assert f <= i;
    assert i <= f;
  }

  // ----- qvalues

  method ParseFraction(d: string) returns (q: Option<nat>)
    requires |d| <= 3
    ensures q == if Digits(d) then Some(Thousandths(d)) else None
  {
    var sum: nat, mul: nat := 0, 100;
    for i := 0 to |d|
      invariant Digits(d[..i]) && sum == Thousandths(d[..i])
      invariant mul == if i == 0 then 100 else if i == 1 then 10 else if i == 2 then 1 else 0
    {
      if !Digit(d[i]) {
        return None;
      }
      assert d[..i + 1] == d[..i] + [d[i]];
      sum := sum + DigitValue(d[i]) * mul;
      mul := mul / 10;
    }
    assert d[..|d|] == d;
    q := Some(sum);
  }

  /** A qvalue in thousandths, exactly when b is one. */
  method ParseQ(b: string) returns (q: Option<nat>)
    ensures q == Quality(b)
  {
    if |b| == 0 || |b| > 5 {
      return None;
    }
    if b[0] == '.' {
      if |b| == 1 || |b| > 4 {
        return None;
      }
      q := ParseFraction(b[1..]);
      return;
    }
    if |b| > 1 && b[1] != '.' {
      return None;
    }
    var rest := b[if |b| < 2 then |b| else 2..];
    if b[0] == '0' {
      assert |b| == 1 ==> b == "0";
      q := ParseFraction(rest);
      return;
    }
    if b[0] == '1' {
      assert |b| == 1 ==> b == "1";
      for i := 0 to |rest|
        invariant forall j :: 0 <= j < i ==> rest[j] == '0'
      {
        if rest[i] != '0' {
          return None;
        }
      }
      return Some(1000);
    }
    q := None;
  }

  // ----- ranges

  /** One element of an Accept line against a media type. */
  method MatchRange(elem: string, typ: string, sub: string) returns (m: Option<Match>)
    ensures m == MatchOf(elem, typ, sub)
  {
    var r, params := NextItem(elem, ';');
    r := TrimOws(r);
    var specificity := RangeSpecificity(r, typ, sub);
    if specificity == 0 {
      return None;
    }
    var weight := ParamsWeight(params);
    if weight.None? {
      return None;
    }
    m := Some(Match(specificity, weight.value));
  }

  method RangeSpecificity(r: string, typ: string, sub: string) returns (specificity: nat)
    ensures specificity == Specificity(r, typ, sub)
  {
    var i := IndexByte(r, '/');
    if i == |r| || i == 0 || i == |r| - 1 {
      return 0;
    }
    var rt, rs := r[..i], r[i + 1..];
    var sameType := EqualFold(rt, typ);
    var sameSub := EqualFold(rs, sub);
    if rt == "*" && rs == "*" {
      specificity := 1;
    } else if rt == "*" {
      specificity := 0;
    } else if !sameType {
      specificity := 0;
    } else if rs == "*" {
      specificity := 2;
    } else if sameSub {
      specificity := 3;
    } else {
      specificity := 0;
    }
  }

  method ParamsWeight(all: string) returns (weight: Option<nat>)
    ensures weight == Weight(Items(all, ';'))
  {
    hide Items, Weight, Quality, QText, FirstCut, Tail;
    var q := 1000;
    var params := all;
    ghost var done: seq<string> := [];
    NoParams();
    while |params| > 0
      invariant done + Items(params, ';') == Items(all, ';')
      invariant Weight(done) == Some(q)
      decreases |params|
    {
      ghost var before := done;
      FirstItem(params, ';');
      TailShrinks(params, ';');
      var p;
      p, params := NextItem(params, ';');
      done := done + [p];
      OneMoreParam(before, p);
      assert before + ([p] + Items(params, ';')) == done + Items(params, ';');
      var text := QOf(p);
      if text.Some? {
        var v := ParseQ(text.value);
        if v.None? {
          NoWeight(done, Items(params, ';'));
          return None;
        }
        q := v.value;
      }
    }
    AllItems(done, params, ';');
    weight := Some(q);
  }

  lemma NoParams()
    ensures Weight([]) == Some(1000)
  {
  }

  lemma OneMoreParam(params: seq<string>, p: string)
    ensures Weight(params + [p]) ==
      if Weight(params).None? then None
      else if QText(p).None? then Weight(params)
      else Quality(QText(p).value)
  {
    assert (params + [p])[..|params|] == params;
  }

  lemma TailShrinks(s: string, sep: char)
    requires s != ""
    ensures |Tail(s, FirstCut(s, sep))| < |s|
  {
  }

  lemma AllItems(done: seq<string>, rest: string, sep: char)
    requires rest == ""
    ensures done + Items(rest, sep) == done
  {
  }

  lemma {:induction false} NoWeight(done: seq<string>, rest: seq<string>)
    requires Weight(done).None?
    ensures Weight(done + rest).None?
  {
    if rest == [] {
      assert done + rest == done;
    } else {
      NoWeight(done, rest[..|rest| - 1]);
      assert (done + rest)[..|done + rest| - 1] == done + rest[..|rest| - 1];
    }
  }

  method QOf(p: string) returns (text: Option<string>)
    ensures text == QText(p)
  {
    var eq := IndexByte(p, '=');
    if eq == |p| {
      return None;
    }
    var name := TrimOws(p[..eq]);
    if |name| == 1 && (name[0] == 'q' || name[0] == 'Q') {
      assert name == [name[0]];
      var value := TrimOws(p[eq + 1..]);
      return Some(value);
    }
    text := None;
  }

  // ----- quality

  /** The quality the Accept lines give a media type. It returns as soon as it meets an
      exact match: nothing is more specific, and this is the first. */
  method OfferQuality(accepts: seq<string>, typ: string, sub: string) returns (q: nat)
    ensures Rated(accepts, typ, sub, q)
  {
    hide Items, Elements, Matches, MatchOf, FirstCut, Tail, Leads, Gives;
    var spec := 0;
    q := 0;
    ghost var seen: seq<string> := [];
    NothingLeads(accepts, typ, sub);
    for l := 0 to |accepts|
      invariant seen == Elements(accepts[..l])
      invariant Leads(Matches(seen, typ, sub), spec, q)
    {
      ghost var items: seq<string> := [];
      var rest := accepts[l];
      OneMoreLine(accepts, l);
      while |rest| > 0
        invariant seen == Elements(accepts[..l]) + items
        invariant items + Items(rest, ',') == Items(accepts[l], ',')
        invariant Leads(Matches(seen, typ, sub), spec, q)
        decreases |rest|
      {
        ghost var was := seen;
        FirstItem(rest, ',');
        TailShrinks(rest, ',');
        var elem;
        elem, rest := NextItem(rest, ',');
        assert items + ([elem] + Items(rest, ',')) == items + [elem] + Items(rest, ',');
        items, seen := items + [elem], seen + [elem];
        OneMoreElement(was, elem, typ, sub);
        var m := MatchRange(elem, typ, sub);
        if m.Some? {
          MatchIsSpecific(elem, typ, sub);
          if m.value.specificity == 3 {
            ExactSoFar(Matches(was, typ, sub), m.value, spec, q);
          } else {
            StillLeads(Matches(was, typ, sub), m.value, spec, q);
          }
          if m.value.specificity > spec {
            if m.value.specificity == 3 {
              Later(accepts, l, items, rest, typ, sub);
              ExactGoverns(Matches(was, typ, sub), m.value, Matches(Elements(accepts), typ, sub), spec, q);
              return m.value.q;
            }
            q, spec := m.value.q, m.value.specificity;
          }
        } else {
          assert Matches(was, typ, sub) + [] == Matches(was, typ, sub);
        }
      }
      AllItems(items, rest, ',');
    }
    assert accepts[..|accepts|] == accepts;
    LeaderGives(Matches(seen, typ, sub), spec, q);
  }

  /** spec and q are the governing match's so far, and 0 before the first match. */
  ghost predicate Leads(ms: seq<Match>, spec: nat, q: nat) {
    && (forall i :: 0 <= i < |ms| ==> 1 <= ms[i].specificity <= spec < 3)
    && if ms == [] then spec == 0 && q == 0 else exists i :: Governs(ms, i) && ms[i] == Match(spec, q)
  }

  lemma NothingLeads(accepts: seq<string>, typ: string, sub: string)
    ensures Elements(accepts[..0]) == [] && Leads(Matches([], typ, sub), 0, 0)
  {
  }

  lemma ExactSoFar(ms: seq<Match>, m: Match, spec: nat, q: nat)
    requires Leads(ms, spec, q) && m.specificity == 3
    ensures m.specificity > spec
  {
    if ms != [] {
      assert ms[0].specificity <= spec;
    }
  }

  lemma StillLeads(ms: seq<Match>, m: Match, spec: nat, q: nat)
    requires Leads(ms, spec, q) && 1 <= m.specificity < 3
    ensures if m.specificity > spec then Leads(ms + [m], m.specificity, m.q) else Leads(ms + [m], spec, q)
  {
    var after := ms + [m];
    if m.specificity > spec {
      assert Governs(after, |ms|);
    } else {
      var i :| Governs(ms, i) && ms[i] == Match(spec, q);
      assert Governs(after, i) && after[i] == ms[i];
    }
  }

  lemma LeaderGives(ms: seq<Match>, spec: nat, q: nat)
    requires Leads(ms, spec, q)
    ensures Gives(ms, q)
  {
  }

  lemma MatchIsSpecific(elem: string, typ: string, sub: string)
    ensures MatchOf(elem, typ, sub).Some? ==> 1 <= MatchOf(elem, typ, sub).value.specificity <= 3
  {
  }

  lemma {:induction false} MatchesGrow(a: seq<string>, b: seq<string>, typ: string, sub: string)
    ensures Matches(a, typ, sub) <= Matches(a + b, typ, sub)
  {
    if b == [] {
      assert a + b == a;
    } else {
      MatchesGrow(a, b[..|b| - 1], typ, sub);
      assert (a + b)[..|a + b| - 1] == a + b[..|b| - 1];
    }
  }

  lemma {:induction false} MatchesAreSpecific(elems: seq<string>, typ: string, sub: string)
    ensures forall i :: 0 <= i < |Matches(elems, typ, sub)| ==> 1 <= Matches(elems, typ, sub)[i].specificity <= 3
  {
    if elems != [] {
      MatchesAreSpecific(elems[..|elems| - 1], typ, sub);
      MatchIsSpecific(elems[|elems| - 1], typ, sub);
    }
  }

  lemma {:induction false} ElementsGrow(lines: seq<string>, l: nat)
    requires l <= |lines|
    ensures Elements(lines[..l]) <= Elements(lines)
    decreases |lines| - l
  {
    if l == |lines| {
      assert lines[..l] == lines;
    } else {
      assert lines[..l + 1][..l] == lines[..l];
      ElementsGrow(lines, l + 1);
    }
  }

  /** What is seen so far is where all the elements begin. */
  lemma SeenFirst(lines: seq<string>, l: nat, items: seq<string>, rest: string)
    requires l < |lines| && items + Items(rest, ',') == Items(lines[l], ',')
    ensures Elements(lines[..l]) + items <= Elements(lines)
  {
    hide Elements, Items;
    OneMoreLine(lines, l);
    ElementsGrow(lines, l + 1);
    assert Elements(lines[..l + 1]) == Elements(lines[..l]) + items + Items(rest, ',');
  }

  lemma Later(accepts: seq<string>, l: nat, items: seq<string>, rest: string, typ: string, sub: string)
    requires l < |accepts| && items + Items(rest, ',') == Items(accepts[l], ',')
    ensures Matches(Elements(accepts[..l]) + items, typ, sub) <= Matches(Elements(accepts), typ, sub)
    ensures forall i :: 0 <= i < |Matches(Elements(accepts), typ, sub)| ==>
      Matches(Elements(accepts), typ, sub)[i].specificity <= 3
  {
    hide Elements, Items, Matches, MatchOf;
    var all, seen := Elements(accepts), Elements(accepts[..l]) + items;
    SeenFirst(accepts, l, items, rest);
    assert all == seen + all[|seen|..];
    MatchesGrow(seen, all[|seen|..], typ, sub);
    MatchesAreSpecific(all, typ, sub);
  }

  lemma ExactGoverns(ms: seq<Match>, m: Match, all: seq<Match>, spec: nat, q: nat)
    requires Leads(ms, spec, q) && m.specificity == 3 && ms + [m] <= all
    requires forall i :: 0 <= i < |all| ==> all[i].specificity <= 3
    ensures Gives(all, m.q)
  {
    assert all[|ms|] == (ms + [m])[|ms|];
    assert forall i :: 0 <= i < |ms| ==> all[i] == ms[i];
    assert Governs(all, |ms|);
  }

  // ----- offers

  method SplitOffer(offer: string) returns (o: Offered)
    ensures o == OfferOf(offer)
  {
    var mt := offer;
    var i := IndexByte(mt, ';');
    if i < |mt| {
      mt := mt[..i];
    }
    assert mt == offer[..IndexOf(offer, ';')];
    mt := TrimOws(mt);
    i := IndexByte(mt, '/');
    var typ, sub := "", "";
    if i < |mt| {
      typ, sub := mt[..i], mt[i + 1..];
    }
    if typ == "*" || sub == "*" {
      return Wildcard;
    }
    var typOk := IsMediaToken(typ);
    var subOk := IsMediaToken(sub);
    if !typOk || !subOk {
      return NotMediaType;
    }
    o := Type(typ, sub);
  }

  datatype Choice = Chosen(offer: nat) | NoneAcceptable | BadOffer(offer: nat, why: Offered)

  /** Whether the request sent an Accept line that says anything. */
  predicate Present(accepts: seq<string>) {
    exists l :: 0 <= l < |accepts| && Trim(accepts[l]) != ""
  }

  ghost predicate HasQuality(accepts: seq<string>, offer: string, q: nat) {
    OfferOf(offer).Type? && Rated(accepts, OfferOf(offer).typ, OfferOf(offer).sub, q)
  }

  /** best is the first of the offers before n with the greatest quality, bestQ, if that is
      positive. */
  ghost predicate BestBefore(accepts: seq<string>, offers: seq<string>, n: nat, best: Option<nat>, bestQ: nat)
    requires n <= |offers|
  {
    && (best.None? ==> bestQ == 0)
    && (best.Some? ==> best.value < n && bestQ > 0 && HasQuality(accepts, offers[best.value], bestQ))
    && (forall i, q: nat :: 0 <= i < n && HasQuality(accepts, offers[i], q) ==> q <= bestQ)
    && (best.Some? ==> forall i, q: nat :: 0 <= i < best.value && HasQuality(accepts, offers[i], q) ==> q < bestQ)
  }

  function Picked(c: Choice): Option<nat> {
    if c.Chosen? then Some(c.offer) else None
  }

  /** The rule: an offer that names no media type is refused, whatever was sent; without an
      Accept header the first offer is chosen; otherwise the first offer with the greatest
      quality, if that is positive. Not rating the offers after one of quality 1000 changes
      nothing. */
  method Negotiate(accepts: seq<string>, offers: seq<string>) returns (r: Choice)
    ensures r.BadOffer? <==> exists i :: 0 <= i < |offers| && !OfferOf(offers[i]).Type?
    ensures r.BadOffer? ==>
      && r.offer < |offers| && r.why == OfferOf(offers[r.offer]) && !r.why.Type?
      && forall i :: 0 <= i < r.offer ==> OfferOf(offers[i]).Type?
    ensures !r.BadOffer? && !Present(accepts) ==> r == if offers == [] then NoneAcceptable else Chosen(0)
    ensures !r.BadOffer? && Present(accepts) ==>
      exists q :: BestBefore(accepts, offers, |offers|, Picked(r), q)
  {
    hide Rated, OfferOf;
    var present := false;
    for l := 0 to |accepts|
      invariant !present && forall k :: 0 <= k < l ==> Trim(accepts[k]) == ""
    {
      var t := TrimOws(accepts[l]);
      if |t| > 0 {
        present := true;
        break;
      }
    }
    assert present == Present(accepts);
    var best: Option<nat>, bestQ := None, 0;
    for i := 0 to |offers|
      invariant forall k :: 0 <= k < i ==> OfferOf(offers[k]).Type?
      invariant !present ==> best == (if i == 0 then None else Some(0)) && bestQ == 0
      invariant present ==> BestBefore(accepts, offers, i, best, bestQ) && bestQ <= 1000
    {
      var o := SplitOffer(offers[i]);
      if !o.Type? {
        return BadOffer(i, o);
      }
      if !present {
        if i == 0 {
          best := Some(0);
        }
        continue;
      }
      if bestQ == 1000 {
        AtMostOne(accepts, offers[i]);
        continue;
      }
      var q := OfferQuality(accepts, o.typ, o.sub);
      RatedQuality(accepts, offers[i], q);
      if q > bestQ {
        best, bestQ := Some(i), q;
      }
    }
    r := if best.Some? then Chosen(best.value) else NoneAcceptable;
    assert Picked(r) == best;
  }

  lemma RatedQuality(accepts: seq<string>, offer: string, q: nat)
    requires HasQuality(accepts, offer, q)
    ensures forall p: nat :: HasQuality(accepts, offer, p) ==> p == q
    ensures q <= 1000
  {
    forall p: nat | HasQuality(accepts, offer, p) ensures p == q {
      RatedOnce(accepts, OfferOf(offer).typ, OfferOf(offer).sub, p, q);
    }
    AtMostOne(accepts, offer);
  }

  lemma AtMostOne(accepts: seq<string>, offer: string)
    ensures forall p: nat :: HasQuality(accepts, offer, p) ==> p <= 1000
  {
    if OfferOf(offer).Type? {
      var typ, sub := OfferOf(offer).typ, OfferOf(offer).sub;
      MatchesAtMostOne(Elements(accepts), typ, sub);
    }
  }

  lemma {:induction false} MatchesAtMostOne(elems: seq<string>, typ: string, sub: string)
    ensures forall i :: 0 <= i < |Matches(elems, typ, sub)| ==> Matches(elems, typ, sub)[i].q <= 1000
  {
    if elems != [] {
      MatchesAtMostOne(elems[..|elems| - 1], typ, sub);
      var elem := elems[|elems| - 1];
      WeightAtMostOne(Items(Tail(elem, FirstCut(elem, ';')), ';'));
    }
  }

  lemma {:induction false} WeightAtMostOne(params: seq<string>)
    ensures Weight(params).Some? ==> Weight(params).value <= 1000
  {
    if params != [] {
      WeightAtMostOne(params[..|params| - 1]);
      var text := QText(params[|params| - 1]);
      if text.Some? {
        QualityIsAtMostOne(text.value);
      }
    }
  }

  // ----- Vary

  /** Whether some Vary line lists Accept, in any case, or a star. */
  predicate ListsAccept(lines: seq<string>) {
    exists i :: 0 <= i < |Elements(lines)| && Lists(Elements(lines)[i])
  }

  predicate Lists(elem: string) { Trim(elem) == "*" || SameFolded(Trim(elem), "Accept") }

  /** Adds Vary: Accept unless a line already says so; every other line stays. */
  method AddVaryAccept(lines: seq<string>) returns (r: seq<string>)
    ensures r == if ListsAccept(lines) then lines else lines + ["Accept"]
    ensures ListsAccept(r)
  {
    hide Elements, Items, FirstCut, Tail, Trim, SameFolded;
    NoLines(lines);
    for l := 0 to |lines|
      invariant NoneLists(Elements(lines[..l]))
    {
      ghost var items: seq<string> := [];
      var rest := lines[l];
      OneMoreLine(lines, l);
      while |rest| > 0
        invariant items + Items(rest, ',') == Items(lines[l], ',') && NoneLists(items)
        decreases |rest|
      {
        FirstItem(rest, ',');
        TailShrinks(rest, ',');
        var tok;
        tok, rest := NextItem(rest, ',');
        assert items + ([tok] + Items(rest, ',')) == items + [tok] + Items(rest, ',');
        ghost var elem := tok;
        items := items + [tok];
        tok := TrimOws(tok);
        var same := EqualFold(tok, "Accept");
        if tok == "*" || same {
          assert Lists(elem);
          ListedLater(lines, l, items, rest, elem);
          return lines;
        }
      }
      AllItems(items, rest, ',');
    }
    assert lines[..|lines|] == lines;
    AcceptIsListed(lines);
    r := lines + ["Accept"];
  }

  predicate NoneLists(elems: seq<string>) {
    forall i :: 0 <= i < |elems| ==> !Lists(elems[i])
  }

  lemma NoLines(lines: seq<string>)
    ensures Elements(lines[..0]) == []
  {
  }

  lemma ListedLater(lines: seq<string>, l: nat, items: seq<string>, rest: string, elem: string)
    requires l < |lines| && items + Items(rest, ',') == Items(lines[l], ',')
    requires items != [] && items[|items| - 1] == elem && Lists(elem)
    ensures ListsAccept(lines)
  {
    hide Elements, Items, Lists;
    SeenFirst(lines, l, items, rest);
    var seen := Elements(lines[..l]) + items;
    assert Elements(lines)[|seen| - 1] == seen[|seen| - 1] == elem;
  }

  lemma AcceptIsListed(lines: seq<string>)
    ensures ListsAccept(lines + ["Accept"])
  {
    var r := lines + ["Accept"];
    assert r[..|r| - 1] == lines;
    assert forall i :: 0 <= i < 6 ==> !Cut("Accept", ',', i);
    assert FirstCut("Accept", ',') == 6;
    assert Items("Accept", ',') == ["Accept"] by {
      assert "Accept"[..6] == "Accept";
    }
    assert Trim("Accept") == "Accept";
    assert Elements(r)[|Elements(lines)|] == "Accept";
  }
}
