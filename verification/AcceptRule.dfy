/** What content negotiation means: sections 12.5.1 and 12.4.2 of RFC 9110, with quoted
    strings as in section 5.6.4, on the lines of the Accept header. */
module AcceptRule {
  import opened Options

  // ----- white space and tokens

  predicate IsOws(c: char) { c == ' ' || c == '\t' }

  function TrimLeft(s: string): string {
    if s != "" && IsOws(s[0]) then TrimLeft(s[1..]) else s
  }

  function TrimRight(s: string): string {
    if s != "" && IsOws(s[|s| - 1]) then TrimRight(s[..|s| - 1]) else s
  }

  function Trim(s: string): string { TrimRight(TrimLeft(s)) }

  predicate AllOws(s: string) { forall i :: 0 <= i < |s| ==> IsOws(s[i]) }

  /** Trimming takes spaces and tabs off both ends, and only there. */
  lemma TrimStrips(s: string) returns (before: string, after: string)
    ensures s == before + Trim(s) + after && AllOws(before) && AllOws(after)
    ensures Trim(s) != "" ==> !IsOws(Trim(s)[0]) && !IsOws(Trim(s)[|Trim(s)| - 1])
  {
    before := StripLeft(s);
    after := StripRight(TrimLeft(s));
  }

  lemma {:induction false} StripLeft(s: string) returns (before: string)
    ensures s == before + TrimLeft(s) && AllOws(before)
    ensures TrimLeft(s) != "" ==> !IsOws(TrimLeft(s)[0])
  {
    before := "";
    if s != "" && IsOws(s[0]) {
      before := StripLeft(s[1..]);
      before := [s[0]] + before;
    }
  }

  lemma {:induction false} StripRight(s: string) returns (after: string)
    ensures s == TrimRight(s) + after && AllOws(after)
    ensures TrimRight(s) != "" ==> !IsOws(TrimRight(s)[|TrimRight(s)| - 1]) && TrimRight(s)[0] == s[0]
  {
    after := "";
    if s != "" && IsOws(s[|s| - 1]) {
      after := StripRight(s[..|s| - 1]);
      after := after + [s[|s| - 1]];
    }
  }

  predicate Letter(c: char) { 'a' <= c <= 'z' || 'A' <= c <= 'Z' }

  predicate Digit(c: char) { '0' <= c <= '9' }

  /** A token character other than the star. */
  predicate TokenChar(c: char) { Letter(c) || Digit(c) || c in "!#$%&'+-.^_`|~" }

  predicate Token(s: string) { s != "" && forall i :: 0 <= i < |s| ==> TokenChar(s[i]) }

  function Lower(c: char): char {
    if 'A' <= c <= 'Z' then (c as int + 32) as char else c
  }

  predicate SameFolded(a: string, b: string) {
    |a| == |b| && forall i :: 0 <= i < |a| ==> Lower(a[i]) == Lower(b[i])
  }

  // ----- quoted strings, and splitting outside them

  datatype Mode = Plain | Quoted | Escaped

  function NextMode(m: Mode, c: char): Mode {
    match m
    case Plain => if c == '\"' then Quoted else Plain
    case Quoted => if c == '\\' then Escaped else if c == '\"' then Plain else Quoted
    case Escaped => Quoted
  }

  /** How the scanner reads byte i. */
  function ModeAt(s: string, i: nat): Mode
    requires i <= |s|
  {
    if i == 0 then Plain else NextMode(ModeAt(s, i - 1), s[i - 1])
  }

  /** The separator at i stands outside every quoted string. */
  predicate Cut(s: string, sep: char, i: nat) {
    i < |s| && s[i] == sep && ModeAt(s, i).Plain?
  }

  /** The first such separator, or the length. */
  function FirstCut(s: string, sep: char): (i: nat)
    ensures i <= |s| && (i < |s| ==> Cut(s, sep, i)) && forall j :: 0 <= j < i ==> !Cut(s, sep, j)
  {
    CutFrom(s, sep, 0)
  }

  function CutFrom(s: string, sep: char, from: nat): (i: nat)
    requires from <= |s|
    ensures from <= i <= |s| && (i < |s| ==> Cut(s, sep, i)) && forall j :: from <= j < i ==> !Cut(s, sep, j)
    decreases |s| - from
  {
    if from == |s| || Cut(s, sep, from) then from else CutFrom(s, sep, from + 1)
  }

  function Tail(s: string, i: nat): string
    requires i <= |s|
  {
    if i < |s| then s[i + 1..] else ""
  }

  /** The parts of s between those separators. */
  function Items(s: string, sep: char): seq<string>
    decreases |s|
  {
    if s == "" then [] else [s[..FirstCut(s, sep)]] + Items(Tail(s, FirstCut(s, sep)), sep)
  }

  /** The content of a quoted string: qdtext, and pairs of a backslash and any byte. */
  predicate QuotedContent(s: string)
    decreases |s|
  {
    s == ""
    || (s[0] == '\\' && |s| > 1 && QuotedContent(s[2..]))
    || (s[0] != '\\' && s[0] != '\"' && QuotedContent(s[1..]))
  }

  /** A quoted string is read whole: nothing in it separates, and the scan goes on outside
      it as if it were not there. */
  lemma QuotedStringIsWhole(before: string, content: string, after: string, sep: char, i: nat)
    requires ModeAt(before, |before|).Plain? && QuotedContent(content) && sep != '\"'
    ensures var s := before + "\"" + content + "\"" + after;
      && (|before| <= i < |before| + |content| + 2 ==> !Cut(s, sep, i))
      && ModeAt(s, |before| + |content| + 2).Plain?
  {
    var s := before + "\"" + content + "\"" + after;
    var from := |before| + 1;
    SamePrefix(before, s, |before|);
    assert s[|before|] == '\"' && s[from..from + |content|] == content && s[from + |content|] == '\"';
    hide QuotedContent;
    Opens(s, |before|);
    ContentIsQuoted(s, from, content);
    Closes(s, from + |content|);
  }

  lemma Opens(s: string, i: nat)
    requires i < |s| && ModeAt(s, i).Plain? && s[i] == '\"'
    ensures ModeAt(s, i + 1).Quoted?
  {
  }

  lemma Closes(s: string, i: nat)
    requires i < |s| && ModeAt(s, i).Quoted? && s[i] == '\"'
    ensures ModeAt(s, i + 1).Plain?
  {
  }

  lemma {:induction false} SamePrefix(a: string, b: string, i: nat)
    requires i <= |a| && a <= b
    ensures ModeAt(a, i) == ModeAt(b, i)
  {
    if i > 0 {
      SamePrefix(a, b, i - 1);
    }
  }

  lemma {:induction false} ContentIsQuoted(s: string, from: nat, content: string)
    requires from + |content| <= |s| && s[from..from + |content|] == content
    requires ModeAt(s, from).Quoted? && QuotedContent(content)
    ensures forall i :: from <= i < from + |content| ==> !ModeAt(s, i).Plain?
    ensures ModeAt(s, from + |content|).Quoted?
    decreases |content|
  {
    if content != "" {
      assert s[from] == content[0];
      if content[0] == '\\' {
        assert s[from + 1] == content[1];
        assert ModeAt(s, from + 1) == Escaped;
        assert ModeAt(s, from + 2) == Quoted;
        assert s[from + 2..from + |content|] == content[2..];
        ContentIsQuoted(s, from + 2, content[2..]);
      } else {
        assert ModeAt(s, from + 1) == Quoted;
        assert s[from + 1..from + |content|] == content[1..];
        ContentIsQuoted(s, from + 1, content[1..]);
      }
    }
  }

  // ----- qvalues

  predicate Digits(s: string) { forall i :: 0 <= i < |s| ==> Digit(s[i]) }

  function DigitValue(c: char): nat
    requires Digit(c)
  {
    c as int - '0' as int
  }

  /** The digits after the point, in thousandths. */
  function Thousandths(d: string): nat
    requires |d| <= 3 && Digits(d)
  {
    (if |d| > 0 then DigitValue(d[0]) * 100 else 0)
    + (if |d| > 1 then DigitValue(d[1]) * 10 else 0)
    + (if |d| > 2 then DigitValue(d[2]) else 0)
  }

  predicate AllZeros(s: string) { forall i :: 0 <= i < |s| ==> s[i] == '0' }

  /** qvalue = "0" and up to three digits after a point, or "1" and up to three zeros. */
  predicate QValue(b: string) {
    || b == "0" || b == "1"
    || (2 <= |b| <= 5 && b[0] == '0' && b[1] == '.' && Digits(b[2..]))
    || (2 <= |b| <= 5 && b[0] == '1' && b[1] == '.' && AllZeros(b[2..]))
  }

  /** The form some clients send, without the leading 0. */
  predicate BareFraction(b: string) {
    2 <= |b| <= 4 && b[0] == '.' && Digits(b[1..])
  }

  function Quality(b: string): Option<nat> {
    if BareFraction(b) then Some(Thousandths(b[1..]))
    else if !QValue(b) then None
    else if b[0] == '1' then Some(1000)
    else if b == "0" then Some(0)
    else Some(Thousandths(b[2..]))
  }

  lemma QualityIsAtMostOne(b: string)
    ensures Quality(b).Some? ==> Quality(b).value <= 1000
    ensures Quality(b).Some? <==> QValue(b) || BareFraction(b)
  {
    if BareFraction(b) {
      assert forall i :: 0 <= i < |b[1..]| ==> Digit(b[1..][i]);
    }
  }

  /** A decimal numeral. */
  function Numeral(d: string): nat
    requires Digits(d)
  {
    if d == "" then 0 else 10 * Numeral(d[..|d| - 1]) + DigitValue(d[|d| - 1])
  }

  function Power10(n: nat): nat { if n == 0 then 1 else 10 * Power10(n - 1) }

  /** A quality is its decimal fraction in thousandths, with or without the leading 0. */
  lemma QualityIsItsFraction(d: string)
    requires |d| <= 3 && Digits(d)
    ensures Quality("0." + d).Some? && Quality("0." + d).value * Power10(|d|) == 1000 * Numeral(d)
    ensures d != "" ==> Quality("." + d) == Quality("0." + d)
    ensures Quality("0") == Some(0) && Quality("1") == Some(1000)
    ensures AllZeros(d) ==> Quality("1." + d) == Some(1000)
  {
    assert ("0." + d)[2..] == d && ("." + d)[1..] == d && ("1." + d)[2..] == d;
    FractionOf(d);
  }

  lemma FractionOf(d: string)
    requires |d| <= 3 && Digits(d)
    ensures Thousandths(d) * Power10(|d|) == 1000 * Numeral(d)
  {
    if |d| > 0 {
      assert d[..1][..0] == "";
      assert Numeral(d[..1]) == DigitValue(d[0]);
      if |d| == 1 {
        assert d[..1] == d;
      } else {
        assert d[..2][..1] == d[..1];
        assert Numeral(d[..2]) == 10 * Numeral(d[..1]) + DigitValue(d[1]);
        if |d| == 2 {
          assert d[..2] == d;
        }
      }
    }
    assert Power10(1) == 10 && Power10(2) == 100 && Power10(3) == 1000;
  }

  // ----- one element of an Accept line

  function IndexOf(s: string, c: char): (i: nat)
    ensures i <= |s| && (i < |s| ==> s[i] == c) && c !in s[..i]
  {
    if s == "" || s[0] == c then 0 else IndexOf(s[1..], c) + 1
  }

  /** How specific a range is for a media type: 3 for type/subtype, 2 for a type with any
      subtype, 1 for any type, 0 when it is malformed or does not match. */
  function Specificity(range: string, typ: string, sub: string): nat {
    var i := IndexOf(range, '/');
    if i == 0 || i + 1 >= |range| then 0
    else
      var rt, rs := range[..i], range[i + 1..];
      if rt == "*" then if rs == "*" then 1 else 0
      else if !SameFolded(rt, typ) then 0
      else if rs == "*" then 2
      else if SameFolded(rs, sub) then 3
      else 0
  }

  /** Whether a parameter is a q, and the text of its value. */
  function QText(p: string): Option<string> {
    var eq := IndexOf(p, '=');
    if eq == |p| then None
    else
      var name := Trim(p[..eq]);
      if name == "q" || name == "Q" then Some(Trim(p[eq + 1..])) else None
  }

  /** A parameter is a q when that is its name, in either case and with white space around it;
      the text of its value is trimmed too. */
  lemma QIsNamed(name: string, value: string)
    requires '=' !in name
    ensures QText(name + "=" + value) ==
      if Trim(name) == "q" || Trim(name) == "Q" then Some(Trim(value)) else None
    ensures QText(name).None?
  {
    var p := name + "=" + value;
    assert p[..|name|] == name && p[|name|] == '=' && p[|name| + 1..] == value;
    IndexIs(p, '=', |name|);
    assert IndexOf(name, '=') == |name|;
  }

  /** The weight the parameters give: 1000 without a q, the last q otherwise, and None when
      some q is not a qvalue. */
  function Weight(params: seq<string>): Option<nat> {
    if params == [] then Some(1000)
    else
      var p := params[|params| - 1];
      var before := Weight(params[..|params| - 1]);
      if before.None? then None
      else if QText(p).None? then before
      else Quality(QText(p).value)
  }

  predicate IsQ(p: string) { QText(p).Some? }

  /** The last q, or the number of parameters when there is none. */
  predicate LastQ(params: seq<string>, i: nat) {
    && i <= |params|
    && (i < |params| ==> IsQ(params[i]))
    && (forall j :: 0 <= j < |params| && (i == |params| || i < j) ==> !IsQ(params[j]))
  }

  /** A weight is given exactly when every q is a qvalue; then it is the last one's, or
      1000 without any. */
  lemma {:induction false} LastQCounts(params: seq<string>, i: nat)
    requires LastQ(params, i)
    ensures Weight(params).Some? <==> forall j :: 0 <= j < |params| && IsQ(params[j]) ==>
      Quality(QText(params[j]).value).Some?
    ensures Weight(params).Some? ==>
      Weight(params) == if i == |params| then Some(1000) else Quality(QText(params[i]).value)
  {
    if params != [] {
      var before := params[..|params| - 1];
      if i == |params| - 1 {
        var k := FindLastQ(before);
        LastQCounts(before, k);
      } else {
        LastQCounts(before, if i == |params| then |before| else i);
      }
      assert forall j :: 0 <= j < |before| ==> before[j] == params[j];
    }
  }

  function FindLastQ(params: seq<string>): (i: nat)
    ensures LastQ(params, i)
  {
    if params == [] then 0
    else if IsQ(params[|params| - 1]) then |params| - 1
    else
      var i := FindLastQ(params[..|params| - 1]);
      if i == |params| - 1 then |params| else i
  }

  /** A range that matches: its specificity and its weight. */
  datatype Match = Match(specificity: nat, q: nat)

  function MatchOf(elem: string, typ: string, sub: string): Option<Match> {
    var i := FirstCut(elem, ';');
    var specificity := Specificity(Trim(elem[..i]), typ, sub);
    if specificity == 0 then None
    else
      var weight := Weight(Items(Tail(elem, i), ';'));
      if weight.None? then None else Some(Match(specificity, weight.value))
  }

  // ----- all the lines

  function Elements(lines: seq<string>): seq<string> {
    if lines == [] then [] else Elements(lines[..|lines| - 1]) + Items(lines[|lines| - 1], ',')
  }

  lemma FirstItem(s: string, sep: char)
    requires s != ""
    ensures Items(s, sep) == [s[..FirstCut(s, sep)]] + Items(Tail(s, FirstCut(s, sep)), sep)
  {
  }

  /** Every line counts: its elements are among those of all the lines. */
  lemma {:induction false} EveryLineCounts(lines: seq<string>, part: string)
    ensures part in Elements(lines) <==> exists l :: 0 <= l < |lines| && part in Items(lines[l], ',')
  {
    if lines != [] {
      var n := |lines| - 1;
      hide Elements, Items;
      OneMoreLine(lines, n);
      assert lines[..n + 1] == lines;
      EveryLineCounts(lines[..n], part);
      assert forall l :: 0 <= l < n ==> lines[..n][l] == lines[l];
    }
  }

  function JoinWith(items: seq<string>, sep: char): string {
    if items == [] then "" else if |items| == 1 then items[0] else items[0] + [sep] + JoinWith(items[1..], sep)
  }

  /** The parts are s cut at the separators outside quoted strings, and only there: put
      together again they are s, up to a separator at its end, and none can be cut further. */
  lemma {:induction false} ItemsAreParts(s: string, sep: char)
    ensures JoinWith(Items(s, sep), sep) == s || JoinWith(Items(s, sep), sep) + [sep] == s
    ensures forall item :: item in Items(s, sep) ==> FirstCut(item, sep) == |item|
    decreases |s|
  {
    hide Items, JoinWith, FirstCut;
    if s != "" {
      var i := FirstCut(s, sep);
      var rest := Items(Tail(s, i), sep);
      ItemsAreParts(Tail(s, i), sep);
      FirstItem(s, sep);
      NoItems(Tail(s, i), sep);
      Uncut(s, sep);
      JoinStep(s[..i], rest, sep);
      assert i < |s| ==> s == s[..i] + [sep] + Tail(s, i);
      assert i == |s| ==> s == s[..i];
    } else {
      NoItems(s, sep);
      assert JoinWith([], sep) == "" by { JoinStep("", [], sep); }
    }
  }

  lemma JoinStep(first: string, rest: seq<string>, sep: char)
    ensures JoinWith([first] + rest, sep) == if rest == [] then first else first + [sep] + JoinWith(rest, sep)
    ensures JoinWith([], sep) == ""
  {
    assert ([first] + rest)[1..] == rest;
  }

  lemma NoItems(s: string, sep: char)
    ensures Items(s, sep) == [] <==> s == ""
  {
  }

  lemma Uncut(s: string, sep: char)
    ensures FirstCut(s[..FirstCut(s, sep)], sep) == FirstCut(s, sep)
  {
    var i := FirstCut(s, sep);
    forall j | 0 <= j < i ensures !Cut(s[..i], sep, j) {
      SamePrefix(s[..i], s, j);
      assert !Cut(s, sep, j);
    }
  }

  lemma OneMoreLine(lines: seq<string>, l: nat)
    requires l < |lines|
    ensures Elements(lines[..l + 1]) == Elements(lines[..l]) + Items(lines[l], ',')
  {
    assert lines[..l + 1][..l] == lines[..l];
  }

  /** The matches among some elements, in order. */
  function Matches(elems: seq<string>, typ: string, sub: string): seq<Match> {
    if elems == [] then []
    else
      var m := MatchOf(elems[|elems| - 1], typ, sub);
      Matches(elems[..|elems| - 1], typ, sub) + if m.Some? then [m.value] else []
  }

  lemma OneMoreElement(elems: seq<string>, elem: string, typ: string, sub: string)
    ensures var m := MatchOf(elem, typ, sub);
      Matches(elems + [elem], typ, sub) == Matches(elems, typ, sub) + if m.Some? then [m.value] else []
  {
    assert (elems + [elem])[..|elems|] == elems;
  }

  /** The governing match is the first among the most specific. */
  predicate Governs(ms: seq<Match>, i: int) {
    && 0 <= i < |ms|
    && (forall j :: 0 <= j < |ms| ==> ms[j].specificity <= ms[i].specificity)
    && (forall j :: 0 <= j < i ==> ms[j].specificity < ms[i].specificity)
  }

  /** q is the quality the matches give: the governing one's, or 0 without any. */
  ghost predicate Gives(ms: seq<Match>, q: nat) {
    if ms == [] then q == 0 else exists i :: Governs(ms, i) && ms[i].q == q
  }

  lemma OneGoverns(ms: seq<Match>, i: int, j: int)
    requires Governs(ms, i) && Governs(ms, j)
    ensures i == j
  {
    MostSpecific(ms, i, j);
    MostSpecific(ms, j, i);
    if i < j {
      FirstOfThem(ms, i, j);
    } else if j < i {
      FirstOfThem(ms, j, i);
    }
  }

  lemma MostSpecific(ms: seq<Match>, i: int, j: int)
    requires Governs(ms, i) && 0 <= j < |ms|
    ensures ms[j].specificity <= ms[i].specificity
  {
  }

  lemma FirstOfThem(ms: seq<Match>, i: int, j: int)
    requires Governs(ms, j) && 0 <= i < j
    ensures ms[i].specificity < ms[j].specificity
  {
  }

  /** What the lines say of a media type. */
  ghost predicate Rated(lines: seq<string>, typ: string, sub: string, q: nat) {
    Gives(Matches(Elements(lines), typ, sub), q)
  }

  lemma RatedOnce(lines: seq<string>, typ: string, sub: string, q: nat, r: nat)
    requires Rated(lines, typ, sub, q) && Rated(lines, typ, sub, r)
    ensures q == r
  {
    var ms := Matches(Elements(lines), typ, sub);
    if ms != [] {
      var i :| Governs(ms, i) && ms[i].q == q;
      var j :| Governs(ms, j) && ms[j].q == r;
      OneGoverns(ms, i, j);
    }
  }

  // ----- offers

  datatype Offered = Type(typ: string, sub: string) | Wildcard | NotMediaType

  function MediaType(offer: string): string { Trim(offer[..IndexOf(offer, ';')]) }

  /** An offer names a media type when, up to its parameters, it is two tokens around a
      slash, and neither is a star. */
  function OfferOf(offer: string): (o: Offered)
  {
    var mt := MediaType(offer);
    var i := IndexOf(mt, '/');
    var typ, sub := if i < |mt| then mt[..i] else "", if i < |mt| then mt[i + 1..] else "";
    if typ == "*" || sub == "*" then Wildcard
    else if !Token(typ) || !Token(sub) then NotMediaType
    else Type(typ, sub)
  }

  /** An offer names a media type exactly when its text is two tokens around a slash, with
      white space around them, and nothing after that or a semicolon and anything. */
  lemma OfferIsTwoTokens(offer: string, typ: string, sub: string)
    ensures OfferOf(offer) == Type(typ, sub) <==>
      Token(typ) && Token(sub) && exists before, after, more :: Spelled(offer, before, typ + "/" + sub, after, more)
  {
    OfferHasType(offer, typ, sub);
    if OfferOf(offer) == Type(typ, sub) {
      var i := IndexOf(offer, ';');
      var before, after := TrimStrips(offer[..i]);
      assert Spelled(offer, before, typ + "/" + sub, after, offer[i..]);
    }
    if Token(typ) && Token(sub) {
      forall before, after, more | Spelled(offer, before, typ + "/" + sub, after, more)
        ensures MediaType(offer) == typ + "/" + sub
      {
        SpelledType(offer, before, typ, sub, after, more);
      }
    }
  }

  predicate Spelled(offer: string, before: string, mt: string, after: string, more: string) {
    && AllOws(before) && AllOws(after) && (more != "" ==> more[0] == ';')
    && offer == before + mt + after + more
  }

  lemma SpelledType(offer: string, before: string, typ: string, sub: string, after: string, more: string)
    requires Token(typ) && Token(sub) && Spelled(offer, before, typ + "/" + sub, after, more)
    ensures MediaType(offer) == typ + "/" + sub
  {
    var core := typ + "/" + sub;
    var first := before + core + after;
    forall i | 0 <= i < |core| ensures !IsOws(core[i]) && core[i] != ';' {
      assert core[i] == '/' || TokenChar(core[i]);
    }
    forall i | 0 <= i < |first| ensures first[i] != ';' {
      assert first[i] in before || first[i] in core || first[i] in after;
    }
    assert offer[..|first|] == first;
    if more == "" {
      assert offer == first;
    } else {
      assert offer[|first|] == ';';
      IndexIs(offer, ';', |first|);
    }
    TrimIs(before, core, after);
  }

  lemma TrimIs(before: string, core: string, after: string)
    requires AllOws(before) && AllOws(after) && core != "" && !IsOws(core[0]) && !IsOws(core[|core| - 1])
    ensures Trim(before + core + after) == core
  {
    assert before + core + after == before + (core + after);
    TrimLeftIs(before, core + after);
    TrimRightIs(core, after);
  }

  lemma {:induction false} TrimLeftIs(before: string, rest: string)
    requires AllOws(before) && rest != "" && !IsOws(rest[0])
    ensures TrimLeft(before + rest) == rest
  {
    if before == "" {
      assert before + rest == rest;
    } else {
      assert (before + rest)[1..] == before[1..] + rest;
      TrimLeftIs(before[1..], rest);
    }
  }

  lemma {:induction false} TrimRightIs(core: string, after: string)
    requires AllOws(after) && core != "" && !IsOws(core[|core| - 1])
    ensures TrimRight(core + after) == core
  {
    if after == "" {
      assert core + after == core;
    } else {
      var whole := core + after;
      assert whole[..|whole| - 1] == core + after[..|after| - 1];
      TrimRightIs(core, after[..|after| - 1]);
    }
  }

  lemma OfferHasType(offer: string, typ: string, sub: string)
    ensures OfferOf(offer) == Type(typ, sub) <==> MediaType(offer) == typ + "/" + sub && Token(typ) && Token(sub)
  {
    var mt := MediaType(offer);
    var i := IndexOf(mt, '/');
    if i < |mt| {
      assert mt == mt[..i] + "/" + mt[i + 1..];
    }
    if Token(typ) && Token(sub) {
      TokenHas(typ);
      TokenHas(sub);
      var s := typ + "/" + sub;
      assert typ == s[..|typ|] && s[|typ|] == '/' && sub == s[|typ| + 1..];
      IndexIs(s, '/', |typ|);
    }
  }

  lemma TokenHas(s: string)
    requires Token(s)
    ensures '/' !in s && s != "*"
  {
    assert forall c :: c in s ==> TokenChar(c);
    assert '*' in "*";
  }

  lemma {:induction false} IndexIs(s: string, c: char, i: nat)
    requires i < |s| && s[i] == c && c !in s[..i]
    ensures IndexOf(s, c) == i
  {
    if i > 0 {
      assert s[0] in s[..i];
      assert s[1..][..i - 1] == s[..i][1..];
      IndexIs(s[1..], c, i - 1);
    }
  }

  // ----- case

  lemma SameRange(range: string, typ: string, sub: string, typ': string, sub': string)
    requires SameFolded(typ, typ') && SameFolded(sub, sub')
    ensures Specificity(range, typ, sub) == Specificity(range, typ', sub')
  {
  }

  lemma {:induction false} SameMatches(elems: seq<string>, typ: string, sub: string, typ': string, sub': string)
    requires SameFolded(typ, typ') && SameFolded(sub, sub')
    ensures Matches(elems, typ, sub) == Matches(elems, typ', sub')
  {
    if elems != [] {
      SameMatches(elems[..|elems| - 1], typ, sub, typ', sub');
      var elem := elems[|elems| - 1];
      SameRange(Trim(elem[..FirstCut(elem, ';')]), typ, sub, typ', sub');
    }
  }

  /** Media types are compared without regard to ASCII case. */
  lemma CaseIsIgnored(lines: seq<string>, typ: string, sub: string, typ': string, sub': string, q: nat)
    requires SameFolded(typ, typ') && SameFolded(sub, sub')
    ensures Rated(lines, typ, sub, q) <==> Rated(lines, typ', sub', q)
  {
    SameMatches(Elements(lines), typ, sub, typ', sub');
  }
}
