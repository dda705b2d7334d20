/** Splitting a route pattern into segments, and putting the segments back together. */
module PatternParser {
  import opened Options
  import opened Routes
  import opened Segments

  datatype ParseError =
    | EmptyPattern
    | NoLeadingSlash
    | EmptySegment
    | DotSegment
    | PercentEncoded
    | EmptyName
    | BadName
    | WildcardNotLast
    | NameTwice

  datatype ParseResult = Parsed(segs: seq<Segment>) | Malformed(error: ParseError)

  predicate IsMarker(c: char) { c == ':' || c == '*' }

  predicate IsNameChar(c: char) {
    'a' <= c <= 'z' || 'A' <= c <= 'Z' || '0' <= c <= '9' || c == '_'
  }

  predicate ValidName(name: string) {
    forall i :: 0 <= i < |name| ==> IsNameChar(name[i])
  }

  predicate IsHex(c: char) {
    '0' <= c <= '9' || 'a' <= c <= 'f' || 'A' <= c <= 'F'
  }

  // ----- the normalised form of a path

  predicate HasEmptySegment(s: string) {
    exists i :: 0 <= i < |s| - 1 && s[i] == '/' && s[i + 1] == '/'
  }

  predicate EscapeAt(s: string, i: int) {
    0 <= i < |s| - 2 && s[i] == '%' && IsHex(s[i + 1]) && IsHex(s[i + 2])
  }

  predicate HasPercentEscape(s: string) {
    exists i :: 0 <= i < |s| && EscapeAt(s, i)
  }

  /** The text between slashes, as strings.Split gives it. */
  function SplitSlash(s: string): (parts: seq<string>)
    ensures parts != []
  {
    if s == "" then [""]
    else
      var rest := SplitSlash(s[1..]);
      if s[0] == '/' then [""] + rest else [[s[0]] + rest[0]] + rest[1..]
  }

  function Join(parts: seq<string>): string
    requires parts != []
  {
    if |parts| == 1 then parts[0] else parts[0] + "/" + Join(parts[1..])
  }

  /** The parts are the text between slashes: joined they spell s, and none has a slash. */
  lemma {:induction false} SplitThenJoin(s: string)
    ensures Join(SplitSlash(s)) == s
    ensures forall part :: part in SplitSlash(s) ==> '/' !in part
  {
    if s != "" {
      var rest := SplitSlash(s[1..]);
      SplitThenJoin(s[1..]);
      assert s == [s[0]] + s[1..];
      if s[0] == '/' {
        assert ([""] + rest)[1..] == rest;
      } else {
        JoinLonger(s[0], rest);
      }
    }
  }

  lemma JoinLonger(c: char, rest: seq<string>)
    requires rest != [] && c != '/' && forall part :: part in rest ==> '/' !in part
    ensures Join([[c] + rest[0]] + rest[1..]) == [c] + Join(rest)
    ensures forall part :: part in [[c] + rest[0]] + rest[1..] ==> '/' !in part
  {
    var longer := [[c] + rest[0]] + rest[1..];
    forall part | part in longer ensures '/' !in part {
      assert part == longer[0] || part in rest;
      assert rest[0] in rest;
    }
    JoinFirst(c, rest[0], rest[1..]);
    assert rest == [rest[0]] + rest[1..];
  }

  lemma JoinFirst(c: char, first: string, more: seq<string>)
    ensures Join([[c] + first] + more) == [c] + Join([first] + more)
  {
    assert ([[c] + first] + more)[1..] == more && ([first] + more)[1..] == more;
    if more != [] {
      assert [c] + first + "/" + Join(more) == [c] + (first + "/" + Join(more));
    }
  }

  predicate HasDotSegment(s: string) {
    "." in SplitSlash(s) || ".." in SplitSlash(s)
  }

  /** s[i..j] stands between two slashes, or a slash and an end, with none inside. */
  predicate Between(s: string, i: int, j: int) {
    && 0 <= i <= j <= |s| && (i == 0 || s[i - 1] == '/') && (j == |s| || s[j] == '/')
    && '/' !in s[i..j]
  }

  /** The first part begins s; the others follow its slashes. */
  lemma {:induction false} FirstPart(s: string, j: int)
    requires Between(s, 0, j)
    ensures SplitSlash(s)[0] == s[..j]
    ensures j < |s| ==> |SplitSlash(s)| > 1 && SplitSlash(s)[1..] == SplitSlash(s[j + 1..])
    ensures j == |s| ==> |SplitSlash(s)| == 1
    decreases |s|
  {
    if j > 0 {
      assert s[0] in s[0..j];
      assert s[1..][..j - 1] == s[0..j][1..];
      FirstPart(s[1..], j - 1);
      assert s[1..][j - 1..] == s[j..];
      assert s[..j] == [s[0]] + s[1..][..j - 1];
      if j < |s| {
        assert s[1..][j..] == s[j + 1..];
      }
    }
  }

  /** The parts are exactly the texts that stand between. */
  lemma {:induction false} PartsAreBetween(s: string, part: string)
    ensures part in SplitSlash(s) <==> exists i, j :: Between(s, i, j) && s[i..j] == part
    decreases |s|
  {
    var e := FirstSlash(s);
    FirstPart(s, e);
    if e < |s| {
      PartsAreBetween(s[e + 1..], part);
    }
    var parts := SplitSlash(s);
    if part in parts {
      if part == parts[0] {
        assert s[0..e] == part;
      } else {
        assert part in parts[1..];
        var i, j :| Between(s[e + 1..], i, j) && s[e + 1..][i..j] == part;
        Shifted(s, e + 1, i, j);
      }
    }
    forall i, j | Between(s, i, j) && s[i..j] == part ensures part in parts {
      if i <= e {
        assert s[i..j] == s[0..e];
      } else {
        Shifted(s, e + 1, i - (e + 1), j - (e + 1));
        assert part in parts[1..];
      }
    }
  }

  function FirstSlash(s: string): (i: nat)
    ensures Between(s, 0, i)
  {
    if s == "" || s[0] == '/' then 0
    else
      var i := FirstSlash(s[1..]);
      assert s[0..i + 1] == [s[0]] + s[1..][0..i];
      i + 1
  }

  lemma Shifted(s: string, n: nat, i: int, j: int)
    requires 0 < n <= |s| && s[n - 1] == '/'
    ensures 0 <= i ==> (Between(s[n..], i, j) <==> Between(s, n + i, n + j))
    ensures 0 <= i <= j <= |s| - n ==> s[n..][i..j] == s[n + i..n + j]
  {
    if 0 <= i <= j <= |s| - n {
      assert s[n..][i..j] == s[n + i..n + j];
    }
  }

  /** A path has a dot segment when one or two dots, and nothing else, stand between. */
  lemma DotSegments(s: string)
    ensures HasDotSegment(s) <==> exists i, j :: Between(s, i, j) && (s[i..j] == "." || s[i..j] == "..")
  {
    PartsAreBetween(s, ".");
    PartsAreBetween(s, "..");
  }

  /** No empty segment, no dot segment and no percent escape: a form requests can have. */
  predicate Normalised(s: string) {
    !HasEmptySegment(s) && !HasDotSegment(s) && !HasPercentEscape(s)
  }

  // ----- printing

  function PrintSegment(seg: Segment): string {
    match seg
    case StaticSeg(text) => text
    case ParamSeg(name) => ":" + name
    case WildSeg(name) => "*" + name
  }

  function Print(segs: seq<Segment>): string {
    if segs == [] then "" else PrintSegment(segs[0]) + Print(segs[1..])
  }

  /** The segment lists that are patterns: static runs that start a path segment, taking
      turns with markers whose names are valid, all different and none of those given; a
      wildcard is last. */
  predicate Good(segs: seq<Segment>, names: set<string>) {
    if segs == [] then true
    else
      && segs[0].StaticSeg?
      && GoodRun(segs[0].text)
      && if |segs| == 1 then true
         else
           && !segs[1].StaticSeg?
           && segs[1].name != "" && ValidName(segs[1].name) && segs[1].name !in names
           && if segs[1].ParamSeg? then Good(segs[2..], names + {segs[1].name}) else |segs| == 2
  }

  predicate GoodRun(text: string) {
    text != "" && text[0] == '/' && forall i :: 0 <= i < |text| ==> !IsMarker(text[i])
  }

  // ----- the parse as a function

  /** Where the first marker of s is, or the length of s. */
  function MarkerIndex(s: string): (i: nat)
    ensures i <= |s|
    ensures forall j :: 0 <= j < i ==> !IsMarker(s[j])
    ensures i < |s| ==> IsMarker(s[i])
  {
    if s == "" || IsMarker(s[0]) then 0 else 1 + MarkerIndex(s[1..])
  }

  lemma {:induction false} MarkerIndexIs(s: string, i: nat)
    requires i <= |s| && forall j :: 0 <= j < i ==> !IsMarker(s[j])
    requires i < |s| ==> IsMarker(s[i])
    ensures MarkerIndex(s) == i
  {
    var k := MarkerIndex(s);
    if i < |s| && k < |s| {
      assert IsMarker(s[i]) && IsMarker(s[k]);
    }
  }

  datatype Scanned = Segs(segs: seq<Segment>) | Bad(error: ParseError)

  function Prepend(segs: seq<Segment>, rest: Scanned): Scanned {
    match rest
    case Bad(_) => rest
    case Segs(more) => Segs(segs + more)
  }

  lemma PrependTwice(a: seq<Segment>, b: seq<Segment>, rest: Scanned)
    ensures Prepend(a, Prepend(b, rest)) == Prepend(a + b, rest)
    ensures Prepend([], rest) == rest
  {
    if rest.Segs? {
      assert a + (b + rest.segs) == a + b + rest.segs;
      assert [] + rest.segs == rest.segs;
    }
  }

  /** The segments of what is left of a pattern, none of whose names may be taken again. */
  function Scan(s: string, names: set<string>): Scanned
    decreases |s|
  {
    var i := MarkerIndex(s);
    if s == "" then Segs([])
    else if i == |s| then Segs([StaticSeg(s)])
    else
      var next := i + 1 + SegLen(s[i + 1..]);
      var name := s[i + 1..next];
      if name == "" then Bad(EmptyName)
      else if s[i] == '*' && next != |s| then Bad(WildcardNotLast)
      else if !ValidName(name) then Bad(BadName)
      else if name in names then Bad(NameTwice)
      else if s[i] == '*' then Segs([StaticSeg(s[..i]), WildSeg(name)])
      else Prepend([StaticSeg(s[..i]), ParamSeg(name)], Scan(s[next..], names + {name}))
  }

  /** One step of the scan: the run before the marker at i, and the marker's name. */
  lemma ScanStep(s: string, i: nat, next: nat, names: set<string>)
    requires i < |s| && IsMarker(s[i]) && forall j :: 0 <= j < i ==> !IsMarker(s[j])
    requires next == i + 1 + SegLen(s[i + 1..])
    ensures next <= |s|
    ensures var name := s[i + 1..next];
      Scan(s, names) ==
        if name == "" then Bad(EmptyName)
        else if s[i] == '*' && next != |s| then Bad(WildcardNotLast)
        else if !ValidName(name) then Bad(BadName)
        else if name in names then Bad(NameTwice)
        else if s[i] == '*' then Segs([StaticSeg(s[..i]), WildSeg(name)])
        else Prepend([StaticSeg(s[..i]), ParamSeg(name)], Scan(s[next..], names + {name}))
  {
    hide MarkerIndex, SegLen, ValidName, Prepend;
    MarkerIndexIs(s, i);
  }

  lemma ScanNothing()
    ensures forall names :: Scan("", names) == Segs([])
  {
  }

  lemma ScanRun(s: string, names: set<string>)
    requires s != "" && forall j :: 0 <= j < |s| ==> !IsMarker(s[j])
    ensures Scan(s, names) == Segs([StaticSeg(s)])
  {
    MarkerIndexIs(s, |s|);
  }

  /** What a scan accepts are good segments that print back to what was scanned. */
  lemma {:induction false} ScanGood(s: string, names: set<string>)
    requires s == "" || s[0] == '/'
    requires Scan(s, names).Segs?
    ensures Good(Scan(s, names).segs, names) && Print(Scan(s, names).segs) == s
    decreases |s|
  {
    var i := MarkerIndex(s);
    if s == "" {
    } else if i == |s| {
      assert Print([StaticSeg(s)]) == s + Print([]) == s;
    } else {
      var next := i + 1 + SegLen(s[i + 1..]);
      var name, tail := s[i + 1..next], s[next..];
      ScanStep(s, i, next, names);
      Pieces(s, i, next);
      if s[i] == '*' {
        var segs := [StaticSeg(s[..i]), WildSeg(name)];
        PrintTwo(s[..i], WildSeg(name), []);
        assert segs + [] == segs;
      } else {
        ScanGood(tail, names + {name});
        GoodTwo(s, i, name, tail, names, Scan(tail, names + {name}).segs);
      }
    }
  }

  lemma CutInThree(s: string, i: nat, next: nat)
    requires i < next <= |s|
    ensures s == s[..i] + ([s[i]] + s[i + 1..next]) + s[next..]
  {
  }

  lemma Pieces(s: string, i: nat, next: nat)
    requires s != "" && s[0] == '/' && i == MarkerIndex(s) && i < |s|
    requires next == i + 1 + SegLen(s[i + 1..])
    ensures GoodRun(s[..i])
    ensures s == s[..i] + ([s[i]] + s[i + 1..next]) + s[next..]
    ensures s[next..] == "" || s[next..][0] == '/'
  {
    hide MarkerIndex, SegLen;
    assert i > 0;
    CutInThree(s, i, next);
    if next < |s| {
      assert s[next] == s[i + 1..][SegLen(s[i + 1..])];
    }
  }

  lemma GoodTwo(s: string, i: nat, name: string, tail: string, names: set<string>, rest: seq<Segment>)
    requires i < |s| && s[i] == ':' && GoodRun(s[..i])
    requires name != "" && ValidName(name) && name !in names
    requires s == s[..i] + ([s[i]] + name) + tail
    requires Good(rest, names + {name}) && Print(rest) == tail
    ensures var segs := [StaticSeg(s[..i]), ParamSeg(name)] + rest; Good(segs, names) && Print(segs) == s
  {
    PrintTwo(s[..i], ParamSeg(name), rest);
    assert ([StaticSeg(s[..i]), ParamSeg(name)] + rest)[2..] == rest;
  }

  lemma PrintTwo(text: string, marker: Segment, rest: seq<Segment>)
    ensures Print([StaticSeg(text), marker] + rest) == text + PrintSegment(marker) + Print(rest)
  {
    var all := [StaticSeg(text), marker] + rest;
    assert all[1..] == [marker] + rest;
    assert all[1..][1..] == rest;
    assert Print(all) == text + (PrintSegment(marker) + Print(rest));
  }

  /** Scanning the print of good segments gives them back. */
  lemma {:induction false} ScanPrint(segs: seq<Segment>, names: set<string>)
    requires Good(segs, names)
    ensures Scan(Print(segs), names) == Segs(segs)
    ensures segs != [] ==> Print(segs) != "" && Print(segs)[0] == '/'
    decreases |segs|
  {
    if segs == [] {
    } else if |segs| == 1 {
      var text := segs[0].text;
      assert Print(segs) == text + Print([]) == text;
      assert segs == [StaticSeg(text)];
      assert text + "" == text;
      ScanRun(text, names);
    } else {
      var text, marker, rest := segs[0].text, segs[1], segs[2..];
      assert segs == [StaticSeg(text), marker] + rest;
      PrintTwo(text, marker, rest);
      if marker.ParamSeg? {
        ScanPrint(rest, names + {marker.name});
      } else {
        assert rest == [];
      }
      ScanMarked(text, marker, Print(rest), names);
    }
  }

  lemma ScanMarked(text: string, marker: Segment, tail: string, names: set<string>)
    requires GoodRun(text) && !marker.StaticSeg?
    requires marker.name != "" && ValidName(marker.name) && marker.name !in names
    requires tail == "" || tail[0] == '/'
    requires marker.WildSeg? ==> tail == ""
    ensures var s := text + PrintSegment(marker) + tail;
      Scan(s, names) ==
        if marker.WildSeg? then Segs([StaticSeg(text), marker])
        else Prepend([StaticSeg(text), marker], Scan(tail, names + {marker.name}))
  {
    hide MarkerIndex, SegLen, Scan, Prepend;
    var s := text + PrintSegment(marker) + tail;
    var i := |text|;
    assert s[i + 1..] == marker.name + tail;
    assert '/' !in marker.name;
    SegLenOf(marker.name, tail);
    assert s[..i] == text;
    var next := i + 1 + |marker.name|;
    assert s[i + 1..next] == marker.name;
    assert s[next..] == tail;
    ScanStep(s, i, next, names);
  }

  /** The list a pattern is printed from is the only one it parses to. */
  lemma PrintIsInjective(a: seq<Segment>, b: seq<Segment>)
    requires Good(a, {}) && Good(b, {}) && Print(a) == Print(b)
    ensures a == b
  {
    ScanPrint(a, {});
    ScanPrint(b, {});
  }

  // ----- the parser itself

  method HasEscape(s: string) returns (b: bool)
    ensures b == HasPercentEscape(s)
  {
    var i := 0;
    while i + 2 < |s|
      invariant 0 <= i <= |s|
      invariant forall j :: 0 <= j < i ==> !EscapeAt(s, j)
    {
      if s[i] == '%' && IsHex(s[i + 1]) && IsHex(s[i + 2]) {
        assert EscapeAt(s, i);
        return true;
      }
      i := i + 1;
    }
    return false;
  }

  /** What keeps requests from ever having this form, if anything does. */
  method CheckNormalised(pattern: string) returns (problem: Option<ParseError>)
    ensures problem ==
      if HasEmptySegment(pattern) then Some(EmptySegment)
      else if HasDotSegment(pattern) then Some(DotSegment)
      else if HasPercentEscape(pattern) then Some(PercentEncoded)
      else None
  {
    if HasEmptySegment(pattern) {
      return Some(EmptySegment);
    }
    var parts := SplitSlash(pattern);
    var i := 0;
    while i < |parts|
      invariant 0 <= i <= |parts|
      invariant forall j :: 0 <= j < i ==> parts[j] != "." && parts[j] != ".."
    {
      if parts[i] == "." || parts[i] == ".." {
        return Some(DotSegment);
      }
      i := i + 1;
    }
    var escaped := HasEscape(pattern);
    if escaped {
      return Some(PercentEncoded);
    }
    return None;
  }

  /** The name that starts at i, up to the next slash, and the index past it. */
  method ScanName(pattern: string, i: nat) returns (name: string, next: nat)
    requires i <= |pattern|
    ensures next == i + SegLen(pattern[i..]) && i <= next <= |pattern| && name == pattern[i..next]
  {
    var j := i;
    while j < |pattern| && pattern[j] != '/'
      invariant i <= j <= |pattern|
      invariant SegLen(pattern[i..]) == j - i + SegLen(pattern[j..])
    {
      assert pattern[j..][1..] == pattern[j + 1..];
      j := j + 1;
    }
    return pattern[i..j], j;
  }

  method IsValidParamName(name: string) returns (b: bool)
    ensures b == ValidName(name)
  {
    var i := 0;
    while i < |name|
      invariant 0 <= i <= |name|
      invariant forall j :: 0 <= j < i ==> IsNameChar(name[j])
    {
      if !IsNameChar(name[i]) {
        return false;
      }
      i := i + 1;
    }
    return true;
  }

  method Listed(names: seq<string>, name: string) returns (b: bool)
    ensures b == (name in names)
  {
    var i := 0;
    while i < |names|
      invariant 0 <= i <= |names|
      invariant name !in names[..i]
    {
      if names[i] == name {
        return true;
      }
      i := i + 1;
    }
    return false;
  }

  /** The patterns that are accepted. */
  predicate Acceptable(pattern: string) {
    pattern != "" && pattern[0] == '/' && Normalised(pattern) && Scan(pattern, {}).Segs?
  }

  /** The symbols an acceptable pattern stands for. */
  function Spelt(pattern: string): Pattern
    requires Acceptable(pattern)
  {
    Symbols(Scan(pattern, {}).segs)
  }

  /** Acceptable patterns are exactly the prints, in normalised form, of good segments. */
  lemma AcceptableIsPrinted(pattern: string)
    ensures Acceptable(pattern) <==>
      Normalised(pattern) && exists segs :: Good(segs, {}) && segs != [] && Print(segs) == pattern
  {
    if Acceptable(pattern) {
      ScanGood(pattern, {});
    }
    forall segs: seq<Segment> | Good(segs, {}) && segs != [] && Print(segs) == pattern
      ensures Scan(pattern, {}).Segs? && pattern != "" && pattern[0] == '/'
    {
      ScanPrint(segs, {});
    }
  }

  /** The segments of a pattern, or the first reason to reject it. */
  function ParseOf(pattern: string): ParseResult {
    if pattern == "" then Malformed(EmptyPattern)
    else if pattern[0] != '/' then Malformed(NoLeadingSlash)
    else if HasEmptySegment(pattern) then Malformed(EmptySegment)
    else if HasDotSegment(pattern) then Malformed(DotSegment)
    else if HasPercentEscape(pattern) then Malformed(PercentEncoded)
    else
      match Scan(pattern, {})
      case Segs(segs) => Parsed(segs)
      case Bad(error) => Malformed(error)
  }

  /** Parsing is the inverse of printing. */
  method ParsePattern(pattern: string) returns (r: ParseResult)
    ensures r == ParseOf(pattern)
    ensures r.Parsed? <==> Acceptable(pattern)
    ensures r.Parsed? ==> Print(r.segs) == pattern && Good(r.segs, {}) && r.segs != []
    ensures r.Parsed? ==> Symbols(r.segs) == Spelt(pattern)
  {
    if pattern == "" {
      return Malformed(EmptyPattern);
    }
    if pattern[0] != '/' {
      return Malformed(NoLeadingSlash);
    }
    var problem := CheckNormalised(pattern);
    if problem.Some? {
      return Malformed(problem.value);
    }
    r := ScanPattern(pattern);
    if r.Parsed? {
      ScanGood(pattern, {});
    }
  }

  /** The loop of the parser over a pattern that passed the checks before it. */
  method ScanPattern(pattern: string) returns (r: ParseResult)
    requires pattern != ""
    ensures r == match Scan(pattern, {}) { case Segs(segs) => Parsed(segs) case Bad(error) => Malformed(error) }
  {
    hide MarkerIndex, SegLen, Scan, ValidName;
    ScanNothing();
    var segs: seq<Segment> := [];
    var names: seq<string> := [];
    var start := 0;
    var i := 0;
    assert pattern[0..] == pattern;
    assert (set n | n in names) == {};
    PrependTwice([], [], Scan(pattern, {}));
    while i < |pattern|
      invariant 0 <= start <= i <= |pattern|
      invariant Scan(pattern, {}) == Prepend(segs, Scan(pattern[start..], set n | n in names))
      invariant forall j :: start <= j < i ==> !IsMarker(pattern[j])
    {
      var c := pattern[i];
      if !IsMarker(c) {
        i := i + 1;
        continue;
      }
      ghost var s := pattern[start..];
      ghost var used := set n | n in names;
      assert s[i - start + 1..] == pattern[i + 1..];
      var text := pattern[start..i];
      assert s[..i - start] == text;
      var name, next := ScanName(pattern, i + 1);
      ScanStep(s, i - start, next - start, used);
      assert s[i - start + 1..next - start] == name;
      assert s[next - start..] == pattern[next..];
      if name == "" {
        return Malformed(EmptyName);
      }
      if c == '*' && next != |pattern| {
        return Malformed(WildcardNotLast);
      }
      var valid := IsValidParamName(name);
      if !valid {
        return Malformed(BadName);
      }
      var twice := Listed(names, name);
      if twice {
        return Malformed(NameTwice);
      }
      assert (set n | n in names + [name]) == used + {name};
      ghost var two := [StaticSeg(text), if c == ':' then ParamSeg(name) else WildSeg(name)];
      PrependTwice(segs, two, Scan(pattern[next..], used + {name}));
      if c == '*' {
        assert pattern[next..] == "" && two + [] == two;
      }
      assert Scan(pattern, {}) == Prepend(segs + two, Scan(pattern[next..], used + {name}));
      segs := segs + [StaticSeg(text), if c == ':' then ParamSeg(name) else WildSeg(name)];
      names := names + [name];
      start := next;
      i := next;
    }
    if start < |pattern| {
      ScanRun(pattern[start..], set n | n in names);
      segs := segs + [StaticSeg(pattern[start..])];
    }
    return Parsed(segs);
  }

  /** Parsed segments are what the tree asks for. */
  lemma {:induction false} GoodAlternates(segs: seq<Segment>, names: set<string>)
    requires Good(segs, names)
    ensures Alternates(segs)
    decreases |segs|
  {
    if |segs| > 2 {
      var rest := segs[2..];
      GoodAlternates(rest, names + {segs[1].name});
      forall i | 0 <= i < |segs|
        ensures (segs[i].StaticSeg? ==> segs[i].text != "")
        ensures i + 1 < |segs| ==>
            && (segs[i].StaticSeg? <==> !segs[i + 1].StaticSeg?)
            && !segs[i].WildSeg?
            && (segs[i].ParamSeg? ==> segs[i + 1].StaticSeg? && segs[i + 1].text != "" && segs[i + 1].text[0] == '/')
      {
        if i >= 2 {
          assert segs[i] == rest[i - 2];
          if i + 1 < |segs| { assert segs[i + 1] == rest[i - 1]; }
        } else if i == 1 {
          assert segs[2] == rest[0];
        }
      }
    }
  }
}
