/** The reasons the parser gives are true of the pattern it rejects. */
module PatternErrors {
  import opened Options
  import opened Routes
  import opened Segments
  import opened PatternParser

  /** A marker begins at i, the first in its path segment, and its name ends at next. */
  predicate MarkerAt(s: string, i: int, next: int) {
    && 0 <= i < next <= |s| && IsMarker(s[i])
    && (forall j :: 0 <= j < i && IsMarker(s[j]) ==> '/' in s[j..i])
    && '/' !in s[i + 1..next] && (next == |s| || s[next] == '/')
  }

  /** An earlier marker has this name. */
  ghost predicate NamedBefore(s: string, i: int, name: string) {
    exists j, next :: MarkerAt(s, j, next) && j < i && s[j + 1..next] == name
  }

  /** What is wrong with the marker. */
  ghost predicate Wrong(s: string, names: set<string>, e: ParseError, i: int, next: int) {
    && MarkerAt(s, i, next)
    && var name := s[i + 1..next];
       match e
       case EmptyName => name == ""
       case BadName => !ValidName(name)
       case WildcardNotLast => s[i] == '*' && next < |s|
       case NameTwice => name in names || NamedBefore(s, i, name)
       case _ => false
  }

  /** The scan rejects for a reason that some marker gives. */
  lemma {:induction false} ScanReason(s: string, names: set<string>) returns (i: int, next: int)
    requires Scan(s, names).Bad?
    ensures Wrong(s, names, Scan(s, names).error, i, next)
    decreases |s|
  {
    hide Scan, Wrong, ValidName, Prepend;
    i := MarkerIndex(s);
    if i == |s| {
      Unmarked(s, names);
      return 0, 0;
    }
    next := i + 1 + SegLen(s[i + 1..]);
    FirstMarker(s, i, next);
    ScanStep(s, i, next, names);
    var name := s[i + 1..next];
    if name == "" || (s[i] == '*' && next != |s|) || !ValidName(name) || name in names || s[i] == '*' {
      Own(s, names, i, next);
    } else {
      ScanNothing();
      var rest := Scan(s[next..], names + {name});
      Rejected([StaticSeg(s[..i]), ParamSeg(name)], rest);
      var i', next' := ScanReason(s[next..], names + {name});
      Deeper(s, names, name, i, next, rest.error, i', next');
      i, next := next + i', next + next';
    }
  }

  lemma Rejected(front: seq<Segment>, rest: Scanned)
    ensures Prepend(front, rest).Bad? <==> rest.Bad?
    ensures rest.Bad? ==> Prepend(front, rest) == rest
  {
  }

  lemma Unmarked(s: string, names: set<string>)
    requires MarkerIndex(s) == |s|
    ensures Scan(s, names).Segs?
  {
  }

  /** The first marker's own faults, in the order in which they are looked for. */
  lemma Own(s: string, names: set<string>, i: nat, next: nat)
    requires MarkerAt(s, i, next) && Scan(s, names).Bad?
    requires forall j :: 0 <= j < i ==> !IsMarker(s[j])
    requires next == i + 1 + SegLen(s[i + 1..])
    requires var name := s[i + 1..next];
      name == "" || (s[i] == '*' && next != |s|) || !ValidName(name) || name in names || s[i] == '*'
    ensures Wrong(s, names, Scan(s, names).error, i, next)
  {
    hide Scan, ValidName;
    ScanStep(s, i, next, names);
  }

  lemma FirstMarker(s: string, i: nat, next: nat)
    requires i < |s| && IsMarker(s[i]) && forall j :: 0 <= j < i ==> !IsMarker(s[j])
    requires next == i + 1 + SegLen(s[i + 1..])
    ensures MarkerAt(s, i, next)
  {
    hide SegLen;
    forall k | i + 1 <= k < next ensures s[k] != '/' {
      assert s[i + 1..][k - (i + 1)] == s[k];
    }
    assert next < |s| ==> s[i + 1..][next - (i + 1)] == s[next];
  }

  /** What is wrong after a first, sound marker is wrong in the whole. */
  lemma Deeper(s: string, names: set<string>, name: string, first: int, from: int, e: ParseError, i: int, next: int)
    requires MarkerAt(s, first, from) && s[first + 1..from] == name && from < |s|
    requires Wrong(s[from..], names + {name}, e, i, next)
    ensures Wrong(s, names, e, from + i, from + next)
  {
    MarkerDeeper(s, from, i, next);
    var found := s[from + i + 1..from + next];
    assert found == s[from..][i + 1..next];
    if e.NameTwice? && found !in names {
      if NamedBefore(s[from..], i, found) {
        var j, end :| MarkerAt(s[from..], j, end) && j < i && s[from..][j + 1..end] == found;
        MarkerDeeper(s, from, j, end);
        assert s[from + j + 1..from + end] == found;
      }
      assert NamedBefore(s, from + i, found);
    }
  }

  lemma MarkerDeeper(s: string, from: int, i: int, next: int)
    requires 0 <= from < |s| && s[from] == '/' && MarkerAt(s[from..], i, next)
    ensures MarkerAt(s, from + i, from + next)
  {
    assert s[from + i + 1..from + next] == s[from..][i + 1..next];
    forall j | 0 <= j < from + i && IsMarker(s[j]) ensures '/' in s[j..from + i] {
      if j >= from {
        assert s[from..][j - from] == s[j];
        assert s[j..from + i] == s[from..][j - from..i];
      } else {
        assert s[j..from + i][from - j] == '/';
      }
    }
  }

  /** So every pattern the parser rejects has what it is rejected for. */
  lemma ReasonsAreTrue(pattern: string) returns (i: int, next: int)
    requires ParseOf(pattern).Malformed?
    ensures var e := ParseOf(pattern).error;
      match e
      case EmptyPattern => pattern == ""
      case NoLeadingSlash => pattern != "" && pattern[0] != '/'
      case EmptySegment => 0 <= i < |pattern| - 1 && pattern[i..i + 2] == "//"
      case DotSegment => Between(pattern, i, next) && (pattern[i..next] == "." || pattern[i..next] == "..")
      case PercentEncoded => EscapeAt(pattern, i)
      case _ => Wrong(pattern, {}, e, i, next)
  {
    i, next := 0, 0;
    if pattern == "" || pattern[0] != '/' {
      return;
    }
    if HasEmptySegment(pattern) {
      i :| 0 <= i < |pattern| - 1 && pattern[i] == '/' && pattern[i + 1] == '/';
    } else if HasDotSegment(pattern) {
      DotSegments(pattern);
      i, next :| Between(pattern, i, next) && (pattern[i..next] == "." || pattern[i..next] == "..");
    } else if HasPercentEscape(pattern) {
      i :| 0 <= i < |pattern| && EscapeAt(pattern, i);
    } else {
      i, next := ScanReason(pattern, {});
    }
  }
}
