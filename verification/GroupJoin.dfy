/** Which group prefixes join with which route paths. */
module GroupJoins {
  import opened Routes
  import opened Segments
  import opened PatternParser

  /** What a group's prefix is checked for. */
  predicate ValidPrefix(prefix: string) {
    prefix == "" || (prefix[0] == '/' && prefix[|prefix| - 1] != '/')
  }

  function Names(segs: seq<Segment>): set<string> {
    if segs == [] then {}
    else (if segs[0].StaticSeg? then {} else {segs[0].name}) + Names(segs[1..])
  }

  predicate HasWild(segs: seq<Segment>) {
    exists i :: 0 <= i < |segs| && segs[i].WildSeg?
  }

  predicate Accepted(s: string, names: set<string>) { Scan(s, names).Segs? }

  // ----- the normalised form

  lemma EmptySegments(p: string, q: string)
    requires p != "" && p[|p| - 1] != '/'
    ensures HasEmptySegment(p + q) <==> HasEmptySegment(p) || HasEmptySegment(q)
  {
    var s := p + q;
    if i :| 0 <= i < |p| - 1 && p[i] == '/' && p[i + 1] == '/' {
      assert s[i] == '/' && s[i + 1] == '/';
    }
    if i :| 0 <= i < |q| - 1 && q[i] == '/' && q[i + 1] == '/' {
      assert s[|p| + i] == '/' && s[|p| + i + 1] == '/';
    }
    if i :| 0 <= i < |s| - 1 && s[i] == '/' && s[i + 1] == '/' {
      if i >= |p| {
        assert q[i - |p|] == '/' && q[i - |p| + 1] == '/';
      } else {
        assert p[i] == '/' && i + 1 < |p| && p[i + 1] == '/';
      }
    }
  }

  lemma PercentEscapes(p: string, q: string)
    requires q != "" && q[0] == '/'
    ensures HasPercentEscape(p + q) <==> HasPercentEscape(p) || HasPercentEscape(q)
  {
    var s := p + q;
    if i :| 0 <= i < |p| && EscapeAt(p, i) {
      assert EscapeAt(s, i);
    }
    if i :| 0 <= i < |q| && EscapeAt(q, i) {
      assert EscapeAt(s, |p| + i);
    }
    if i :| 0 <= i < |s| && EscapeAt(s, i) {
      assert !IsHex(s[|p|]);
      if i >= |p| {
        assert EscapeAt(q, i - |p|);
      } else {
        assert EscapeAt(p, i);
      }
    }
  }

  lemma {:induction false} SplitAppend(p: string, q: string)
    requires q != "" && q[0] == '/'
    ensures SplitSlash(p + q) == SplitSlash(p) + SplitSlash(q[1..])
  {
    if p == "" {
      assert p + q == q;
    } else {
      SplitAppend(p[1..], q);
      assert (p + q)[1..] == p[1..] + q;
      Longer(p[0], SplitSlash(p[1..]), SplitSlash(q[1..]));
    }
  }

  lemma Longer(c: char, a: seq<string>, b: seq<string>)
    requires a != []
    ensures [[c] + (a + b)[0]] + (a + b)[1..] == [[c] + a[0]] + a[1..] + b
    ensures [""] + (a + b) == [""] + a + b
  {
    assert (a + b)[1..] == a[1..] + b;
  }

  lemma {:induction false} SplitOne(s: string)
    requires '/' !in s
    ensures SplitSlash(s) == [s]
  {
    if s != "" {
      assert s[0] in s;
      assert forall c :: c in s[1..] ==> c in s;
      SplitOne(s[1..]);
      assert [s[0]] + s[1..] == s;
    }
  }

  lemma NormalisedJoin(p: string, q: string)
    requires p != "" && p[|p| - 1] != '/' && q != "" && q[0] == '/'
    ensures Normalised(p + q) <==> Normalised(p) && Normalised(q)
  {
    EmptySegments(p, q);
    PercentEscapes(p, q);
    SplitAppend(p, q);
    assert SplitSlash(q) == [""] + SplitSlash(q[1..]);
    Either(SplitSlash(p), SplitSlash(q[1..]), ".");
    Either(SplitSlash(p), SplitSlash(q[1..]), "..");
    Either([""], SplitSlash(q[1..]), ".");
    Either([""], SplitSlash(q[1..]), "..");
  }

  lemma Either(a: seq<string>, b: seq<string>, part: string)
    ensures part in a + b <==> part in a || part in b
  {
  }

  // ----- the scan

  lemma Prepended(segs: seq<Segment>, rest: Scanned)
    ensures Prepend(segs, rest).Segs? <==> rest.Segs?
    ensures rest.Segs? ==> Prepend(segs, rest).segs == segs + rest.segs
  {
  }

  lemma NamesOfTwo(text: string, marker: Segment, rest: seq<Segment>)
    requires !marker.StaticSeg?
    ensures Names([StaticSeg(text), marker] + rest) == {marker.name} + Names(rest)
    ensures HasWild([StaticSeg(text), marker] + rest) <==> marker.WildSeg? || HasWild(rest)
  {
    var all := [StaticSeg(text), marker] + rest;
    assert all[1..] == [marker] + rest && all[1..][1..] == rest;
    assert all[1] == marker;
    assert forall i :: 0 <= i < |rest| ==> all[i + 2] == rest[i];
    if HasWild(rest) {
      var i :| 0 <= i < |rest| && rest[i].WildSeg?;
      assert all[i + 2].WildSeg?;
    }
  }

  /** The first step of accepting s: the marker at i, its name, and what follows. */
  lemma AcceptStep(s: string, i: nat, name: string, tail: string, names: set<string>)
    requires i < |s| && IsMarker(s[i]) && forall j :: 0 <= j < i ==> !IsMarker(s[j])
    requires s[i + 1..] == name + tail && '/' !in name && (tail == "" || tail[0] == '/')
    ensures Accepted(s, names) <==>
      && name != "" && ValidName(name) && name !in names
      && if s[i] == '*' then tail == "" else Accepted(tail, names + {name})
    ensures Accepted(s, names) ==>
      Scan(s, names).segs ==
        if s[i] == '*' then [StaticSeg(s[..i]), WildSeg(name)]
        else [StaticSeg(s[..i]), ParamSeg(name)] + Scan(tail, names + {name}).segs
  {
    hide MarkerIndex, SegLen, Scan, ValidName, Prepend;
    SegLenOf(name, tail);
    var next := i + 1 + |name|;
    ScanStep(s, i, next, names);
    assert s[i + 1..next] == s[i + 1..][..|name|] == name;
    assert s[next..] == s[i + 1..][|name|..] == tail;
    Prepended([StaticSeg(s[..i]), ParamSeg(name)], Scan(tail, names + {name}));
  }

  /** The name after the marker at i, and what follows it. */
  lemma CutName(s: string, i: nat) returns (name: string, tail: string)
    requires i < |s|
    ensures s[i + 1..] == name + tail && '/' !in name && (tail == "" || tail[0] == '/')
    ensures |tail| < |s|
  {
    var rest := s[i + 1..];
    var n := SegLen(rest);
    name, tail := rest[..n], rest[n..];
  }

  /** A run without markers does not change what is accepted. */
  lemma RunBefore(text: string, q: string, names: set<string>)
    requires q != "" && forall j :: 0 <= j < |text| ==> !IsMarker(text[j])
    ensures Accepted(text + q, names) <==> Accepted(q, names)
  {
    hide Scan, ValidName;
    var s, i := text + q, MarkerIndex(q);
    if i == |q| {
      assert forall j :: 0 <= j < |s| ==> !IsMarker(s[j]);
      ScanRun(s, names);
      ScanRun(q, names);
    } else {
      var k := |text| + i;
      assert forall j :: 0 <= j < k ==> !IsMarker(s[j]);
      var name, tail := CutName(q, i);
      assert s[k + 1..] == q[i + 1..];
      AcceptStep(q, i, name, tail, names);
      AcceptStep(s, k, name, tail, names);
    }
  }

  /** Names already taken only rule names out. */
  lemma {:induction false} TakenNames(s: string, names: set<string>, taken: set<string>)
    ensures Accepted(s, names + taken) <==> Accepted(s, names) && Names(Scan(s, names).segs) !! taken
    ensures Accepted(s, names + taken) ==> Scan(s, names + taken) == Scan(s, names)
    decreases |s|
  {
    var i := MarkerIndex(s);
    if s == "" {
    } else if i == |s| {
      ScanRun(s, names);
      ScanRun(s, names + taken);
      assert Names([StaticSeg(s)]) == Names([]);
    } else {
      hide MarkerIndex, Scan, ValidName;
      var name, tail := CutName(s, i);
      AcceptStep(s, i, name, tail, names);
      AcceptStep(s, i, name, tail, names + taken);
      assert names + taken + {name} == names + {name} + taken;
      if s[i] == '*' {
        NamesOfTwo(s[..i], WildSeg(name), []);
        assert [StaticSeg(s[..i]), WildSeg(name)] + [] == [StaticSeg(s[..i]), WildSeg(name)];
      } else {
        TakenNames(tail, names + {name}, taken);
        if Accepted(tail, names + {name}) {
          NamesOfTwo(s[..i], ParamSeg(name), Scan(tail, names + {name}).segs);
        }
      }
    }
  }

  lemma JoinedTail(p: string, q: string, i: nat, name: string, tail: string)
    requires i < |p| && p[i + 1..] == name + tail
    ensures (p + q)[i + 1..] == name + (tail + q)
    ensures tail != "" ==> tail[|tail| - 1] == p[|p| - 1]
    ensures |tail| < |p|
  {
    assert (p + q)[i + 1..] == p[i + 1..] + q;
    if tail != "" {
      assert p[|p| - 1] == p[i + 1..][|p[i + 1..]| - 1];
    }
  }

  /** p joins with q: it is accepted, ends without a wildcard, and q takes none of its names. */
  predicate Joins(p: string, q: string, names: set<string>) {
    && Accepted(p, names) && !HasWild(Scan(p, names).segs)
    && Accepted(q, names + Names(Scan(p, names).segs))
  }

  lemma {:induction false} ScanJoin(p: string, q: string, names: set<string>)
    requires (p == "" || p[|p| - 1] != '/') && q != "" && q[0] == '/'
    ensures Accepted(p + q, names) <==> Joins(p, q, names)
    decreases |p|
  {
    var i := MarkerIndex(p);
    hide MarkerIndex, Scan, ValidName, Names, HasWild, Joins, Accepted;
    if i == |p| {
      JoinRun(p, q, names);
    } else {
      var name, tail := CutName(p, i);
      JoinedTail(p, q, i, name, tail);
      AcceptStep(p + q, i, name, tail + q, names);
      JoinStep(p, q, i, name, tail, names);
      if p[i] != '*' {
        ScanJoin(tail, q, names + {name});
      }
    }
  }

  lemma JoinRun(p: string, q: string, names: set<string>)
    requires q != "" && forall j :: 0 <= j < |p| ==> !IsMarker(p[j])
    ensures Accepted(p + q, names) <==> Joins(p, q, names)
  {
    RunBefore(p, q, names);
    assert names + {} == names;
    if p != "" {
      ScanRun(p, names);
      assert Names([StaticSeg(p)]) == Names([]);
    }
  }

  lemma JoinStep(p: string, q: string, i: nat, name: string, tail: string, names: set<string>)
    requires i < |p| && IsMarker(p[i]) && forall j :: 0 <= j < i ==> !IsMarker(p[j])
    requires p[i + 1..] == name + tail && '/' !in name && (tail == "" || tail[0] == '/')
    ensures Joins(p, q, names) <==>
      name != "" && ValidName(name) && name !in names && p[i] != '*' && Joins(tail, q, names + {name})
  {
    hide Scan, ValidName, Names, HasWild;
    AcceptStep(p, i, name, tail, names);
    NamesOfTwo(p[..i], WildSeg(name), []);
    assert [StaticSeg(p[..i]), WildSeg(name)] + [] == [StaticSeg(p[..i]), WildSeg(name)];
    if Accepted(tail, names + {name}) {
      var segs := Scan(tail, names + {name}).segs;
      NamesOfTwo(p[..i], ParamSeg(name), segs);
      assert names + {name} + Names(segs) == names + ({name} + Names(segs));
    }
  }

  /** A checked prefix and a path that begins with a slash join to an acceptable pattern
      exactly when both are acceptable, the prefix has no wildcard, and they share no
      parameter name. */
  lemma JoinIsAcceptable(prefix: string, path: string)
    requires prefix != "" && ValidPrefix(prefix) && path != "" && path[0] == '/'
    ensures Acceptable(prefix + path) <==>
      && Acceptable(prefix) && Acceptable(path)
      && !HasWild(Scan(prefix, {}).segs)
      && Names(Scan(prefix, {}).segs) !! Names(Scan(path, {}).segs)
  {
    hide Normalised, Scan, Names, HasWild;
    NormalisedJoin(prefix, path);
    ScanJoin(prefix, path, {});
    if Accepted(prefix, {}) {
      TakenNames(path, {}, Names(Scan(prefix, {}).segs));
    }
  }

  /** So a prefix and a path that are each acceptable need not join. */
  lemma SharedNameDoesNotJoin()
    ensures ValidPrefix("/:id") && Acceptable("/:id") && !Acceptable("/:id" + "/:id")
  {
    hide Normalised, Scan, HasWild;
    var segs := [StaticSeg("/"), ParamSeg("id")];
    IdScans(segs);
    IdIsNormalised();
    NamesOfTwo("/", ParamSeg("id"), []);
    assert segs + [] == segs;
    assert "id" in Names(segs);
    JoinIsAcceptable("/:id", "/:id");
  }

  lemma IdScans(segs: seq<Segment>)
    requires segs == [StaticSeg("/"), ParamSeg("id")]
    ensures Scan("/:id", {}) == Segs(segs)
  {
    hide Scan;
    PrintTwo("/", ParamSeg("id"), []);
    assert segs + [] == segs;
    assert Print(segs) == "/:id";
    assert Good(segs, {});
    ScanPrint(segs, {});
  }

  lemma IdIsNormalised()
    ensures Normalised("/:id")
  {
    SplitOne(":id");
    assert "/:id"[1..] == ":id";
    assert SplitSlash("/:id") == [""] + [":id"];
  }
}
