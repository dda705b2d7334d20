/** A parsed pattern: the list of segments the parser hands to the tree. */
module Segments {
  import opened Routes

  datatype Segment =
    | StaticSeg(text: string)
    | ParamSeg(name: string)
    | WildSeg(name: string)

  /** The symbols one segment stands for. */
  function SymbolsOf(seg: Segment): Pattern {
    match seg
    case StaticSeg(text) => Bytes(text)
    case ParamSeg(name) => [Param(name)]
    case WildSeg(name) => [Wild(name)]
  }

  function Symbols(segs: seq<Segment>): Pattern {
    if segs == [] then [] else Symbols(segs[..|segs| - 1]) + SymbolsOf(segs[|segs| - 1])
  }

  /** Non-empty static runs and markers take turns: a run comes first, a parameter is
      followed by a run that starts a new path segment, and a wildcard is last. */
  predicate Alternates(segs: seq<Segment>) {
    && (segs != [] ==> segs[0].StaticSeg?)
    && (forall i {:trigger segs[i]} :: 0 <= i < |segs| ==>
         && (segs[i].StaticSeg? ==> segs[i].text != "")
         && (i + 1 < |segs| ==>
              && (segs[i].StaticSeg? <==> !segs[i + 1].StaticSeg?)
              && !segs[i].WildSeg?
              && (segs[i].ParamSeg? ==>
                    segs[i + 1].StaticSeg? && segs[i + 1].text != "" && segs[i + 1].text[0] == '/')))
  }

  /** How many markers a list of segments has, counted as the tree counts them. */
  function MarkerCount(segs: seq<Segment>): nat {
    if segs == [] then 0
    else MarkerCount(segs[..|segs| - 1]) + (if segs[|segs| - 1].StaticSeg? then 0 else 1)
  }

  lemma SymbolsPush(segs: seq<Segment>, i: nat)
    requires i < |segs|
    ensures Symbols(segs[..i + 1]) == Symbols(segs[..i]) + SymbolsOf(segs[i])
    ensures MarkerCount(segs[..i + 1]) == MarkerCount(segs[..i]) + (if segs[i].StaticSeg? then 0 else 1)
  {
    assert segs[..i + 1][..i] == segs[..i];
  }

  lemma EmptySymbols()
    ensures Symbols([]) == []
  {
  }

  lemma TakeTurns(segs: seq<Segment>, i: nat)
    requires Alternates(segs) && i < |segs|
    ensures SymbolsOf(segs[i]) != []
    ensures i + 1 < |segs| && segs[i].StaticSeg? ==> !segs[i + 1].StaticSeg?
  {
  }

  lemma {:induction false} SymbolsGrow(segs: seq<Segment>, i: nat)
    requires i <= |segs|
    ensures Symbols(segs[..i]) <= Symbols(segs)
    decreases |segs| - i
  {
    if i == |segs| {
      assert segs[..i] == segs;
    } else {
      SymbolsPush(segs, i);
      SymbolsGrow(segs, i + 1);
    }
  }

  lemma {:induction false} MarkerCounts(segs: seq<Segment>)
    ensures MarkerCount(segs) == Markers(Symbols(segs))
  {
    if segs != [] {
      var front, last := segs[..|segs| - 1], segs[|segs| - 1];
      MarkerCounts(front);
      MarkersAppend(Symbols(front), SymbolsOf(last));
      if last.StaticSeg? {
        BytesHaveNoMarkers(last.text);
      }
    }
  }

  /** Alternating segments spell a well-formed pattern. */
  lemma {:induction false} AlternatesSpell(segs: seq<Segment>)
    requires Alternates(segs)
    ensures WellFormed(Symbols(segs))
    ensures segs != [] ==> Symbols(segs) != [] && Symbols(segs)[0] == Byte(segs[0].text[0])
    ensures segs != [] ==> Symbols(segs)[|Symbols(segs)| - 1].Byte? == segs[|segs| - 1].StaticSeg?
    ensures segs != [] ==> Symbols(segs)[|Symbols(segs)| - 1].Wild? == segs[|segs| - 1].WildSeg?
  {
    if segs != [] {
      var n := |segs| - 1;
      var front, last := segs[..n], segs[n];
      assert Alternates(front) by {
        forall i | 0 <= i < |front|
          ensures (front[i].StaticSeg? ==> front[i].text != "")
          ensures i + 1 < |front| ==>
              && (front[i].StaticSeg? <==> !front[i + 1].StaticSeg?)
              && !front[i].WildSeg?
              && (front[i].ParamSeg? ==>
                    front[i + 1].StaticSeg? && front[i + 1].text != "" && front[i + 1].text[0] == '/')
        {
          assert front[i] == segs[i];
        }
      }
      AlternatesSpell(front);
      var p: Pattern, q: Pattern := Symbols(front), SymbolsOf(last);
      var pq: Pattern := p + q;
      if front == [] {
        assert p + q == q;
      } else {
        assert segs[n - 1] == front[n - 1];
        forall i | 0 <= i < |pq| - 1
          ensures !pq[i].Wild? && (pq[i].Param? ==> pq[i + 1] == Byte('/'))
        {
          if i < |p| - 1 {
            assert pq[i] == p[i] && pq[i + 1] == p[i + 1];
          }
        }
      }
    }
  }
}
