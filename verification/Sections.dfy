/** Cutting a text into sections at the header positions found by a table of patterns. */
module Sections {
  import opened Common
  import opened Strings

  datatype Boundary = Boundary(pos: nat, level: int, title: string, number: string)

  datatype Section = Section(number: string, level: int, title: string, content: string, startPos: nat, endPos: nat)

  // ----- order and selection by position -----

  predicate Sorted(bs: seq<Boundary>) {
    forall i, j :: 0 <= i < j < |bs| ==> bs[i].pos <= bs[j].pos
  }

  predicate StrictlyIncreasing(bs: seq<Boundary>) {
    forall i, j :: 0 <= i < j < |bs| ==> bs[i].pos < bs[j].pos
  }

  /** The boundaries at one position, in the order they stand. */
  function AtPos(bs: seq<Boundary>, p: nat): seq<Boundary> {
    if bs == [] then []
    else AtPos(bs[..|bs| - 1], p) + if bs[|bs| - 1].pos == p then [bs[|bs| - 1]] else []
  }

  /** A rearrangement that keeps, at every position, the same boundaries in the same order. */
  ghost predicate StablyRearranges(bs: seq<Boundary>, original: seq<Boundary>) {
    forall p :: AtPos(bs, p) == AtPos(original, p)
  }

  lemma {:induction false} AtPosConcat(a: seq<Boundary>, b: seq<Boundary>, p: nat)
    ensures AtPos(a + b, p) == AtPos(a, p) + AtPos(b, p)
  {
    if b == [] {
      assert a + b == a;
    } else {
      var front, last := b[..|b| - 1], b[|b| - 1];
      AtPosConcat(a, front, p);
      var ab := a + b;
      assert ab[..|ab| - 1] == a + front && ab[|ab| - 1] == last;
    }
  }

  lemma AtPosPair(x: Boundary, y: Boundary, p: nat)
    requires x.pos != y.pos
    ensures AtPos([x, y], p) == AtPos([y, x], p)
  {
    assert [x, y][..1] == [x] && [y, x][..1] == [y] && [x][..0] == [] && [y][..0] == [];
  }

  /** Swapping neighbours at different positions is stable. */
  lemma SwapIsStable(bs: seq<Boundary>, j: nat)
    requires j + 1 < |bs| && bs[j].pos != bs[j + 1].pos
    ensures StablyRearranges(bs[j := bs[j + 1]][j + 1 := bs[j]], bs)
  {
    var x, y := bs[j], bs[j + 1];
    var front, back := bs[..j], bs[j + 2..];
    var swapped := bs[j := y][j + 1 := x];
    assert bs == front + ([x, y] + back) && swapped == front + ([y, x] + back);
    forall p: nat
      ensures AtPos(swapped, p) == AtPos(bs, p)
    {
      hide AtPos;
      AtPosConcat(front, [x, y] + back, p);
      AtPosConcat(front, [y, x] + back, p);
      AtPosConcat([x, y], back, p);
      AtPosConcat([y, x], back, p);
      AtPosPair(x, y, p);
    }
  }

  // ----- sorting in place -----

  method SortBoundaries(boundaries: array<Boundary>)
    modifies boundaries
    ensures Sorted(boundaries[..])
    ensures StablyRearranges(boundaries[..], old(boundaries[..]))
  {
    var n := boundaries.Length;
    ghost var original := boundaries[..];
    var i := 0;
    while i < n - 1
      invariant 0 <= i && (n == 0 || i < n)
      invariant StablyRearranges(boundaries[..], original)
      invariant forall x, y :: 0 <= x < y < n && n - i <= y ==> boundaries[x].pos <= boundaries[y].pos
    {
      var j := 0;
      while j < n - i - 1
        invariant 0 <= j <= n - i - 1
        invariant StablyRearranges(boundaries[..], original)
        invariant forall x, y :: 0 <= x < y < n && n - i <= y ==> boundaries[x].pos <= boundaries[y].pos
        invariant forall x :: 0 <= x < j ==> boundaries[x].pos <= boundaries[j].pos
      {
        if boundaries[j].pos > boundaries[j + 1].pos {
          SwapIsStable(boundaries[..], j);
          ghost var before := boundaries[..];
          boundaries[j], boundaries[j + 1] := boundaries[j + 1], boundaries[j];
          assert boundaries[..] == before[j := before[j + 1]][j + 1 := before[j]];
        }
        j := j + 1;
      }
      i := i + 1;
    }
  }

  // ----- one boundary a position -----

  function FirstOnly(bs: seq<Boundary>): seq<Boundary> {
    if bs == [] then [] else bs[..1]
  }

  lemma {:induction false} AtPosAbove(bs: seq<Boundary>, p: nat)
    requires forall i :: 0 <= i < |bs| ==> bs[i].pos < p
    ensures AtPos(bs, p) == []
  {
    if bs != [] {
      AtPosAbove(bs[..|bs| - 1], p);
    }
  }

  lemma {:induction false} AtPosNonEmpty(bs: seq<Boundary>, i: nat)
    requires i < |bs|
    ensures AtPos(bs, bs[i].pos) != []
  {
    if i < |bs| - 1 {
      AtPosNonEmpty(bs[..|bs| - 1], i);
    }
  }

  method DeduplicateBoundaries(boundaries: seq<Boundary>) returns (result: seq<Boundary>)
    requires Sorted(boundaries)
    ensures StrictlyIncreasing(result)
    ensures forall p :: AtPos(result, p) == FirstOnly(AtPos(boundaries, p))
  {
    if |boundaries| == 0 {
      return boundaries;
    }
    result := [boundaries[0]];
    SingletonAtPos(boundaries);
    for i := 1 to |boundaries|
      invariant |result| > 0 && result[|result| - 1].pos == boundaries[i - 1].pos
      invariant StrictlyIncreasing(result)
      invariant forall p :: AtPos(result, p) == FirstOnly(AtPos(boundaries[..i], p))
    {
      NextKept(boundaries, i, result);
      if boundaries[i].pos != result[|result| - 1].pos {
        result := result + [boundaries[i]];
      }
    }
    assert boundaries[..|boundaries|] == boundaries;
  }

  lemma SingletonAtPos(bs: seq<Boundary>)
    requires bs != []
    ensures forall p :: AtPos([bs[0]], p) == FirstOnly(AtPos(bs[..1], p))
  {
    assert bs[..1] == [bs[0]] && [bs[0]][..0] == [];
  }

  lemma NextKept(bs: seq<Boundary>, i: nat, kept: seq<Boundary>)
    requires Sorted(bs) && 0 < i < |bs| && kept != [] && kept[|kept| - 1].pos == bs[i - 1].pos
    requires StrictlyIncreasing(kept)
    requires forall p :: AtPos(kept, p) == FirstOnly(AtPos(bs[..i], p))
    ensures
      var kept' := if bs[i].pos != kept[|kept| - 1].pos then kept + [bs[i]] else kept;
      StrictlyIncreasing(kept') && forall p :: AtPos(kept', p) == FirstOnly(AtPos(bs[..i + 1], p))
  {
    var kept' := if bs[i].pos != kept[|kept| - 1].pos then kept + [bs[i]] else kept;
    forall p: nat
      ensures AtPos(kept', p) == FirstOnly(AtPos(bs[..i + 1], p))
    {
      NextKeptAt(bs, i, kept, p);
    }
  }

  lemma NextKeptAt(bs: seq<Boundary>, i: nat, kept: seq<Boundary>, p: nat)
    requires Sorted(bs) && 0 < i < |bs| && kept != [] && kept[|kept| - 1].pos == bs[i - 1].pos
    requires StrictlyIncreasing(kept)
    requires AtPos(kept, p) == FirstOnly(AtPos(bs[..i], p))
    ensures
      var kept' := if bs[i].pos != kept[|kept| - 1].pos then kept + [bs[i]] else kept;
      AtPos(kept', p) == FirstOnly(AtPos(bs[..i + 1], p))
  {
    hide AtPos, FirstOnly;
    var b, before := bs[i], AtPos(bs[..i], p);
    AtPosAppend(bs[..i], b, p);
    AtPosAppend(kept, b, p);
    assert bs[..i + 1] == bs[..i] + [b];
    assert bs[i - 1].pos <= b.pos;
    FirstOnlyOfMore(before, b);
    NothingAppended(before);
    NothingAppended(AtPos(kept, p));
    assert [] + [b] == [b];
    if b.pos == p {
      if b.pos != kept[|kept| - 1].pos {
        AtPosAbove(bs[..i], p);
        AtPosAbove(kept, p);
      } else {
        AtPosNonEmpty(bs[..i], i - 1);
      }
    }
  }

  lemma FirstOnlyOfMore(bs: seq<Boundary>, b: Boundary)
    ensures FirstOnly(bs + [b]) == if bs == [] then [b] else FirstOnly(bs)
  {
  }

  lemma AtPosAppend(bs: seq<Boundary>, b: Boundary, p: nat)
    ensures AtPos(bs + [b], p) == AtPos(bs, p) + if b.pos == p then [b] else []
  {
    assert (bs + [b])[..|bs|] == bs;
  }

  // ----- the whole split -----

  /** At a position the survivor is the match of the earliest pattern that matched there. */
  lemma {:induction false} EarliestPatternWins(matches: seq<seq<Boundary>>, p: nat, i: nat)
    requires i < |matches| && AtPos(matches[i], p) != []
    requires forall j :: 0 <= j < i ==> AtPos(matches[j], p) == []
    ensures FirstOnly(AtPos(Flatten(matches), p)) == FirstOnly(AtPos(matches[i], p))
  {
    var front, last := matches[..|matches| - 1], matches[|matches| - 1];
    AtPosConcat(Flatten(front), last, p);
    if i == |front| {
      NothingAt(front, p);
    } else {
      EarliestPatternWins(front, p, i);
    }
  }

  lemma {:induction false} NothingAt(matches: seq<seq<Boundary>>, p: nat)
    requires forall j :: 0 <= j < |matches| ==> AtPos(matches[j], p) == []
    ensures AtPos(Flatten(matches), p) == []
  {
    if matches != [] {
      NothingAt(matches[..|matches| - 1], p);
      AtPosConcat(Flatten(matches[..|matches| - 1]), matches[|matches| - 1], p);
    }
  }

  /** The boundaries that survive sorting and deduplication, as a relation to the pattern matches. */
  ghost predicate MergesMatches(bs: seq<Boundary>, matches: seq<seq<Boundary>>) {
    && StrictlyIncreasing(bs)
    && forall p :: AtPos(bs, p) == FirstOnly(AtPos(Flatten(matches), p))
  }

  lemma {:induction false} MergedPositions(bs: seq<Boundary>, limit: nat, matches: seq<seq<Boundary>>)
    requires MergesMatches(bs, matches)
    requires forall k :: 0 <= k < |Flatten(matches)| ==> Flatten(matches)[k].pos < limit
    ensures forall i :: 0 <= i < |bs| ==> bs[i].pos < limit
    ensures bs == [] <==> Flatten(matches) == []
  {
    var all := Flatten(matches);
    forall i | 0 <= i < |bs|
      ensures bs[i].pos < limit
    {
      AtPosNonEmpty(bs, i);
      assert AtPos(all, bs[i].pos) != [];
      AtPosWitness(all, bs[i].pos);
    }
    if all != [] {
      AtPosNonEmpty(all, 0);
      assert AtPos(bs, all[0].pos) != [];
    }
    if bs != [] {
      AtPosNonEmpty(bs, 0);
      AtPosWitness(all, bs[0].pos);
    }
  }

  lemma {:induction false} AtPosWitness(bs: seq<Boundary>, p: nat)
    requires AtPos(bs, p) != []
    ensures exists k :: 0 <= k < |bs| && bs[k].pos == p
  {
    if bs[|bs| - 1].pos != p {
      AtPosWitness(bs[..|bs| - 1], p);
      var k :| 0 <= k < |bs| - 1 && bs[..|bs| - 1][k].pos == p;
      assert bs[k].pos == p;
    }
  }

  /** The slices of a text cut at the boundaries. */
  function Cut(text: string, bs: seq<Boundary>, i: nat): string
    requires StrictlyIncreasing(bs) && i < |bs| && (forall k :: 0 <= k < |bs| ==> bs[k].pos < |text|)
  {
    text[bs[i].pos..if i + 1 < |bs| then bs[i + 1].pos else |text|]
  }

  function Cuts(text: string, bs: seq<Boundary>, n: nat): (r: seq<string>)
    requires StrictlyIncreasing(bs) && n <= |bs| && (forall k :: 0 <= k < |bs| ==> bs[k].pos < |text|)
    ensures |r| == n && forall i :: 0 <= i < n ==> r[i] == Cut(text, bs, i)
  {
    seq(n, i requires 0 <= i < n => Cut(text, bs, i))
  }

  function SectionAt(text: string, bs: seq<Boundary>, i: nat): Section
    requires StrictlyIncreasing(bs) && i < |bs| && (forall k :: 0 <= k < |bs| ==> bs[k].pos < |text|)
  {
    Section(bs[i].number, bs[i].level, bs[i].title, Trim(Cut(text, bs, i)),
            bs[i].pos, if i + 1 < |bs| then bs[i + 1].pos else |text|)
  }

  function SectionsAt(text: string, bs: seq<Boundary>): (r: seq<Section>)
    requires StrictlyIncreasing(bs) && (forall k :: 0 <= k < |bs| ==> bs[k].pos < |text|)
    ensures |r| == |bs| && forall i :: 0 <= i < |bs| ==> r[i] == SectionAt(text, bs, i)
  {
    seq(|bs|, i requires 0 <= i < |bs| => SectionAt(text, bs, i))
  }

  /** The section before the first boundary, when it is not blank. */
  function Preamble(text: string, first: nat): seq<Section>
    requires first <= |text|
  {
    var preamble := Trim(text[..first]);
    if preamble == "" then [] else [Section("", 0, "Introduction", preamble, 0, first)]
  }

  /** `sections` is `text` cut at the boundaries, or the whole text when there are none. */
  ghost predicate CutsAt(text: string, bs: seq<Boundary>, sections: seq<Section>) {
    && StrictlyIncreasing(bs)
    && (forall k :: 0 <= k < |bs| ==> bs[k].pos < |text|)
    && sections ==
       if bs == [] then [Section("", 0, "", text, 0, |text|)]
       else Preamble(text, bs[0].pos) + SectionsAt(text, bs)
  }

  /** `sections` is `text` cut where any pattern matched. */
  ghost predicate IsSectioning(text: string, matches: seq<seq<Boundary>>, sections: seq<Section>) {
    exists bs :: MergesMatches(bs, matches) && CutsAt(text, bs, sections)
  }

  lemma {:induction false} OnlyOneAtPos(bs: seq<Boundary>, p: nat)
    requires StrictlyIncreasing(bs) && bs != [] && p == bs[|bs| - 1].pos
    ensures AtPos(bs, p) == [bs[|bs| - 1]]
  {
    AtPosAbove(bs[..|bs| - 1], p);
  }

  lemma {:induction false} EmptyMerge(a: seq<Boundary>)
    requires forall p :: AtPos(a, p) == AtPos([], p)
    ensures a == []
  {
    if a != [] {
      AtPosNonEmpty(a, 0);
      AtPosOfNone(a[0].pos);
    }
  }

  lemma LastPosBound(a: seq<Boundary>, b: seq<Boundary>)
    requires StrictlyIncreasing(b) && a != [] && b != [] && forall p :: AtPos(a, p) == AtPos(b, p)
    ensures a[|a| - 1].pos <= b[|b| - 1].pos
  {
    hide AtPos;
    AtPosNonEmpty(a, |a| - 1);
    AtPosWitness(b, a[|a| - 1].pos);
  }

  lemma SameFront(a: seq<Boundary>, b: seq<Boundary>, x: Boundary, p: nat)
    requires StrictlyIncreasing(a + [x]) && StrictlyIncreasing(b + [x]) && AtPos(a + [x], p) == AtPos(b + [x], p)
    ensures AtPos(a, p) == AtPos(b, p)
  {
    hide AtPos;
    AtPosAppend(a, x, p);
    AtPosAppend(b, x, p);
    if p == x.pos {
      assert forall i :: 0 <= i < |a| ==> (a + [x])[i] == a[i];
      assert forall i :: 0 <= i < |b| ==> (b + [x])[i] == b[i];
      assert (a + [x])[|a|] == x == (b + [x])[|b|];
      AtPosAbove(a, p);
      AtPosAbove(b, p);
    } else {
      assert AtPos(a, p) + [] == AtPos(a, p) && AtPos(b, p) + [] == AtPos(b, p);
    }
  }

  /** The matches leave no choice of boundaries. */
  lemma {:induction false} MergeIsUnique(a: seq<Boundary>, b: seq<Boundary>)
    requires StrictlyIncreasing(a) && StrictlyIncreasing(b) && forall p :: AtPos(a, p) == AtPos(b, p)
    ensures a == b
  {
    hide AtPos;
    if a == [] {
      EmptyMerge(b);
    } else if b == [] {
      EmptyMerge(a);
    } else {
      var x := a[|a| - 1];
      LastPosBound(a, b);
      LastPosBound(b, a);
      OnlyOneAtPos(a, x.pos);
      OnlyOneAtPos(b, x.pos);
      assert [x][0] == [b[|b| - 1]][0];
      var front, front' := a[..|a| - 1], b[..|b| - 1];
      assert front + [x] == a && front' + [x] == b;
      forall p: nat
        ensures AtPos(front, p) == AtPos(front', p)
      {
        SameFront(front, front', x, p);
      }
      MergeIsUnique(front, front');
    }
  }

  lemma AtPosOfNone(p: nat)
    ensures AtPos([], p) == []
  {
  }

  /** So the text and the matches determine the sections. */
  lemma SectioningIsUnique(text: string, matches: seq<seq<Boundary>>, a: seq<Section>, b: seq<Section>)
    requires IsSectioning(text, matches, a) && IsSectioning(text, matches, b)
    ensures a == b
  {
    hide AtPos, FirstOnly, Flatten, Preamble, SectionAt;
    var bs :| MergesMatches(bs, matches) && CutsAt(text, bs, a);
    var bs' :| MergesMatches(bs', matches) && CutsAt(text, bs', b);
    MergeIsUnique(bs, bs');
  }

  /** Collects the matches, sorts them by position and keeps one a position. */
  method MergeMatches(matches: seq<seq<Boundary>>) returns (bs: seq<Boundary>)
    ensures MergesMatches(bs, matches)
  {
    var found: seq<Boundary> := [];
    for i := 0 to |matches|
      invariant found == Flatten(matches[..i])
    {
      assert matches[..i + 1][..i] == matches[..i];
      found := found + matches[i];
    }
    assert matches[..|matches|] == matches;
    var sorted := new Boundary[|found|](k requires 0 <= k < |found| => found[k]);
    assert sorted[..] == found;
    SortBoundaries(sorted);
    bs := DeduplicateBoundaries(sorted[..]);
    forall p: nat
      ensures AtPos(bs, p) == FirstOnly(AtPos(Flatten(matches), p))
    {
      assert AtPos(sorted[..], p) == AtPos(found, p);
    }
  }

  method BuildSections(text: string, bs: seq<Boundary>) returns (sections: seq<Section>)
    requires StrictlyIncreasing(bs) && (forall k :: 0 <= k < |bs| ==> bs[k].pos < |text|)
    ensures sections == SectionsAt(text, bs)
  {
    hide Trim;
    sections := [];
    for i := 0 to |bs|
      invariant |sections| == i && forall k :: 0 <= k < i ==> sections[k] == SectionAt(text, bs, k)
    {
      var endPos := |text|;
      if i + 1 < |bs| {
        endPos := bs[i + 1].pos;
      }
      var content := Trim(text[bs[i].pos..endPos]);
      sections := sections + [Section(bs[i].number, bs[i].level, bs[i].title, content, bs[i].pos, endPos)];
    }
  }

  /** `matches` holds, pattern by pattern in table order, what the pattern engine reports for `text`. */
  method SplitBySection(text: string, matches: seq<seq<Boundary>>) returns (sections: seq<Section>)
    requires forall k :: 0 <= k < |Flatten(matches)| ==> Flatten(matches)[k].pos < |text|
    ensures IsSectioning(text, matches, sections)
  {
    var bs := MergeMatches(matches);
    MergedPositions(bs, |text|, matches);
    if |bs| == 0 {
      sections := [Section("", 0, "", text, 0, |text|)];
      assert CutsAt(text, bs, sections);
      return;
    }
    hide AtPos, FirstOnly, Flatten;
    sections := [];
    if bs[0].pos > 0 {
      var preamble := Trim(text[..bs[0].pos]);
      if preamble != "" {
        sections := sections + [Section("", 0, "Introduction", preamble, 0, bs[0].pos)];
      }
    }
    assert sections == Preamble(text, bs[0].pos);
    var built := BuildSections(text, bs);
    sections := sections + built;
    assert CutsAt(text, bs, sections);
  }

  /** The sections' spans tile the text from the first boundary to the end. */
  lemma {:induction false} CutsTile(text: string, bs: seq<Boundary>, n: nat)
    requires StrictlyIncreasing(bs) && (forall k :: 0 <= k < |bs| ==> bs[k].pos < |text|)
    requires 0 < n <= |bs|
    ensures Flatten(Cuts(text, bs, n)) == text[bs[0].pos..if n < |bs| then bs[n].pos else |text|]
  {
    var cuts := Cuts(text, bs, n);
    if n == 1 {
      assert cuts[..0] == [];
      assert Flatten(cuts) == [] + cuts[0] == cuts[0];
    } else {
      CutsTile(text, bs, n - 1);
      assert cuts[..n - 1] == Cuts(text, bs, n - 1);
      var end := if n < |bs| then bs[n].pos else |text|;
      assert text[bs[0].pos..bs[n - 1].pos] + text[bs[n - 1].pos..end] == text[bs[0].pos..end];
    }
  }
}
