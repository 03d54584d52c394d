/** What chunking does to the text itself: which characters reach the chunks. */
module ChunkedText {
  import opened Abbreviations
  import opened Common
  import opened Strings
  import opened SolidText
  import opened Sections
  import opened Chunker
  import Splitters

  // ----- sections -----

  function SectionContents(sections: seq<Section>): (r: seq<string>)
    ensures |r| == |sections| && forall i :: 0 <= i < |r| ==> r[i] == sections[i].content
  {
    seq(|sections|, i requires 0 <= i < |sections| => sections[i].content)
  }

  lemma {:induction false} TrimmedPieces(raw: seq<string>, trimmed: seq<string>)
    requires |raw| == |trimmed| && forall i :: 0 <= i < |raw| ==> trimmed[i] == Trim(raw[i])
    ensures NonSpace(Flatten(trimmed)) == NonSpace(Flatten(raw))
  {
    hide NonSpace, Trim;
    if raw != [] {
      var r, t := raw[..|raw| - 1], trimmed[..|raw| - 1];
      TrimmedPieces(r, t);
      TrimKeeps(raw[|raw| - 1]);
      NonSpaceConcat(Flatten(r), raw[|raw| - 1]);
      NonSpaceConcat(Flatten(t), trimmed[|raw| - 1]);
    }
  }

  lemma PreambleText(text: string, first: nat)
    requires first <= |text|
    ensures NonSpace(Flatten(SectionContents(Preamble(text, first)))) == NonSpace(text[..first])
  {
    hide NonSpace, Trim, Flatten;
    var preamble := Trim(text[..first]);
    TrimKeeps(text[..first]);
    FlattenStarts<char>();
    FlattenAppends<char>([], preamble);
    if preamble != "" {
      assert SectionContents(Preamble(text, first)) == [] + [preamble];
      assert "" + preamble == preamble;
    }
  }

  lemma CutSectionsText(text: string, bs: seq<Boundary>)
    requires StrictlyIncreasing(bs) && bs != [] && (forall k :: 0 <= k < |bs| ==> bs[k].pos < |text|)
    ensures NonSpace(Flatten(SectionContents(SectionsAt(text, bs)))) ==
            NonSpace(text[bs[0].pos..])
  {
    hide NonSpace, Trim, Flatten;
    CutsTile(text, bs, |bs|);
    assert text[bs[0].pos..|text|] == text[bs[0].pos..];
    TrimmedPieces(Cuts(text, bs, |bs|), SectionContents(SectionsAt(text, bs)));
  }

  /** Sectioning loses spaces only. */
  lemma SectionsKeepText(text: string, bs: seq<Boundary>, sections: seq<Section>)
    requires CutsAt(text, bs, sections)
    ensures NonSpace(Flatten(SectionContents(sections))) == NonSpace(text)
  {
    hide NonSpace, Trim, Flatten, Preamble, SectionAt;
    if bs == [] {
      FlattenStarts<char>();
      FlattenAppends<char>([], text);
      assert SectionContents(sections) == [] + [text];
      assert "" + text == text;
    } else {
      var first := bs[0].pos;
      var a, b := Preamble(text, first), SectionsAt(text, bs);
      assert SectionContents(sections) == SectionContents(a) + SectionContents(b);
      PreambleText(text, first);
      CutSectionsText(text, bs);
      FlattenConcat(SectionContents(a), SectionContents(b));
      NonSpaceConcat(Flatten(SectionContents(a)), Flatten(SectionContents(b)));
      NonSpaceConcat(text[..first], text[first..]);
      assert text[..first] + text[first..] == text;
    }
  }

  // ----- splitting oversized pieces -----

  ghost predicate SplitKeeps(c: Setup, level: Level, s: string) {
    NonSpace(Flatten(c.split(level, s))) == NonSpace(s)
  }

  /** A split never invents text: what it does not keep it loses. */
  ghost predicate SplitsNeverGain(c: Setup) {
    forall level, s :: KeepsExactlyWhen(NonSpace(Flatten(c.split(level, s))), NonSpace(s), SplitKeeps(c, level, s))
  }

  /** Every split made while packing `ps` keeps its text. */
  ghost predicate UsedSplitsKeep(c: Setup, level: Level, ps: seq<string>)
    decreases Rank(level), |ps|
  {
    ps != [] ==>
      && (Oversized(c, level, ps[0]) ==>
            SplitKeeps(c, Below(level), ps[0]) && UsedSplitsKeep(c, Below(level), c.split(Below(level), ps[0])))
      && UsedSplitsKeep(c, level, ps[1..])
  }

  ghost predicate SectionSplitsKeep(c: Setup, content: string) {
    Count(c, content) > c.maxTokens ==>
      SplitKeeps(c, Paragraphs, content) && UsedSplitsKeep(c, Paragraphs, c.split(Paragraphs, content))
  }

  ghost predicate DocumentSplitsKeep(c: Setup, sections: seq<Section>) {
    forall i :: 0 <= i < |sections| ==> SectionSplitsKeep(c, sections[i].content)
  }

  lemma HeadText(ps: seq<string>)
    requires ps != []
    ensures NonSpace(Flatten(ps)) == NonSpace(ps[0]) + NonSpace(Flatten(ps[1..]))
  {
    hide NonSpace, Flatten;
    FlattenStarts<char>();
    FlattenAppends<char>([], ps[0]);
    assert "" + ps[0] == ps[0];
    FlattenConcat([] + [ps[0]], ps[1..]);
    assert [] + [ps[0]] + ps[1..] == ps;
    NonSpaceConcat(ps[0], Flatten(ps[1..]));
  }

  /** What the first piece expands to. */
  function HeadLeaves(c: Setup, level: Level, p: string): seq<string> {
    if Oversized(c, level, p) then Leaves(c, Below(level), c.split(Below(level), p)) else [p]
  }

  ghost predicate HeadKeeps(c: Setup, level: Level, p: string) {
    Oversized(c, level, p) ==>
      SplitKeeps(c, Below(level), p) && UsedSplitsKeep(c, Below(level), c.split(Below(level), p))
  }

  lemma Unfold(c: Setup, level: Level, ps: seq<string>)
    requires ps != []
    ensures Leaves(c, level, ps) == HeadLeaves(c, level, ps[0]) + Leaves(c, level, ps[1..])
    ensures UsedSplitsKeep(c, level, ps) <==> HeadKeeps(c, level, ps[0]) && UsedSplitsKeep(c, level, ps[1..])
  {
    hide SplitKeeps, Oversized;
  }

  lemma SplitText(c: Setup, level: Level, s: string)
    requires SplitsNeverGain(c)
    ensures KeepsExactlyWhen(NonSpace(Flatten(c.split(level, s))), NonSpace(s), SplitKeeps(c, level, s))
  {
    hide NonSpace, Flatten, KeepsExactlyWhen, SplitKeeps;
  }

  /** The pieces packed hold the text exactly when every split made on the way keeps its text. */
  lemma {:induction false} LeavesText(c: Setup, level: Level, ps: seq<string>)
    requires SplitsNeverGain(c)
    ensures KeepsExactlyWhen(NonSpace(Flatten(Leaves(c, level, ps))), NonSpace(Flatten(ps)),
                             UsedSplitsKeep(c, level, ps))
    decreases Rank(level), |ps|, 1
  {
    if ps == [] {
      assert Leaves(c, level, ps) == ps;
    } else {
      hide NonSpace, Flatten, Leaves, KeepsExactlyWhen, SplitsNeverGain, HeadLeaves, HeadKeeps, UsedSplitsKeep;
      HeadLeavesText(c, level, ps[0], |ps|);
      LeavesText(c, level, ps[1..]);
      Unfold(c, level, ps);
      HeadText(ps);
      var head, tail := HeadLeaves(c, level, ps[0]), Leaves(c, level, ps[1..]);
      FlattenConcat(head, tail);
      NonSpaceConcat(Flatten(head), Flatten(tail));
      KeepsTogether(NonSpace(Flatten(head)), NonSpace(ps[0]), HeadKeeps(c, level, ps[0]),
                    NonSpace(Flatten(tail)), NonSpace(Flatten(ps[1..])), UsedSplitsKeep(c, level, ps[1..]));
    }
  }

  lemma {:induction false} HeadLeavesText(c: Setup, level: Level, p: string, n: nat)
    requires SplitsNeverGain(c)
    ensures KeepsExactlyWhen(NonSpace(Flatten(HeadLeaves(c, level, p))), NonSpace(p), HeadKeeps(c, level, p))
    decreases Rank(level), n, 0
  {
    hide NonSpace, Flatten, Leaves, SplitsNeverGain, KeepsExactlyWhen, SplitKeeps, UsedSplitsKeep;
    if Oversized(c, level, p) {
      var inner := c.split(Below(level), p);
      LeavesText(c, Below(level), inner);
      SplitText(c, Below(level), p);
      KeepsThrough(NonSpace(Flatten(Leaves(c, Below(level), inner))), NonSpace(Flatten(inner)), NonSpace(p),
                   UsedSplitsKeep(c, Below(level), inner), SplitKeeps(c, Below(level), p));
    } else {
      OnePiece(p);
      KeepsItself(NonSpace(p));
    }
  }

  lemma OnePiece(p: string)
    ensures Flatten([p]) == p
  {
    assert [p][..0] == [];
  }

  lemma KeepsItself(s: string)
    ensures KeepsExactlyWhen(s, s, true)
  {
  }

  lemma SectionText(c: Setup, content: string)
    requires SplitsNeverGain(c)
    ensures KeepsExactlyWhen(NonSpace(Flatten(SectionLeaves(c, content))), NonSpace(content),
                             SectionSplitsKeep(c, content))
  {
    hide NonSpace, Flatten, Leaves, SplitsNeverGain, KeepsExactlyWhen, SplitKeeps, UsedSplitsKeep;
    if Count(c, content) <= c.maxTokens {
      OnePiece(content);
      KeepsItself(NonSpace(content));
    } else {
      var inner := c.split(Paragraphs, content);
      LeavesText(c, Paragraphs, inner);
      SplitText(c, Paragraphs, content);
      KeepsThrough(NonSpace(Flatten(Leaves(c, Paragraphs, inner))), NonSpace(Flatten(inner)), NonSpace(content),
                   UsedSplitsKeep(c, Paragraphs, inner), SplitKeeps(c, Paragraphs, content));
    }
  }

  lemma DocumentTextStep(c: Setup, sections: seq<Section>, last: Section)
    requires SplitsNeverGain(c)
    requires KeepsExactlyWhen(NonSpace(Flatten(DocumentLeaves(c, sections))),
                              NonSpace(Flatten(SectionContents(sections))),
                              DocumentSplitsKeep(c, sections))
    ensures KeepsExactlyWhen(NonSpace(Flatten(DocumentLeaves(c, sections) + SectionLeaves(c, last.content))),
                             NonSpace(Flatten(SectionContents(sections) + [last.content])),
                             DocumentSplitsKeep(c, sections) && SectionSplitsKeep(c, last.content))
  {
    hide *;
    var before, leaves := DocumentLeaves(c, sections), SectionLeaves(c, last.content);
    var contents := SectionContents(sections);
    SectionText(c, last.content);
    FlattenConcat(before, leaves);
    FlattenAppends(contents, last.content);
    NonSpaceConcat(Flatten(before), Flatten(leaves));
    NonSpaceConcat(Flatten(contents), last.content);
    KeepsTogether(NonSpace(Flatten(before)), NonSpace(Flatten(contents)), DocumentSplitsKeep(c, sections),
                  NonSpace(Flatten(leaves)), NonSpace(last.content), SectionSplitsKeep(c, last.content));
  }

  lemma LastSection(c: Setup, front: seq<Section>, last: Section)
    ensures DocumentLeaves(c, front + [last]) == DocumentLeaves(c, front) + SectionLeaves(c, last.content)
    ensures SectionContents(front + [last]) == SectionContents(front) + [last.content]
    ensures DocumentSplitsKeep(c, front + [last]) <==>
            DocumentSplitsKeep(c, front) && SectionSplitsKeep(c, last.content)
  {
    hide SectionLeaves, SectionSplitsKeep;
    var all := front + [last];
    assert all[..|front|] == front;
    assert forall i :: 0 <= i < |front| ==> all[i] == front[i];
    assert all[|front|] == last;
  }

  lemma NoSections(c: Setup)
    ensures DocumentLeaves(c, []) == [] == SectionContents([]) && DocumentSplitsKeep(c, [])
  {
  }

  lemma {:induction false} DocumentText(c: Setup, sections: seq<Section>)
    requires SplitsNeverGain(c)
    ensures KeepsExactlyWhen(NonSpace(Flatten(DocumentLeaves(c, sections))),
                             NonSpace(Flatten(SectionContents(sections))),
                             DocumentSplitsKeep(c, sections))
  {
    hide *;
    if sections == [] {
      NoSections(c);
      KeepsItself(NonSpace(Flatten(DocumentLeaves(c, sections))));
    } else {
      var front, last := sections[..|sections| - 1], sections[|sections| - 1];
      assert front + [last] == sections;
      DocumentText(c, front);
      DocumentTextStep(c, front, last);
      LastSection(c, front, last);
    }
  }

  // ----- rendering -----

  lemma {:induction false} JoinText(pieces: seq<string>, separator: string)
    requires NonSpace(separator) == ""
    ensures NonSpace(Join(pieces, separator)) == NonSpace(Flatten(pieces))
  {
    hide NonSpace;
    if |pieces| == 1 {
      OnePiece(pieces[0]);
      assert pieces == [pieces[0]];
    } else if pieces != [] {
      var front, last := pieces[..|pieces| - 1], pieces[|pieces| - 1];
      JoinText(front, separator);
      NonSpaceConcat(Join(front, separator), separator);
      NonSpaceConcat(Join(front, separator) + separator, last);
      NonSpaceConcat(Flatten(front), last);
      assert NonSpace(Join(front, separator)) + "" == NonSpace(Join(front, separator));
    }
  }

  lemma SeparatorBlank(level: Level)
    ensures NonSpace(Separator(level)) == ""
  {
    if level == Paragraphs {
      NonSpaceConcat("\n", "\n");
      NonSpaceOfOne('\n');
      assert "\n" + "\n" == "\n\n";
    } else {
      NonSpaceOfOne(' ');
    }
  }

  lemma {:induction false} RenderedText(gs: seq<Group>)
    ensures NonSpace(Flatten(Rendered(gs))) == NonSpace(Flatten(PiecesOf(gs)))
  {
    if gs == [] {
      assert Rendered(gs) == PiecesOf(gs);
    } else {
      hide NonSpace, Flatten, Join, Separator;
      var front, last := gs[..|gs| - 1], gs[|gs| - 1];
      RenderedText(front);
      assert Rendered(gs) == Rendered(front) + [Render(last)];
      FlattenAppends(Rendered(front), Render(last));
      FlattenConcat(PiecesOf(front), last.pieces);
      SeparatorBlank(last.level);
      JoinText(last.pieces, Separator(last.level));
      NonSpaceConcat(Flatten(Rendered(front)), Render(last));
      NonSpaceConcat(Flatten(PiecesOf(front)), Flatten(last.pieces));
    }
  }

  // ----- the document -----

  /** The chunks hold the text exactly when every split made on the way keeps its text; otherwise text is lost. */
  lemma ChunksKeepSplitText(c: Setup, text: string, matches: seq<seq<Boundary>>, sections: seq<Section>)
    requires IsSectioning(text, matches, sections) && SplitsNeverGain(c)
    ensures KeepsExactlyWhen(NonSpace(Flatten(Rendered(DocumentGroups(c, sections)))), NonSpace(text),
                             DocumentSplitsKeep(c, sections))
  {
    SectioningKeepsText(text, matches, sections);
    hide *;
    DocumentText(c, sections);
    DocumentConserves(c, sections);
    RenderedText(DocumentGroups(c, sections));
  }

  lemma SectioningKeepsText(text: string, matches: seq<seq<Boundary>>, sections: seq<Section>)
    requires IsSectioning(text, matches, sections)
    ensures NonSpace(Flatten(SectionContents(sections))) == NonSpace(text)
  {
    hide NonSpace, MergesMatches, CutsAt, Flatten;
    var bs :| MergesMatches(bs, matches) && CutsAt(text, bs, sections);
    SectionsKeepText(text, bs, sections);
  }

  function Texts(pages: seq<PageContent>): (r: seq<string>)
    ensures |r| == |pages| && forall i :: 0 <= i < |r| ==> r[i] == pages[i].text
  {
    seq(|pages|, i requires 0 <= i < |pages| => pages[i].text)
  }

  lemma OneMorePage(pages: seq<PageContent>, sections: seq<seq<Section>>, page: PageContent, parts: seq<Section>)
    requires NonSpace(Flatten(SectionContents(Flatten(sections)))) == NonSpace(Flatten(Texts(pages)))
    requires IsSectioning(page.text, page.matches, parts)
    ensures NonSpace(Flatten(SectionContents(Flatten(sections + [parts])))) == NonSpace(Flatten(Texts(pages + [page])))
  {
    hide NonSpace, Flatten, IsSectioning;
    SectioningKeepsText(page.text, page.matches, parts);
    FlattenAppends(sections, parts);
    assert Texts(pages + [page]) == Texts(pages) + [page.text];
    FlattenAppends(Texts(pages), page.text);
    var a, b := SectionContents(Flatten(sections)), SectionContents(parts);
    assert SectionContents(Flatten(sections) + parts) == a + b;
    FlattenConcat(a, b);
    NonSpaceConcat(Flatten(a), Flatten(b));
    NonSpaceConcat(Flatten(Texts(pages)), page.text);
  }

  lemma LastPage(pages: seq<PageContent>, sections: seq<seq<Section>>)
    requires SectionsPages(pages, sections) && pages != []
    ensures |sections| == |pages| && SectionsPages(pages[..|pages| - 1], sections[..|pages| - 1])
    ensures IsSectioning(pages[|pages| - 1].text, pages[|pages| - 1].matches, sections[|pages| - 1])
    ensures pages[..|pages| - 1] + [pages[|pages| - 1]] == pages
    ensures sections[..|pages| - 1] + [sections[|pages| - 1]] == sections
  {
    hide IsSectioning;
  }

  lemma {:induction false} PageContents(pages: seq<PageContent>, sections: seq<seq<Section>>)
    requires SectionsPages(pages, sections)
    ensures NonSpace(Flatten(SectionContents(Flatten(sections)))) == NonSpace(Flatten(Texts(pages)))
  {
    if pages == [] {
      NoPages();
      assert sections == [] && Texts(pages) == [];
    } else {
      hide *;
      LastPage(pages, sections);
      var n := |pages| - 1;
      PageContents(pages[..n], sections[..n]);
      OneMorePage(pages[..n], sections[..n], pages[n], sections[n]);
    }
  }

  lemma NoPages()
    ensures NonSpace(Flatten(SectionContents(Flatten([])))) == NonSpace(Flatten([]))
  {
    hide NonSpace;
    assert SectionContents(Flatten([])) == [];
  }

  /** The same for a paged text: the pages' texts one after the other. */
  lemma PagedChunksKeepSplitText(c: Setup, pages: seq<PageContent>, sections: seq<seq<Section>>)
    requires SectionsPages(pages, sections) && SplitsNeverGain(c)
    ensures KeepsExactlyWhen(NonSpace(Flatten(Rendered(DocumentGroups(c, Flatten(sections))))),
                             NonSpace(Flatten(Texts(pages))),
                             DocumentSplitsKeep(c, Flatten(sections)))
  {
    hide *;
    PageContents(pages, sections);
    DocumentText(c, Flatten(sections));
    DocumentConserves(c, Flatten(sections));
    RenderedText(DocumentGroups(c, Flatten(sections)));
  }

  // ----- the splitters in use -----

  /** The two pattern engines the splitters rely on. */
  datatype Patterns = Patterns(blankLines: string -> Splitters.BlankLines, stops: Splitters.StopFinder)

  /** The setup splits with the paragraph, sentence and word splitters, over engines that report true matches. */
  ghost predicate UsesTheSplitters(c: Setup, p: Patterns) {
    && (forall s :: c.split(Words, s) == Splitters.Fields(s))
    && (forall s :: Splitters.FindsBlankLines(s, p.blankLines(s)))
    && (forall s :: c.split(Paragraphs, s) == Splitters.Paragraphs(p.blankLines(s).parts))
    && (forall s :: Splitters.FindsStops(s, p.stops(s)))
    && (forall s :: c.split(Sentences, s) == Splitters.Sentences(p.stops(Protect(s))))
  }

  /** No part before the last is blank, and the marker for hidden full stops is not part of the text. */
  predicate CutsClean(p: Patterns, s: string) {
    var f := p.stops(Protect(s));
    |f.marks| <= |f.parts| && Splitters.NoBlankBefore(f.parts, |f.marks|) && !HasMarker(s)
  }

  lemma WordsKeep(s: string)
    ensures NonSpace(Flatten(Splitters.Fields(s))) == NonSpace(s)
    ensures forall i :: 0 <= i < |Splitters.Fields(s)| ==> Splitters.Fields(s)[i] != ""
  {
    hide NonSpace, Flatten;
    Splitters.FieldsKeepText(s);
    NonSpaceTwice(s);
  }

  lemma ParagraphsKeep(s: string, b: Splitters.BlankLines)
    requires Splitters.FindsBlankLines(s, b)
    ensures NonSpace(Flatten(Splitters.Paragraphs(b.parts))) == NonSpace(s)
  {
    hide NonSpace, Flatten;
    Splitters.ParagraphsKeepText(b.parts, b.gaps);
  }

  lemma {:induction false} NonSpaceTwice(s: string)
    ensures NonSpace(NonSpace(s)) == NonSpace(s)
  {
    hide IsSpace;
    if s != "" {
      var front, c := s[..|s| - 1], s[|s| - 1];
      NonSpaceTwice(front);
      NonSpaceConcat(NonSpace(front), [c]);
      NonSpaceOfOne(c);
      assert NonSpace(front) + "" == NonSpace(front);
    }
  }

  lemma SentencesKeep(p: Patterns, s: string)
    requires Splitters.FindsStops(Protect(s), p.stops(Protect(s)))
    ensures KeepsExactlyWhen(NonSpace(Flatten(Splitters.Sentences(p.stops(Protect(s))))), NonSpace(s), CutsClean(p, s))
  {
    hide NonSpace, Flatten, Splitters.Sentences, KeepsExactlyWhen, Protect, HasMarker;
    Splitters.SentencesKeepText(s, p.stops(Protect(s)));
  }

  lemma WholeOrLess(after: string, before: string, whole: bool)
    requires KeepsExactlyWhen(after, before, whole)
    ensures after == before <==> whole
    ensures KeepsExactlyWhen(after, before, after == before)
  {
  }

  /** Words and paragraphs always keep their text; sentences do so exactly when they are cut clean. */
  lemma SplitterAt(c: Setup, p: Patterns, level: Level, s: string)
    requires UsesTheSplitters(c, p)
    ensures forall i :: 0 <= i < |c.split(level, s)| ==> c.split(level, s)[i] != ""
    ensures KeepsExactlyWhen(NonSpace(Flatten(c.split(level, s))), NonSpace(s), SplitKeeps(c, level, s))
    ensures SplitKeeps(c, level, s) <==> (level == Sentences ==> CutsClean(p, s))
  {
    hide NonSpace, Flatten, CutsClean, Protect, KeepsExactlyWhen;
    hide Splitters.Sentences, Splitters.Fields, Splitters.FindsStops, Splitters.FindsBlankLines;
    match level {
      case Words =>
        WordsKeep(s);
        KeepsItself(NonSpace(s));
      case Paragraphs =>
        ParagraphsKeep(s, p.blankLines(s));
        KeepsItself(NonSpace(s));
      case Sentences =>
        SentencesKeep(p, s);
        Splitters.SentencesAreNotEmpty(p.stops(Protect(s)));
        WholeOrLess(NonSpace(Flatten(c.split(level, s))), NonSpace(s), CutsClean(p, s));
    }
  }

  /** The splitters meet what packing assumes of them; only cutting into sentences can lose text. */
  lemma SplittersBehave(c: Setup, p: Patterns)
    requires UsesTheSplitters(c, p)
    ensures SplitsWell(c) && SplitsNeverGain(c)
    ensures forall level, s :: SplitKeeps(c, level, s) <==> (level == Sentences ==> CutsClean(p, s))
  {
    hide UsesTheSplitters, NonSpace, Flatten, KeepsExactlyWhen, SplitKeeps, CutsClean;
    forall level, s
      ensures forall i :: 0 <= i < |c.split(level, s)| ==> c.split(level, s)[i] != ""
      ensures KeepsExactlyWhen(NonSpace(Flatten(c.split(level, s))), NonSpace(s), SplitKeeps(c, level, s))
      ensures SplitKeeps(c, level, s) <==> (level == Sentences ==> CutsClean(p, s))
    {
      SplitterAt(c, p, level, s);
    }
  }

  // ----- the condition a caller can check -----

  /** Every paragraph too long for a chunk is cut clean. */
  ghost predicate ParagraphsCutClean(c: Setup, p: Patterns, ps: seq<string>) {
    forall k :: 0 <= k < |ps| && Count(c, ps[k]) > c.maxTokens ==> CutsClean(p, ps[k])
  }

  /** The same for the paragraphs of every section too long for a chunk. */
  ghost predicate DocumentCutsClean(c: Setup, p: Patterns, sections: seq<Section>) {
    forall i :: 0 <= i < |sections| && Count(c, sections[i].content) > c.maxTokens ==>
      ParagraphsCutClean(c, p, c.split(Paragraphs, sections[i].content))
  }

  /** Below the paragraphs nothing more can be lost. */
  lemma {:induction false} LowerSplitsKeep(c: Setup, p: Patterns, level: Level, ps: seq<string>)
    requires level != Paragraphs && forall l, s :: SplitKeeps(c, l, s) <==> (l == Sentences ==> CutsClean(p, s))
    ensures UsedSplitsKeep(c, level, ps)
    decreases Rank(level), |ps|
  {
    hide SplitKeeps, CutsClean, Count;
    if ps != [] {
      LowerSplitsKeep(c, p, level, ps[1..]);
      if Oversized(c, level, ps[0]) {
        LowerSplitsKeep(c, p, Words, c.split(Words, ps[0]));
      }
    }
  }

  lemma {:induction false} UsedSplitsAreClean(c: Setup, p: Patterns, ps: seq<string>)
    requires forall l, s :: SplitKeeps(c, l, s) <==> (l == Sentences ==> CutsClean(p, s))
    ensures UsedSplitsKeep(c, Paragraphs, ps) <==> ParagraphsCutClean(c, p, ps)
  {
    if ps != [] {
      hide SplitKeeps, CutsClean, Count, UsedSplitsKeep;
      UsedSplitsAreClean(c, p, ps[1..]);
      Unfold(c, Paragraphs, ps);
      LowerSplitsKeep(c, p, Sentences, c.split(Sentences, ps[0]));
      FirstParagraph(c, p, ps);
    }
  }

  lemma FirstParagraph(c: Setup, p: Patterns, ps: seq<string>)
    requires ps != []
    ensures ParagraphsCutClean(c, p, ps) <==>
            (Count(c, ps[0]) > c.maxTokens ==> CutsClean(p, ps[0])) && ParagraphsCutClean(c, p, ps[1..])
  {
    hide CutsClean, Count;
    assert forall k :: 1 <= k < |ps| ==> ps[k] == ps[1..][k - 1];
  }

  lemma DocumentSplitsAreClean(c: Setup, p: Patterns, sections: seq<Section>)
    requires UsesTheSplitters(c, p)
    ensures DocumentSplitsKeep(c, sections) <==> DocumentCutsClean(c, p, sections)
  {
    SplittersBehave(c, p);
    hide UsesTheSplitters, SplitsWell, SplitsNeverGain, SplitKeeps, CutsClean, UsedSplitsKeep, ParagraphsCutClean,
         Count;
    forall i | 0 <= i < |sections|
      ensures SectionSplitsKeep(c, sections[i].content) <==>
              (Count(c, sections[i].content) > c.maxTokens ==>
                 ParagraphsCutClean(c, p, c.split(Paragraphs, sections[i].content)))
    {
      UsedSplitsAreClean(c, p, c.split(Paragraphs, sections[i].content));
    }
  }

  /**
   * Read in order and before overlap is added, the chunks hold every non-space character of the text, each once and
   * in its place, exactly when every paragraph too long for a chunk is cut clean; otherwise characters are lost.
   */
  lemma ChunksKeepText(c: Setup, p: Patterns, text: string, matches: seq<seq<Boundary>>, sections: seq<Section>)
    requires UsesTheSplitters(c, p) && IsSectioning(text, matches, sections)
    ensures KeepsExactlyWhen(NonSpace(Flatten(Rendered(DocumentGroups(c, sections)))), NonSpace(text),
                             DocumentCutsClean(c, p, sections))
  {
    hide *;
    SplittersBehave(c, p);
    ChunksKeepSplitText(c, text, matches, sections);
    DocumentSplitsAreClean(c, p, sections);
  }

  /** The same for a paged text: the pages' texts one after the other. */
  lemma PagedChunksKeepText(c: Setup, p: Patterns, pages: seq<PageContent>, sections: seq<seq<Section>>)
    requires UsesTheSplitters(c, p) && SectionsPages(pages, sections)
    ensures KeepsExactlyWhen(NonSpace(Flatten(Rendered(DocumentGroups(c, Flatten(sections))))),
                             NonSpace(Flatten(Texts(pages))),
                             DocumentCutsClean(c, p, Flatten(sections)))
  {
    hide *;
    SplittersBehave(c, p);
    PagedChunksKeepSplitText(c, pages, sections);
    DocumentSplitsAreClean(c, p, Flatten(sections));
  }

  // ----- a text that is not kept -----

  const DOTS_FIRST := "... Run on. Go"

  lemma DotsNeedNoProtection()
    ensures Protect(DOTS_FIRST) == DOTS_FIRST
  {
    assert forall i :: 0 <= i < |ABBREVIATIONS| ==> ABBREVIATIONS[i] != "" && ABBREVIATIONS[i][0] !in DOTS_FIRST;
    NothingToProtect(DOTS_FIRST, ABBREVIATIONS, |ABBREVIATIONS|);
  }

  lemma WholeTextIsItsSection(text: string)
    ensures IsSectioning(text, [], [Section("", 0, "", text, 0, |text|)])
  {
    var none: seq<Boundary> := [];
    assert Flatten<Boundary>([]) == none;
    assert MergesMatches(none, []) && CutsAt(text, none, [Section("", 0, "", text, 0, |text|)]);
  }

  lemma TrimmedIsOneParagraph(text: string)
    requires text != "" && !IsSpace(text[0]) && !IsSpace(text[|text| - 1])
    ensures Splitters.Paragraphs([text]) == [text]
  {
    TrimsToItself(text);
    assert [text][..0] == [];
    assert Splitters.Paragraphs([]) == [];
  }

  /** A blank part before the last is all it takes. */
  lemma BlankPartIsNotClean(p: Patterns, s: string)
    requires var f := p.stops(Protect(s)); 0 < |f.marks| <= |f.parts| && f.parts[0] == ""
    ensures !CutsClean(p, s)
  {
    hide Protect, HasMarker;
    assert Trim("") == "";
  }

  /** A text of one section and one paragraph, too long for a chunk and not cut clean, is not kept. */
  lemma OneParagraphLost(c: Setup, p: Patterns, text: string)
    requires UsesTheSplitters(c, p) && Count(c, text) > c.maxTokens && !CutsClean(p, text)
    requires c.split(Paragraphs, text) == [text]
    ensures
      var sections := [Section("", 0, "", text, 0, |text|)];
      && IsSectioning(text, [], sections)
      && |NonSpace(Flatten(Rendered(DocumentGroups(c, sections))))| < |NonSpace(text)|
  {
    var sections := [Section("", 0, "", text, 0, |text|)];
    WholeTextIsItsSection(text);
    hide NonSpace, Flatten, Rendered, DocumentGroups, IsSectioning, CutsClean, Count, UsesTheSplitters;
    assert !ParagraphsCutClean(c, p, [text]) by {
      assert Count(c, [text][0]) > c.maxTokens;
    }
    assert !DocumentCutsClean(c, p, sections) by {
      assert Count(c, sections[0].content) > c.maxTokens;
    }
    ChunksKeepText(c, p, text, [], sections);
  }

  /** A paragraph too long for a chunk that begins with dots: its chunks have lost a full stop. */
  lemma LeadingDotsLoseText(c: Setup, p: Patterns)
    requires UsesTheSplitters(c, p) && Count(c, DOTS_FIRST) > c.maxTokens
    requires p.blankLines(DOTS_FIRST).parts == [DOTS_FIRST]
    requires p.stops(DOTS_FIRST) == Splitters.Stops(["", "Run on", "Go"], ["...", "."], ["... ", ". "])
    ensures
      var sections := [Section("", 0, "", DOTS_FIRST, 0, |DOTS_FIRST|)];
      && IsSectioning(DOTS_FIRST, [], sections)
      && |NonSpace(Flatten(Rendered(DocumentGroups(c, sections))))| < |NonSpace(DOTS_FIRST)|
  {
    hide *;
    DotsNeedNoProtection();
    DotsAreOneParagraph(c, p);
    BlankPartIsNotClean(p, DOTS_FIRST);
    OneParagraphLost(c, p, DOTS_FIRST);
  }

  lemma DotsAreOneParagraph(c: Setup, p: Patterns)
    requires UsesTheSplitters(c, p) && p.blankLines(DOTS_FIRST).parts == [DOTS_FIRST]
    ensures c.split(Paragraphs, DOTS_FIRST) == [DOTS_FIRST]
  {
    TrimmedIsOneParagraph(DOTS_FIRST);
  }
}
