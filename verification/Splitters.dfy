/** How text is cut into paragraphs, sentences and words, given what the split patterns match. */
module Splitters {
  import opened Abbreviations
  import opened Common
  import opened SolidText
  import opened Strings

  // ----- the text a pattern was split from -----

  /** The first `n` parts with the gaps the pattern matched between them. */
  function Interleaved(parts: seq<string>, gaps: seq<string>, n: nat): string
    requires n <= |parts| == |gaps| + 1
  {
    if n == 0 then "" else Interleaved(parts, gaps, n - 1) + parts[n - 1] + if n - 1 < |gaps| then gaps[n - 1] else ""
  }

  lemma InterleavedStep(parts: seq<string>, gaps: seq<string>, n: nat)
    requires 0 < n <= |parts| == |gaps| + 1
    ensures NonSpace(Interleaved(parts, gaps, n)) ==
            NonSpace(Interleaved(parts, gaps, n - 1)) + NonSpace(parts[n - 1])
            + if n - 1 < |gaps| then NonSpace(gaps[n - 1]) else ""
  {
    hide NonSpace;
    var before := Interleaved(parts, gaps, n - 1);
    var gap := if n - 1 < |gaps| then gaps[n - 1] else "";
    NonSpaceConcat(before, parts[n - 1]);
    NonSpaceConcat(before + parts[n - 1], gap);
    NothingIsNothing();
  }

  // ----- paragraphs -----

  function Paragraphs(parts: seq<string>): (r: seq<string>)
    ensures forall i :: 0 <= i < |r| ==> r[i] != ""
  {
    if parts == [] then []
    else
      var p := Trim(parts[|parts| - 1]);
      Paragraphs(parts[..|parts| - 1]) + if p == "" then [] else [p]
  }

  /** `parts` is what lies between the blank-line separators. */
  method SplitParagraphs(parts: seq<string>) returns (paragraphs: seq<string>)
    ensures paragraphs == Paragraphs(parts)
  {
    paragraphs := [];
    for i := 0 to |parts|
      invariant paragraphs == Paragraphs(parts[..i])
    {
      assert parts[..i + 1][..i] == parts[..i];
      var p := Trim(parts[i]);
      if p != "" {
        paragraphs := paragraphs + [p];
      }
    }
    assert parts[..|parts|] == parts;
  }

  lemma {:induction false} TrimmedPartsKeepText(parts: seq<string>)
    ensures NonSpace(Flatten(Paragraphs(parts))) == NonSpace(Flatten(parts))
  {
    hide Trim;
    if parts != [] {
      var front, last := parts[..|parts| - 1], parts[|parts| - 1];
      TrimmedPartsKeepText(front);
      NonSpaceConcat(Flatten(front), last);
      TrimKeeps(last);
      FlattenAppends(Paragraphs(front), Trim(last));
      NonSpaceConcat(Flatten(Paragraphs(front)), Trim(last));
      assert Paragraphs(front) + [] == Paragraphs(front);
    }
  }

  /** What the pattern for blank lines matches in a text, and the parts around it. */
  datatype BlankLines = BlankLines(parts: seq<string>, gaps: seq<string>)

  ghost predicate FindsBlankLines(text: string, b: BlankLines) {
    |b.parts| == |b.gaps| + 1 && BlankGaps(b.gaps) && text == Interleaved(b.parts, b.gaps, |b.parts|)
  }

  ghost predicate BlankGaps(gaps: seq<string>) {
    forall k :: 0 <= k < |gaps| ==> NonSpace(gaps[k]) == ""
  }

  lemma {:induction false} BlankGapsHoldNoText(parts: seq<string>, gaps: seq<string>, n: nat)
    requires n <= |parts| == |gaps| + 1 && BlankGaps(gaps)
    ensures NonSpace(Interleaved(parts, gaps, n)) == NonSpace(Flatten(parts[..n]))
  {
    hide NonSpace, Interleaved, Flatten;
    if n == 0 {
      assert Interleaved(parts, gaps, 0) == Flatten(parts[..0]) by { NothingYet(parts, gaps); }
    } else {
      BlankGapsHoldNoText(parts, gaps, n - 1);
      InterleavedStep(parts, gaps, n);
      assert parts[..n] == parts[..n - 1] + [parts[n - 1]];
      FlattenAppends(parts[..n - 1], parts[n - 1]);
      NonSpaceConcat(Flatten(parts[..n - 1]), parts[n - 1]);
    }
  }

  lemma NothingYet(parts: seq<string>, gaps: seq<string>)
    requires |parts| == |gaps| + 1
    ensures Interleaved(parts, gaps, 0) == Flatten(parts[..0])
  {
  }

  /** Cutting at blank lines loses spaces only, wherever blank parts stand. */
  lemma ParagraphsKeepText(parts: seq<string>, gaps: seq<string>)
    requires |parts| == |gaps| + 1 && BlankGaps(gaps)
    ensures NonSpace(Flatten(Paragraphs(parts))) == NonSpace(Interleaved(parts, gaps, |parts|))
  {
    hide *;
    TrimmedPartsKeepText(parts);
    BlankGapsHoldNoText(parts, gaps, |parts|);
    assert parts[..|parts|] == parts;
  }

  // ----- sentences -----

  /** The sentences built so far and how many punctuation marks have been handed out. */
  datatype Cut = Cut(sentences: seq<string>, used: nat)

  /** The first `n` parts; marks are handed out in order to the parts that are not blank. */
  function CutTo(parts: seq<string>, marks: seq<string>, n: nat): (c: Cut)
    requires n <= |parts|
    ensures c.used <= n && c.used <= |marks|
    ensures forall i :: 0 <= i < |c.sentences| ==> c.sentences[i] != ""
  {
    if n == 0 then Cut([], 0)
    else
      var before := CutTo(parts, marks, n - 1);
      var part := Trim(parts[n - 1]);
      if part == "" then before
      else if before.used < |marks| && n - 1 < |parts| - 1 then
        Cut(before.sentences + [part + marks[before.used]], before.used + 1)
      else Cut(before.sentences + [part], before.used)
  }

  function Least(a: nat, b: nat): nat {
    if a < b then a else b
  }

  /** Each mark is its gap without the white space that ends it. */
  ghost predicate PunctuationGaps(marks: seq<string>, gaps: seq<string>) {
    && |gaps| == |marks|
    && forall k :: 0 <= k < |marks| ==>
         marks[k] != "" && NonSpace(marks[k]) == marks[k] && NonSpace(gaps[k]) == marks[k]
  }

  /** Total length of the first `n` marks. */
  function MarksLength(marks: seq<string>, n: nat): nat
    requires n <= |marks|
  {
    if n == 0 then 0 else MarksLength(marks, n - 1) + |marks[n - 1]|
  }

  function PartsLength(parts: seq<string>, n: nat): nat
    requires n <= |parts|
  {
    if n == 0 then 0 else PartsLength(parts, n - 1) + |NonSpace(parts[n - 1])|
  }

  lemma {:induction false} MarksGrow(marks: seq<string>, gaps: seq<string>, m: nat, n: nat)
    requires PunctuationGaps(marks, gaps) && m < n <= |marks|
    ensures MarksLength(marks, m) < MarksLength(marks, n)
  {
    hide NonSpace;
    if m < n - 1 {
      MarksGrow(marks, gaps, m, n - 1);
    }
  }

  predicate NoBlankBefore(parts: seq<string>, n: nat)
    requires n <= |parts|
  {
    forall i :: 0 <= i < n ==> Trim(parts[i]) != ""
  }

  lemma SourceLengthStep(parts: seq<string>, marks: seq<string>, gaps: seq<string>, n: nat)
    requires 0 < n <= |parts| == |marks| + 1 == |gaps| + 1 && PunctuationGaps(marks, gaps)
    ensures |NonSpace(Interleaved(parts, gaps, n))| - |NonSpace(Interleaved(parts, gaps, n - 1))| ==
            PartsLength(parts, n) - PartsLength(parts, n - 1)
            + MarksLength(marks, Least(n, |marks|)) - MarksLength(marks, Least(n - 1, |marks|))
  {
    hide NonSpace, Interleaved;
    InterleavedStep(parts, gaps, n);
  }

  lemma SourceLengthStart(parts: seq<string>, marks: seq<string>, gaps: seq<string>)
    requires |parts| == |marks| + 1 == |gaps| + 1
    ensures |NonSpace(Interleaved(parts, gaps, 0))| == PartsLength(parts, 0) + MarksLength(marks, Least(0, |marks|))
  {
    hide NonSpace;
    NothingIsNothing();
  }

  lemma {:induction false} SourceLength(parts: seq<string>, marks: seq<string>, gaps: seq<string>, n: nat)
    requires n <= |parts| == |marks| + 1 == |gaps| + 1 && PunctuationGaps(marks, gaps)
    ensures |NonSpace(Interleaved(parts, gaps, n))| == PartsLength(parts, n) + MarksLength(marks, Least(n, |marks|))
  {
    hide NonSpace, Interleaved, PartsLength, MarksLength, PunctuationGaps;
    if n == 0 {
      SourceLengthStart(parts, marks, gaps);
    } else {
      SourceLength(parts, marks, gaps, n - 1);
      SourceLengthStep(parts, marks, gaps, n);
    }
  }

  /** The mark given to part `n - 1`, if any. */
  function MarkGiven(parts: seq<string>, marks: seq<string>, n: nat): string
    requires 0 < n <= |parts|
  {
    var used := CutTo(parts, marks, n - 1).used;
    if Trim(parts[n - 1]) != "" && used < |marks| && n < |parts| then marks[used] else ""
  }

  lemma CutStep(parts: seq<string>, marks: seq<string>, n: nat)
    requires 0 < n <= |parts|
    ensures Trim(parts[n - 1]) == "" ==> CutTo(parts, marks, n) == CutTo(parts, marks, n - 1)
    ensures Trim(parts[n - 1]) != "" ==>
              CutTo(parts, marks, n).sentences ==
              CutTo(parts, marks, n - 1).sentences + [Trim(parts[n - 1]) + MarkGiven(parts, marks, n)]
  {
    hide Trim;
    var part := Trim(parts[n - 1]);
    assert part + "" == part;
  }

  /** One more part adds its own text and the mark it is given. */
  lemma TextStep(parts: seq<string>, marks: seq<string>, n: nat)
    requires 0 < n <= |parts|
    ensures NonSpace(Flatten(CutTo(parts, marks, n).sentences)) ==
            NonSpace(Flatten(CutTo(parts, marks, n - 1).sentences)) + NonSpace(parts[n - 1])
            + NonSpace(MarkGiven(parts, marks, n))
  {
    hide NonSpace, Trim, CutTo, Flatten;
    CutStep(parts, marks, n);
    TrimKeeps(parts[n - 1]);
    BlankMeansNoText(parts[n - 1]);
    NothingIsNothing();
    var before := CutTo(parts, marks, n - 1).sentences;
    if Trim(parts[n - 1]) == "" {
      assert NonSpace(Flatten(before)) + "" + "" == NonSpace(Flatten(before));
    } else {
      AddSentence(before, Trim(parts[n - 1]), MarkGiven(parts, marks, n));
    }
  }

  lemma UsedStep(parts: seq<string>, marks: seq<string>, gaps: seq<string>, n: nat)
    requires 0 < n <= |parts| && PunctuationGaps(marks, gaps)
    ensures MarksLength(marks, CutTo(parts, marks, n).used) ==
            MarksLength(marks, CutTo(parts, marks, n - 1).used) + |NonSpace(MarkGiven(parts, marks, n))|
  {
    hide NonSpace, Trim;
    NothingIsNothing();
  }

  lemma LengthStep(parts: seq<string>, marks: seq<string>, gaps: seq<string>, n: nat)
    requires 0 < n <= |parts| && PunctuationGaps(marks, gaps)
    ensures |NonSpace(Flatten(CutTo(parts, marks, n).sentences))|
            - |NonSpace(Flatten(CutTo(parts, marks, n - 1).sentences))| ==
            PartsLength(parts, n) - PartsLength(parts, n - 1)
            + MarksLength(marks, CutTo(parts, marks, n).used) - MarksLength(marks, CutTo(parts, marks, n - 1).used)
  {
    hide NonSpace, Flatten, CutTo, MarkGiven, MarksLength, PunctuationGaps;
    TextStep(parts, marks, n);
    UsedStep(parts, marks, gaps, n);
  }

  lemma LengthStart(parts: seq<string>, marks: seq<string>)
    ensures |NonSpace(Flatten(CutTo(parts, marks, 0).sentences))| ==
            PartsLength(parts, 0) + MarksLength(marks, CutTo(parts, marks, 0).used)
  {
    hide NonSpace;
    NothingIsNothing();
  }

  /** The sentences hold every part and the first `used` marks. */
  lemma {:induction false} SentencesLength(parts: seq<string>, marks: seq<string>, gaps: seq<string>, n: nat)
    requires n <= |parts| && PunctuationGaps(marks, gaps)
    ensures |NonSpace(Flatten(CutTo(parts, marks, n).sentences))| ==
            PartsLength(parts, n) + MarksLength(marks, CutTo(parts, marks, n).used)
  {
    hide *;
    if n == 0 {
      LengthStart(parts, marks);
    } else {
      SentencesLength(parts, marks, gaps, n - 1);
      LengthStep(parts, marks, gaps, n);
    }
  }

  lemma AddSentence(sentences: seq<string>, part: string, mark: string)
    ensures NonSpace(Flatten(sentences + [part + mark])) ==
            NonSpace(Flatten(sentences)) + NonSpace(part) + NonSpace(mark)
  {
    hide NonSpace;
    FlattenAppends(sentences, part + mark);
    NonSpaceConcat(Flatten(sentences), part + mark);
    NonSpaceConcat(part, mark);
  }

  /** A blank part wastes a turn: fewer marks are handed out than were found. */
  lemma {:induction false} MarksUsed(parts: seq<string>, marks: seq<string>, n: nat)
    requires n <= |parts| == |marks| + 1
    ensures CutTo(parts, marks, n).used <= Least(n, |marks|)
    ensures CutTo(parts, marks, n).used == Least(n, |marks|) <==> NoBlankBefore(parts, Least(n, |marks|))
  {
    hide Trim;
    if n > 0 {
      MarksUsed(parts, marks, n - 1);
    }
  }

  /** While no part was blank, every part is given its own mark. */
  lemma OwnMark(parts: seq<string>, marks: seq<string>, n: nat)
    requires 0 < n <= |parts| == |marks| + 1 && NoBlankBefore(parts, Least(n, |marks|))
    ensures MarkGiven(parts, marks, n) == if n - 1 < |marks| then marks[n - 1] else ""
  {
    hide Trim, CutTo;
    MarksUsed(parts, marks, n - 1);
  }

  lemma GapText(marks: seq<string>, gaps: seq<string>, k: nat)
    requires PunctuationGaps(marks, gaps) && k < |marks|
    ensures NonSpace(gaps[k]) == marks[k] == NonSpace(marks[k])
  {
    hide NonSpace;
  }

  lemma StillNoBlank(parts: seq<string>, limit: nat, n: nat)
    requires 0 < n <= |parts| && limit <= |parts| && NoBlankBefore(parts, Least(n, limit))
    ensures NoBlankBefore(parts, Least(n - 1, limit))
  {
    hide Trim;
  }

  lemma OrderStep(parts: seq<string>, marks: seq<string>, gaps: seq<string>, n: nat)
    requires 0 < n <= |parts| == |marks| + 1 == |gaps| + 1 && PunctuationGaps(marks, gaps) &&
             NoBlankBefore(parts, Least(n, |marks|))
    requires NonSpace(Flatten(CutTo(parts, marks, n - 1).sentences)) == NonSpace(Interleaved(parts, gaps, n - 1))
    ensures NonSpace(Flatten(CutTo(parts, marks, n).sentences)) == NonSpace(Interleaved(parts, gaps, n))
  {
    hide *;
    TextStep(parts, marks, n);
    OwnMark(parts, marks, n);
    InterleavedStep(parts, gaps, n);
    NothingIsNothing();
    if n - 1 < |marks| {
      GapText(marks, gaps, n - 1);
    }
  }

  lemma {:induction false} SentencesInOrder(parts: seq<string>, marks: seq<string>, gaps: seq<string>, n: nat)
    requires n <= |parts| == |marks| + 1 == |gaps| + 1 && PunctuationGaps(marks, gaps) &&
             NoBlankBefore(parts, Least(n, |marks|))
    ensures NonSpace(Flatten(CutTo(parts, marks, n).sentences)) == NonSpace(Interleaved(parts, gaps, n))
  {
    if n == 0 {
      NothingIsNothing();
    } else {
      hide *;
      StillNoBlank(parts, |marks|, n);
      SentencesInOrder(parts, marks, gaps, n - 1);
      OrderStep(parts, marks, gaps, n);
    }
  }

  /** The parts with the marks handed to them keep all the text exactly when no part before the last is blank. */
  lemma CutKeepsText(parts: seq<string>, marks: seq<string>, gaps: seq<string>)
    requires |parts| == |marks| + 1 == |gaps| + 1 && PunctuationGaps(marks, gaps)
    ensures KeepsExactlyWhen(NonSpace(Flatten(CutTo(parts, marks, |parts|).sentences)),
                             NonSpace(Interleaved(parts, gaps, |parts|)),
                             NoBlankBefore(parts, |marks|))
  {
    hide NonSpace, Interleaved, CutTo, Flatten, PunctuationGaps, MarksLength, PartsLength, NoBlankBefore;
    var n := |parts|;
    MarksUsed(parts, marks, n);
    if NoBlankBefore(parts, |marks|) {
      SentencesInOrder(parts, marks, gaps, n);
    } else {
      SourceLength(parts, marks, gaps, n);
      SentencesLength(parts, marks, gaps, n);
      MarksGrow(marks, gaps, CutTo(parts, marks, n).used, |marks|);
    }
  }

  /** "... Hello. Bye": the leading dots end up after Hello, and its own full stop is lost. */
  lemma LeadingPunctuationShifts()
    ensures CutTo(["", "Hello", "Bye"], ["...", "."], 3).sentences == ["Hello...", "Bye"]
  {
    var parts, marks := ["", "Hello", "Bye"], ["...", "."];
    assert CutTo(parts, marks, 1) == Cut([], 0);
    TrimsToItself("Hello");
    TrimsToItself("Bye");
    assert CutTo(parts, marks, 2) == Cut(["Hello" + "..."], 1);
    assert CutTo(parts, marks, 3) == Cut(["Hello" + "..."] + ["Bye"], 1) || CutTo(parts, marks, 3).used == 1;
    assert "Hello" + "..." == "Hello...";
  }

  // ----- sentences with their abbreviations -----

  predicate IsStop(c: char) {
    c == '.' || c == '!' || c == '?'
  }

  /** What the pattern for the end of a sentence matches: a run of stops, which is kept, and white space. */
  ghost predicate StopGap(mark: string, gap: string) {
    && mark != "" && mark < gap
    && (forall i :: 0 <= i < |mark| ==> IsStop(mark[i]))
    && forall i :: |mark| <= i < |gap| ==> IsSpace(gap[i])
  }

  /** What the pattern engine reports for a text: its matches, the stops in each, and the parts around them. */
  datatype Stops = Stops(parts: seq<string>, marks: seq<string>, gaps: seq<string>)

  type StopFinder = string -> Stops

  ghost predicate FindsStops(text: string, f: Stops) {
    && |f.parts| == |f.marks| + 1 == |f.gaps| + 1
    && (forall k :: 0 <= k < |f.marks| ==> StopGap(f.marks[k], f.gaps[k]))
    && text == Interleaved(f.parts, f.gaps, |f.parts|)
  }

  function RestoreAll(ss: seq<string>): (r: seq<string>)
    ensures |r| == |ss| && forall i :: 0 <= i < |ss| ==> r[i] == Restore(ss[i])
  {
    seq(|ss|, i requires 0 <= i < |ss| => Restore(ss[i]))
  }

  function Sentences(f: Stops): seq<string> {
    RestoreAll(CutTo(f.parts, f.marks, |f.parts|).sentences)
  }

  lemma RestoreOneMore(ss: seq<string>, s: string)
    ensures RestoreAll([]) == [] && RestoreAll(ss + [s]) == RestoreAll(ss) + [Restore(s)]
  {
    hide Restore;
  }

  method SplitSentences(find: StopFinder, text: string) returns (sentences: seq<string>)
    ensures sentences == Sentences(find(Protect(text)))
  {
    hide Restore, Trim, RestoreAll;
    RestoreOneMore([], "");
    var protected := ProtectAbbreviations(text);
    var found := find(protected);
    sentences := [];
    var matchIdx := 0;
    ghost var cut: seq<string> := [];
    for i := 0 to |found.parts|
      invariant Cut(cut, matchIdx) == CutTo(found.parts, found.marks, i)
      invariant sentences == RestoreAll(cut)
    {
      var part := Trim(found.parts[i]);
      if part == "" {
        continue;
      }
      if matchIdx < |found.marks| && i < |found.parts| - 1 {
        part := part + found.marks[matchIdx];
        matchIdx := matchIdx + 1;
      }
      RestoreOneMore(cut, part);
      cut := cut + [part];
      sentences := sentences + [Restore(part)];
    }
  }

  lemma {:induction false} SpacesHoldNothing(s: string)
    requires forall i :: 0 <= i < |s| ==> IsSpace(s[i])
    ensures NonSpace(s) == ""
  {
    hide IsSpace;
    if s != "" {
      SpacesHoldNothing(s[..|s| - 1]);
    }
  }

  lemma StopsAreSolid(s: string)
    requires forall i :: 0 <= i < |s| ==> IsStop(s[i])
    ensures NonSpace(s) == s
  {
    hide NonSpace;
    NonSpaceOfSolid(s);
  }

  lemma StopGapText(mark: string, gap: string)
    requires StopGap(mark, gap)
    ensures NonSpace(mark) == mark == NonSpace(gap)
  {
    hide NonSpace, IsSpace, IsStop;
    var spaces := gap[|mark|..];
    assert mark + spaces == gap;
    StopsAreSolid(mark);
    SpacesHoldNothing(spaces);
    NonSpaceConcat(mark, spaces);
  }

  lemma StopsArePunctuation(f: Stops, text: string)
    requires FindsStops(text, f)
    ensures PunctuationGaps(f.marks, f.gaps)
  {
    hide NonSpace, Interleaved, StopGap;
    forall k | 0 <= k < |f.marks|
      ensures f.marks[k] != "" && NonSpace(f.marks[k]) == f.marks[k] == NonSpace(f.gaps[k])
    {
      StopGapText(f.marks[k], f.gaps[k]);
      StopGapStarts(f.marks[k], f.gaps[k]);
    }
  }

  /** A mark and its gap stand clear of every marker, and have none in them. */
  lemma StopGapStarts(mark: string, gap: string)
    requires StopGap(mark, gap)
    ensures mark != "" && gap != ""
    ensures Restore(mark) == mark && Restore(gap) == gap
    ensures forall s :: Apart(s, mark)
    ensures forall s :: Apart(s, gap)
    ensures StandsClear(gap)
  {
    assert forall i :: 0 <= i < |gap| ==> IsStop(gap[i]) || IsSpace(gap[i]) by {
      assert forall i :: 0 <= i < |mark| ==> gap[i] == mark[i];
    }
    NothingToRestore(mark);
    NothingToRestore(gap);
    assert IsStop(mark[0]) && gap[0] == mark[0];
    assert IsSpace(gap[|gap| - 1]);
  }

  /** Restoring the whole protected text restores its parts. */
  lemma {:induction false} RestoreInterleaved(f: Stops, text: string, n: nat)
    requires FindsStops(text, f) && n <= |f.parts|
    ensures Restore(Interleaved(f.parts, f.gaps, n)) == Interleaved(RestoreAll(f.parts), f.gaps, n)
    ensures n > 0 && n <= |f.gaps| ==> StandsClear(Interleaved(f.parts, f.gaps, n))
  {
    hide Restore, StopGap, Apart;
    if n == 0 {
      RestoreEmpty("");
    } else {
      RestoreInterleaved(f, text, n - 1);
      RestoreInterleavedStep(f, text, n);
    }
  }

  lemma RestoreInterleavedStep(f: Stops, text: string, n: nat)
    requires FindsStops(text, f) && 0 < n <= |f.parts|
    requires Restore(Interleaved(f.parts, f.gaps, n - 1)) == Interleaved(RestoreAll(f.parts), f.gaps, n - 1)
    requires n > 1 ==> StandsClear(Interleaved(f.parts, f.gaps, n - 1))
    ensures Restore(Interleaved(f.parts, f.gaps, n)) == Interleaved(RestoreAll(f.parts), f.gaps, n)
    ensures n <= |f.gaps| ==> StandsClear(Interleaved(f.parts, f.gaps, n))
  {
    hide Restore, StopGap;
    var before, part := Interleaved(f.parts, f.gaps, n - 1), f.parts[n - 1];
    assert Apart(before, part);
    RestoreConcat(before, part);
    if n <= |f.gaps| {
      var gap := f.gaps[n - 1];
      StopGapStarts(f.marks[n - 1], gap);
      assert Apart(before + part, gap);
      RestoreConcat(before + part, gap);
      var whole := before + part + gap;
      forall s
        ensures Apart(whole, s)
      {
        ApartEnd(before + part, gap, s);
      }
    } else {
      assert before + part + "" == before + part;
      assert Restore(before) + Restore(part) + "" == Restore(before) + Restore(part);
    }
  }

  lemma ApartEnd(a: string, b: string, s: string)
    requires b != "" && Apart(b, s)
    ensures Apart(a + b, s)
  {
    assert (a + b)[|a + b| - 1] == b[|b| - 1];
  }

  /** Restoring the sentences and cutting the restored parts come to the same. */
  lemma {:induction false} RestoreCut(f: Stops, text: string, n: nat)
    requires FindsStops(text, f) && n <= |f.parts|
    ensures
      var a, b := CutTo(f.parts, f.marks, n), CutTo(RestoreAll(f.parts), f.marks, n);
      b.used == a.used && b.sentences == RestoreAll(a.sentences)
  {
    hide Restore, Trim, StopGap, Interleaved;
    if n > 0 {
      RestoreCut(f, text, n - 1);
      RestoreTrim(f.parts[n - 1]);
      RestoreEmpty(Trim(f.parts[n - 1]));
      var a := CutTo(f.parts, f.marks, n - 1);
      var part := Trim(f.parts[n - 1]);
      if part != "" && a.used < |f.marks| && n < |f.parts| {
        RestoreMarked(f, text, part, a.used);
      }
    }
  }

  lemma RestoreMarked(f: Stops, text: string, part: string, k: nat)
    requires FindsStops(text, f) && k < |f.marks|
    ensures Restore(part + f.marks[k]) == Restore(part) + f.marks[k]
  {
    hide Restore, StopGap, Interleaved;
    StopGapStarts(f.marks[k], f.gaps[k]);
    RestoreConcat(part, f.marks[k]);
  }

  lemma RestoreKeepsBlanks(parts: seq<string>, n: nat)
    requires n <= |parts|
    ensures NoBlankBefore(RestoreAll(parts), n) <==> NoBlankBefore(parts, n)
  {
    hide Restore, Trim;
    forall i | 0 <= i < n
      ensures Trim(RestoreAll(parts)[i]) == "" <==> Trim(parts[i]) == ""
    {
      RestoreTrim(parts[i]);
      RestoreEmpty(Trim(parts[i]));
    }
  }

  /** Cutting into sentences keeps all the text exactly when no part before the last is blank and the text does not
      itself mention the marker for a hidden full stop; otherwise text is lost. */
  lemma SentencesKeepText(text: string, f: Stops)
    requires FindsStops(Protect(text), f)
    ensures |f.marks| <= |f.parts|
    ensures KeepsExactlyWhen(NonSpace(Flatten(Sentences(f))), NonSpace(text),
                             NoBlankBefore(f.parts, |f.marks|) && !HasMarker(text))
  {
    hide NonSpace, Flatten, CutTo, Restore, Protect, Interleaved, KeepsExactlyWhen, NoBlankBefore, PunctuationGaps,
         StopGap;
    var restored := RestoreAll(f.parts);
    StopsArePunctuation(f, Protect(text));
    RestoreInterleaved(f, Protect(text), |f.parts|);
    RestoreCut(f, Protect(text), |f.parts|);
    RestoreProtected(text);
    RestoreKeepsText(text);
    RestoreKeepsBlanks(f.parts, |f.marks|);
    CutKeepsText(restored, f.marks, f.gaps);
    KeepsThrough(NonSpace(Flatten(Sentences(f))), NonSpace(Restore(text)), NonSpace(text),
                 NoBlankBefore(f.parts, |f.marks|), !HasMarker(text));
  }

  lemma SentencesAreNotEmpty(f: Stops)
    ensures forall i :: 0 <= i < |Sentences(f)| ==> Sentences(f)[i] != ""
  {
    hide Restore, Trim;
    var cut := CutTo(f.parts, f.marks, |f.parts|).sentences;
    forall i | 0 <= i < |cut|
      ensures Restore(cut[i]) != ""
    {
      RestoreEmpty(cut[i]);
    }
  }

  // ----- words -----

  /** The maximal runs of non-space characters. */
  function Fields(s: string): (r: seq<string>)
    ensures forall i :: 0 <= i < |r| ==> r[i] != ""
    ensures s != "" && !IsSpace(s[|s| - 1]) ==> r != []
  {
    if s == "" then []
    else
      var front, c := s[..|s| - 1], s[|s| - 1];
      var r := Fields(front);
      if IsSpace(c) then r
      else if front != "" && !IsSpace(front[|front| - 1]) then r[..|r| - 1] + [r[|r| - 1] + [c]]
      else r + [[c]]
  }

  lemma FieldsStep(s: string, r: seq<string>)
    requires s != "" && r == Fields(s[..|s| - 1])
    ensures Flatten(Fields(s)) == Flatten(r) + if IsSpace(s[|s| - 1]) then "" else [s[|s| - 1]]
  {
    hide IsSpace, Flatten;
    var front, c := s[..|s| - 1], s[|s| - 1];
    if IsSpace(c) {
      assert Fields(s) == r;
      assert Flatten(r) + "" == Flatten(r);
    } else if front != "" && !IsSpace(front[|front| - 1]) {
      var rest, word := r[..|r| - 1], r[|r| - 1];
      assert Fields(s) == rest + [word + [c]];
      FlattenAppends(rest, word + [c]);
      FlattenAppends(rest, word);
      assert rest + [word] == r;
      assert Flatten(rest) + (word + [c]) == Flatten(rest) + word + [c];
    } else {
      assert Fields(s) == r + [[c]];
      FlattenAppends(r, [c]);
    }
  }

  /** Cutting into words loses spaces only, and leaves none. */
  lemma {:induction false} FieldsKeepText(s: string)
    ensures Flatten(Fields(s)) == NonSpace(s)
  {
    if s != "" {
      hide IsSpace, Flatten, Fields;
      FieldsKeepText(s[..|s| - 1]);
      FieldsStep(s, Fields(s[..|s| - 1]));
    }
  }

  /** A run of non-space characters is one word. */
  lemma {:induction false} FieldsOfWord(w: string)
    requires w != "" && forall i :: 0 <= i < |w| ==> !IsSpace(w[i])
    ensures Fields(w) == [w]
  {
    hide IsSpace;
    var front, c := w[..|w| - 1], w[|w| - 1];
    FrontAndLast(w);
    if front != "" {
      FieldsOfWord(front);
    }
  }

  /** The words of a text are the words before any of its spaces and then those after it. */
  lemma {:induction false} FieldsAtSpace(a: string, c: char, b: string)
    requires IsSpace(c)
    ensures Fields(a + [c] + b) == Fields(a) + Fields(b)
  {
    hide IsSpace;
    if b == "" {
      NothingAppended(a + [c]);
      NothingAppended(Fields(a));
      assert (a + [c])[..|a|] == a;
    } else {
      var front, d := b[..|b| - 1], b[|b| - 1];
      var s := a + [c] + b;
      FieldsAtSpace(a, c, front);
      assert s[..|s| - 1] == a + [c] + front && s[|s| - 1] == d;
      assert front != "" ==> (a + [c] + front)[|a + [c] + front| - 1] == front[|front| - 1];
      assert front == "" ==> (a + [c] + front)[|a + [c] + front| - 1] == c;
      FieldsGrow(Fields(a), Fields(front), d);
    }
  }

  lemma FieldsGrow(before: seq<string>, r: seq<string>, d: char)
    ensures before + r + [[d]] == before + (r + [[d]])
    ensures r != [] ==>
              var all := before + r;
              all[..|all| - 1] + [all[|all| - 1] + [d]] == before + (r[..|r| - 1] + [r[|r| - 1] + [d]])
  {
  }
}
