/** Greedy token packing of sections into chunks: paragraphs, then sentences, then words. */
module Chunker {
  import opened Common
  import opened Strings
  import opened Sections
  import opened Trimming

  datatype Level = Words | Sentences | Paragraphs

  /** Configuration together with the tokenizer and the text splitters it runs on. */
  datatype Setup = Setup(
    maxTokens: int,
    overlapTokens: nat,
    encode: string -> seq<int>,
    decode: seq<int> -> string,
    split: (Level, string) -> seq<string>)

  /** The splitters drop blank pieces. */
  ghost predicate SplitsWell(c: Setup) {
    forall level, s, i :: 0 <= i < |c.split(level, s)| ==> c.split(level, s)[i] != ""
  }

  function Count(c: Setup, s: string): nat {
    |c.encode(s)|
  }

  function Total(c: Setup, pieces: seq<string>): nat {
    if pieces == [] then 0 else Total(c, pieces[..|pieces| - 1]) + |c.encode(pieces[|pieces| - 1])|
  }

  /** The pieces that go into one chunk, and the level whose separator joins them. */
  datatype Group = Group(level: Level, pieces: seq<string>)

  function Separator(level: Level): string {
    if level == Paragraphs then "\n\n" else " "
  }

  function Render(g: Group): string {
    Join(g.pieces, Separator(g.level))
  }

  // ----- the reference: repeatedly take the longest prefix that fits -----

  predicate Oversized(c: Setup, level: Level, piece: string) {
    level != Words && |c.encode(piece)| > c.maxTokens
  }

  function Below(level: Level): Level {
    if level == Paragraphs then Sentences else Words
  }

  function Rank(level: Level): nat {
    match level case Words => 0 case Sentences => 1 case Paragraphs => 2
  }

  /** The longest acceptable prefix of at least `n` pieces; a prefix stops before an oversized piece or a full chunk. */
  function RunLength(c: Setup, level: Level, ps: seq<string>, n: nat): (r: nat)
    requires 1 <= n <= |ps|
    ensures n <= r <= |ps|
    decreases |ps| - n
  {
    if n < |ps| && !Oversized(c, level, ps[n]) && Total(c, ps[..n + 1]) <= c.maxTokens then
      RunLength(c, level, ps, n + 1)
    else n
  }

  function Reference(c: Setup, level: Level, ps: seq<string>): seq<Group>
    decreases Rank(level), |ps|
  {
    if ps == [] then []
    else if Oversized(c, level, ps[0]) then
      Reference(c, Below(level), c.split(Below(level), ps[0])) + Reference(c, level, ps[1..])
    else
      var n := RunLength(c, level, ps, 1);
      [Group(level, ps[..n])] + Reference(c, level, ps[n..])
  }

  function SectionGroups(c: Setup, content: string): seq<Group> {
    if |c.encode(content)| <= c.maxTokens then [Group(Paragraphs, [content])]
    else Reference(c, Paragraphs, c.split(Paragraphs, content))
  }

  // ----- what the reference guarantees -----

  /** Oversized pieces replaced, level by level, by what they split into. */
  function Leaves(c: Setup, level: Level, ps: seq<string>): seq<string>
    decreases Rank(level), |ps|
  {
    if ps == [] then []
    else (if Oversized(c, level, ps[0]) then Leaves(c, Below(level), c.split(Below(level), ps[0])) else [ps[0]]) +
         Leaves(c, level, ps[1..])
  }

  function PiecesOf(gs: seq<Group>): seq<string> {
    if gs == [] then [] else PiecesOf(gs[..|gs| - 1]) + gs[|gs| - 1].pieces
  }

  lemma PiecesLast(gs: seq<Group>, g: Group)
    ensures PiecesOf(gs + [g]) == PiecesOf(gs) + g.pieces
  {
    assert (gs + [g])[..|gs|] == gs;
  }

  lemma {:induction false} PiecesConcat(a: seq<Group>, b: seq<Group>)
    ensures PiecesOf(a + b) == PiecesOf(a) + PiecesOf(b)
  {
    if b == [] {
      assert a + b == a;
    } else {
      hide PiecesOf;
      var front, last := b[..|b| - 1], b[|b| - 1];
      PiecesConcat(a, front);
      PiecesLast(a + front, last);
      PiecesLast(front, last);
      FrontAndLast(b);
      Regroup(a, front, [last]);
      Regroup(PiecesOf(a), PiecesOf(front), last.pieces);
    }
  }

  /** A prefix without oversized pieces is its own expansion. */
  lemma {:induction false} LeavesOfRun(c: Setup, level: Level, ps: seq<string>, n: nat)
    requires n <= |ps| && forall k :: 0 <= k < n ==> !Oversized(c, level, ps[k])
    ensures Leaves(c, level, ps) == ps[..n] + Leaves(c, level, ps[n..])
    decreases n
  {
    if n == 0 {
      assert ps[0..] == ps;
    } else {
      FirstLeaf(c, level, ps);
      hide Leaves, Oversized;
      LeavesOfRun(c, level, ps[1..], n - 1);
      RunOfRest(ps, n);
      Regroup([ps[0]], ps[1..][..n - 1], Leaves(c, level, ps[n..]));
    }
  }

  lemma RunOfRest(ps: seq<string>, n: nat)
    requires 0 < n <= |ps|
    ensures ps[1..][n - 1..] == ps[n..] && [ps[0]] + ps[1..][..n - 1] == ps[..n]
  {
  }

  lemma FirstLeaf(c: Setup, level: Level, ps: seq<string>)
    requires ps != [] && !Oversized(c, level, ps[0])
    ensures Leaves(c, level, ps) == [ps[0]] + Leaves(c, level, ps[1..])
  {
    hide Oversized;
  }

  lemma {:induction false} RunProperties(c: Setup, level: Level, ps: seq<string>, n: nat)
    requires 1 <= n <= |ps|
    ensures
      var r := RunLength(c, level, ps, n);
      && (forall k :: n <= k < r ==> !Oversized(c, level, ps[k]))
      && (n < r ==> Total(c, ps[..r]) <= c.maxTokens)
      && (r < |ps| && !Oversized(c, level, ps[r]) ==> Total(c, ps[..r + 1]) > c.maxTokens)
    decreases |ps| - n
  {
    if RunLength(c, level, ps, n) != n {
      RunProperties(c, level, ps, n + 1);
    }
  }

  /** Nothing is lost, duplicated or reordered. */
  lemma {:induction false} ReferenceConserves(c: Setup, level: Level, ps: seq<string>)
    ensures PiecesOf(Reference(c, level, ps)) == Leaves(c, level, ps)
    decreases Rank(level), |ps|
  {
    if ps != [] {
      if Oversized(c, level, ps[0]) {
        var inner := c.split(Below(level), ps[0]);
        ReferenceConserves(c, Below(level), inner);
        ReferenceConserves(c, level, ps[1..]);
        PiecesConcat(Reference(c, Below(level), inner), Reference(c, level, ps[1..]));
      } else {
        var n := RunLength(c, level, ps, 1);
        RunProperties(c, level, ps, 1);
        ReferenceConserves(c, level, ps[n..]);
        LeavesOfRun(c, level, ps, n);
        PiecesConcat([Group(level, ps[..n])], Reference(c, level, ps[n..]));
        assert [Group(level, ps[..n])][..0] == [];
        assert PiecesOf([Group(level, ps[..n])]) == ps[..n];
      }
    }
  }

  /** A chunk's pieces fit the limit, unless it is a single word too long to split. */
  predicate Fits(c: Setup, g: Group) {
    && g.pieces != []
    && (Total(c, g.pieces) <= c.maxTokens || (g.level == Words && |g.pieces| == 1))
  }

  lemma TotalOfOne(c: Setup, p: string)
    ensures Total(c, [p]) == Count(c, p)
  {
    assert [p][..0] == [];
  }

  lemma {:induction false} ReferenceFits(c: Setup, level: Level, ps: seq<string>)
    ensures forall i :: 0 <= i < |Reference(c, level, ps)| ==> Fits(c, Reference(c, level, ps)[i])
    decreases Rank(level), |ps|
  {
    if ps != [] {
      if Oversized(c, level, ps[0]) {
        ReferenceFits(c, Below(level), c.split(Below(level), ps[0]));
        ReferenceFits(c, level, ps[1..]);
      } else {
        var n := RunLength(c, level, ps, 1);
        RunProperties(c, level, ps, 1);
        assert ps[..1] == [ps[0]];
        TotalOfOne(c, ps[0]);
        ReferenceFits(c, level, ps[n..]);
      }
    }
  }

  lemma {:induction false} TotalGrows(c: Setup, ps: seq<string>, n: nat, m: nat)
    requires n <= m <= |ps|
    ensures Total(c, ps[..n]) <= Total(c, ps[..m])
    decreases m - n
  {
    if n < m {
      TotalGrows(c, ps, n, m - 1);
      assert ps[..m][..m - 1] == ps[..m - 1];
    }
  }

  /** The first chunk is as long as it can be: every longer prefix meets an oversized piece or breaks the limit. */
  lemma RunIsLongest(c: Setup, level: Level, ps: seq<string>, m: nat)
    requires ps != [] && !Oversized(c, level, ps[0])
    requires RunLength(c, level, ps, 1) < m <= |ps|
    ensures Oversized(c, level, ps[RunLength(c, level, ps, 1)]) || Total(c, ps[..m]) > c.maxTokens
  {
    var n := RunLength(c, level, ps, 1);
    RunProperties(c, level, ps, 1);
    TotalGrows(c, ps, n + 1, m);
  }

  // ----- runs under construction -----

  /** The buffer of a packer: an acceptable beginning of a chunk. */
  predicate IsRun(c: Setup, level: Level, run: seq<string>) {
    && run != []
    && (forall k :: 0 <= k < |run| ==> !Oversized(c, level, run[k]))
    && (forall m :: 2 <= m <= |run| ==> Total(c, run[..m]) <= c.maxTokens)
  }

  lemma {:induction false} RunStops(c: Setup, level: Level, run: seq<string>, rest: seq<string>, n: nat)
    requires IsRun(c, level, run) && 1 <= n <= |run|
    requires rest == [] || Oversized(c, level, rest[0]) || Total(c, run) + Count(c, rest[0]) > c.maxTokens
    ensures RunLength(c, level, run + rest, n) == |run|
    decreases |run| - n
  {
    var all := run + rest;
    if n < |run| {
      assert all[..n + 1] == run[..n + 1];
      RunStops(c, level, run, rest, n + 1);
    } else if rest != [] {
      assert all[..n + 1] == run + [rest[0]];
      assert (run + [rest[0]])[..|run|] == run;
    }
  }

  /** Flushing a full buffer agrees with the reference. */
  lemma FlushAgrees(c: Setup, level: Level, run: seq<string>, rest: seq<string>)
    requires IsRun(c, level, run)
    requires rest == [] || Oversized(c, level, rest[0]) || Total(c, run) + Count(c, rest[0]) > c.maxTokens
    ensures Reference(c, level, run + rest) == [Group(level, run)] + Reference(c, level, rest)
  {
    RunStops(c, level, run, rest, 1);
    assert (run + rest)[..|run|] == run && (run + rest)[|run|..] == rest;
  }

  lemma RunGrows(c: Setup, level: Level, run: seq<string>, p: string)
    requires !Oversized(c, level, p)
    requires run == [] || (IsRun(c, level, run) && Total(c, run) + Count(c, p) <= c.maxTokens)
    ensures IsRun(c, level, run + [p]) && Total(c, run + [p]) == Total(c, run) + Count(c, p)
  {
    var grown := run + [p];
    assert grown[..|run|] == run;
    forall m | 2 <= m <= |grown|
      ensures Total(c, grown[..m]) <= c.maxTokens
    {
      if m <= |run| {
        assert grown[..m] == run[..m];
      } else {
        assert grown[..m] == grown;
      }
    }
  }

  lemma JoinGrows(run: seq<string>, p: string, separator: string)
    requires p != ""
    ensures Join(run + [p], separator) == (if run == [] then p else Join(run, separator) + separator + p)
    ensures Join(run + [p], separator) != ""
  {
    var grown := run + [p];
    assert grown[..|grown| - 1] == run;
  }

  // ----- chunks -----

  datatype Chunk = Chunk(
    content: string,
    tokenCount: nat,
    pageNumber: int,
    sectionTitle: string,
    sectionHierarchy: seq<string>,
    chunkIndex: nat,
    startChar: int,
    endChar: int)

  /** The index shared by every packer of a document. */
  class Counter {
    var next: nat

    constructor ()
      ensures next == 0
    {
      next := 0;
    }
  }

  /** Sections are built without a parent, so the hierarchy is the title alone. */
  function Hierarchy(section: Section): seq<string> {
    if section.title != "" then [section.title] else []
  }

  function CreateChunkFromText(c: Setup, content: string, section: Section, page: int, index: nat,
                               startPos: int): Chunk {
    Chunk(content, Count(c, content), page, section.title, Hierarchy(section), index, startPos, startPos + |content|)
  }

  /** `chunks` renders `groups` one for one, numbered from `first`, for one section and page. */
  ghost predicate Emits(c: Setup, chunks: seq<Chunk>, groups: seq<Group>, first: nat, section: Section, page: int) {
    && |chunks| == |groups|
    && forall i :: 0 <= i < |chunks| ==>
         && chunks[i].content == Render(groups[i])
         && chunks[i].tokenCount == |c.encode(chunks[i].content)|
         && chunks[i].chunkIndex == first + i
         && chunks[i].pageNumber == page
         && chunks[i].sectionTitle == section.title
         && chunks[i].sectionHierarchy == (if section.title == "" then [] else [section.title])
  }

  /** A packer between two pieces: what it has emitted, and what it will still emit, is the reference. */
  ghost predicate Packing(c: Setup, level: Level, all: seq<string>, groups: seq<Group>, current: seq<string>,
                          rest: seq<string>) {
    && Reference(c, level, all) == groups + Reference(c, level, current + rest)
    && (current == [] || IsRun(c, level, current))
  }

  lemma StartPacking(c: Setup, level: Level, all: seq<string>)
    ensures Packing(c, level, all, [], [], all)
  {
    assert [] + all == all && [] + Reference(c, level, all) == Reference(c, level, all);
  }

  lemma Flushed(c: Setup, level: Level, all: seq<string>, groups: seq<Group>, current: seq<string>, rest: seq<string>)
    requires Packing(c, level, all, groups, current, rest) && current != []
    requires rest == [] || Oversized(c, level, rest[0]) || Total(c, current) + Count(c, rest[0]) > c.maxTokens
    ensures Packing(c, level, all, groups + [Group(level, current)], [], rest)
  {
    hide Reference, RunLength, Total, Oversized, IsRun;
    FlushAgrees(c, level, current, rest);
    assert groups + ([Group(level, current)] + Reference(c, level, rest)) ==
           groups + [Group(level, current)] + Reference(c, level, rest);
    assert [] + rest == rest;
  }

  lemma Added(c: Setup, level: Level, all: seq<string>, groups: seq<Group>, current: seq<string>, rest: seq<string>)
    requires Packing(c, level, all, groups, current, rest) && rest != [] && !Oversized(c, level, rest[0])
    requires current == [] || Total(c, current) + Count(c, rest[0]) <= c.maxTokens
    ensures Packing(c, level, all, groups, current + [rest[0]], rest[1..])
  {
    hide Reference, RunLength, Total, Oversized, IsRun;
    RunGrows(c, level, current, rest[0]);
    var grown := current + [rest[0]];
    assert current + rest == grown + rest[1..];
  }

  lemma Descended(c: Setup, level: Level, all: seq<string>, groups: seq<Group>, rest: seq<string>)
    requires Packing(c, level, all, groups, [], rest) && rest != [] && Oversized(c, level, rest[0])
    ensures
      var inner := Reference(c, Below(level), c.split(Below(level), rest[0]));
      Packing(c, level, all, groups + inner, [], rest[1..])
  {
    var inner := Reference(c, Below(level), c.split(Below(level), rest[0]));
    assert [] + rest == rest && [] + rest[1..] == rest[1..];
    assert groups + (inner + Reference(c, level, rest[1..])) == groups + inner + Reference(c, level, rest[1..]);
  }

  lemma Finished(c: Setup, level: Level, all: seq<string>, groups: seq<Group>)
    requires Packing(c, level, all, groups, [], [])
    ensures groups == Reference(c, level, all)
  {
    var none: seq<string> := [];
    assert none + none == none;
  }

  /** The text buffer mirrors the run in progress. */
  ghost predicate Buffers(c: Setup, level: Level, text: string, tokens: nat, current: seq<string>) {
    && text == Join(current, Separator(level))
    && tokens == Total(c, current)
    && (text == "" <==> current == [])
  }

  lemma BufferGrows(c: Setup, level: Level, text: string, tokens: nat, current: seq<string>, p: string)
    requires Buffers(c, level, text, tokens, current) && p != ""
    ensures Buffers(c, level, (if |text| > 0 then text + Separator(level) else text) + p,
                    tokens + Count(c, p), current + [p])
  {
    JoinGrows(current, p, Separator(level));
    assert (current + [p])[..|current|] == current;
  }

  // ----- the packers -----

  method SplitByWords(c: Setup, text: string, section: Section, page: int, chunkIndex: Counter, start: int)
    returns (chunks: seq<Chunk>)
    requires SplitsWell(c)
    modifies chunkIndex
    ensures Emits(c, chunks, Reference(c, Words, c.split(Words, text)), old(chunkIndex.next), section, page)
    ensures chunkIndex.next == old(chunkIndex.next) + |chunks|
  {
    hide Reference, RunLength, Join, Total, IsRun;
    var words := c.split(Words, text);
    chunks := [];
    var currentText, currentTokens: nat, startPos := "", 0, start;
    ghost var groups: seq<Group>, current: seq<string> := [], [];
    StartPacking(c, Words, words);
    EmptyBuffer(c, Words);
    for i := 0 to |words|
      invariant Packing(c, Words, words, groups, current, words[i..])
      invariant Buffers(c, Words, currentText, currentTokens, current)
      invariant Emits(c, chunks, groups, old(chunkIndex.next), section, page)
      invariant chunkIndex.next == old(chunkIndex.next) + |chunks|
    {
      var word := words[i];
      var wordTokens := Count(c, word);
      if currentTokens + wordTokens > c.maxTokens && |currentText| > 0 {
        Flushed(c, Words, words, groups, current, words[i..]);
        chunks := chunks + [CreateChunkFromText(c, currentText, section, page, chunkIndex.next, startPos)];
        chunkIndex.next := chunkIndex.next + 1;
        startPos := startPos + |currentText|;
        groups, current := groups + [Group(Words, current)], [];
        currentText, currentTokens := "", 0;
        EmptyBuffer(c, Words);
      }
      Added(c, Words, words, groups, current, words[i..]);
      BufferGrows(c, Words, currentText, currentTokens, current, word);
      if |currentText| > 0 {
        currentText := currentText + " ";
      }
      currentText := currentText + word;
      currentTokens := currentTokens + wordTokens;
      current := current + [word];
      assert words[i..][1..] == words[i + 1..];
    }
    assert words[|words|..] == [];
    if |currentText| > 0 {
      Flushed(c, Words, words, groups, current, []);
      chunks := chunks + [CreateChunkFromText(c, currentText, section, page, chunkIndex.next, startPos)];
      chunkIndex.next := chunkIndex.next + 1;
      groups := groups + [Group(Words, current)];
    }
    Finished(c, Words, words, groups);
  }

  lemma EmptyBuffer(c: Setup, level: Level)
    ensures Buffers(c, level, "", 0, [])
  {
  }

  /** Sentences too long for a chunk are handed down to the word packer. */
  method SplitBySentences(c: Setup, text: string, section: Section, page: int, chunkIndex: Counter, start: int)
    returns (chunks: seq<Chunk>)
    requires SplitsWell(c)
    modifies chunkIndex
    ensures Emits(c, chunks, Reference(c, Sentences, c.split(Sentences, text)), old(chunkIndex.next), section, page)
    ensures chunkIndex.next == old(chunkIndex.next) + |chunks|
  {
    hide Reference, RunLength, Join, Total, IsRun;
    var sentences := c.split(Sentences, text);
    chunks := [];
    var currentText, currentTokens: nat, startPos := "", 0, start;
    ghost var groups: seq<Group>, current: seq<string> := [], [];
    StartPacking(c, Sentences, sentences);
    EmptyBuffer(c, Sentences);
    for i := 0 to |sentences|
      invariant Packing(c, Sentences, sentences, groups, current, sentences[i..])
      invariant Buffers(c, Sentences, currentText, currentTokens, current)
      invariant Emits(c, chunks, groups, old(chunkIndex.next), section, page)
      invariant chunkIndex.next == old(chunkIndex.next) + |chunks|
    {
      var sent := sentences[i];
      assert sentences[i..][1..] == sentences[i + 1..];
      var sentTokens := Count(c, sent);
      if sentTokens > c.maxTokens {
        if |currentText| > 0 {
          Flushed(c, Sentences, sentences, groups, current, sentences[i..]);
          chunks := chunks + [CreateChunkFromText(c, currentText, section, page, chunkIndex.next, startPos)];
          chunkIndex.next := chunkIndex.next + 1;
          startPos := startPos + |currentText|;
          groups, current := groups + [Group(Sentences, current)], [];
          currentText, currentTokens := "", 0;
          EmptyBuffer(c, Sentences);
        }
        Descended(c, Sentences, sentences, groups, sentences[i..]);
        ghost var inner := Reference(c, Below(Sentences), c.split(Below(Sentences), sent));
        var innerChunks := SplitByWords(c, sent, section, page, chunkIndex, startPos);
        EmitsConcat(c, chunks, groups, innerChunks, inner, old(chunkIndex.next), section, page);
        chunks, groups := chunks + innerChunks, groups + inner;
        startPos := startPos + |sent| + 1;
        continue;
      }
      if currentTokens + sentTokens > c.maxTokens {
        if |currentText| > 0 {
          Flushed(c, Sentences, sentences, groups, current, sentences[i..]);
          chunks := chunks + [CreateChunkFromText(c, currentText, section, page, chunkIndex.next, startPos)];
          chunkIndex.next := chunkIndex.next + 1;
          startPos := startPos + |currentText|;
          groups, current := groups + [Group(Sentences, current)], [];
          currentText, currentTokens := "", 0;
          EmptyBuffer(c, Sentences);
        }
      }
      Added(c, Sentences, sentences, groups, current, sentences[i..]);
      BufferGrows(c, Sentences, currentText, currentTokens, current, sent);
      if |currentText| > 0 {
        currentText := currentText + " ";
      }
      currentText := currentText + sent;
      currentTokens := currentTokens + sentTokens;
      current := current + [sent];
    }
    assert sentences[|sentences|..] == [];
    if |currentText| > 0 {
      Flushed(c, Sentences, sentences, groups, current, []);
      chunks := chunks + [CreateChunkFromText(c, currentText, section, page, chunkIndex.next, startPos)];
      chunkIndex.next := chunkIndex.next + 1;
      groups := groups + [Group(Sentences, current)];
    }
    Finished(c, Sentences, sentences, groups);
  }

  /** Paragraphs too long for a chunk are handed down to the sentence packer. */
  method SplitByParagraphs(c: Setup, text: string, section: Section, page: int, chunkIndex: Counter, start: int)
    returns (chunks: seq<Chunk>)
    requires SplitsWell(c)
    modifies chunkIndex
    ensures Emits(c, chunks, Reference(c, Paragraphs, c.split(Paragraphs, text)), old(chunkIndex.next), section, page)
    ensures chunkIndex.next == old(chunkIndex.next) + |chunks|
  {
    hide Reference, RunLength, Join, Total, IsRun;
    var paragraphs := c.split(Paragraphs, text);
    chunks := [];
    var currentText, currentTokens: nat, startPos := "", 0, start;
    ghost var groups: seq<Group>, current: seq<string> := [], [];
    StartPacking(c, Paragraphs, paragraphs);
    EmptyBuffer(c, Paragraphs);
    for i := 0 to |paragraphs|
      invariant Packing(c, Paragraphs, paragraphs, groups, current, paragraphs[i..])
      invariant Buffers(c, Paragraphs, currentText, currentTokens, current)
      invariant Emits(c, chunks, groups, old(chunkIndex.next), section, page)
      invariant chunkIndex.next == old(chunkIndex.next) + |chunks|
    {
      var para := paragraphs[i];
      assert paragraphs[i..][1..] == paragraphs[i + 1..];
      var paraTokens := Count(c, para);
      if paraTokens > c.maxTokens {
        if |currentText| > 0 {
          Flushed(c, Paragraphs, paragraphs, groups, current, paragraphs[i..]);
          chunks := chunks + [CreateChunkFromText(c, currentText, section, page, chunkIndex.next, startPos)];
          chunkIndex.next := chunkIndex.next + 1;
          groups, current := groups + [Group(Paragraphs, current)], [];
          currentText, currentTokens := "", 0;
          EmptyBuffer(c, Paragraphs);
        }
        Descended(c, Paragraphs, paragraphs, groups, paragraphs[i..]);
        ghost var inner := Reference(c, Below(Paragraphs), c.split(Below(Paragraphs), para));
        var innerChunks := SplitBySentences(c, para, section, page, chunkIndex, startPos);
        EmitsConcat(c, chunks, groups, innerChunks, inner, old(chunkIndex.next), section, page);
        chunks, groups := chunks + innerChunks, groups + inner;
        startPos := startPos + |para| + 2;
        continue;
      }
      if currentTokens + paraTokens > c.maxTokens {
        if |currentText| > 0 {
          Flushed(c, Paragraphs, paragraphs, groups, current, paragraphs[i..]);
          chunks := chunks + [CreateChunkFromText(c, currentText, section, page, chunkIndex.next, startPos)];
          chunkIndex.next := chunkIndex.next + 1;
          startPos := startPos + |currentText|;
          groups, current := groups + [Group(Paragraphs, current)], [];
          currentText, currentTokens := "", 0;
          EmptyBuffer(c, Paragraphs);
        }
      }
      Added(c, Paragraphs, paragraphs, groups, current, paragraphs[i..]);
      BufferGrows(c, Paragraphs, currentText, currentTokens, current, para);
      if |currentText| > 0 {
        currentText := currentText + "\n\n";
      }
      currentText := currentText + para;
      currentTokens := currentTokens + paraTokens;
      current := current + [para];
    }
    assert paragraphs[|paragraphs|..] == [];
    if |currentText| > 0 {
      Flushed(c, Paragraphs, paragraphs, groups, current, []);
      chunks := chunks + [CreateChunkFromText(c, currentText, section, page, chunkIndex.next, startPos)];
      chunkIndex.next := chunkIndex.next + 1;
      groups := groups + [Group(Paragraphs, current)];
    }
    Finished(c, Paragraphs, paragraphs, groups);
  }

  lemma EmitsConcat(c: Setup, a: seq<Chunk>, ga: seq<Group>, b: seq<Chunk>, gb: seq<Group>, first: nat,
                    section: Section, page: int)
    requires Emits(c, a, ga, first, section, page) && Emits(c, b, gb, first + |a|, section, page)
    ensures Emits(c, a + b, ga + gb, first, section, page)
  {
  }

  method ChunkSection(c: Setup, section: Section, page: int, chunkIndex: Counter) returns (chunks: seq<Chunk>)
    requires SplitsWell(c)
    modifies chunkIndex
    ensures Emits(c, chunks, SectionGroups(c, section.content), old(chunkIndex.next), section, page)
    ensures chunkIndex.next == old(chunkIndex.next) + |chunks|
  {
    var content := section.content;
    var tokenCount := Count(c, content);
    if tokenCount <= c.maxTokens {
      var chunk := Chunk(content, Count(c, content), page, section.title, Hierarchy(section),
                         chunkIndex.next, section.startPos, section.endPos);
      chunkIndex.next := chunkIndex.next + 1;
      return [chunk];
    }
    chunks := SplitByParagraphs(c, content, section, page, chunkIndex, section.startPos);
  }

  // ----- overlap -----

  /** The tail of the previous chunk, trimmed and preferably starting at a word. */
  function GetOverlapText(c: Setup, text: string): string {
    var tokens := c.encode(text);
    if |tokens| <= c.overlapTokens then ""
    else
      var tail := Trim(c.decode(tokens[|tokens| - c.overlapTokens..]));
      match IndexFrom(tail, 0, " ")
      case Some(i) => if 0 < i < |tail| / 2 then Trim(tail[i + 1..]) else Trim(tail)
      case None => Trim(tail)
  }

  /** What may be shared of a tail: all of it, or what follows its first space where that is in the front half. */
  ghost predicate StartsAtWord(tail: string, shared: string) {
    if forall i :: 0 <= i < |tail| / 2 ==> tail[i] != ' ' then shared == tail
    else exists i ::
           && 0 <= i < |tail| / 2 && tail[i] == ' ' && (forall j :: 0 <= j < i ==> tail[j] != ' ')
           && shared == Trim(tail[i + 1..])
  }

  /** `shared` is the end of `previous`: nothing when there are no more tokens than may overlap, and otherwise the
      text of its last tokens, trimmed and starting at a word. */
  ghost predicate SharesTail(c: Setup, previous: string, shared: string) {
    var tokens := c.encode(previous);
    if |tokens| <= c.overlapTokens then shared == ""
    else StartsAtWord(Trim(c.decode(tokens[|tokens| - c.overlapTokens..])), shared)
  }

  lemma FirstSpace(tail: string)
    ensures
      match IndexFrom(tail, 0, " ")
      case None => forall i :: 0 <= i < |tail| ==> tail[i] != ' '
      case Some(i) => i < |tail| && tail[i] == ' ' && forall j :: 0 <= j < i ==> tail[j] != ' '
  {
    SpaceFrom(tail, 0);
  }

  lemma {:induction false} SpaceFrom(tail: string, from: nat)
    requires from <= |tail|
    ensures
      match IndexFrom(tail, from, " ")
      case None => forall i :: from <= i < |tail| ==> tail[i] != ' '
      case Some(i) => from <= i < |tail| && tail[i] == ' ' && forall j :: from <= j < i ==> tail[j] != ' '
    decreases |tail| - from
  {
    if from < |tail| {
      assert OccursAt(tail, from, " ") <==> tail[from] == ' ' by {
        assert tail[from..from + 1] == [tail[from]];
      }
      SpaceFrom(tail, from + 1);
    }
  }

  lemma OverlapStartsAtWord(tail: string)
    requires Tight(tail)
    ensures StartsAtWord(tail, match IndexFrom(tail, 0, " ")
                               case Some(i) => if 0 < i < |tail| / 2 then Trim(tail[i + 1..]) else Trim(tail)
                               case None => Trim(tail))
  {
    hide IndexFrom, Trim, Tight, IsSpace, StartsAtWord;
    FirstSpace(tail);
    TightTrims(tail);
    NoLeadingSpace(tail);
    match IndexFrom(tail, 0, " ")
    case None => StartsWhole(tail);
    case Some(i) =>
      if 0 < i < |tail| / 2 {
        StartsAfter(tail, i);
      } else {
        StartsWhole(tail);
      }
  }

  lemma StartsWhole(tail: string)
    requires forall i :: 0 <= i < |tail| / 2 ==> tail[i] != ' '
    ensures StartsAtWord(tail, tail)
  {
  }

  lemma StartsAfter(tail: string, i: nat)
    requires i < |tail| / 2 && tail[i] == ' ' && forall j :: 0 <= j < i ==> tail[j] != ' '
    ensures StartsAtWord(tail, Trim(tail[i + 1..]))
  {
    hide Trim;
  }

  lemma NoLeadingSpace(tail: string)
    requires Tight(tail)
    ensures tail != "" ==> tail[0] != ' '
  {
  }

  lemma OverlapSharesTail(c: Setup, previous: string)
    ensures SharesTail(c, previous, GetOverlapText(c, previous))
  {
    hide IndexFrom, Trim, StartsAtWord, Tight;
    var tokens := c.encode(previous);
    if |tokens| > c.overlapTokens {
      var decoded := c.decode(tokens[|tokens| - c.overlapTokens..]);
      var a, b := TrimDrops(decoded);
      OverlapStartsAtWord(Trim(decoded));
    }
  }

  /** The text of the last `n` tokens of a text. */
  function LastTokens(c: Setup, text: string, n: nat): string
    requires n <= |c.encode(text)|
  {
    c.decode(c.encode(text)[|c.encode(text)| - n..])
  }

  /** Decoded, the last tokens of a text are its end. */
  ghost predicate DecodesSuffixes(c: Setup) {
    forall text, n: nat | n <= |c.encode(text)| :: IsSuffix(LastTokens(c, text, n), text)
  }

  lemma WordStartIsSuffix(tail: string, shared: string)
    requires Tight(tail) && StartsAtWord(tail, shared)
    ensures IsSuffix(shared, tail)
    ensures shared == "" <==> tail == ""
  {
    hide Trim, IsSuffix;
    if forall i :: 0 <= i < |tail| / 2 ==> tail[i] != ' ' {
      SuffixOfSum("", tail);
      assert "" + tail == tail;
    } else {
      var i :| 0 <= i < |tail| / 2 && tail[i] == ' ' && shared == Trim(tail[i + 1..]);
      TrimmedTail(tail, i + 1);
    }
  }

  /** The shared text is the end of the previous chunk, out of its last tokens; it is empty exactly when the previous
      chunk has no more tokens than may overlap or those tokens are blank. */
  lemma SharedTextIsSuffix(c: Setup, previous: string, shared: string)
    requires DecodesSuffixes(c) && SharesTail(c, previous, shared)
    ensures IsSuffix(shared, Trim(previous))
    ensures |c.encode(previous)| <= c.overlapTokens ==> shared == ""
    ensures |c.encode(previous)| > c.overlapTokens ==>
              var tail := c.decode(c.encode(previous)[|c.encode(previous)| - c.overlapTokens..]);
              IsSuffix(shared, Trim(tail)) && (shared == "" <==> Trim(tail) == "")
  {
    hide Trim, IsSuffix, StartsAtWord, Tight;
    var tokens := c.encode(previous);
    if |tokens| <= c.overlapTokens {
      NothingIsSuffix(Trim(previous));
    } else {
      var decoded := LastTokens(c, previous, c.overlapTokens);
      var a, b := TrimDrops(decoded);
      WordStartIsSuffix(Trim(decoded), shared);
      SuffixSplits(decoded, previous);
      TrimmedSuffix(previous[..|previous| - |decoded|], decoded);
      SuffixOfSuffix(shared, Trim(decoded), Trim(previous));
    }
  }

  lemma SuffixSplits(s: string, t: string)
    requires IsSuffix(s, t)
    ensures |s| <= |t| && t[..|t| - |s|] + s == t
  {
  }

  /** `result` is `own` with the end of `previous` in front, unless there is none to share or it is there already. */
  ghost predicate Overlaps(c: Setup, previous: string, own: string, result: string) {
    exists shared :: SharesTail(c, previous, shared) &&
      result == if shared == "" || shared <= own then own else shared + " " + own
  }

  function Prepend(overlap: string, content: string): string {
    if overlap != "" && !(overlap <= content) then overlap + " " + content else content
  }

  /** Content `i` after overlapping: the overlap is taken from the previous content, itself already extended. */
  function Overlapped(c: Setup, contents: seq<string>, i: nat): string
    requires i < |contents|
  {
    if i == 0 then contents[0] else Prepend(GetOverlapText(c, Overlapped(c, contents, i - 1)), contents[i])
  }

  /** The final contents of a document's chunks. */
  function FinalContents(c: Setup, contents: seq<string>): (r: seq<string>)
    ensures |r| == |contents|
  {
    if |contents| <= 1 || c.overlapTokens == 0 then contents
    else seq(|contents|, i requires 0 <= i < |contents| => Overlapped(c, contents, i))
  }

  /** Overlap only ever adds in front: each chunk still ends with its own content, and starts with the shared text. */
  lemma OverlapKeepsContent(c: Setup, contents: seq<string>, i: nat)
    requires i < |contents|
    ensures IsSuffix(contents[i], FinalContents(c, contents)[i])
    ensures 0 < i && 1 < |contents| && c.overlapTokens > 0 ==>
              GetOverlapText(c, FinalContents(c, contents)[i - 1]) <= FinalContents(c, contents)[i]
  {
    hide GetOverlapText, Prepend, IsSuffix;
    if i > 0 {
      OverlapStep(c, contents, i);
      PrependKeeps(GetOverlapText(c, Overlapped(c, contents, i - 1)), contents[i]);
    }
    PrependKeeps("", contents[i]);
    assert Prepend("", contents[i]) == contents[i] by { PrependNothing(contents[i]); }
  }

  lemma PrependOverlaps(c: Setup, previous: string, own: string)
    ensures Overlaps(c, previous, own, Prepend(GetOverlapText(c, previous), own))
  {
    hide GetOverlapText, SharesTail;
    OverlapSharesTail(c, previous);
  }

  /** Every content but the first overlaps the final content before it. */
  lemma FinalContentsOverlap(c: Setup, contents: seq<string>, i: nat)
    requires i < |contents|
    ensures |contents| <= 1 || c.overlapTokens == 0 || i == 0 ==> FinalContents(c, contents)[i] == contents[i]
    ensures |contents| > 1 && c.overlapTokens > 0 && i > 0 ==>
              Overlaps(c, FinalContents(c, contents)[i - 1], contents[i], FinalContents(c, contents)[i])
  {
    hide GetOverlapText, Prepend, Overlaps;
    if i > 0 {
      OverlapStep(c, contents, i);
      PrependOverlaps(c, Overlapped(c, contents, i - 1), contents[i]);
    } else {
      OverlapStart(c, contents);
    }
  }

  lemma PrependKeeps(overlap: string, content: string)
    ensures IsSuffix(content, Prepend(overlap, content)) && overlap <= Prepend(overlap, content)
  {
    assert (overlap + " " + content)[|overlap| + 1..] == content;
  }

  lemma PrependNothing(content: string)
    ensures Prepend("", content) == content
  {
  }

  function ContentsOf(chunks: seq<Chunk>): (r: seq<string>)
    ensures |r| == |chunks|
    ensures forall i :: 0 <= i < |chunks| ==> r[i] == chunks[i].content
  {
    seq(|chunks|, i requires 0 <= i < |chunks| => chunks[i].content)
  }

  /** Rewrites contents and token counts in place; nothing else of a chunk changes. */
  method AddOverlap(c: Setup, chunks: array<Chunk>)
    requires forall i :: 0 <= i < chunks.Length ==> chunks[i].tokenCount == Count(c, chunks[i].content)
    modifies chunks
    ensures ContentsOf(chunks[..]) == FinalContents(c, ContentsOf(old(chunks[..])))
    ensures forall i :: 0 <= i < chunks.Length ==>
              chunks[i] == old(chunks[i]).(content := chunks[i].content, tokenCount := |c.encode(chunks[i].content)|)
    ensures forall i :: 0 <= i < chunks.Length && (chunks.Length == 1 || c.overlapTokens == 0 || i == 0) ==>
              chunks[i].content == old(chunks[i].content)
    ensures c.overlapTokens > 0 ==> forall i :: 0 < i < chunks.Length ==>
              Overlaps(c, chunks[i - 1].content, old(chunks[i].content), chunks[i].content)
  {
    ghost var before := chunks[..];
    ghost var contents := ContentsOf(before);
    if chunks.Length > 1 && c.overlapTokens != 0 {
      OverlapInPlace(c, chunks, contents);
    }
    assert |before| == chunks.Length;
    assert ContentsOf(chunks[..]) == FinalContents(c, contents);
    ghost var final := FinalContents(c, contents);
    assert forall i :: 0 <= i < chunks.Length ==> chunks[i].content == final[i];
    hide FinalContents, Overlaps;
    forall i | 0 <= i < chunks.Length
      ensures chunks.Length == 1 || c.overlapTokens == 0 || i == 0 ==> chunks[i].content == contents[i]
      ensures c.overlapTokens > 0 && i > 0 ==> Overlaps(c, chunks[i - 1].content, contents[i], chunks[i].content)
    {
      FinalContentsOverlap(c, contents, i);
    }
  }

  method OverlapInPlace(c: Setup, chunks: array<Chunk>, ghost contents: seq<string>)
    requires chunks.Length > 1 && |contents| == chunks.Length
    requires forall i :: 0 <= i < chunks.Length ==> chunks[i] == Extended(c, chunks[i], contents[i])
    modifies chunks
    ensures forall i :: 0 <= i < chunks.Length ==> chunks[i] == Extended(c, old(chunks[i]), Overlapped(c, contents, i))
  {
    hide GetOverlapText, Overlapped, Count;
    OverlapStart(c, contents);
    for i := 1 to chunks.Length
      invariant forall k :: 0 <= k < i ==> chunks[k] == Extended(c, old(chunks[k]), Overlapped(c, contents, k))
      invariant forall k :: i <= k < chunks.Length ==> chunks[k] == old(chunks[k])
    {
      OverlapStep(c, contents, i);
      var prevContent := chunks[i - 1].content;
      var overlapText := GetOverlapText(c, prevContent);
      if overlapText != "" && !(overlapText <= chunks[i].content) {
        var newContent := overlapText + " " + chunks[i].content;
        chunks[i] := chunks[i].(content := newContent, tokenCount := Count(c, newContent));
      }
    }
  }

  lemma OverlapStart(c: Setup, contents: seq<string>)
    requires contents != []
    ensures Overlapped(c, contents, 0) == contents[0]
  {
  }

  lemma OverlapStep(c: Setup, contents: seq<string>, i: nat)
    requires 0 < i < |contents|
    ensures Overlapped(c, contents, i) == Prepend(GetOverlapText(c, Overlapped(c, contents, i - 1)), contents[i])
  {
  }

  function Extended(c: Setup, chunk: Chunk, content: string): Chunk {
    chunk.(content := content, tokenCount := Count(c, content))
  }

  // ----- documents -----

  function DocumentGroups(c: Setup, sections: seq<Section>): seq<Group> {
    if sections == [] then []
    else DocumentGroups(c, sections[..|sections| - 1]) + SectionGroups(c, sections[|sections| - 1].content)
  }

  function Rendered(gs: seq<Group>): (r: seq<string>)
    ensures |r| == |gs|
    ensures forall i :: 0 <= i < |gs| ==> r[i] == Render(gs[i])
  {
    seq(|gs|, i requires 0 <= i < |gs| => Render(gs[i]))
  }

  /** Chunks that render the groups of a whole document, numbered from 0. */
  ghost predicate EmitsDocument(c: Setup, chunks: seq<Chunk>, contents: seq<string>) {
    && ContentsOf(chunks) == contents
    && forall i :: 0 <= i < |chunks| ==>
         chunks[i].chunkIndex == i && chunks[i].tokenCount == |c.encode(chunks[i].content)|
  }

  lemma EmitsMore(c: Setup, chunks: seq<Chunk>, gs: seq<Group>, more: seq<Chunk>, ms: seq<Group>, section: Section,
                  page: int)
    requires EmitsDocument(c, chunks, Rendered(gs)) && Emits(c, more, ms, |chunks|, section, page)
    ensures EmitsDocument(c, chunks + more, Rendered(gs + ms))
  {
  }

  /** What the chunks of these sections hold in the end. */
  function DocumentContents(c: Setup, sections: seq<Section>): seq<string> {
    FinalContents(c, Rendered(DocumentGroups(c, sections)))
  }

  lemma EmitsPage(c: Setup, chunks: seq<Chunk>, groups: seq<Group>, first: nat, section: Section, page: int)
    requires Emits(c, chunks, groups, first, section, page)
    ensures |chunks| == |groups| && forall i :: 0 <= i < |chunks| ==> chunks[i].pageNumber == page
  {
  }

  /** The section each chunk of a document comes from. */
  function Owners(c: Setup, sections: seq<Section>): seq<Section> {
    if sections == [] then []
    else
      var last := sections[|sections| - 1];
      Owners(c, sections[..|sections| - 1]) + seq(|SectionGroups(c, last.content)|, _ => last)
  }

  /** Every chunk carries the title and hierarchy of its section. */
  ghost predicate FromSections(c: Setup, chunks: seq<Chunk>, sections: seq<Section>) {
    var owners := Owners(c, sections);
    && |owners| == |chunks|
    && forall i :: 0 <= i < |chunks| ==>
         && chunks[i].sectionTitle == owners[i].title
         && chunks[i].sectionHierarchy == (if owners[i].title == "" then [] else [owners[i].title])
  }

  lemma FromOneMore(c: Setup, chunks: seq<Chunk>, sections: seq<Section>, more: seq<Chunk>, first: nat,
                    section: Section, page: int)
    requires FromSections(c, chunks, sections)
    requires Emits(c, more, SectionGroups(c, section.content), first, section, page)
    ensures FromSections(c, chunks + more, sections + [section])
  {
    hide SectionGroups, Render;
    assert (sections + [section])[..|sections|] == sections;
    assert Owners(c, sections + [section]) ==
           Owners(c, sections) + seq(|SectionGroups(c, section.content)|, _ => section);
  }

  method FinishDocument(c: Setup, chunks: seq<Chunk>, ghost sections: seq<Section>) returns (r: seq<Chunk>)
    requires EmitsDocument(c, chunks, Rendered(DocumentGroups(c, sections))) && FromSections(c, chunks, sections)
    ensures EmitsDocument(c, r, DocumentContents(c, sections)) && FromSections(c, r, sections)
    ensures |r| == |chunks| && forall i :: 0 <= i < |chunks| ==> r[i].pageNumber == chunks[i].pageNumber
  {
    var buffer := new Chunk[|chunks|](k requires 0 <= k < |chunks| => chunks[k]);
    assert buffer[..] == chunks;
    AddOverlap(c, buffer);
    r := buffer[..];
  }

  lemma EmptyDocument(c: Setup)
    ensures DocumentGroups(c, []) == [] && EmitsDocument(c, [], Rendered([])) && FromSections(c, [], [])
  {
  }

  lemma OneMoreSection(c: Setup, sections: seq<Section>, section: Section)
    ensures DocumentGroups(c, sections + [section]) == DocumentGroups(c, sections) + SectionGroups(c, section.content)
  {
    hide SectionGroups;
    assert (sections + [section])[..|sections|] == sections;
  }

  /** Chunks one text; `matches` is what the header patterns report for it. */
  method ChunkText(c: Setup, text: string, matches: seq<seq<Boundary>>, page: int) returns (r: seq<Chunk>)
    requires SplitsWell(c)
    requires forall k :: 0 <= k < |Flatten(matches)| ==> Flatten(matches)[k].pos < |text|
    ensures Trim(text) == "" ==> r == []
    ensures Trim(text) != "" ==>
              exists sections ::
                && IsSectioning(text, matches, sections)
                && EmitsDocument(c, r, DocumentContents(c, sections)) && FromSections(c, r, sections)
    ensures forall i :: 0 <= i < |r| ==> r[i].pageNumber == page
  {
    hide *;
    if Trim(text) == "" {
      return [];
    }
    var parts := SplitBySection(text, matches);
    var chunkIndex := new Counter();
    var chunks: seq<Chunk> := [];
    EmptyDocument(c);
    for i := 0 to |parts|
      invariant EmitsDocument(c, chunks, Rendered(DocumentGroups(c, parts[..i])))
      invariant FromSections(c, chunks, parts[..i])
      invariant chunkIndex.next == |chunks|
      invariant forall k :: 0 <= k < |chunks| ==> chunks[k].pageNumber == page
    {
      OneMoreSection(c, parts[..i], parts[i]);
      assert parts[..i + 1] == parts[..i] + [parts[i]];
      var sectionChunks := ChunkSection(c, parts[i], page, chunkIndex);
      EmitsMore(c, chunks, DocumentGroups(c, parts[..i]), sectionChunks, SectionGroups(c, parts[i].content),
                parts[i], page);
      EmitsPage(c, sectionChunks, SectionGroups(c, parts[i].content), |chunks|, parts[i], page);
      FromOneMore(c, chunks, parts[..i], sectionChunks, |chunks|, parts[i], page);
      chunks := chunks + sectionChunks;
    }
    assert parts[..|parts|] == parts;
    r := FinishDocument(c, chunks, parts);
  }

  datatype PageContent = PageContent(pageNumber: int, text: string, matches: seq<seq<Boundary>>)

  ghost predicate SectionsPages(pages: seq<PageContent>, sections: seq<seq<Section>>) {
    |sections| == |pages| &&
    forall p :: 0 <= p < |pages| ==> IsSectioning(pages[p].text, pages[p].matches, sections[p])
  }

  function Repeat(x: int, n: nat): (r: seq<int>)
    ensures |r| == n && forall i :: 0 <= i < n ==> r[i] == x
  {
    seq(n, _ => x)
  }

  /** The page number of every chunk: each page's, as often as it has chunks. */
  function PageNumbers(c: Setup, pages: seq<PageContent>, sections: seq<seq<Section>>): seq<int>
    requires |sections| == |pages|
  {
    if pages == [] then []
    else
      var last := |pages| - 1;
      PageNumbers(c, pages[..last], sections[..last])
        + Repeat(pages[last].pageNumber, |DocumentGroups(c, sections[last])|)
  }

  function PagesOf(chunks: seq<Chunk>): (r: seq<int>)
    ensures |r| == |chunks| && forall i :: 0 <= i < |chunks| ==> r[i] == chunks[i].pageNumber
  {
    seq(|chunks|, i requires 0 <= i < |chunks| => chunks[i].pageNumber)
  }

  lemma PageNumbersGrow(c: Setup, pages: seq<PageContent>, sections: seq<seq<Section>>, p: nat, page: seq<Section>)
    requires p < |pages| && |sections| == p
    ensures PageNumbers(c, pages[..p + 1], sections + [page]) ==
            PageNumbers(c, pages[..p], sections) + Repeat(pages[p].pageNumber, |DocumentGroups(c, page)|)
  {
    hide DocumentGroups;
    assert pages[..p + 1][..p] == pages[..p] && (sections + [page])[..p] == sections;
  }

  lemma RepeatMore(chunks: seq<Chunk>, more: seq<Chunk>, before: seq<int>, x: int, n: nat)
    requires PagesOf(chunks) == before + Repeat(x, n) && forall i :: 0 <= i < |more| ==> more[i].pageNumber == x
    ensures PagesOf(chunks + more) == before + Repeat(x, n + |more|)
  {
    assert PagesOf(chunks + more) == PagesOf(chunks) + PagesOf(more);
    assert Repeat(x, n + |more|) == Repeat(x, n) + PagesOf(more);
  }

  /** Chunks a paged text with one running index; every chunk carries its page's number. */
  method ChunkPages(c: Setup, pages: seq<PageContent>) returns (r: seq<Chunk>)
    requires SplitsWell(c)
    requires forall p :: 0 <= p < |pages| ==>
               forall k :: 0 <= k < |Flatten(pages[p].matches)| ==> Flatten(pages[p].matches)[k].pos < |pages[p].text|
    ensures exists sections ::
              && SectionsPages(pages, sections)
              && EmitsDocument(c, r, DocumentContents(c, Flatten(sections))) && FromSections(c, r, Flatten(sections))
              && PagesOf(r) == PageNumbers(c, pages, sections)
  {
    var chunks: seq<Chunk> := [];
    ghost var sections: seq<seq<Section>>, seen: seq<Section> := [], [];
    var chunkIndex := new Counter();
    hide *;
    FlattenStarts<Section>();
    EmptyDocument(c);
    NoPages(c, pages);
    for p := 0 to |pages|
      invariant EmitsDocument(c, chunks, Rendered(DocumentGroups(c, seen))) && seen == Flatten(sections)
      invariant FromSections(c, chunks, seen)
      invariant SectionsPages(pages[..p], sections) && |sections| == p
      invariant chunkIndex.next == |chunks|
      invariant PagesOf(chunks) == PageNumbers(c, pages[..p], sections)
    {
      var parts := SplitBySection(pages[p].text, pages[p].matches);
      ghost var before, numbers, n: nat := seen, PagesOf(chunks), 0;
      NothingRepeated(numbers, pages[p].pageNumber);
      for s := 0 to |parts|
        invariant EmitsDocument(c, chunks, Rendered(DocumentGroups(c, seen))) && seen == before + parts[..s]
        invariant FromSections(c, chunks, seen)
        invariant chunkIndex.next == |chunks|
        invariant PagesOf(chunks) == numbers + Repeat(pages[p].pageNumber, n) && n == |DocumentGroups(c, parts[..s])|
      {
        var sectionChunks := ChunkSection(c, parts[s], pages[p].pageNumber, chunkIndex);
        ghost var groups := SectionGroups(c, parts[s].content);
        EmitsMore(c, chunks, DocumentGroups(c, seen), sectionChunks, groups, parts[s], pages[p].pageNumber);
        EmitsPage(c, sectionChunks, groups, |chunks|, parts[s], pages[p].pageNumber);
        FromOneMore(c, chunks, seen, sectionChunks, |chunks|, parts[s], pages[p].pageNumber);
        OneMoreSection(c, seen, parts[s]);
        OneMoreSection(c, parts[..s], parts[s]);
        assert parts[..s + 1] == parts[..s] + [parts[s]];
        RepeatMore(chunks, sectionChunks, numbers, pages[p].pageNumber, n);
        seen := seen + [parts[s]];
        chunks := chunks + sectionChunks;
        n := n + |groups|;
      }
      assert parts[..|parts|] == parts;
      FlattenAppends(sections, parts);
      PageNumbersGrow(c, pages, sections, p, parts);
      SectionsMore(pages, sections, p, parts);
      sections := sections + [parts];
    }
    assert pages[..|pages|] == pages;
    r := FinishDocument(c, chunks, seen);
    SamePages(r, chunks);
  }

  lemma NoPages(c: Setup, pages: seq<PageContent>)
    ensures SectionsPages(pages[..0], []) && PagesOf([]) == PageNumbers(c, pages[..0], [])
  {
  }

  lemma NothingRepeated(before: seq<int>, x: int)
    ensures before + Repeat(x, 0) == before
  {
  }

  lemma SectionsMore(pages: seq<PageContent>, sections: seq<seq<Section>>, p: nat, page: seq<Section>)
    requires p < |pages| && SectionsPages(pages[..p], sections)
    requires IsSectioning(pages[p].text, pages[p].matches, page)
    ensures SectionsPages(pages[..p + 1], sections + [page])
  {
    hide IsSectioning;
  }

  lemma SamePages(a: seq<Chunk>, b: seq<Chunk>)
    requires |a| == |b| && forall i :: 0 <= i < |a| ==> a[i].pageNumber == b[i].pageNumber
    ensures PagesOf(a) == PagesOf(b)
  {
  }

  // ----- the document as a whole -----

  function SectionLeaves(c: Setup, content: string): seq<string> {
    if Count(c, content) <= c.maxTokens then [content] else Leaves(c, Paragraphs, c.split(Paragraphs, content))
  }

  function DocumentLeaves(c: Setup, sections: seq<Section>): seq<string> {
    if sections == [] then []
    else DocumentLeaves(c, sections[..|sections| - 1]) + SectionLeaves(c, sections[|sections| - 1].content)
  }

  /** Read in order, the chunks' pieces are the document's pieces, each once; every chunk fits. */
  lemma {:induction false} DocumentConserves(c: Setup, sections: seq<Section>)
    ensures PiecesOf(DocumentGroups(c, sections)) == DocumentLeaves(c, sections)
    ensures forall i :: 0 <= i < |DocumentGroups(c, sections)| ==> Fits(c, DocumentGroups(c, sections)[i])
  {
    if sections != [] {
      var front, content := sections[..|sections| - 1], sections[|sections| - 1].content;
      DocumentConserves(c, front);
      PiecesConcat(DocumentGroups(c, front), SectionGroups(c, content));
      SectionConserves(c, content);
    }
  }

  lemma SectionConserves(c: Setup, content: string)
    ensures PiecesOf(SectionGroups(c, content)) == SectionLeaves(c, content)
    ensures forall i :: 0 <= i < |SectionGroups(c, content)| ==> Fits(c, SectionGroups(c, content)[i])
  {
    if Count(c, content) <= c.maxTokens {
      assert [Group(Paragraphs, [content])][..0] == [];
      TotalOfOne(c, content);
    } else {
      ReferenceConserves(c, Paragraphs, c.split(Paragraphs, content));
      ReferenceFits(c, Paragraphs, c.split(Paragraphs, content));
    }
  }
}
