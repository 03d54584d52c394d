/** Tool calls written as fenced text blocks, and the parser that reads them back. */
module Fallback {
  import opened Common
  import opened Llm
  import opened Strings

  const BLOCK_START := "```tool_call"
  const BLOCK_CLOSE := "\n```"

  function Decimal(n: nat): string {
    (if n < 10 then "" else Decimal(n / 10)) + ["0123456789"[n % 10]]
  }

  // ----- the block pattern: start fence, spaces ending in a newline, shortest body, newline and close fence -----

  datatype Match = Match(start: nat, bodyStart: nat, bodyEnd: nat, end: nat)

  /** End of the run of pattern spaces beginning at `p`. */
  function RunEnd(s: string, p: nat): (e: nat)
    requires p <= |s|
    ensures p <= e <= |s|
    decreases |s| - p
  {
    if p < |s| && IsPatternSpace(s[p]) then RunEnd(s, p + 1) else p
  }

  /** The longest space run s[p..e'] with e' <= e that ends in a newline and leaves a close fence ahead; then the
      nearest close. */
  function LongestRun(s: string, p: nat, e: nat): (r: Option<(nat, nat)>)
    requires p <= e <= |s|
    ensures r.Some? ==> p < r.value.0 <= r.value.1
  {
    if e == p then None
    else if s[e - 1] == '\n' && IndexFrom(s, e, BLOCK_CLOSE).Some? then
      IndexIsLater(s, e, BLOCK_CLOSE);
      Some((e, IndexFrom(s, e, BLOCK_CLOSE).value))
    else LongestRun(s, p, e - 1)
  }

  function MatchAt(s: string, i: nat): (m: Option<Match>)
    ensures m.Some? ==> m.value.start == i < m.value.bodyStart <= m.value.bodyEnd < m.value.end
  {
    if !OccursAt(s, i, BLOCK_START) then None
    else
      var p := i + |BLOCK_START|;
      match LongestRun(s, p, RunEnd(s, p))
      case None => None
      case Some((bodyStart, bodyEnd)) => Some(Match(i, bodyStart, bodyEnd, bodyEnd + |BLOCK_CLOSE|))
  }

  // ----- the scanner against the pattern it stands for -----

  /** Leading spaces from `p` may end after a newline at `e`, and the body at a close fence at `j`. */
  ghost predicate Closes(s: string, p: nat, e: nat, j: nat) {
    p < e <= j && OccursAt(s, j, BLOCK_CLOSE) && s[e - 1] == '\n'
  }

  /** One way to match the pattern at `i`. */
  ghost predicate Decomposes(s: string, i: nat, e: nat, j: nat) {
    var p := i + |BLOCK_START|;
    OccursAt(s, i, BLOCK_START) && Closes(s, p, e, j) && forall k :: p <= k < e ==> IsPatternSpace(s[k])
  }

  lemma {:induction false} RunIsSpaces(s: string, p: nat)
    requires p <= |s|
    ensures forall k :: p <= k < RunEnd(s, p) ==> IsPatternSpace(s[k])
    decreases |s| - p
  {
    if p < |s| && IsPatternSpace(s[p]) {
      RunIsSpaces(s, p + 1);
    }
  }

  lemma {:induction false} RunIsLongest(s: string, p: nat, e: nat)
    requires p <= e <= |s| && forall k :: p <= k < e ==> IsPatternSpace(s[k])
    ensures e <= RunEnd(s, p)
    decreases e - p
  {
    if p < e {
      RunIsLongest(s, p + 1, e);
    }
  }

  lemma {:induction false} IndexIsFirst(s: string, i: nat, pattern: string, j: nat)
    requires i <= j && OccursAt(s, j, pattern)
    ensures IndexFrom(s, i, pattern).Some? && IndexFrom(s, i, pattern).value <= j
    decreases j - i
  {
    if i < j && !OccursAt(s, i, pattern) {
      IndexIsFirst(s, i + 1, pattern, j);
    }
  }

  /** `r` is the preferred of all readings with at most `e` behind the spaces: longest spaces, then nearest close. */
  ghost predicate Preferred(s: string, p: nat, e: nat, r: Option<(nat, nat)>) {
    match r
    case None => forall e': nat, j: nat :: e' <= e ==> !Closes(s, p, e', j)
    case Some((e0, j0)) =>
      && e0 <= e && Closes(s, p, e0, j0)
      && forall e': nat, j: nat :: e' <= e && Closes(s, p, e', j) ==> e' < e0 || (e' == e0 && j0 <= j)
  }

  lemma {:induction false} LongestRunIsPreferred(s: string, p: nat, e: nat)
    requires p <= e <= |s|
    ensures Preferred(s, p, e, LongestRun(s, p, e))
  {
    hide OccursAt, IndexFrom;
    if e > p {
      forall j: nat | Closes(s, p, e, j)
        ensures IndexFrom(s, e, BLOCK_CLOSE).Some? && IndexFrom(s, e, BLOCK_CLOSE).value <= j
      {
        IndexIsFirst(s, e, BLOCK_CLOSE, j);
      }
      IndexIsLater(s, e, BLOCK_CLOSE);
      if s[e - 1] != '\n' || IndexFrom(s, e, BLOCK_CLOSE).None? {
        LongestRunIsPreferred(s, p, e - 1);
      }
    }
  }

  /** A match exists exactly when the text can be read as one, and it is the reading a backtracking matcher finds first:
      as many leading spaces as possible, then as short a body as possible. */
  lemma MatchIsPreferred(s: string, i: nat)
    ensures MatchAt(s, i).None? <==> forall e: nat, j: nat :: !Decomposes(s, i, e, j)
    ensures MatchAt(s, i).Some? ==>
              var m := MatchAt(s, i).value;
              && Decomposes(s, i, m.bodyStart, m.bodyEnd) && m.end == m.bodyEnd + |BLOCK_CLOSE|
              && forall e: nat, j: nat :: Decomposes(s, i, e, j) ==>
                e < m.bodyStart || (e == m.bodyStart && m.bodyEnd <= j)
  {
    if OccursAt(s, i, BLOCK_START) {
      var p := i + |BLOCK_START|;
      RunIsSpaces(s, p);
      LongestRunIsPreferred(s, p, RunEnd(s, p));
      hide RunEnd, LongestRun;
      forall e: nat, j: nat | Decomposes(s, i, e, j)
        ensures e <= RunEnd(s, p)
      {
        RunIsLongest(s, p, e);
      }
      if MatchAt(s, i).Some? {
        assert Decomposes(s, i, MatchAt(s, i).value.bodyStart, MatchAt(s, i).value.bodyEnd);
      }
    }
  }

  /** The leftmost match at or after `i`. */
  function NextMatch(s: string, i: nat): (m: Option<Match>)
    ensures m.Some? ==> i <= m.value.start < m.value.bodyStart <= m.value.bodyEnd < m.value.end
    decreases |s| - i
  {
    if i >= |s| then None
    else if MatchAt(s, i).Some? then MatchAt(s, i)
    else NextMatch(s, i + 1)
  }

  /** All matches, left to right, not overlapping. */
  function FindAll(s: string, i: nat): seq<Match>
    decreases |s| - i
  {
    match if i < |s| then NextMatch(s, i) else None
    case None => []
    case Some(m) => [m] + FindAll(s, m.end)
  }

  /** No match begins from `i` up to `j`. */
  ghost predicate NoneBegins(s: string, i: nat, j: nat) {
    forall k: nat :: i <= k < j ==> MatchAt(s, k).None?
  }

  /** The leftmost matches from `i` on, none beginning inside another. */
  ghost predicate Leftmost(s: string, i: nat, ms: seq<Match>)
    decreases |ms|
  {
    if ms == [] then NoneBegins(s, i, |s|)
    else
      && i <= ms[0].start < |s| && NoneBegins(s, i, ms[0].start) && MatchAt(s, ms[0].start) == Some(ms[0])
      && Leftmost(s, ms[0].end, ms[1..])
  }

  lemma {:induction false} NextIsFirst(s: string, i: nat)
    ensures
      match NextMatch(s, i)
      case None => NoneBegins(s, i, |s|)
      case Some(m) => i <= m.start < |s| && NoneBegins(s, i, m.start) && MatchAt(s, m.start) == Some(m)
    decreases |s| - i
  {
    hide MatchAt;
    if i < |s| && MatchAt(s, i).None? {
      NextIsFirst(s, i + 1);
    }
  }

  lemma FirstIsOnly(s: string, i: nat, m: Match, n: Match)
    requires i <= m.start && NoneBegins(s, i, m.start) && MatchAt(s, m.start) == Some(m)
    requires i <= n.start && NoneBegins(s, i, n.start) && MatchAt(s, n.start) == Some(n)
    ensures m == n
  {
    hide MatchAt;
  }

  /** The scan finds the leftmost matches that do not overlap, and nothing else. */
  lemma {:induction false} ScanIsLeftmost(s: string, i: nat, ms: seq<Match>)
    ensures Leftmost(s, i, ms) <==> ms == FindAll(s, i)
    decreases |s| - i
  {
    hide MatchAt, NextMatch;
    NextIsFirst(s, i);
    if i < |s| && NextMatch(s, i).Some? {
      var m := NextMatch(s, i).value;
      ScanIsLeftmost(s, m.end, FindAll(s, m.end));
      if ms != [] {
        ScanIsLeftmost(s, m.end, ms[1..]);
        FirstAndRest(ms);
        if Leftmost(s, i, ms) {
          FirstIsOnly(s, i, m, ms[0]);
        }
      }
    }
  }

  // ----- parsing -----

  /** A JSON reader for {"name": ..., "input": ...}: None when the text does not parse. */
  type Decoder = string -> Option<(string, string)>

  datatype Parsed = Parsed(calls: seq<ToolCall>, remaining: string)

  function FallbackId(n: nat): string {
    "fallback_" + Decimal(n)
  }

  /** The effect of one match, the `i`-th found. */
  function Accept(decode: Decoder, content: string, m: Match, i: nat, before: Parsed): Parsed {
    match decode(Trim(Slice(content, m.bodyStart, m.bodyEnd)))
    case None => before
    case Some((name, input)) =>
      if name == "" then before
      else Parsed(before.calls + [ToolCall(FallbackId(i), name, input)],
                  RemoveFirst(before.remaining, Slice(content, m.start, m.end)))
  }

  function AcceptAll(decode: Decoder, content: string, ms: seq<Match>): Parsed {
    if ms == [] then Parsed([], content)
    else Accept(decode, content, ms[|ms| - 1], |ms| - 1, AcceptAll(decode, content, ms[..|ms| - 1]))
  }

  /** What the parser returns for a text. */
  function Parse(decode: Decoder, content: string): Parsed {
    var p := AcceptAll(decode, content, FindAll(content, 0));
    p.(remaining := Trim(p.remaining))
  }

  method ParseToolCallsFromText(decode: Decoder, content: string)
    returns (toolCalls: seq<ToolCall>, remainingText: string)
    ensures Parsed(toolCalls, remainingText) == Parse(decode, content)
  {
    hide FindAll, Slice, Trim, RemoveFirst, FallbackId;
    toolCalls, remainingText := [], content;
    var matches := FindAll(content, 0);
    for i := 0 to |matches|
      invariant Parsed(toolCalls, remainingText) == AcceptAll(decode, content, matches[..i])
    {
      assert matches[..i + 1][..i] == matches[..i];
      var m := matches[i];
      var parsed := decode(Trim(Slice(content, m.bodyStart, m.bodyEnd)));
      if parsed.None? {
        continue;
      }
      var (name, input) := parsed.value;
      if name == "" {
        continue;
      }
      toolCalls := toolCalls + [ToolCall(FallbackId(i), name, input)];
      remainingText := RemoveFirst(remainingText, Slice(content, m.start, m.end));
    }
    assert matches[..|matches|] == matches;
    remainingText := Trim(remainingText);
  }

  // ----- printing -----

  datatype NamedCall = NamedCall(name: string, input: string)

  type Encoder = NamedCall -> string

  function Block(encode: Encoder, c: NamedCall): string {
    BLOCK_START + "\n" + encode(c) + BLOCK_CLOSE
  }

  /** texts[0], block of calls[0], texts[1], ..., block of the last call, last text. */
  function Printed(encode: Encoder, texts: seq<string>, calls: seq<NamedCall>): string
    requires |texts| == |calls| + 1
  {
    if calls == [] then texts[0]
    else texts[0] + (Block(encode, calls[0]) + Printed(encode, texts[1..], calls[1..]))
  }

  predicate Without(s: string, c: char) {
    forall i :: 0 <= i < |s| ==> s[i] != c
  }

  /** The encoder writes one line of trimmed text that the decoder reads back. */
  ghost predicate Faithful(encode: Encoder, decode: Decoder, c: NamedCall) {
    && c.name != ""
    && encode(c) != "" && !IsSpace(encode(c)[0]) && !IsSpace(encode(c)[|encode(c)| - 1])
    && Without(encode(c), '\n')
    && decode(encode(c)) == Some((c.name, c.input))
  }

  // ----- the scanner finds exactly the printed blocks -----

  lemma {:induction false} NextMatchSkips(s: string, i: nat, n: nat)
    requires i + n <= |s|
    requires forall j :: i <= j < i + n ==> s[j] != '`'
    ensures NextMatch(s, i) == NextMatch(s, i + n)
    decreases n
  {
    if n > 0 {
      FirstCharacter(s, i, BLOCK_START);
      NextMatchSkips(s, i + 1, n - 1);
    }
  }

  lemma OccursSplit(s: string, i: nat, a: string, b: string)
    ensures OccursAt(s, i, a + b) <==> OccursAt(s, i, a) && OccursAt(s, i + |a|, b)
  {
    if i + |a| + |b| <= |s| {
      assert s[i..i + |a + b|] == s[i..i + |a|] + s[i + |a|..i + |a| + |b|];
      if OccursAt(s, i, a + b) {
        assert s[i..i + |a|] == (a + b)[..|a|] && s[i + |a|..i + |a| + |b|] == (a + b)[|a|..];
      }
    }
  }

  lemma OccursChar(s: string, i: nat, pattern: string, k: nat)
    requires OccursAt(s, i, pattern) && k < |pattern|
    ensures s[i + k] == pattern[k]
  {
    assert s[i..i + |pattern|][k] == pattern[k];
  }

  lemma BlockParts(s: string, i: nat, body: string)
    requires OccursAt(s, i, BLOCK_START + "\n" + body + BLOCK_CLOSE)
    ensures OccursAt(s, i, BLOCK_START) && OccursAt(s, i + 12, "\n")
    ensures OccursAt(s, i + 13, body) && OccursAt(s, i + 13 + |body|, BLOCK_CLOSE)
  {
    hide OccursAt;
    OccursSplit(s, i, BLOCK_START + "\n" + body, BLOCK_CLOSE);
    OccursSplit(s, i, BLOCK_START + "\n", body);
    OccursSplit(s, i, BLOCK_START, "\n");
  }

  lemma OccursEverywhere(s: string, i: nat, pattern: string)
    requires OccursAt(s, i, pattern)
    ensures i + |pattern| <= |s| && forall k :: 0 <= k < |pattern| ==> s[i + k] == pattern[k]
  {
    forall k | 0 <= k < |pattern|
      ensures s[i + k] == pattern[k]
    {
      OccursChar(s, i, pattern, k);
    }
  }

  /** The run of spaces after the start fence is the one newline. */
  lemma NewlineThenBody(s: string, p: nat, body: string)
    requires body != "" && !IsSpace(body[0])
    requires OccursAt(s, p, "\n") && OccursAt(s, p + 1, body)
    ensures p + 1 < |s| && RunEnd(s, p) == p + 1
  {
    OccursEverywhere(s, p, "\n");
    OccursEverywhere(s, p + 1, body);
    assert s[p + 1] == body[0];
    assert RunEnd(s, p + 1) == p + 1;
  }

  lemma BodyThenClose(s: string, q: nat, body: string)
    requires Without(body, '\n') && OccursAt(s, q, body) && OccursAt(s, q + |body|, BLOCK_CLOSE)
    ensures IndexFrom(s, q, BLOCK_CLOSE) == Some(q + |body|)
  {
    hide IndexFrom, OccursAt;
    OccursEverywhere(s, q, body);
    forall j | q <= j < q + |body|
      ensures s[j] != '\n'
    {
      assert s[q + (j - q)] == body[j - q];
    }
    IndexSkips(s, q, |body|, BLOCK_CLOSE);
    FoundHere(s, q + |body|, BLOCK_CLOSE);
  }

  /** A printed block, wherever it stands, matches as a whole with the encoding as its body. */
  lemma BlockMatches(s: string, i: nat, body: string)
    requires body != "" && !IsSpace(body[0]) && Without(body, '\n')
    requires OccursAt(s, i, BLOCK_START + "\n" + body + BLOCK_CLOSE)
    ensures MatchAt(s, i) == Some(Match(i, i + 13, i + 13 + |body|, i + 17 + |body|))
    ensures OccursAt(s, i + 13, body)
  {
    BlockParts(s, i, body);
    OccursChar(s, i + 12, "\n", 0);
    NewlineThenBody(s, i + 12, body);
    BodyThenClose(s, i + 13, body);
    hide IndexFrom, OccursAt, RunEnd, IsSpace, Without;
  }

  ghost predicate Printable(encode: Encoder, decode: Decoder, texts: seq<string>, calls: seq<NamedCall>) {
    && |texts| == |calls| + 1
    && (forall k :: 0 <= k < |texts| ==> Without(texts[k], '`'))
    && (forall k :: 0 <= k < |calls| ==> Faithful(encode, decode, calls[k]))
  }

  lemma PrintableTail(encode: Encoder, decode: Decoder, texts: seq<string>, calls: seq<NamedCall>)
    requires Printable(encode, decode, texts, calls) && calls != []
    ensures Printable(encode, decode, texts[1..], calls[1..])
  {
  }

  /** Match `m` of `s` covers exactly the block of `c`. */
  predicate Covers(encode: Encoder, s: string, m: Match, c: NamedCall) {
    Slice(s, m.start, m.end) == Block(encode, c) && Slice(s, m.bodyStart, m.bodyEnd) == encode(c)
  }

  lemma BlockLength(encode: Encoder, c: NamedCall)
    ensures |Block(encode, c)| == 17 + |encode(c)|
    ensures Block(encode, c) == BLOCK_START + "\n" + encode(c) + BLOCK_CLOSE
  {
  }

  lemma SliceOfOccurrence(s: string, i: nat, pattern: string)
    requires OccursAt(s, i, pattern)
    ensures i + |pattern| <= |s| && Slice(s, i, i + |pattern|) == pattern
  {
  }

  lemma FirstBlock(encode: Encoder, decode: Decoder, s: string, i: nat, text: string, c: NamedCall, rest: string)
    requires i <= |s| && s[i..] == text + (Block(encode, c) + rest)
    requires Without(text, '`') && Faithful(encode, decode, c)
    ensures
      var m := NextMatch(s, i);
      && m.Some? && m.value.start == i + |text| && m.value.end <= |s|
      && Covers(encode, s, m.value, c)
      && s[m.value.end..] == rest
  {
    var block := Block(encode, c);
    var j := i + |text|;
    hide NextMatch, MatchAt, IndexFrom, Trim, Block, OccursAt, Slice, IsSpace;
    BlockLength(encode, c);
    AfterPrefix(s, i, text, block + rest);
    SliceOfOccurrence(s, i, text);
    AfterPrefix(s, j, block, rest);
    SliceOfOccurrence(s, j, block);
    forall k | i <= k < j
      ensures s[k] != '`'
    {
      assert s[k] == s[i..][k - i] == text[k - i];
    }
    NextMatchSkips(s, i, |text|);
    BlockMatches(s, j, encode(c));
    SliceOfOccurrence(s, j + 13, encode(c));
    MatchIsNext(s, j);
  }

  lemma AfterPrefix(s: string, i: nat, prefix: string, rest: string)
    requires i <= |s| && s[i..] == prefix + rest
    ensures OccursAt(s, i, prefix) && s[i + |prefix|..] == rest
  {
    assert s[i..i + |prefix|] == s[i..][..|prefix|];
    assert s[i + |prefix|..] == s[i..][|prefix|..];
  }

  lemma MatchIsNext(s: string, i: nat)
    requires i < |s| && MatchAt(s, i).Some?
    ensures NextMatch(s, i) == MatchAt(s, i)
  {
  }

  /** The scanner meets one match per printed block, in order. */
  lemma {:induction false} FindsPrinted(encode: Encoder, decode: Decoder, s: string, i: nat, texts: seq<string>,
                                        calls: seq<NamedCall>)
    requires Printable(encode, decode, texts, calls)
    requires i <= |s| && s[i..] == Printed(encode, texts, calls)
    ensures |FindAll(s, i)| == |calls|
    ensures forall k :: 0 <= k < |calls| ==> Covers(encode, s, FindAll(s, i)[k], calls[k])
    decreases |calls|
  {
    if calls == [] {
      forall k | i <= k < |s|
        ensures s[k] != '`'
      {
        assert s[k] == s[i..][k - i] == texts[0][k - i];
      }
      NextMatchSkips(s, i, |s| - i);
    } else {
      var rest := Printed(encode, texts[1..], calls[1..]);
      FirstBlock(encode, decode, s, i, texts[0], calls[0], rest);
      PrintableTail(encode, decode, texts, calls);
      var m := NextMatch(s, i).value;
      FindsPrinted(encode, decode, s, m.end, texts[1..], calls[1..]);
      assert FindAll(s, i) == [m] + FindAll(s, m.end);
    }
  }

  // ----- removing the blocks leaves the texts -----

  lemma RemovesBlock(clean: string, block: string, rest: string)
    requires Without(clean, '`') && block != "" && block[0] == '`'
    ensures RemoveFirst(clean + (block + rest), block) == clean + rest
  {
    hide IndexFrom, OccursAt;
    var s := clean + (block + rest);
    IndexSkips(s, 0, |clean|, block);
    AfterPrefix(s, 0, clean, block + rest);
    assert s[0..] == s;
    AfterPrefix(s, |clean|, block, rest);
    FoundHere(s, |clean|, block);
    assert s[..|clean|] == clean;
  }

  lemma FoundHere(s: string, i: nat, pattern: string)
    requires OccursAt(s, i, pattern)
    ensures IndexFrom(s, i, pattern) == Some(i) && i + |pattern| <= |s|
  {
  }

  function Numbered(calls: seq<NamedCall>): (r: seq<ToolCall>)
    ensures |r| == |calls|
  {
    seq(|calls|, i requires 0 <= i < |calls| => ToolCall(FallbackId(i), calls[i].name, calls[i].input))
  }

  lemma {:induction false} TextsStayClean(texts: seq<string>, k: nat)
    requires k <= |texts| && forall j :: 0 <= j < |texts| ==> Without(texts[j], '`')
    ensures Without(Flatten(texts[..k]), '`')
  {
    if k > 0 {
      TextsStayClean(texts, k - 1);
      assert texts[..k][..k - 1] == texts[..k - 1];
    }
  }

  /** After k matches: the first k calls are read, and only the later blocks are still in the text. */
  lemma {:induction false} AcceptsPrinted(encode: Encoder, decode: Decoder, texts: seq<string>,
                                          calls: seq<NamedCall>, ms: seq<Match>, k: nat)
    requires Printable(encode, decode, texts, calls) && k <= |calls| == |ms|
    requires forall j :: 0 <= j < |ms| ==> Covers(encode, Printed(encode, texts, calls), ms[j], calls[j])
    ensures AcceptAll(decode, Printed(encode, texts, calls), ms[..k]) ==
            Parsed(Numbered(calls[..k]), Flatten(texts[..k]) + Printed(encode, texts[k..], calls[k..]))
  {
    var content := Printed(encode, texts, calls);
    if k == 0 {
      NothingAccepted(encode, decode, texts, calls, ms);
    } else {
      hide *;
      AcceptsPrinted(encode, decode, texts, calls, ms, k - 1);
      NextAccepted(decode, content, ms, k);
      AcceptsBlock(encode, decode, content, ms[k - 1], k - 1, calls[k - 1], AcceptAll(decode, content, ms[..k - 1]));
      RemovesNext(encode, decode, texts, calls, k);
      NumberedExtends(calls, k);
    }
  }

  lemma NothingAccepted(encode: Encoder, decode: Decoder, texts: seq<string>, calls: seq<NamedCall>, ms: seq<Match>)
    requires |texts| == |calls| + 1
    ensures AcceptAll(decode, Printed(encode, texts, calls), ms[..0]) ==
            Parsed(Numbered(calls[..0]), Flatten(texts[..0]) + Printed(encode, texts[0..], calls[0..]))
  {
    hide Printed;
    assert texts[0..] == texts && calls[0..] == calls;
    assert Flatten(texts[..0]) + Printed(encode, texts, calls) == Printed(encode, texts, calls);
  }

  lemma NumberedExtends(calls: seq<NamedCall>, k: nat)
    requires 0 < k <= |calls|
    ensures Numbered(calls[..k]) ==
            Numbered(calls[..k - 1]) + [ToolCall(FallbackId(k - 1), calls[k - 1].name, calls[k - 1].input)]
  {
    assert calls[..k] == calls[..k - 1] + [calls[k - 1]];
  }

  lemma NextAccepted(decode: Decoder, content: string, ms: seq<Match>, k: nat)
    requires 0 < k <= |ms|
    ensures AcceptAll(decode, content, ms[..k]) ==
            Accept(decode, content, ms[k - 1], k - 1, AcceptAll(decode, content, ms[..k - 1]))
  {
    assert ms[..k][..k - 1] == ms[..k - 1] && ms[..k][k - 1] == ms[k - 1];
  }

  lemma AcceptsBlock(encode: Encoder, decode: Decoder, content: string, m: Match, i: nat, c: NamedCall, before: Parsed)
    requires Covers(encode, content, m, c) && Faithful(encode, decode, c)
    ensures Accept(decode, content, m, i, before) ==
            Parsed(before.calls + [ToolCall(FallbackId(i), c.name, c.input)],
                   RemoveFirst(before.remaining, Block(encode, c)))
  {
    hide RemoveFirst, Block, FallbackId, Trim;
    TrimsToItself(encode(c));
  }

  lemma RemovesNext(encode: Encoder, decode: Decoder, texts: seq<string>, calls: seq<NamedCall>, k: nat)
    requires Printable(encode, decode, texts, calls) && 0 < k <= |calls|
    ensures RemoveFirst(Flatten(texts[..k - 1]) + Printed(encode, texts[k - 1..], calls[k - 1..]),
                        Block(encode, calls[k - 1])) ==
            Flatten(texts[..k]) + Printed(encode, texts[k..], calls[k..])
  {
    var clean, text := Flatten(texts[..k - 1]), texts[k - 1];
    var block := Block(encode, calls[k - 1]);
    var rest := Printed(encode, texts[k..], calls[k..]);
    assert texts[k - 1..][1..] == texts[k..] && calls[k - 1..][1..] == calls[k..];
    assert Printed(encode, texts[k - 1..], calls[k - 1..]) == text + (block + rest);
    assert clean + (text + (block + rest)) == (clean + text) + (block + rest);
    assert texts[..k][..k - 1] == texts[..k - 1];
    TextsStayClean(texts, k);
    hide Printed, RemoveFirst;
    RemovesBlock(clean + text, block, rest);
  }

  /** Parsing undoes printing: the same names and inputs, in order, and the surrounding text, trimmed. */
  lemma ParseUndoesPrint(encode: Encoder, decode: Decoder, texts: seq<string>, calls: seq<NamedCall>)
    requires |texts| == |calls| + 1 && Printable(encode, decode, texts, calls)
    ensures Parse(decode, Printed(encode, texts, calls)) == Parsed(Numbered(calls), Trim(Flatten(texts)))
  {
    hide *;
    var s := Printed(encode, texts, calls);
    var ms, n := FindAll(s, 0), |calls|;
    assert s[0..] == s;
    FindsPrinted(encode, decode, s, 0, texts, calls);
    AcceptsPrinted(encode, decode, texts, calls, ms, n);
    assert ms[..n] == ms && calls[..n] == calls;
    LastText(encode, texts, calls);
    ParseUnfolds(decode, s);
  }

  lemma ParseUnfolds(decode: Decoder, s: string)
    ensures
      var p := AcceptAll(decode, s, FindAll(s, 0));
      Parse(decode, s) == Parsed(p.calls, Trim(p.remaining))
  {
    hide AcceptAll, FindAll, Trim;
  }

  lemma LastText(encode: Encoder, texts: seq<string>, calls: seq<NamedCall>)
    requires |texts| == |calls| + 1
    ensures Flatten(texts[..|calls|]) + Printed(encode, texts[|calls|..], calls[|calls|..]) == Flatten(texts)
  {
    hide Flatten, Printed;
    var n := |calls|;
    assert calls[n..] == [] && texts[n..] == [texts[n]];
    PrintedAlone(encode, texts[n]);
    assert texts[..n] + [texts[n]] == texts;
    FlattenAppends(texts[..n], texts[n]);
  }

  lemma PrintedAlone(encode: Encoder, text: string)
    ensures Printed(encode, [text], []) == text
  {
  }

  // ----- identifiers -----

  /** The number a string of decimal digits stands for. */
  function ValueOf(digits: string): int {
    if digits == "" then 0
    else 10 * ValueOf(digits[..|digits| - 1]) + (digits[|digits| - 1] as int - '0' as int)
  }

  /** A number's decimal digits read back as the number. */
  lemma {:induction false} DecimalReads(n: nat)
    ensures ValueOf(Decimal(n)) == n
  {
    assert "0123456789"[n % 10] as int - '0' as int == n % 10;
    var front := if n < 10 then "" else Decimal(n / 10);
    assert Decimal(n)[..|Decimal(n)| - 1] == front;
    if n >= 10 {
      DecimalReads(n / 10);
    }
  }

  /** So different numbers print differently. */
  lemma DecimalInjective(a: nat, b: nat)
    requires Decimal(a) == Decimal(b)
    ensures a == b
  {
    hide Decimal, ValueOf;
    DecimalReads(a);
    DecimalReads(b);
  }

  ghost predicate NumberedBelow(id: string, n: nat) {
    exists i: nat :: i < n && id == FallbackId(i)
  }

  lemma FallbackIdInjective(a: nat, b: nat)
    requires FallbackId(a) == FallbackId(b)
    ensures a == b
  {
    assert FallbackId(a)[9..] == Decimal(a) && FallbackId(b)[9..] == Decimal(b);
    DecimalInjective(a, b);
  }

  /** The identifiers are among the first `n` and pairwise different. */
  ghost predicate Identified(calls: seq<ToolCall>, n: nat) {
    && (forall j :: 0 <= j < |calls| ==> NumberedBelow(calls[j].id, n))
    && (forall j, k :: 0 <= j < k < |calls| ==> calls[j].id != calls[k].id)
  }

  lemma IdentifiedGrows(calls: seq<ToolCall>, n: nat, name: string, input: string)
    requires Identified(calls, n)
    ensures Identified(calls, n + 1) && Identified(calls + [ToolCall(FallbackId(n), name, input)], n + 1)
  {
    hide FallbackId;
    assert NumberedBelow(FallbackId(n), n + 1);
    forall j | 0 <= j < |calls|
      ensures calls[j].id != FallbackId(n) && NumberedBelow(calls[j].id, n + 1)
    {
      assert NumberedBelow(calls[j].id, n);
      var i: nat :| i < n && calls[j].id == FallbackId(i);
      if FallbackId(i) == FallbackId(n) {
        FallbackIdInjective(i, n);
      }
    }
  }

  /** Whatever the text, the calls read from it carry pairwise different identifiers. */
  lemma {:induction false} IdentifiersDiffer(decode: Decoder, content: string, ms: seq<Match>)
    ensures Identified(AcceptAll(decode, content, ms).calls, |ms|)
  {
    if ms != [] {
      var i := |ms| - 1;
      IdentifiersDiffer(decode, content, ms[..i]);
      var parsed := decode(Trim(Slice(content, ms[i].bodyStart, ms[i].bodyEnd)));
      var (name, input) := if parsed.Some? then parsed.value else ("", "");
      IdentifiedGrows(AcceptAll(decode, content, ms[..i]).calls, i, name, input);
    }
  }

  // ----- identifiers over a run -----

  /** The `i`-th block of a text holds a call. */
  predicate HoldsCall(decode: Decoder, content: string, ms: seq<Match>, i: nat) {
    i < |ms| &&
    var parsed := decode(Trim(Slice(content, ms[i].bodyStart, ms[i].bodyEnd)));
    parsed.Some? && parsed.value.0 != ""
  }

  /** The positions of the blocks that hold a call, in order. */
  function Holding(decode: Decoder, content: string, ms: seq<Match>, n: nat): (r: seq<nat>)
    requires n <= |ms|
    ensures forall j :: 0 <= j < |r| ==> r[j] < n
    ensures (forall i: nat :: i < n ==> !HoldsCall(decode, content, ms, i)) ==> r == []
  {
    hide HoldsCall;
    if n == 0 then []
    else
      var before := Holding(decode, content, ms, n - 1);
      if HoldsCall(decode, content, ms, n - 1) then before + [n - 1] else before
  }

  lemma {:induction false} HoldingIs(decode: Decoder, content: string, ms: seq<Match>, n: nat, i: nat)
    requires n <= |ms|
    ensures i in Holding(decode, content, ms, n) <==> i < n && HoldsCall(decode, content, ms, i)
    ensures forall j, k :: 0 <= j < k < |Holding(decode, content, ms, n)| ==>
              Holding(decode, content, ms, n)[j] < Holding(decode, content, ms, n)[k]
  {
    hide HoldsCall;
    if n > 0 {
      hide Holding;
      HoldingIs(decode, content, ms, n - 1, i);
      HoldingNext(decode, content, ms, n);
    }
  }

  /** The text with the first occurrences of these blocks removed, one after the other. */
  function WithoutBlocks(content: string, ms: seq<Match>, positions: seq<nat>): string
    requires forall j :: 0 <= j < |positions| ==> positions[j] < |ms|
  {
    if positions == [] then content
    else
      var m := ms[positions[|positions| - 1]];
      RemoveFirst(WithoutBlocks(content, ms, positions[..|positions| - 1]), Slice(content, m.start, m.end))
  }

  /** The call written in block `i`. */
  ghost predicate WrittenIn(decode: Decoder, content: string, ms: seq<Match>, i: nat, call: ToolCall) {
    i < |ms| &&
    var parsed := decode(Trim(Slice(content, ms[i].bodyStart, ms[i].bodyEnd)));
    call.id == "fallback_" + Decimal(i) && parsed == Some((call.name, call.input))
  }

  /** One call, as it is written, for each of these blocks, in order. */
  ghost predicate AllWrittenIn(decode: Decoder, content: string, ms: seq<Match>, positions: seq<nat>,
                               calls: seq<ToolCall>) {
    && |calls| == |positions|
    && forall j :: 0 <= j < |positions| ==> WrittenIn(decode, content, ms, positions[j], calls[j])
  }

  /** Reading any text gives one call for each block that holds one, in order, and the text without these blocks.
      A block that does not decode, or names no tool, stays in the text and gives no call. */
  lemma {:induction false} ReadsHoldingBlocks(decode: Decoder, content: string, ms: seq<Match>, n: nat)
    requires n <= |ms|
    ensures
      var positions, p := Holding(decode, content, ms, n), AcceptAll(decode, content, ms[..n]);
      AllWrittenIn(decode, content, ms, positions, p.calls) && p.remaining == WithoutBlocks(content, ms, positions)
  {
    hide *;
    if n == 0 {
      HoldingNothing(decode, content, ms);
    } else {
      ReadsHoldingBlocks(decode, content, ms, n - 1);
      AcceptsNext(decode, content, ms, n);
      HoldingNext(decode, content, ms, n);
      if HoldsCall(decode, content, ms, n - 1) {
        var before := Holding(decode, content, ms, n - 1);
        var calls, more := AcceptAll(decode, content, ms[..n - 1]).calls, AcceptAll(decode, content, ms[..n]).calls;
        OneMoreWritten(decode, content, ms, before, calls, n - 1, more);
        WithoutOneMore(content, ms, before, n - 1);
      }
    }
  }

  lemma HoldingNothing(decode: Decoder, content: string, ms: seq<Match>)
    ensures
      var positions, p := Holding(decode, content, ms, 0), AcceptAll(decode, content, ms[..0]);
      AllWrittenIn(decode, content, ms, positions, p.calls) && p.remaining == WithoutBlocks(content, ms, positions)
  {
    hide WrittenIn;
  }

  lemma OneMoreWritten(decode: Decoder, content: string, ms: seq<Match>, positions: seq<nat>, calls: seq<ToolCall>,
                       i: nat, more: seq<ToolCall>)
    requires AllWrittenIn(decode, content, ms, positions, calls)
    requires |more| == |calls| + 1 && more[..|calls|] == calls && WrittenIn(decode, content, ms, i, more[|calls|])
    ensures AllWrittenIn(decode, content, ms, positions + [i], more)
  {
    hide WrittenIn;
    assert forall j :: 0 <= j < |calls| ==> more[j] == calls[j];
  }

  lemma AcceptsNext(decode: Decoder, content: string, ms: seq<Match>, n: nat)
    requires 0 < n <= |ms|
    ensures
      var p, q, m := AcceptAll(decode, content, ms[..n - 1]), AcceptAll(decode, content, ms[..n]), ms[n - 1];
      if HoldsCall(decode, content, ms, n - 1) then
        && |q.calls| == |p.calls| + 1 && q.calls[..|p.calls|] == p.calls
        && WrittenIn(decode, content, ms, n - 1, q.calls[|p.calls|])
        && q.remaining == RemoveFirst(p.remaining, Slice(content, m.start, m.end))
      else q == p
  {
    hide Decimal, Slice, Trim, RemoveFirst;
    assert ms[..n][..n - 1] == ms[..n - 1];
  }

  lemma HoldingNext(decode: Decoder, content: string, ms: seq<Match>, n: nat)
    requires 0 < n <= |ms|
    ensures Holding(decode, content, ms, n) ==
            if HoldsCall(decode, content, ms, n - 1) then Holding(decode, content, ms, n - 1) + [n - 1]
            else Holding(decode, content, ms, n - 1)
  {
    hide HoldsCall;
  }

  lemma WithoutOneMore(content: string, ms: seq<Match>, positions: seq<nat>, i: nat)
    requires i < |ms| && forall j :: 0 <= j < |positions| ==> positions[j] < |ms|
    ensures WithoutBlocks(content, ms, positions + [i]) ==
            RemoveFirst(WithoutBlocks(content, ms, positions), Slice(content, ms[i].start, ms[i].end))
  {
    hide Slice, RemoveFirst;
    assert (positions + [i])[..|positions|] == positions;
  }

  /** What the parser makes of a text with no block that holds a call: no calls, and the text, trimmed. */
  lemma NothingToRead(decode: Decoder, content: string)
    requires forall i: nat :: !HoldsCall(decode, content, FindAll(content, 0), i)
    ensures Parse(decode, content) == Parsed([], Trim(content))
  {
    hide FindAll, AcceptAll, Trim, HoldsCall;
    var ms := FindAll(content, 0);
    ReadsHoldingBlocks(decode, content, ms, |ms|);
    assert ms[..|ms|] == ms;
  }

  ghost predicate Carries(calls: seq<ToolCall>, id: string) {
    exists j :: 0 <= j < |calls| && calls[j].id == id
  }

  /** A text's calls carry the positions of the blocks they were read from. */
  lemma {:induction false} IdsArePositions(decode: Decoder, content: string, ms: seq<Match>, i: nat)
    ensures Carries(AcceptAll(decode, content, ms).calls, FallbackId(i)) <==> HoldsCall(decode, content, ms, i)
  {
    if ms != [] {
      hide FallbackId, Slice, Trim, RemoveFirst;
      var last := |ms| - 1;
      IdsArePositions(decode, content, ms[..last], i);
      IdsGrow(decode, content, ms, i);
    }
  }

  lemma IdsGrow(decode: Decoder, content: string, ms: seq<Match>, i: nat)
    requires ms != []
    ensures
      var last := |ms| - 1;
      Carries(AcceptAll(decode, content, ms).calls, FallbackId(i)) <==>
      Carries(AcceptAll(decode, content, ms[..last]).calls, FallbackId(i)) ||
      (i == last && HoldsCall(decode, content, ms, last))
    ensures HoldsCall(decode, content, ms, i) <==>
            HoldsCall(decode, content, ms[..|ms| - 1], i) || (i == |ms| - 1 && HoldsCall(decode, content, ms, i))
  {
    hide FallbackId, Slice, Trim, RemoveFirst;
    var last := |ms| - 1;
    var before, after := AcceptAll(decode, content, ms[..last]).calls, AcceptAll(decode, content, ms).calls;
    if FallbackId(i) == FallbackId(last) {
      FallbackIdInjective(i, last);
    }
    if HoldsCall(decode, content, ms, last) {
      assert after[..|before|] == before && after[|before|].id == FallbackId(last);
      if Carries(before, FallbackId(i)) {
        var j :| 0 <= j < |before| && before[j].id == FallbackId(i);
        assert after[j].id == FallbackId(i);
      }
    } else {
      assert after == before;
    }
  }

  lemma IdIsPosition(decode: Decoder, content: string, ms: seq<Match>, id: string) returns (i: nat)
    requires Carries(AcceptAll(decode, content, ms).calls, id)
    ensures id == FallbackId(i) && HoldsCall(decode, content, ms, i)
  {
    hide AcceptAll, HoldsCall, FallbackId;
    var calls := AcceptAll(decode, content, ms).calls;
    IdentifiersDiffer(decode, content, ms);
    var j :| 0 <= j < |calls| && calls[j].id == id;
    assert NumberedBelow(calls[j].id, |ms|);
    i :| i < |ms| && id == FallbackId(i);
    IdsArePositions(decode, content, ms, i);
  }

  /** Two responses of a run have calls of the same identifier. */
  ghost predicate ShareAnId(decode: Decoder, a: string, b: string) {
    exists id :: Carries(Parse(decode, a).calls, id) && Carries(Parse(decode, b).calls, id)
  }

  /** Two responses of a run hold calls in blocks of the same position. */
  ghost predicate ShareAPosition(decode: Decoder, a: string, b: string) {
    exists i: nat :: HoldsCall(decode, a, FindAll(a, 0), i) && HoldsCall(decode, b, FindAll(b, 0), i)
  }

  /** Numbering restarts with every response: two responses of a run share an identifier exactly when both hold a call
      in a block of the same position. */
  lemma IdsSharedExactlyWhen(decode: Decoder, a: string, b: string)
    ensures ShareAnId(decode, a, b) <==> ShareAPosition(decode, a, b)
  {
    hide FindAll, AcceptAll, HoldsCall, FallbackId, Trim, Carries;
    if ShareAnId(decode, a, b) {
      var id :| Carries(Parse(decode, a).calls, id) && Carries(Parse(decode, b).calls, id);
      var i := IdIsPosition(decode, a, FindAll(a, 0), id);
      IdsArePositions(decode, b, FindAll(b, 0), i);
    }
    if ShareAPosition(decode, a, b) {
      var i: nat :| HoldsCall(decode, a, FindAll(a, 0), i) && HoldsCall(decode, b, FindAll(b, 0), i);
      IdsArePositions(decode, a, FindAll(a, 0), i);
      IdsArePositions(decode, b, FindAll(b, 0), i);
      assert Carries(Parse(decode, a).calls, FallbackId(i));
    }
  }

  // ----- rebuilding a response -----

  function CallBlocks(calls: seq<ToolCall>): (r: seq<ContentBlock>)
    ensures |r| == |calls|
  {
    seq(|calls|, i requires 0 <= i < |calls| => ToolUse(calls[i].id, calls[i].name, calls[i].input))
  }

  method ProcessFallbackResponse(decode: Decoder, response: ChatResponse) returns (r: ChatResponse)
    ensures
      var p := Parse(decode, TextOf(response.content));
      && (p.calls == [] ==> r == response)
      && (p.calls != [] ==>
            r.stopReason == ToolUseStop && CallsOf(r.content) == p.calls && TextOf(r.content) == p.remaining)
  {
    hide TextOf, CallsOf, Parse;
    var textContent := GetText(response.content);
    var toolCalls, remainingText := ParseToolCallsFromText(decode, textContent);
    if |toolCalls| == 0 {
      return response;
    }
    var newContent := [];
    if remainingText != "" {
      newContent := [Text(remainingText)];
    }
    ghost var head := newContent;
    for i := 0 to |toolCalls|
      invariant newContent == head + CallBlocks(toolCalls[..i])
    {
      newContent := newContent + [ToolUse(toolCalls[i].id, toolCalls[i].name, toolCalls[i].input)];
    }
    assert toolCalls[..|toolCalls|] == toolCalls;
    RebuiltReads(remainingText, toolCalls, |toolCalls|);
    r := ChatResponse(newContent, ToolUseStop);
  }

  lemma {:induction false} RebuiltReads(remaining: string, calls: seq<ToolCall>, n: nat)
    requires n <= |calls|
    ensures
      var content := (if remaining != "" then [Text(remaining)] else []) + CallBlocks(calls[..n]);
      TextOf(content) == remaining && CallsOf(content) == calls[..n]
  {
    var head := if remaining != "" then [Text(remaining)] else [];
    if n == 0 {
      assert head + CallBlocks(calls[..0]) == head;
      assert [Text(remaining)][..0] == [];
      assert TextOf([Text(remaining)]) == "" + remaining == remaining;
    } else {
      RebuiltReads(remaining, calls, n - 1);
      var content := head + CallBlocks(calls[..n]);
      assert content[..|content| - 1] == head + CallBlocks(calls[..n - 1]);
      assert calls[..n] == calls[..n - 1] + [calls[n - 1]];
    }
  }
}
