/** The string operations the components share, written out over characters. */
module Strings {
  import opened Common

  /** The whitespace class of the pattern language. */
  predicate IsPatternSpace(c: char) {
    c == ' ' || c == '\t' || c == '\n' || c == '\r' || c == '\U{0C}'
  }

  /** Unicode white space, as trimmed from both ends of a text. */
  predicate IsSpace(c: char) {
    || IsPatternSpace(c) || c == '\U{0B}' || c == '\U{85}' || c == '\U{A0}' || c == '\U{1680}'
    || '\U{2000}' <= c <= '\U{200A}' || c == '\U{2028}' || c == '\U{2029}' || c == '\U{202F}'
    || c == '\U{205F}' || c == '\U{3000}'
  }

  function TrimLeft(s: string): string {
    if s != "" && IsSpace(s[0]) then TrimLeft(s[1..]) else s
  }

  function TrimRight(s: string): string {
    if s != "" && IsSpace(s[|s| - 1]) then TrimRight(s[..|s| - 1]) else s
  }

  function Trim(s: string): string {
    TrimRight(TrimLeft(s))
  }

  predicate OccursAt(s: string, i: nat, pattern: string) {
    i + |pattern| <= |s| && s[i..i + |pattern|] == pattern
  }

  /** The first occurrence of `pattern` at or after `i`. */
  function IndexFrom(s: string, i: nat, pattern: string): Option<nat>
    decreases |s| - i
  {
    if i > |s| then None
    else if OccursAt(s, i, pattern) then Some(i)
    else if i == |s| then None
    else IndexFrom(s, i + 1, pattern)
  }

  function RemoveFirst(s: string, pattern: string): string {
    match IndexFrom(s, 0, pattern)
    case None => s
    case Some(i) => if i + |pattern| <= |s| then s[..i] + s[i + |pattern|..] else s
  }

  lemma {:induction false} IndexIsLater(s: string, i: nat, pattern: string)
    ensures IndexFrom(s, i, pattern).Some? ==>
              i <= IndexFrom(s, i, pattern).value && OccursAt(s, IndexFrom(s, i, pattern).value, pattern)
    decreases |s| - i
  {
    if i < |s| {
      IndexIsLater(s, i + 1, pattern);
    }
  }

  function Slice(s: string, from: nat, to: nat): string {
    if from <= to <= |s| then s[from..to] else ""
  }

  lemma FirstCharacter(s: string, i: nat, pattern: string)
    ensures OccursAt(s, i, pattern) && pattern != "" ==> s[i] == pattern[0]
  {
    if OccursAt(s, i, pattern) && pattern != "" {
      assert s[i..i + |pattern|][0] == pattern[0];
    }
  }

  lemma {:induction false} IndexSkips(s: string, i: nat, n: nat, pattern: string)
    requires i + n <= |s| && pattern != ""
    requires forall j :: i <= j < i + n ==> s[j] != pattern[0]
    ensures IndexFrom(s, i, pattern) == IndexFrom(s, i + n, pattern)
    decreases n
  {
    if n > 0 {
      FirstCharacter(s, i, pattern);
      IndexSkips(s, i + 1, n - 1, pattern);
    }
  }

  lemma TrimsToItself(s: string)
    requires s != "" && !IsSpace(s[0]) && !IsSpace(s[|s| - 1])
    ensures Trim(s) == s
  {
  }

  function Join(pieces: seq<string>, separator: string): string {
    if pieces == [] then ""
    else if |pieces| == 1 then pieces[0]
    else Join(pieces[..|pieces| - 1], separator) + separator + pieces[|pieces| - 1]
  }
}
