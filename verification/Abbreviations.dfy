/** Hiding the full stops of abbreviations behind a marker, and bringing them back. */
module Abbreviations {
  import opened Common
  import opened SolidText
  import opened Strings

  const MARKER := "<DOT>"

  const ABBREVIATIONS := [
    "Mr.", "Mrs.", "Ms.", "Dr.", "Prof.", "Sr.", "Jr.",
    "Inc.", "Ltd.", "Corp.", "Co.",
    "e.g.", "i.e.", "etc.", "vs.",
    "No.", "Vol.", "Art.", "Sec."]

  /** Every occurrence replaced, left to right and not overlapping. */
  function ReplaceAll(s: string, pattern: string, substitute: string): string
    decreases |s|
  {
    if s == "" || pattern == "" then s
    else if pattern <= s then substitute + ReplaceAll(s[|pattern|..], pattern, substitute)
    else [s[0]] + ReplaceAll(s[1..], pattern, substitute)
  }

  function Hidden(abbreviation: string): string {
    ReplaceAll(abbreviation, ".", MARKER)
  }

  /** The first `n` abbreviations hidden, one after the other. */
  function ProtectWith(text: string, abbreviations: seq<string>, n: nat): string
    requires n <= |abbreviations|
  {
    if n == 0 then text
    else ReplaceAll(ProtectWith(text, abbreviations, n - 1), abbreviations[n - 1], Hidden(abbreviations[n - 1]))
  }

  function Protect(text: string): string {
    ProtectWith(text, ABBREVIATIONS, |ABBREVIATIONS|)
  }

  function Restore(text: string): string {
    ReplaceAll(text, MARKER, ".")
  }

  method ReplaceEach(text: string, abbreviations: seq<string>) returns (r: string)
    ensures r == ProtectWith(text, abbreviations, |abbreviations|)
  {
    r := text;
    for i := 0 to |abbreviations|
      invariant r == ProtectWith(text, abbreviations, i)
    {
      var hidden := ReplaceAll(abbreviations[i], ".", MARKER);
      r := ReplaceAll(r, abbreviations[i], hidden);
    }
  }

  method ProtectAbbreviations(text: string) returns (r: string)
    ensures r == Protect(text)
  {
    hide ProtectWith;
    r := ReplaceEach(text, ABBREVIATIONS);
  }

  // ----- one step of replacing -----

  lemma ReplaceHere(s: string, pattern: string, substitute: string)
    requires s != "" && pattern != "" && pattern <= s
    ensures ReplaceAll(s, pattern, substitute) == substitute + ReplaceAll(s[|pattern|..], pattern, substitute)
  {
  }

  lemma ReplaceLater(s: string, pattern: string, substitute: string)
    requires s != "" && pattern != "" && !(pattern <= s)
    ensures ReplaceAll(s, pattern, substitute) == [s[0]] + ReplaceAll(s[1..], pattern, substitute)
  {
  }

  lemma PrefixAt(p: string, s: string)
    ensures p <= s ==> forall k :: 0 <= k < |p| ==> s[k] == p[k]
  {
  }

  lemma {:induction false} NotReplaced(s: string, pattern: string, substitute: string)
    requires pattern != "" && forall k :: 0 <= k < |s| ==> s[k] != pattern[0]
    ensures ReplaceAll(s, pattern, substitute) == s
  {
    if s != "" {
      PrefixAt(pattern, s);
      NotReplaced(s[1..], pattern, substitute);
      ReplaceLater(s, pattern, substitute);
      assert [s[0]] + s[1..] == s;
    }
  }

  /** A text without the first letter of any abbreviation needs no protection. */
  lemma {:induction false} NothingToProtect(s: string, abbreviations: seq<string>, n: nat)
    requires n <= |abbreviations|
    requires forall i :: 0 <= i < n ==> abbreviations[i] != "" && abbreviations[i][0] !in s
    ensures ProtectWith(s, abbreviations, n) == s
  {
    if n > 0 {
      NothingToProtect(s, abbreviations, n - 1);
      NotReplaced(s, abbreviations[n - 1], Hidden(abbreviations[n - 1]));
    }
  }

  // ----- what protection does to a text -----

  /** `t` is `s` with some full stops written as markers. */
  predicate Hides(s: string, t: string)
    decreases |t|
  {
    if t == "" then s == ""
    else
      && s != ""
      && ((s[0] == t[0] && Hides(s[1..], t[1..])) || (s[0] == '.' && MARKER <= t && Hides(s[1..], t[|MARKER|..])))
  }

  lemma {:induction false} HidesConcat(a: string, b: string, c: string, d: string)
    requires Hides(a, b) && Hides(c, d)
    ensures Hides(a + c, b + d)
    decreases |b|
  {
    if b == "" {
      assert a + c == c && b + d == d;
    } else {
      var ac, bd := a + c, b + d;
      assert ac[1..] == a[1..] + c && ac[0] == a[0] && bd[0] == b[0];
      if a[0] == b[0] && Hides(a[1..], b[1..]) {
        assert bd[1..] == b[1..] + d;
        HidesConcat(a[1..], b[1..], c, d);
      } else {
        assert bd[|MARKER|..] == b[|MARKER|..] + d;
        HidesConcat(a[1..], b[|MARKER|..], c, d);
      }
    }
  }

  /** Characters of the protected text that are no marker's were there before. */
  lemma {:induction false} PlainPrefix(s: string, t: string, p: string)
    requires Hides(s, t) && p <= t && forall k :: 0 <= k < |p| ==> p[k] != '<'
    ensures p <= s && Hides(s[|p|..], t[|p|..])
    decreases |p|
  {
    if p != "" {
      PrefixAt(p, t);
      PrefixAt(MARKER, t);
      PlainPrefix(s[1..], t[1..], p[1..]);
      assert s[1..][|p| - 1..] == s[|p|..] && t[1..][|p| - 1..] == t[|p|..];
      assert p == [p[0]] + p[1..];
    }
  }

  /** Characters that are no full stop stay. */
  lemma {:induction false} DotlessPrefix(s: string, t: string, p: string)
    requires Hides(s, t) && p <= s && forall k :: 0 <= k < |p| ==> p[k] != '.'
    ensures p <= t
    decreases |p|
  {
    if p != "" {
      PrefixAt(p, s);
      DotlessPrefix(s[1..], t[1..], p[1..]);
      assert p == [p[0]] + p[1..];
    }
  }

  lemma {:induction false} HidingItself(s: string)
    ensures Hides(s, ReplaceAll(s, ".", MARKER))
    decreases |s|
  {
    if s != "" {
      HidingItself(s[1..]);
      if s[0] == '.' {
        assert "." <= s;
        ReplaceHere(s, ".", MARKER);
        HidesConcat(".", MARKER, s[1..], ReplaceAll(s[1..], ".", MARKER));
        assert "." + s[1..] == s;
        OneDotHidden();
      } else {
        assert !("." <= s);
        ReplaceLater(s, ".", MARKER);
      }
    }
  }

  lemma OneDotHidden()
    ensures Hides(".", MARKER)
  {
    assert MARKER[|MARKER|..] == "" == "."[1..];
    assert Hides("", "");
  }

  /** An abbreviation that can neither begin inside a marker nor contain one. */
  predicate Plain(abbreviation: string) {
    && abbreviation != ""
    && (forall k :: 0 <= k < |abbreviation| ==> abbreviation[k] != '<')
    && abbreviation[0] != 'O' && abbreviation[0] != 'T' && abbreviation[0] != '>'
    && (abbreviation[0] == 'D' ==> |abbreviation| > 1 && abbreviation[1] != 'O')
  }

  lemma NotInMarker(rest: string, p: string, k: nat)
    requires Plain(p) && k < |MARKER|
    ensures !(p <= MARKER[k..] + rest)
  {
    var t := MARKER[k..] + rest;
    PrefixAt(p, t);
    assert t[0] == MARKER[k] && (k == 1 ==> t[1] == 'O');
  }

  lemma MarkerFrom(rest: string, k: nat)
    requires k < |MARKER|
    ensures
      var t := MARKER[k..] + rest;
      t != "" && t[0] == MARKER[k] && t[1..] == MARKER[k + 1..] + rest && MARKER[k..] == [MARKER[k]] + MARKER[k + 1..]
  {
  }

  lemma {:induction false} SkipsMarker(rest: string, p: string, substitute: string, k: nat)
    requires Plain(p) && k <= |MARKER|
    ensures ReplaceAll(MARKER[k..] + rest, p, substitute) == MARKER[k..] + ReplaceAll(rest, p, substitute)
    decreases |MARKER| - k
  {
    hide Plain, ReplaceAll;
    if k == |MARKER| {
      assert MARKER[k..] + rest == rest;
    } else {
      NotInMarker(rest, p, k);
      NeverEmpty(p);
      MarkerFrom(rest, k);
      ReplaceLater(MARKER[k..] + rest, p, substitute);
      SkipsMarker(rest, p, substitute, k + 1);
      Regroup([MARKER[k]], MARKER[k + 1..], ReplaceAll(rest, p, substitute));
    }
  }

  lemma NeverEmpty(p: string)
    requires Plain(p)
    ensures p != ""
  {
  }

  lemma {:induction false} ReplacingStillHides(s: string, t: string, p: string)
    requires Hides(s, t) && Plain(p)
    ensures Hides(s, ReplaceAll(t, p, Hidden(p)))
    decreases |t|
  {
    if t != "" {
      if p <= t {
        PlainPrefix(s, t, p);
        hide Plain, Hides;
        ReplacingStillHides(s[|p|..], t[|p|..], p);
        HidingItself(p);
        ReplaceHere(t, p, Hidden(p));
        HidesConcat(p, Hidden(p), s[|p|..], ReplaceAll(t[|p|..], p, Hidden(p)));
        assert p + s[|p|..] == s;
      } else if s[0] == t[0] && Hides(s[1..], t[1..]) {
        hide Plain;
        ReplacingStillHides(s[1..], t[1..], p);
        ReplaceLater(t, p, Hidden(p));
        SameFirst(t[0], s, ReplaceAll(t[1..], p, Hidden(p)));
      } else {
        var rest := t[|MARKER|..];
        assert MARKER[0..] + rest == t;
        SkipsMarker(rest, p, Hidden(p), 0);
        hide Plain;
        ReplacingStillHides(s[1..], rest, p);
        OneDotHidden();
        HidesConcat(".", MARKER, s[1..], ReplaceAll(rest, p, Hidden(p)));
        assert "." + s[1..] == s;
      }
    }
  }

  lemma SameFirst(c: char, s: string, t: string)
    requires s != "" && s[0] == c && Hides(s[1..], t)
    ensures Hides(s, [c] + t)
  {
    assert ([c] + t)[1..] == t;
  }

  lemma AbbreviationsArePlain()
    ensures forall i :: 0 <= i < |ABBREVIATIONS| ==> Plain(ABBREVIATIONS[i])
  {
  }

  lemma {:induction false} HidesItself(s: string)
    ensures Hides(s, s)
  {
    if s != "" {
      HidesItself(s[1..]);
    }
  }

  lemma {:induction false} ProtectHides(s: string, abbreviations: seq<string>, n: nat)
    requires n <= |abbreviations| && forall i :: 0 <= i < n ==> Plain(abbreviations[i])
    ensures Hides(s, ProtectWith(s, abbreviations, n))
  {
    hide Hides, Plain;
    if n == 0 {
      HidesItself(s);
    } else {
      ProtectHides(s, abbreviations, n - 1);
      ReplacingStillHides(s, ProtectWith(s, abbreviations, n - 1), abbreviations[n - 1]);
    }
  }

  // ----- no abbreviation is left -----

  /** `p` stands somewhere in `s`. */
  predicate Mentions(s: string, p: string) {
    p <= s || (s != "" && Mentions(s[1..], p))
  }

  lemma {:induction false} OccurrenceIsMentioned(s: string, i: nat, p: string)
    requires OccursAt(s, i, p)
    ensures Mentions(s, p)
  {
    hide OccursAt;
    OccurrenceMoves(s, i, p);
    if i > 0 {
      OccurrenceIsMentioned(s[1..], i - 1, p);
    }
  }

  lemma OccurrenceMoves(s: string, i: nat, p: string)
    requires OccursAt(s, i, p)
    ensures i == 0 ==> p <= s
    ensures i > 0 ==> s != "" && OccursAt(s[1..], i - 1, p)
  {
    var found := s[i..i + |p|];
    assert forall k :: 0 <= k < |p| ==> found[k] == s[i + k];
    if i > 0 {
      assert s[1..][i - 1..i - 1 + |p|] == found;
    }
  }

  /** An abbreviation as listed: it ends in a full stop and has nothing of a marker's brackets. */
  predicate Stopped(p: string) {
    p != "" && p[|p| - 1] == '.' && '<' !in p && '>' !in p
  }

  lemma AbbreviationsAreStopped()
    ensures forall i :: 0 <= i < |ABBREVIATIONS| ==> Stopped(ABBREVIATIONS[i])
  {
  }

  /** Text without a full stop that ends in a marker's bracket, or no text. */
  predicate Closed(h: string) {
    '.' !in h && (h != "" ==> h[|h| - 1] == '>')
  }

  lemma NotInClosed(h: string, rest: string, p: string)
    requires h != "" && Closed(h) && Stopped(p)
    ensures !(p <= h + rest)
  {
    var k := if |p| < |h| then |p| - 1 else |h| - 1;
    assert h[k] in h && p[k] in p;
    DiffersAt(p, h + rest, k);
  }

  lemma DiffersAt(p: string, s: string, k: nat)
    requires k < |p| && k < |s| && p[k] != s[k]
    ensures !(p <= s)
  {
  }

  /** A stopped word that stands in the text stands after the closed part. */
  lemma {:induction false} ClosedIsSkipped(h: string, rest: string, p: string)
    requires Closed(h) && Stopped(p)
    ensures Mentions(h + rest, p) ==> Mentions(rest, p)
  {
    if h == "" {
      assert h + rest == rest;
    } else {
      NotInClosed(h, rest, p);
      ClosedIsSkipped(h[1..], rest, p);
      assert (h + rest)[1..] == h[1..] + rest;
    }
  }

  lemma {:induction false} HiddenIsClosed(p: string)
    requires p != "" ==> p[|p| - 1] == '.'
    ensures Closed(Hidden(p)) && (p != "" ==> Hidden(p) != "")
  {
    if p != "" {
      HiddenIsClosed(p[1..]);
      var rest := Hidden(p[1..]);
      if p[0] == '.' {
        ReplaceHere(p, ".", MARKER);
        assert Hidden(p) == MARKER + rest;
      } else {
        ReplaceLater(p, ".", MARKER);
        assert Hidden(p) == [p[0]] + rest;
      }
    }
  }

  /** Hiding full stops brings no stopped word into a text. */
  lemma {:induction false} HidingMentionsNothingNew(s: string, t: string, p: string)
    requires Hides(s, t) && Stopped(p)
    ensures Mentions(t, p) ==> Mentions(s, p)
    decreases |t|
  {
    if p <= t {
      PlainPrefix(s, t, p);
    } else if t != "" {
      if s[0] == t[0] && Hides(s[1..], t[1..]) {
        HidingMentionsNothingNew(s[1..], t[1..], p);
      } else {
        HidingMentionsNothingNew(s[1..], t[|MARKER|..], p);
        ClosedIsSkipped(MARKER, t[|MARKER|..], p);
        assert MARKER + t[|MARKER|..] == t;
      }
    }
  }

  lemma ReplacedHides(s: string, p: string)
    requires Plain(p)
    ensures Hides(s, ReplaceAll(s, p, Hidden(p)))
  {
    HidesItself(s);
    ReplacingStillHides(s, s, p);
  }

  lemma ReplacedStart(s: string, p: string)
    requires Plain(p)
    ensures p <= ReplaceAll(s, p, Hidden(p)) ==> p <= s
  {
    hide ReplaceAll;
    ReplacedHides(s, p);
    if p <= ReplaceAll(s, p, Hidden(p)) {
      PlainPrefix(s, ReplaceAll(s, p, Hidden(p)), p);
    }
  }

  lemma {:induction false} ReplacedIsGone(s: string, p: string)
    requires Plain(p) && Stopped(p)
    ensures !Mentions(ReplaceAll(s, p, Hidden(p)), p)
    decreases |s|
  {
    if s != "" {
      if p <= s {
        ReplacedIsGone(s[|p|..], p);
        HiddenIsClosed(p);
        ClosedIsSkipped(Hidden(p), ReplaceAll(s[|p|..], p, Hidden(p)), p);
      } else {
        ReplacedIsGone(s[1..], p);
        ReplacedStart(s, p);
        var rest := ReplaceAll(s[1..], p, Hidden(p));
        assert ([s[0]] + rest)[1..] == rest;
      }
    }
  }

  lemma {:induction false} NoneLeft(s: string, abbreviations: seq<string>, n: nat, i: nat)
    requires i < n <= |abbreviations|
    requires forall k :: 0 <= k < n ==> Plain(abbreviations[k]) && Stopped(abbreviations[k])
    ensures !Mentions(ProtectWith(s, abbreviations, n), abbreviations[i])
  {
    hide Plain, Stopped, Mentions, Hides, ReplaceAll, Hidden;
    var before, p := ProtectWith(s, abbreviations, n - 1), abbreviations[n - 1];
    if i == n - 1 {
      ReplacedIsGone(before, p);
    } else {
      NoneLeft(s, abbreviations, n - 1, i);
      ReplacedHides(before, p);
      HidingMentionsNothingNew(before, ReplaceAll(before, p, Hidden(p)), abbreviations[i]);
    }
  }

  /** Once a text is protected, none of the abbreviations stands anywhere in it, so none of their full stops can be
      taken for the end of a sentence. */
  lemma NoAbbreviationLeft(text: string, i: nat, at: nat)
    requires i < |ABBREVIATIONS|
    ensures !OccursAt(Protect(text), at, ABBREVIATIONS[i])
  {
    hide ProtectWith, Mentions, Plain, Stopped, OccursAt;
    AbbreviationsArePlain();
    AbbreviationsAreStopped();
    NoneLeft(text, ABBREVIATIONS, |ABBREVIATIONS|, i);
    if OccursAt(Protect(text), at, ABBREVIATIONS[i]) {
      OccurrenceIsMentioned(Protect(text), at, ABBREVIATIONS[i]);
    }
  }

  // ----- what restoring does -----

  lemma DotStays(s: string)
    requires s != "" && s[0] != '<'
    ensures Restore(s) == [s[0]] + Restore(s[1..])
  {
    PrefixAt(MARKER, s);
  }

  lemma MarkerKept(s: string, t: string)
    requires Hides(s, t) && s != "" && t != "" && s[0] == t[0] && Hides(s[1..], t[1..])
    ensures MARKER <= s <==> MARKER <= t
    ensures MARKER <= t ==> Hides(s[|MARKER|..], t[|MARKER|..])
  {
    var tail := MARKER[1..];
    assert MARKER == [MARKER[0]] + tail;
    if MARKER <= t {
      assert tail <= t[1..];
      PlainPrefix(s[1..], t[1..], tail);
      assert t[1..][4..] == t[5..] && s[1..][4..] == s[5..];
    } else if MARKER <= s {
      assert tail <= s[1..];
      DotlessPrefix(s[1..], t[1..], tail);
    }
  }

  /** Restoring a protected text and restoring the text itself come to the same. */
  lemma {:induction false} RestoreForgetsHiding(s: string, t: string)
    requires Hides(s, t)
    ensures Restore(t) == Restore(s)
    decreases |t|
  {
    if t != "" {
      if s[0] == t[0] && Hides(s[1..], t[1..]) {
        MarkerKept(s, t);
        if MARKER <= t {
          hide Hides;
          RestoreForgetsHiding(s[|MARKER|..], t[|MARKER|..]);
        } else {
          hide Hides;
          RestoreForgetsHiding(s[1..], t[1..]);
        }
      } else {
        RestoreForgetsHiding(s[1..], t[|MARKER|..]);
        hide Hides;
        DotStays(s);
      }
    }
  }

  lemma RestoreProtected(s: string)
    ensures Restore(Protect(s)) == Restore(s)
  {
    hide Hides, Plain, Restore, ProtectWith;
    AbbreviationsArePlain();
    ProtectHides(s, ABBREVIATIONS, |ABBREVIATIONS|);
    RestoreForgetsHiding(s, Protect(s));
  }

  predicate HasMarker(s: string) {
    s != "" && (MARKER <= s || HasMarker(s[1..]))
  }

  lemma SolidMarker()
    ensures NonSpace(MARKER) == MARKER && NonSpace(".") == "."
  {
    NonSpaceOfSolid(MARKER);
    NonSpaceOfOne('.');
  }

  /** A text survives protection and restoration exactly when it does not mention the marker itself. */
  lemma {:induction false} RestoreKeepsText(s: string)
    ensures KeepsExactlyWhen(NonSpace(Restore(s)), NonSpace(s), !HasMarker(s))
    decreases |s|
  {
    if s != "" {
      hide NonSpace;
      if MARKER <= s {
        RestoreKeepsText(s[|MARKER|..]);
        SolidMarker();
        NonSpaceConcat(MARKER, s[|MARKER|..]);
        NonSpaceConcat(".", Restore(s[|MARKER|..]));
        assert MARKER + s[|MARKER|..] == s;
      } else {
        RestoreKeepsText(s[1..]);
        NonSpaceConcat([s[0]], s[1..]);
        NonSpaceConcat([s[0]], Restore(s[1..]));
        assert [s[0]] + s[1..] == s;
      }
    }
  }

  // ----- restoring piece by piece -----

  /** No marker can straddle the seam of `a` and `b`. */
  predicate Apart(a: string, b: string) {
    || a == "" || b == ""
    || a[|a| - 1] !in MARKER[..4]
    || b[0] !in MARKER[1..]
  }

  /** No marker can begin in `a` and end in what follows, whatever that is. */
  ghost predicate StandsClear(a: string) {
    forall b :: Apart(a, b)
  }

  lemma NoStraddle(a: string, b: string)
    requires Apart(a, b) && a != ""
    ensures MARKER <= a + b <==> MARKER <= a
  {
    var ab := a + b;
    PrefixAt(MARKER, ab);
    if |a| < 5 {
      assert ab[|a| - 1] == a[|a| - 1];
      assert MARKER[..4][|a| - 1] == MARKER[|a| - 1] && MARKER[1..][|a| - 1] == MARKER[|a|];
      assert b != "" ==> ab[|a|] == b[0];
    } else {
      assert a[..5] == ab[..5];
    }
  }

  lemma ApartTail(a: string, b: string, k: nat)
    requires Apart(a, b) && k <= |a|
    ensures Apart(a[k..], b)
  {
  }

  lemma RestoreStep(s: string, k: nat)
    requires s != "" && k == if MARKER <= s then |MARKER| else 1
    ensures Restore(s) == [if k == 1 then s[0] else '.'] + Restore(s[k..])
  {
  }

  lemma {:induction false} RestoreConcat(a: string, b: string)
    requires Apart(a, b)
    ensures Restore(a + b) == Restore(a) + Restore(b)
    decreases |a|
  {
    if a == "" {
      assert a + b == b;
    } else {
      hide Apart, Restore;
      var ab, k := a + b, if MARKER <= a then |MARKER| else 1;
      NoStraddle(a, b);
      ApartTail(a, b, k);
      RestoreConcat(a[k..], b);
      assert ab[k..] == a[k..] + b && ab[0] == a[0];
      RestoreStep(a, k);
      RestoreStep(ab, k);
    }
  }

  lemma {:induction false} NothingToRestore(s: string)
    requires forall k :: 0 <= k < |s| ==> s[k] != '<'
    ensures Restore(s) == s
  {
    if s != "" {
      NothingToRestore(s[1..]);
      DotStays(s);
      assert [s[0]] + s[1..] == s;
    }
  }

  lemma RestoreEmpty(s: string)
    ensures Restore(s) == "" <==> s == ""
  {
  }

  lemma {:induction false} RestoreTrimLeft(s: string)
    ensures TrimLeft(Restore(s)) == Restore(TrimLeft(s))
  {
    if s != "" {
      if IsSpace(s[0]) {
        RestoreTrimLeft(s[1..]);
        DotStays(s);
        assert ([s[0]] + Restore(s[1..]))[1..] == Restore(s[1..]);
      } else {
        assert !IsSpace('.');
      }
    }
  }

  lemma {:induction false} RestoreLast(s: string)
    requires s != "" && !IsSpace(s[|s| - 1])
    ensures Restore(s) != "" && !IsSpace(Restore(s)[|Restore(s)| - 1])
    decreases |s|
  {
    var k := if MARKER <= s then |MARKER| else 1;
    assert !IsSpace('.');
    RestoreStep(s, k);
    RestoreEmpty(s[k..]);
    hide IsSpace, Restore;
    if k < |s| {
      RestoreLast(s[k..]);
    }
  }

  lemma {:induction false} RestoreTrimRight(s: string)
    ensures TrimRight(Restore(s)) == Restore(TrimRight(s))
  {
    if s != "" {
      var front, c := s[..|s| - 1], s[|s| - 1];
      if IsSpace(c) {
        assert c !in MARKER[1..];
        hide IsSpace;
        RestoreTrimRight(front);
        RestoreConcat(front, [c]);
        NothingToRestore([c]);
        assert front + [c] == s;
        assert (Restore(front) + [c])[..|Restore(front)|] == Restore(front);
      } else {
        hide IsSpace;
        RestoreLast(s);
      }
    }
  }

  lemma RestoreTrim(s: string)
    ensures Trim(Restore(s)) == Restore(Trim(s))
  {
    hide TrimLeft, TrimRight, Restore;
    RestoreTrimLeft(s);
    RestoreTrimRight(TrimLeft(s));
  }
}
