/** What cutting a text must not lose: the characters that are not spaces. */
module SolidText {
  import opened Strings

  function NonSpace(s: string): string {
    if s == "" then ""
    else NonSpace(s[..|s| - 1]) + if IsSpace(s[|s| - 1]) then "" else [s[|s| - 1]]
  }

  lemma {:induction false} NonSpaceConcat(a: string, b: string)
    ensures NonSpace(a + b) == NonSpace(a) + NonSpace(b)
  {
    hide IsSpace;
    if b == "" {
      assert a + b == a;
    } else {
      var front := b[..|b| - 1];
      NonSpaceConcat(a, front);
      assert (a + b)[..|a + b| - 1] == a + front;
    }
  }

  lemma NonSpaceOfOne(c: char)
    ensures NonSpace([c]) == if IsSpace(c) then "" else [c]
  {
    assert [c][..0] == "";
  }

  lemma {:induction false} TrimLeftKeeps(s: string)
    ensures NonSpace(TrimLeft(s)) == NonSpace(s)
  {
    hide IsSpace;
    if s != "" && IsSpace(s[0]) {
      hide NonSpace;
      TrimLeftKeeps(s[1..]);
      NonSpaceConcat([s[0]], s[1..]);
      NonSpaceOfOne(s[0]);
      assert [s[0]] + s[1..] == s;
      assert TrimLeft(s) == TrimLeft(s[1..]);
    }
  }

  lemma {:induction false} TrimRightKeeps(s: string)
    ensures NonSpace(TrimRight(s)) == NonSpace(s)
  {
    hide IsSpace;
    if s != "" && IsSpace(s[|s| - 1]) {
      TrimRightKeeps(s[..|s| - 1]);
    }
  }

  lemma TrimKeeps(s: string)
    ensures NonSpace(Trim(s)) == NonSpace(s)
  {
    TrimLeftKeeps(s);
    TrimRightKeeps(TrimLeft(s));
  }

  lemma {:induction false} TrimRightEnds(s: string)
    ensures TrimRight(s) != "" ==> NonSpace(TrimRight(s)) != ""
  {
    hide IsSpace;
    if s != "" && IsSpace(s[|s| - 1]) {
      TrimRightEnds(s[..|s| - 1]);
    }
  }

  /** A text trims to nothing exactly when it has nothing but spaces. */
  lemma BlankMeansNoText(s: string)
    ensures Trim(s) == "" <==> NonSpace(s) == ""
  {
    TrimKeeps(s);
    TrimRightEnds(TrimLeft(s));
  }

  lemma {:induction false} NonSpaceOfSolid(s: string)
    requires forall i :: 0 <= i < |s| ==> !IsSpace(s[i])
    ensures NonSpace(s) == s
  {
    if s != "" {
      NonSpaceOfSolid(s[..|s| - 1]);
    }
  }

  lemma NothingIsNothing()
    ensures NonSpace("") == ""
  {
  }

  /** `after` is `before` when `whole` holds, and has lost characters when it does not. */
  predicate KeepsExactlyWhen(after: string, before: string, whole: bool) {
    if whole then after == before else |after| < |before|
  }

  lemma KeepsTogether(a: string, b: string, p: bool, a': string, b': string, q: bool)
    requires KeepsExactlyWhen(a, b, p) && KeepsExactlyWhen(a', b', q)
    ensures KeepsExactlyWhen(a + a', b + b', p && q)
  {
  }

  lemma KeepsThrough(a: string, b: string, d: string, p: bool, q: bool)
    requires KeepsExactlyWhen(a, b, p) && KeepsExactlyWhen(b, d, q)
    ensures KeepsExactlyWhen(a, d, p && q)
  {
  }
}
