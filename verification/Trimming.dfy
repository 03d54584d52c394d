/** What trimming a text leaves. */
module Trimming {
  import opened Common
  import opened Strings

  predicate Blank(s: string) {
    forall i :: 0 <= i < |s| ==> IsSpace(s[i])
  }

  /** Neither end of `s` is white space. */
  predicate Tight(s: string) {
    s != "" ==> !IsSpace(s[0]) && !IsSpace(s[|s| - 1])
  }

  lemma {:induction false} TrimLeftSkips(a: string, s: string)
    requires Blank(a)
    ensures TrimLeft(a + s) == TrimLeft(s)
  {
    hide IsSpace;
    if a == "" {
      assert a + s == s;
    } else {
      TrimLeftSkips(a[1..], s);
      assert (a + s)[1..] == a[1..] + s;
    }
  }

  lemma {:induction false} TrimRightSkips(s: string, b: string)
    requires Blank(b)
    ensures TrimRight(s + b) == TrimRight(s)
  {
    hide IsSpace;
    if b == "" {
      assert s + b == s;
    } else {
      TrimRightSkips(s, b[..|b| - 1]);
      assert (s + b)[..|s + b| - 1] == s + b[..|b| - 1];
    }
  }

  lemma TrimRightOfBlank(b: string)
    requires Blank(b)
    ensures TrimRight(b) == ""
  {
    TrimRightSkips("", b);
    assert "" + b == b;
  }

  /** A text that is `m` between white space trims to `m`. */
  lemma TrimOf(a: string, m: string, b: string)
    requires Blank(a) && Tight(m) && Blank(b)
    ensures Trim(a + (m + b)) == m
  {
    hide IsSpace, TrimRight, Blank;
    TrimLeftSkips(a, m + b);
    if m == "" {
      assert m + b == b;
      TrimLeftSkips(b, "");
      assert b + "" == b;
      TrimRightOfNothing();
    } else {
      StartsTight(m, b);
      TrimRightSkips(m, b);
      EndsTight(m);
    }
  }

  lemma TrimRightOfNothing()
    ensures TrimRight("") == "" == TrimLeft("")
  {
  }

  lemma StartsTight(m: string, b: string)
    requires m != "" && !IsSpace(m[0])
    ensures TrimLeft(m + b) == m + b
  {
    hide IsSpace;
    assert (m + b)[0] == m[0];
  }

  lemma EndsTight(m: string)
    requires m != "" && !IsSpace(m[|m| - 1])
    ensures TrimRight(m) == m
  {
    hide IsSpace;
  }

  lemma {:induction false} SplitLeft(s: string) returns (a: string, m: string)
    ensures s == a + m && Blank(a) && (m != "" ==> !IsSpace(m[0]))
  {
    hide IsSpace;
    if s != "" && IsSpace(s[0]) {
      var a', m' := SplitLeft(s[1..]);
      a, m := [s[0]] + a', m';
      assert s == [s[0]] + s[1..];
      Regroup([s[0]], a', m');
    } else {
      a, m := "", s;
    }
  }

  lemma {:induction false} SplitRight(s: string) returns (m: string, b: string)
    ensures s == m + b && Blank(b) && (m != "" ==> !IsSpace(m[|m| - 1]))
  {
    hide IsSpace;
    if s != "" && IsSpace(s[|s| - 1]) {
      var m', b' := SplitRight(s[..|s| - 1]);
      m, b := m', b' + [s[|s| - 1]];
      assert s == s[..|s| - 1] + [s[|s| - 1]];
      Regroup(m', b', [s[|s| - 1]]);
    } else {
      m, b := s, "";
    }
  }

  /** Every text is what it trims to, between white space. */
  lemma TrimDrops(s: string) returns (a: string, b: string)
    ensures s == a + (Trim(s) + b) && Blank(a) && Blank(b) && Tight(Trim(s))
  {
    hide IsSpace, Trim;
    var rest, m;
    a, rest := SplitLeft(s);
    m, b := SplitRight(rest);
    if m == "" {
      assert rest == b;
      TrimOf(a, "", b);
      assert "" + b == b;
    } else {
      assert m[0] == rest[0];
      TrimOf(a, m, b);
    }
  }

  lemma SuffixOfSum(q: string, m: string)
    ensures IsSuffix(m, q + m)
  {
  }

  /** Trimming a suffix leaves a suffix of the trimmed whole. */
  lemma TrimmedSuffix(x: string, t: string)
    ensures IsSuffix(Trim(t), Trim(x + t))
  {
    hide IsSpace, Trim, IsSuffix;
    var a, b := TrimDrops(t);
    var m := Trim(t);
    if m == "" {
      NothingIsSuffix(Trim(x + t));
    } else {
      var p, q := SplitLeft(x + a);
      assert x + t == p + ((q + m) + b) by {
        Regroup(x, a, m + b);
        Regroup(p, q, m + b);
        Regroup(q, m, b);
      }
      TightSum(q, m);
      TrimOf(p, q + m, b);
      SuffixOfSum(q, m);
    }
  }

  lemma NothingIsSuffix(s: string)
    ensures IsSuffix("", s)
  {
  }

  lemma TightSum(q: string, m: string)
    requires (q != "" ==> !IsSpace(q[0])) && m != "" && Tight(m)
    ensures Tight(q + m)
  {
    hide IsSpace;
    assert (q + m)[|q + m| - 1] == m[|m| - 1];
    assert q != "" ==> (q + m)[0] == q[0];
    assert q == "" ==> q + m == m;
  }

  lemma SuffixOfSuffix(a: string, b: string, c: string)
    requires IsSuffix(a, b) && IsSuffix(b, c)
    ensures IsSuffix(a, c)
  {
    assert c[|c| - |b|..][|b| - |a|..] == c[|c| - |a|..];
  }

  /** Dropping characters in front and trimming again leaves a suffix. */
  lemma TrimmedTail(s: string, i: nat)
    requires Tight(s) && i <= |s|
    ensures IsSuffix(Trim(s[i..]), s)
    ensures i < |s| ==> Trim(s[i..]) != ""
  {
    hide IsSpace, Trim, IsSuffix;
    TrimmedSuffix(s[..i], s[i..]);
    assert s[..i] + s[i..] == s;
    TightTrims(s);
    if i < |s| {
      var a, b := TrimDrops(s[i..]);
      LastIsKept(s[i..], a, Trim(s[i..]), b);
    }
  }

  lemma TightTrims(s: string)
    requires Tight(s)
    ensures Trim(s) == s
  {
    TrimOf("", s, "");
    assert "" + (s + "") == s;
  }

  lemma LastIsKept(s: string, a: string, m: string, b: string)
    requires s != "" && !IsSpace(s[|s| - 1]) && s == a + (m + b) && Blank(a) && Blank(b)
    ensures m != ""
  {
    hide IsSpace;
    BlankBetween(a, m, b);
  }

  lemma BlankBetween(a: string, m: string, b: string)
    requires Blank(a) && Blank(b)
    ensures m == "" ==> Blank(a + (m + b))
  {
    hide IsSpace;
    assert forall i :: 0 <= i < |a + b| ==> (a + b)[i] == if i < |a| then a[i] else b[i - |a|];
    assert m == "" ==> a + (m + b) == a + b;
  }
}
