/** Interpolated percentiles over an unordered list of values. */
module Percentiles {
  import opened RealArithmetic

  predicate Ascending(s: seq<real>) {
    forall i, j :: 0 <= i < j < |s| ==> s[i] <= s[j]
  }

  type Sorter = seq<real> -> seq<real>

  /** What is used of the library sort; SortIsUnique shows that this fixes its answer. */
  ghost predicate Sorts(sort: Sorter) {
    forall values :: Ascending(sort(values)) && multiset(sort(values)) == multiset(values)
  }

  lemma SortKeepsLength(sort: Sorter, values: seq<real>)
    requires Sorts(sort)
    ensures |sort(values)| == |values|
  {
    assert |multiset(sort(values))| == |multiset(values)|;
  }

  lemma HeadTail(s: seq<real>)
    requires s != []
    ensures multiset(s) == multiset{s[0]} + multiset(s[1..])
  {
    assert s == [s[0]] + s[1..];
  }

  lemma LeastFirst(s: seq<real>, t: seq<real>)
    requires Ascending(s) && s != [] && t != [] && multiset(s) == multiset(t)
    ensures s[0] <= t[0]
  {
    assert t[0] in multiset(t);
    assert t[0] in multiset(s);
    assert t[0] in s;
  }

  lemma SameLength(s: seq<real>, t: seq<real>)
    requires multiset(s) == multiset(t)
    ensures |s| == |t|
  {
    assert |multiset(s)| == |s| && |multiset(t)| == |t|;
  }

  lemma SameRest(a: multiset<real>, b: multiset<real>, x: real)
    requires multiset{x} + a == multiset{x} + b
    ensures a == b
  {
    assert multiset{x} + a - multiset{x} == a;
    assert multiset{x} + b - multiset{x} == b;
  }

  /** Two ascending rearrangements of the same values are the same list. */
  lemma {:induction false} SortIsUnique(s: seq<real>, t: seq<real>)
    requires Ascending(s) && Ascending(t) && multiset(s) == multiset(t)
    ensures s == t
  {
    SameLength(s, t);
    if s != [] {
      LeastFirst(s, t);
      LeastFirst(t, s);
      HeadTail(s);
      HeadTail(t);
      SameRest(multiset(s[1..]), multiset(t[1..]), s[0]);
      SortIsUnique(s[1..], t[1..]);
      assert s == [s[0]] + s[1..] && t == [t[0]] + t[1..];
    }
  }

  /** The value at a fractional position of a sorted list. */
  function Interpolate(s: seq<real>, x: real): real
    requires s != [] && 0.0 <= x <= (|s| - 1) as real
  {
    var lower := x.Floor;
    if lower as real == x then s[lower]
    else
      var weight := x - lower as real;
      s[lower] * (1.0 - weight) + s[lower + 1] * weight
  }

  function Position(p: real, n: nat): real
    requires n > 0
  {
    (p / 100.0) * (n - 1) as real
  }

  lemma PositionInRange(p: real, n: nat)
    requires n > 0 && 0.0 <= p <= 100.0
    ensures 0.0 <= Position(p, n) <= (n - 1) as real
  {
    var q, m := p / 100.0, (n - 1) as real;
    assert 0.0 <= q <= 1.0;
    ProductMonotone(0.0, q, m);
    ProductMonotone(q, 1.0, m);
  }

  ghost function PercentileOf(sort: Sorter, values: seq<real>, p: real): real
    requires Sorts(sort) && 0.0 <= p <= 100.0
  {
    if values == [] then 0.0
    else
      PositionInRange(p, |values|);
      SortKeepsLength(sort, values);
      Interpolate(sort(values), Position(p, |values|))
  }

  method Percentile(sort: Sorter, values: seq<real>, p: real) returns (r: real)
    requires Sorts(sort) && 0.0 <= p <= 100.0
    ensures r == PercentileOf(sort, values, p)
  {
    if |values| == 0 {
      return 0.0;
    }
    var sorted := sort(values);
    SortKeepsLength(sort, values);
    PositionInRange(p, |values|);
    var index := Position(p, |sorted|);
    hide Position;
    var lower := index.Floor;
    var upper := if lower as real == index then lower else lower + 1;
    if lower == upper {
      return sorted[lower];
    }
    var weight := index - lower as real;
    r := sorted[lower] * (1.0 - weight) + sorted[upper] * weight;
  }

  // ----- properties -----

  function Blend(a: real, b: real, w: real): real {
    a * (1.0 - w) + b * w
  }

  lemma BlendMonotone(a: real, b: real, v: real, w: real)
    requires a <= b && v <= w
    ensures Blend(a, b, v) <= Blend(a, b, w)
  {
    ProductMonotone(v, w, b - a);
    assert Blend(a, b, v) == a + v * (b - a);
    assert Blend(a, b, w) == a + w * (b - a);
  }

  lemma InterpolateIsBlend(s: seq<real>, x: real)
    requires s != [] && 0.0 <= x <= (|s| - 1) as real
    ensures x.Floor as real == x ==> Interpolate(s, x) == s[x.Floor]
    ensures x.Floor as real != x ==>
              x.Floor + 1 < |s| && Interpolate(s, x) == Blend(s[x.Floor], s[x.Floor + 1], x - x.Floor as real)
  {
  }

  lemma BlendEnds(a: real, b: real)
    ensures Blend(a, b, 0.0) == a && Blend(a, b, 1.0) == b
  {
  }

  lemma FloorBounds(x: real, y: real)
    requires x <= y
    ensures x.Floor as real <= x < x.Floor as real + 1.0 && x.Floor <= y.Floor
  {
  }

  lemma AscendingAt(s: seq<real>, i: nat, j: nat)
    requires Ascending(s) && i <= j < |s|
    ensures s[i] <= s[j]
  {
  }

  /** An interpolated value lies between its neighbours. */
  lemma InterpolateBetween(s: seq<real>, x: real)
    requires Ascending(s) && s != [] && 0.0 <= x <= (|s| - 1) as real
    ensures s[x.Floor] <= Interpolate(s, x)
    ensures x.Floor + 1 < |s| ==> Interpolate(s, x) <= s[x.Floor + 1]
    ensures s[0] <= Interpolate(s, x) <= s[|s| - 1]
  {
    var lower := x.Floor;
    InterpolateIsBlend(s, x);
    FloorBounds(x, x);
    hide Interpolate, Blend, Ascending;
    AscendingAt(s, 0, lower);
    AscendingAt(s, lower, |s| - 1);
    if lower + 1 < |s| {
      AscendingAt(s, lower, lower + 1);
      AscendingAt(s, lower + 1, |s| - 1);
    }
    if lower as real != x {
      var w := x - lower as real;
      BlendMonotone(s[lower], s[lower + 1], 0.0, w);
      BlendMonotone(s[lower], s[lower + 1], w, 1.0);
      BlendEnds(s[lower], s[lower + 1]);
    }
  }

  lemma InterpolateInOneCell(s: seq<real>, x: real, y: real)
    requires Ascending(s) && s != [] && 0.0 <= x <= y <= (|s| - 1) as real && x.Floor == y.Floor
    ensures Interpolate(s, x) <= Interpolate(s, y)
  {
    var lower := x.Floor;
    FloorBounds(x, y);
    InterpolateBetween(s, y);
    InterpolateIsBlend(s, x);
    InterpolateIsBlend(s, y);
    hide Interpolate, Blend, Ascending;
    if lower as real != x {
      AscendingAt(s, lower, lower + 1);
      BlendMonotone(s[lower], s[lower + 1], x - lower as real, y - lower as real);
    }
  }

  lemma InterpolateMonotone(s: seq<real>, x: real, y: real)
    requires Ascending(s) && s != [] && 0.0 <= x <= y <= (|s| - 1) as real
    ensures Interpolate(s, x) <= Interpolate(s, y)
  {
    hide *;
    FloorBounds(x, y);
    FloorBounds(y, (|s| - 1) as real);
    if x.Floor == y.Floor {
      InterpolateInOneCell(s, x, y);
    } else {
      InterpolateBetween(s, x);
      InterpolateBetween(s, y);
      AscendingAt(s, x.Floor + 1, y.Floor);
    }
  }

  /** Neither the order of the input nor the choice of sorting routine matters. */
  lemma PercentileIgnoresOrder(sort: Sorter, sort': Sorter, values: seq<real>, shuffled: seq<real>, p: real)
    requires Sorts(sort) && Sorts(sort') && 0.0 <= p <= 100.0 && multiset(values) == multiset(shuffled)
    ensures PercentileOf(sort, values, p) == PercentileOf(sort', shuffled, p)
  {
    SortIsUnique(sort(values), sort'(shuffled));
    assert |values| == |multiset(values)| == |multiset(shuffled)| == |shuffled|;
  }

  lemma PositionMonotone(p: real, q: real, n: nat)
    requires n > 0 && p <= q
    ensures Position(p, n) <= Position(q, n)
  {
    ProductMonotone(p / 100.0, q / 100.0, (n - 1) as real);
  }

  /** A percentile does not fall as p grows. */
  lemma PercentileMonotone(sort: Sorter, values: seq<real>, p: real, q: real)
    requires Sorts(sort) && 0.0 <= p <= q <= 100.0
    ensures PercentileOf(sort, values, p) <= PercentileOf(sort, values, q)
  {
    if values != [] {
      SortKeepsLength(sort, values);
      PositionInRange(p, |values|);
      PositionInRange(q, |values|);
      PositionMonotone(p, q, |values|);
      hide Position, Interpolate;
      InterpolateMonotone(sort(values), Position(p, |values|), Position(q, |values|));
    }
  }

  /** A percentile lies between the smallest and the largest value. */
  lemma PercentileWithin(sort: Sorter, values: seq<real>, p: real) returns (low: real, high: real)
    requires Sorts(sort) && values != [] && 0.0 <= p <= 100.0
    ensures low in values && high in values && forall v :: v in values ==> low <= v <= high
    ensures low <= PercentileOf(sort, values, p) <= high
  {
    var s := sort(values);
    SortKeepsLength(sort, values);
    PositionInRange(p, |values|);
    hide Position, Interpolate;
    InterpolateBetween(s, Position(p, |values|));
    low, high := s[0], s[|s| - 1];
    assert low in multiset(s) && high in multiset(s);
    forall v | v in values
      ensures low <= v <= high
    {
      assert v in multiset(s);
    }
  }

  lemma PositionScaled(p: real, n: nat)
    requires n > 0
    ensures 100.0 * Position(p, n) == p * (n - 1) as real
  {
    assert 100.0 * (p / 100.0) == p;
    assert 100.0 * ((p / 100.0) * (n - 1) as real) == (100.0 * (p / 100.0)) * (n - 1) as real;
  }

  lemma FloorBetween(x: real, i: int)
    requires i as real <= x < (i + 1) as real
    ensures x.Floor == i
  {
  }

  /** Between neighbouring positions the value moves along the straight line from one to the other. */
  lemma InterpolateOnLine(s: seq<real>, x: real, i: nat)
    requires i + 1 < |s| && i as real <= x <= (i + 1) as real
    ensures Interpolate(s, x) - s[i] == (x - i as real) * (s[i + 1] - s[i])
  {
    InterpolateIsBlend(s, x);
    if x == (i + 1) as real {
      assert x.Floor == i + 1;
    } else {
      FloorBetween(x, i);
      var w := x - i as real;
      assert Blend(s[i], s[i + 1], w) == s[i] + w * (s[i + 1] - s[i]);
      if w == 0.0 {
        assert w * (s[i + 1] - s[i]) == 0.0;
      }
    }
  }

  /** Percentile 0 is the least value, percentile 100 the greatest. */
  lemma PercentileEnds(sort: Sorter, values: seq<real>)
    requires Sorts(sort) && values != []
    ensures |sort(values)| == |values|
    ensures PercentileOf(sort, values, 0.0) == sort(values)[0]
    ensures PercentileOf(sort, values, 100.0) == sort(values)[|values| - 1]
  {
    SortKeepsLength(sort, values);
    PositionScaled(0.0, |values|);
    PositionScaled(100.0, |values|);
    hide Position;
    InterpolateIsBlend(sort(values), 0.0);
    InterpolateIsBlend(sort(values), (|values| - 1) as real);
  }

  lemma ScaledLine(x: real, y: real, i: real, d: real)
    requires 100.0 * x == y
    ensures 100.0 * ((x - i) * d) == (y - 100.0 * i) * d
  {
    assert 100.0 * ((x - i) * d) == (100.0 * (x - i)) * d;
  }

  lemma WithinCell(x: real, y: real, i: nat)
    requires 100.0 * x == y && 100.0 * i as real <= y <= 100.0 * (i + 1) as real
    ensures i as real <= x <= (i + 1) as real
  {
  }

  /** Over `n` values the percentile `p` lies `p * (n - 1) / 100` steps along the sorted values, in proportion between
      the two it falls among. */
  lemma PercentileOnLine(sort: Sorter, values: seq<real>, p: real, i: nat)
    requires Sorts(sort) && 0.0 <= p <= 100.0 && i + 1 < |values|
    requires 100.0 * i as real <= p * (|values| - 1) as real <= 100.0 * (i + 1) as real
    ensures |sort(values)| == |values|
    ensures
      var s := sort(values);
      100.0 * (PercentileOf(sort, values, p) - s[i]) ==
      (p * (|values| - 1) as real - 100.0 * i as real) * (s[i + 1] - s[i])
  {
    SortKeepsLength(sort, values);
    PositionInRange(p, |values|);
    PositionScaled(p, |values|);
    hide Position, Interpolate;
    var s, x := sort(values), Position(p, |values|);
    WithinCell(x, p * (|values| - 1) as real, i);
    InterpolateOnLine(s, x, i);
    ScaledLine(x, p * (|values| - 1) as real, i as real, s[i + 1] - s[i]);
  }
}
