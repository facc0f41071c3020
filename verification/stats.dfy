/** Order statistics used by the pipeline: the median of pandas'
    `Series.median` and the linearly interpolated quantiles that
    `pd.qcut` takes as bin edges. Both work on a sorted copy of the values. */
module Stats {
  import opened Cells

  predicate Sorted(s: seq<real>)
  {
    forall i, j :: 0 <= i <= j < |s| ==> s[i] <= s[j]
  }

  function Insert(x: real, s: seq<real>): (r: seq<real>)
    ensures |r| == |s| + 1
  {
    if s == [] || x <= s[0] then [x] + s else [s[0]] + Insert(x, s[1..])
  }

  lemma {:induction false} InsertPermutes(x: real, s: seq<real>)
    ensures multiset(Insert(x, s)) == multiset(s) + multiset{x}
  {
    if s != [] && x > s[0] {
      InsertPermutes(x, s[1..]);
      assert s == [s[0]] + s[1..];
    }
  }

  lemma {:induction false} InsertSorted(x: real, s: seq<real>)
    requires Sorted(s)
    ensures Sorted(Insert(x, s))
  {
    if s == [] || x <= s[0] {
    } else {
      InsertSorted(x, s[1..]);
      InsertPermutes(x, s[1..]);
      var r := Insert(x, s);
      assert r == [s[0]] + Insert(x, s[1..]);
      assert s[0] in multiset(Insert(x, s[1..])) || x in multiset(Insert(x, s[1..]));
      forall k | 0 <= k < |Insert(x, s[1..])|
        ensures s[0] <= Insert(x, s[1..])[k]
      {
        var y := Insert(x, s[1..])[k];
        assert y in multiset(Insert(x, s[1..]));
        assert y in multiset(s[1..]) || y == x;
      }
    }
  }

  /** Insertion sort: the sorted copy of the values. */
  function Sort(s: seq<real>): (r: seq<real>)
    ensures |r| == |s|
    ensures Sorted(r)
  {
    if s == [] then []
    else
      InsertSorted(s[0], Sort(s[1..]));
      Insert(s[0], Sort(s[1..]))
  }

  /** The sorted copy holds the same values, as often as the input does. */
  lemma {:induction false} SortPermutes(s: seq<real>)
    ensures multiset(Sort(s)) == multiset(s)
  {
    if s != [] {
      SortPermutes(s[1..]);
      InsertPermutes(s[0], Sort(s[1..]));
      assert s == [s[0]] + s[1..];
    }
  }

  function CountLess(s: seq<real>, m: real): (n: nat)
    ensures n <= |s|
  {
    if s == [] then 0 else (if s[0] < m then 1 else 0) + CountLess(s[1..], m)
  }

  function CountGreater(s: seq<real>, m: real): (n: nat)
    ensures n <= |s|
  {
    if s == [] then 0 else (if s[0] > m then 1 else 0) + CountGreater(s[1..], m)
  }

  lemma {:induction false} InsertCounts(x: real, s: seq<real>, m: real)
    ensures CountLess(Insert(x, s), m) == CountLess(s, m) + (if x < m then 1 else 0)
    ensures CountGreater(Insert(x, s), m) == CountGreater(s, m) + (if x > m then 1 else 0)
  {
    if s == [] || x <= s[0] {
      assert ([x] + s)[1..] == s;
    } else {
      InsertCounts(x, s[1..], m);
      assert ([s[0]] + Insert(x, s[1..]))[1..] == Insert(x, s[1..]);
    }
  }

  /** Sorting moves values but does not change how many lie below or above
      any threshold. */
  lemma {:induction false} SortCounts(s: seq<real>, m: real)
    ensures CountLess(Sort(s), m) == CountLess(s, m)
    ensures CountGreater(Sort(s), m) == CountGreater(s, m)
  {
    if s != [] {
      SortCounts(s[1..], m);
      InsertCounts(s[0], Sort(s[1..]), m);
    }
  }

  /** `Series.median()` over the present values: `None` when there are none
      (pandas answers NaN); otherwise the middle value of the sorted values,
      or the mean of the two middle ones when their number is even. */
  function Median(s: seq<real>): (m: Option<real>)
    ensures m.None? <==> s == []
  {
    if s == [] then None
    else
      var t := Sort(s);
      var k := |t| / 2;
      if |t| % 2 == 1 then Some(t[k]) else Some((t[k - 1] + t[k]) / 2.0)
  }

  lemma {:induction false} SortedCountLess(t: seq<real>, k: nat, m: real)
    requires Sorted(t) && k < |t| && m <= t[k]
    ensures CountLess(t, m) <= k
  {
    if k == 0 {
      NoneLess(t, m);
    } else {
      SortedCountLess(t[1..], k - 1, m);
    }
  }

  lemma {:induction false} NoneLess(t: seq<real>, m: real)
    requires Sorted(t) && t != [] && m <= t[0]
    ensures CountLess(t, m) == 0
  {
    if |t| > 1 {
      NoneLess(t[1..], m);
    }
  }

  lemma {:induction false} SortedCountGreater(t: seq<real>, j: nat, m: real)
    requires Sorted(t) && j < |t| && t[j] <= m
    ensures CountGreater(t, m) + j + 1 <= |t|
  {
    if j > 0 {
      SortedCountGreater(t[1..], j - 1, m);
    }
  }

  /** The median splits the values in half: at most half of them lie strictly
      below it and at most half strictly above it, and it lies between the
      smallest and the largest value. With an odd number of values it is one
      of them. */
  lemma MedianSplitsValues(s: seq<real>)
    requires s != []
    ensures 2 * CountLess(s, Median(s).value) <= |s|
    ensures 2 * CountGreater(s, Median(s).value) <= |s|
    ensures exists i :: 0 <= i < |s| && s[i] <= Median(s).value
    ensures exists j :: 0 <= j < |s| && Median(s).value <= s[j]
    ensures |s| % 2 == 1 ==> Median(s).value in s
    ensures |s| % 2 == 0 ==> MeanOfMiddles(s, Median(s).value)
  {
    var t := Sort(s);
    var k := |t| / 2;
    var m := Median(s).value;
    SortCounts(s, m);
    var lo := if |t| % 2 == 1 then k else k - 1;
    assert t[lo] <= m <= t[k];
    SortedCountLess(t, k, m);
    SortedCountGreater(t, lo, m);
    SortPermutes(s);
    assert t[lo] in multiset(s) && t[k] in multiset(s);
    var i :| 0 <= i < |s| && s[i] == t[lo];
    var j :| 0 <= j < |s| && s[j] == t[k];
    if |s| % 2 == 0 {
      EvenMedianIsMeanOfMiddles(s);
    }
  }

  lemma EvenMedianIsMeanOfMiddles(s: seq<real>)
    requires s != [] && |s| % 2 == 0
    ensures MeanOfMiddles(s, Median(s).value)
  {
    var t := Sort(s);
    var k := |s| / 2;
    MiddlesOfSorted(s, t, k);
    SortPermutes(s);
    assert t[k - 1] in multiset(s) && t[k] in multiset(s);
    var i :| 0 <= i < |s| && s[i] == t[k - 1];
    var j :| 0 <= j < |s| && s[j] == t[k];
    assert 2.0 * Median(s).value == s[i] + s[j];
  }

  /** The lower of the two middle values of an even number of values: fewer
      than half lie below it and at most half above. */
  predicate LowerMiddle(s: seq<real>, v: real)
  {
    2 * CountLess(s, v) < |s| && 2 * CountGreater(s, v) <= |s|
  }

  /** The upper of the two middle values: at most half lie below it and
      fewer than half above. */
  predicate UpperMiddle(s: seq<real>, v: real)
  {
    2 * CountLess(s, v) <= |s| && 2 * CountGreater(s, v) < |s|
  }

  /** `v` is the mean of a lower and an upper middle value of `s`. */
  predicate MeanOfMiddles(s: seq<real>, v: real)
  {
    exists i, j :: 0 <= i < |s| && 0 <= j < |s| &&
      2.0 * v == s[i] + s[j] && LowerMiddle(s, s[i]) && UpperMiddle(s, s[j])
  }

  lemma MiddlesOfSorted(s: seq<real>, t: seq<real>, k: nat)
    requires t == Sort(s) && |s| == 2 * k && 0 < k
    ensures LowerMiddle(s, t[k - 1]) && UpperMiddle(s, t[k])
  {
    SortCounts(s, t[k - 1]);
    SortCounts(s, t[k]);
    SortedCountLess(t, k - 1, t[k - 1]);
    SortedCountGreater(t, k - 1, t[k - 1]);
    SortedCountLess(t, k, t[k]);
    SortedCountGreater(t, k, t[k]);
  }

  /** The two middle values are pinned down by their counts: any value with
      fewer than half the values below it and at most half above is the lower
      middle one, and symmetrically for the upper, so with an even count the
      median is the mean of such a pair and nothing else. */
  lemma MiddlesDetermineMedian(s: seq<real>, a: real, b: real)
    requires |s| % 2 == 0 && s != [] && LowerMiddle(s, a) && UpperMiddle(s, b)
    ensures 2.0 * Median(s).value == a + b
  {
    var t := Sort(s);
    var k := |s| / 2;
    SortCounts(s, a);
    SortCounts(s, b);
    if a < t[k - 1] {
      SortedCountGreaterFrom(t, k - 1, a);
      assert false;
    } else if a > t[k - 1] {
      SortedCountLessUpTo(t, k - 1, a);
      assert false;
    }
    if b > t[k] {
      SortedCountLessUpTo(t, k, b);
      assert false;
    } else if b < t[k] {
      SortedCountGreaterFrom(t, k, b);
      assert false;
    }
  }

  /** In sorted values, everything from a value above `v` onwards is above `v`. */
  lemma {:induction false} SortedCountGreaterFrom(t: seq<real>, q: nat, v: real)
    requires Sorted(t) && q < |t| && v < t[q]
    ensures CountGreater(t, v) + q >= |t|
  {
    if q > 0 {
      SortedCountGreaterFrom(t[1..], q - 1, v);
    } else if |t| > 1 {
      SortedCountGreaterFrom(t[1..], 0, v);
    }
  }

  /** In sorted values, everything up to a value below `v` is below `v`. */
  lemma {:induction false} SortedCountLessUpTo(t: seq<real>, q: nat, v: real)
    requires Sorted(t) && q < |t| && t[q] < v
    ensures CountLess(t, v) >= q + 1
  {
    if q > 0 {
      SortedCountLessUpTo(t[1..], q - 1, v);
    }
  }

  /** The median of the wind speeds 0, 0, 10, 20, 30 is 10. */
  lemma MedianOfWindExample()
    ensures Median([0.0, 0.0, 10.0, 20.0, 30.0]) == Some(10.0)
  {
    SortWindExample();
  }

  lemma SortWindExample()
    ensures Sort([0.0, 0.0, 10.0, 20.0, 30.0]) == [0.0, 0.0, 10.0, 20.0, 30.0]
  {
    SortSmallExample();
    assert [0.0, 0.0, 10.0, 20.0, 30.0][1..] == [0.0, 10.0, 20.0, 30.0];
    assert Insert(0.0, [0.0, 10.0, 20.0, 30.0]) == [0.0, 0.0, 10.0, 20.0, 30.0];
  }

  lemma SortSmallExample()
    ensures Sort([0.0, 10.0, 20.0, 30.0]) == [0.0, 10.0, 20.0, 30.0]
  {
    SortTinyExample();
    assert [0.0, 10.0, 20.0, 30.0][1..] == [10.0, 20.0, 30.0];
    assert Insert(0.0, [10.0, 20.0, 30.0]) == [0.0, 10.0, 20.0, 30.0];
  }

  lemma SortTinyExample()
    ensures Sort([10.0, 20.0, 30.0]) == [10.0, 20.0, 30.0]
  {
    assert [10.0, 20.0, 30.0][1..] == [20.0, 30.0];
    assert [20.0, 30.0][1..] == [30.0];
    assert [30.0][1..] == [];
    assert Sort([30.0]) == [30.0];
    assert Insert(20.0, [30.0]) == [20.0, 30.0];
    assert Insert(10.0, [20.0, 30.0]) == [10.0, 20.0, 30.0];
  }

  /** The wind speeds 0, 0, 10, 20, 30 once their zeros are rewritten. */
  lemma SortAdjustedWindExample()
    ensures Sort([10.0, 10.0, 10.0, 20.0, 30.0]) == [10.0, 10.0, 10.0, 20.0, 30.0]
  {
    SortTinyExample();
    assert [10.0, 10.0, 20.0, 30.0][1..] == [10.0, 20.0, 30.0];
    assert Insert(10.0, [10.0, 20.0, 30.0]) == [10.0, 10.0, 20.0, 30.0];
    assert [10.0, 10.0, 10.0, 20.0, 30.0][1..] == [10.0, 10.0, 20.0, 30.0];
    assert Insert(10.0, [10.0, 10.0, 20.0, 30.0]) == [10.0, 10.0, 10.0, 20.0, 30.0];
  }

  // Linear-interpolation quantiles (numpy's default, used by Series.quantile).

  /** Position of the q-quantile in the sorted values, split into its whole
      part `i` and the fraction `f` towards the next value. */
  function QuantilePosition(n: nat, q: real): (p: (int, real))
    requires 0 < n && 0.0 <= q <= 1.0
    ensures 0 <= p.0 < n && 0.0 <= p.1 < 1.0
    ensures p.0 as real + p.1 == Scale(n - 1, q)
    ensures p.0 == n - 1 ==> p.1 == 0.0
  {
    ScaleWithin(n - 1, q);
    WholeAndFraction(Scale(n - 1, q), n - 1)
  }

  /** `h` split into its floor and the remainder, for `h` in `[0, m]`. */
  function WholeAndFraction(h: real, m: nat): (p: (int, real))
    requires 0.0 <= h <= m as real
    ensures 0 <= p.0 <= m && 0.0 <= p.1 < 1.0
    ensures p.0 as real + p.1 == h
    ensures p.0 == m ==> p.1 == 0.0
  {
    (h.Floor, h - h.Floor as real)
  }

  /** `m` times `q`, written as repeated addition so that the quantile
      proofs stay in linear arithmetic; `ScaleIsProduct` shows it is the
      product numpy computes. */
  function Scale(m: nat, q: real): real
  {
    if m == 0 then 0.0 else Scale(m - 1, q) + q
  }

  lemma {:induction false} ScaleIsProduct(m: nat, q: real)
    ensures Scale(m, q) == m as real * q
  {
    if m > 0 {
      ScaleIsProduct(m - 1, q);
      assert (m - 1) as real * q + q == m as real * q;
    }
  }

  lemma {:induction false} ScaleWithin(m: nat, q: real)
    requires 0.0 <= q <= 1.0
    ensures 0.0 <= Scale(m, q) <= m as real
  {
    if m > 0 {
      ScaleWithin(m - 1, q);
    }
  }

  lemma {:induction false} ScaleMonotone(m: nat, q1: real, q2: real)
    requires q1 <= q2
    ensures Scale(m, q1) <= Scale(m, q2)
  {
    if m > 0 {
      ScaleMonotone(m - 1, q1, q2);
    }
  }

  /** The point a fraction `f` of the way from `a` to `b`. */
  function Interpolate(a: real, b: real, f: real): real
  {
    a + f * (b - a)
  }

  lemma MulNonNegative(x: real, y: real)
    requires 0.0 <= x && 0.0 <= y
    ensures 0.0 <= x * y
  {
  }

  lemma InterpolateBetween(a: real, b: real, f: real)
    requires a <= b && 0.0 <= f < 1.0
    ensures a <= Interpolate(a, b, f) <= b
  {
    MulNonNegative(f, b - a);
    MulNonNegative(1.0 - f, b - a);
    assert (1.0 - f) * (b - a) == (b - a) - f * (b - a);
  }

  lemma InterpolateMonotone(a: real, b: real, f1: real, f2: real)
    requires a <= b && f1 <= f2
    ensures Interpolate(a, b, f1) <= Interpolate(a, b, f2)
  {
    MulNonNegative(f2 - f1, b - a);
    assert (f2 - f1) * (b - a) == f2 * (b - a) - f1 * (b - a);
  }

  /** `Series.quantile(q)` on the values whose sorted copy is `t`: numpy's
      linear interpolation at position (n - 1) * q. It never leaves the range
      of the values. */
  function Quantile(t: seq<real>, q: real): (v: real)
    requires t != [] && Sorted(t) && 0.0 <= q <= 1.0
    ensures t[0] <= v <= t[|t| - 1]
  {
    var p := QuantilePosition(|t|, q);
    if p.0 + 1 < |t| then
      InterpolateBetween(t[p.0], t[p.0 + 1], p.1);
      Interpolate(t[p.0], t[p.0 + 1], p.1)
    else t[p.0]
  }

  /** A quantile lies between the two sorted values around its position. */
  lemma QuantileBetween(t: seq<real>, q: real)
    requires t != [] && Sorted(t) && 0.0 <= q <= 1.0
    ensures var i := QuantilePosition(|t|, q).0;
      t[i] <= Quantile(t, q) && (i + 1 < |t| ==> Quantile(t, q) <= t[i + 1])
  {
    var p := QuantilePosition(|t|, q);
    if p.0 + 1 < |t| {
      InterpolateBetween(t[p.0], t[p.0 + 1], p.1);
    }
  }

  lemma QuantileEnds(t: seq<real>)
    requires t != [] && Sorted(t)
    ensures Quantile(t, 0.0) == t[0] && Quantile(t, 1.0) == t[|t| - 1]
  {
    ScaleIsProduct(|t| - 1, 0.0);
    ScaleIsProduct(|t| - 1, 1.0);
    var p0 := QuantilePosition(|t|, 0.0);
    assert p0.0 == 0 && p0.1 == 0.0;
    var p1 := QuantilePosition(|t|, 1.0);
    assert p1.0 == |t| - 1;
  }

  lemma PositionMonotone(n: nat, q1: real, q2: real)
    requires 0 < n && 0.0 <= q1 <= q2 <= 1.0
    ensures QuantilePosition(n, q1).0 <= QuantilePosition(n, q2).0
    ensures QuantilePosition(n, q1).0 == QuantilePosition(n, q2).0 ==>
      QuantilePosition(n, q1).1 <= QuantilePosition(n, q2).1
  {
    ScaleWithin(n - 1, q1);
    ScaleWithin(n - 1, q2);
    ScaleMonotone(n - 1, q1, q2);
    WholeAndFractionMonotone(Scale(n - 1, q1), Scale(n - 1, q2), n - 1);
  }

  lemma WholeAndFractionMonotone(h1: real, h2: real, m: nat)
    requires 0.0 <= h1 <= h2 <= m as real
    ensures WholeAndFraction(h1, m).0 <= WholeAndFraction(h2, m).0
    ensures WholeAndFraction(h1, m).0 == WholeAndFraction(h2, m).0 ==>
      WholeAndFraction(h1, m).1 <= WholeAndFraction(h2, m).1
  {
  }

  /** The 0-quantile is the smallest value, the 1-quantile the largest, and a
      larger q never gives a smaller quantile. */
  lemma QuantileMonotone(t: seq<real>, q1: real, q2: real)
    requires t != [] && Sorted(t) && 0.0 <= q1 <= q2 <= 1.0
    ensures t[0] <= Quantile(t, q1) <= Quantile(t, q2) <= t[|t| - 1]
    ensures Quantile(t, 0.0) == t[0] && Quantile(t, 1.0) == t[|t| - 1]
  {
    var n := |t|;
    var i1 := QuantilePosition(n, q1).0;
    var i2 := QuantilePosition(n, q2).0;
    PositionMonotone(n, q1, q2);
    QuantileBetween(t, q1);
    QuantileBetween(t, q2);
    if i1 == i2 {
      if i1 + 1 < n {
        InterpolateMonotone(t[i1], t[i1 + 1], QuantilePosition(n, q1).1, QuantilePosition(n, q2).1);
      }
    } else {
      assert t[i1 + 1] <= t[i2];
    }
    QuantileEnds(t);
  }
}
