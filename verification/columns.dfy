/** The whole-column operations of `impute_and_cast` and
    `feature_engineering` (src/data_processing.py), each a function from
    columns to a column of the same length. */
module Columns {
  import opened Cells
  import opened Stats
  import opened Bins

  // ---------------------------------------------------------------------
  // impute_and_cast

  function Coerce(col: Column, parse: string -> Option<real>): (r: Column)
    ensures |r| == |col| && NumericCells(r)
    ensures forall i :: 0 <= i < |col| ==> r[i] == ToNumeric(col[i], parse)
  {
    seq(|col|, i requires 0 <= i < |col| => ToNumeric(col[i], parse))
  }

  /** What `fillna(med)` puts in the gaps: the median of the present numbers,
      or 0 when there are none (pandas' median is then NaN). The fill lies
      between the smallest and the largest number, is one of them when their
      count is odd, and the mean of the two middle ones when it is even. */
  function MedianOrZero(col: Column): (v: real)
    ensures PresentNumbers(col) == [] ==> v == 0.0
    ensures var xs := PresentNumbers(col);
      xs != [] ==> (exists i :: 0 <= i < |xs| && xs[i] <= v) && (exists j :: 0 <= j < |xs| && v <= xs[j])
    ensures var xs := PresentNumbers(col);
      |xs| % 2 == 1 ==> v in xs
    ensures var xs := PresentNumbers(col);
      xs != [] && |xs| % 2 == 0 ==> MeanOfMiddles(xs, v)
  {
    var xs := PresentNumbers(col);
    if xs == [] then 0.0
    else
      MedianSplitsValues(xs);
      Median(xs).value
  }

  function FillMissing(col: Column, v: real): (r: Column)
    ensures |r| == |col|
    ensures forall i :: 0 <= i < |col| ==> r[i] == (if col[i].None? then Some(Num(v)) else col[i])
  {
    seq(|col|, i requires 0 <= i < |col| => if col[i].None? then Some(Num(v)) else col[i])
  }

  /** A numeric column after `impute_and_cast`: coerced to numbers, then every
      gap filled with the median of the coerced column (0 if it has no number
      at all). Nothing is missing afterwards, and every number that was there
      (or that the parser read) keeps its place. */
  function ImputeNumeric(col: Column, parse: string -> Option<real>): (r: Column)
    ensures |r| == |col| && Filled(r)
    ensures forall i :: 0 <= i < |col| && ToNumeric(col[i], parse).Some? ==> r[i] == ToNumeric(col[i], parse)
    ensures forall i :: 0 <= i < |col| && ToNumeric(col[i], parse).None? ==>
      r[i] == Some(Num(MedianOrZero(Coerce(col, parse))))
  {
    var nums := Coerce(col, parse);
    FillMissing(nums, MedianOrZero(nums))
  }

  /** The number the gaps of a coerced column are filled with is its median:
      at most half of the present numbers lie below it and at most half above;
      with an even count it is the mean of whichever lower and upper middle
      numbers one picks; with no number present it is 0. */
  lemma ImputedValueIsMedian(nums: Column)
    ensures PresentNumbers(nums) == [] ==> MedianOrZero(nums) == 0.0
    ensures var xs := PresentNumbers(nums);
      xs != [] ==> 2 * CountLess(xs, MedianOrZero(nums)) <= |xs| && 2 * CountGreater(xs, MedianOrZero(nums)) <= |xs|
    ensures var xs := PresentNumbers(nums);
      forall a, b :: xs != [] && |xs| % 2 == 0 && LowerMiddle(xs, a) && UpperMiddle(xs, b) ==>
        2.0 * MedianOrZero(nums) == a + b
  {
    var xs := PresentNumbers(nums);
    if xs != [] {
      MedianSplitsValues(xs);
      forall a, b | |xs| % 2 == 0 && LowerMiddle(xs, a) && UpperMiddle(xs, b)
        ensures 2.0 * MedianOrZero(nums) == a + b
      {
        MiddlesDetermineMedian(xs, a, b);
      }
    }
  }

  function CountMissing(col: Column): (n: nat)
    ensures n <= |col|
  {
    if col == [] then 0 else (if col[0].None? then 1 else 0) + CountMissing(col[1..])
  }

  function CountValue(col: Column, v: real): (n: nat)
    ensures n <= |col|
  {
    if col == [] then 0 else (if col[0] == Some(Num(v)) then 1 else 0) + CountValue(col[1..], v)
  }

  /** Filling `k` gaps with `v` adds exactly `k` cells holding `v`. */
  lemma {:induction false} FillMissingCounts(col: Column, v: real)
    ensures CountMissing(FillMissing(col, v)) == 0
    ensures CountValue(FillMissing(col, v), v) == CountValue(col, v) + CountMissing(col)
  {
    if col != [] {
      FillMissingCounts(col[1..], v);
      assert FillMissing(col, v)[1..] == FillMissing(col[1..], v);
    }
  }

  /** `pd.to_numeric(..., errors="coerce").fillna(0).astype(int)` for a code
      column: unreadable or missing codes become 0, and every number is
      truncated toward zero. */
  function CastCode(col: Column, parse: string -> Option<real>): (r: Column)
    ensures |r| == |col| && Filled(r)
    ensures forall i :: 0 <= i < |col| ==> r[i].value.x == r[i].value.x.Floor as real
    ensures forall i :: 0 <= i < |col| && ToNumeric(col[i], parse).None? ==> r[i] == Some(Num(0.0))
    ensures forall i :: 0 <= i < |col| && ToNumeric(col[i], parse).Some? ==>
      r[i] == Some(Num(Trunc(ToNumeric(col[i], parse).value.x) as real))
  {
    seq(|col|, i requires 0 <= i < |col| =>
      var c := ToNumeric(col[i], parse);
      Some(Num(Trunc(if c.None? then 0.0 else c.value.x) as real)))
  }

  /** A code that is already a whole number is kept as it is. */
  lemma CastCodeKeepsWholeCodes(col: Column, parse: string -> Option<real>, i: nat)
    requires i < |col| && col[i].Some? && col[i].value.Num? && col[i].value.x == col[i].value.x.Floor as real
    ensures CastCode(col, parse)[i] == col[i]
  {
  }

  // ---------------------------------------------------------------------
  // feature_engineering: code labels

  const SeasonMap: map<real, string> := map[1.0 := "spring", 2.0 := "summer", 3.0 := "fall", 4.0 := "winter"]
  const WeatherMap: map<real, string> :=
    map[1.0 := "clear", 2.0 := "mist/cloudy", 3.0 := "light_precip", 4.0 := "heavy_precip"]

  /** The label `.map(m).fillna("unknown")` gives one cell: a number that is a
      key of `m` gets its label; everything else, a missing cell included,
      gets "unknown". */
  function CodeLabel(m: map<real, string>, c: Cell): string
  {
    if c.Some? && c.value.Num? && c.value.x in m then m[c.value.x] else "unknown"
  }

  /** `col.map(m).fillna("unknown")`: every row gets a label, the column
      length is kept, and a label other than "unknown" (when "unknown" is not
      itself a label of `m`) is exactly the label of the row's code. */
  function LabelCodes(m: map<real, string>, col: Column): (r: Column)
    ensures |r| == |col|
    ensures forall i :: 0 <= i < |col| ==> r[i].Some? && r[i].value.Text?
    ensures forall i :: 0 <= i < |col| ==> r[i].value.s in m.Values || r[i].value.s == "unknown"
    ensures forall i, x :: 0 <= i < |col| && col[i] == Some(Num(x)) && x in m ==> r[i] == Some(Text(m[x]))
    ensures "unknown" !in m.Values ==> forall i :: 0 <= i < |col| ==>
      (r[i] == Some(Text("unknown")) <==> !(col[i].Some? && col[i].value.Num? && col[i].value.x in m))
  {
    seq(|col|, i requires 0 <= i < |col| => Some(Text(CodeLabel(m, col[i]))))
  }

  /** The season labels: codes 1 to 4 are spring, summer, fall and winter,
      and any other code (5, say, or a missing one) is "unknown". */
  lemma SeasonLabelsNamed(col: Column)
    ensures var r := LabelCodes(SeasonMap, col);
      forall i :: 0 <= i < |col| ==>
        && (col[i] == Some(Num(1.0)) <==> r[i] == Some(Text("spring")))
        && (col[i] == Some(Num(2.0)) <==> r[i] == Some(Text("summer")))
        && (col[i] == Some(Num(3.0)) <==> r[i] == Some(Text("fall")))
        && (col[i] == Some(Num(4.0)) <==> r[i] == Some(Text("winter")))
        && (col[i] == Some(Num(5.0)) ==> r[i] == Some(Text("unknown")))
  {
    var r := LabelCodes(SeasonMap, col);
    assert "unknown" !in SeasonMap.Values;
    forall i | 0 <= i < |col|
      ensures col[i] == Some(Num(1.0)) <==> r[i] == Some(Text("spring"))
      ensures col[i] == Some(Num(2.0)) <==> r[i] == Some(Text("summer"))
      ensures col[i] == Some(Num(3.0)) <==> r[i] == Some(Text("fall"))
      ensures col[i] == Some(Num(4.0)) <==> r[i] == Some(Text("winter"))
    {
      assert r[i] == Some(Text(CodeLabel(SeasonMap, col[i])));
    }
  }

  /** The weather labels: code 1 is "clear", 2 the single label "mist/cloudy",
      3 "light_precip", 4 "heavy_precip"; any other code is "unknown". */
  lemma WeatherLabelsNamed(col: Column)
    ensures var r := LabelCodes(WeatherMap, col);
      forall i :: 0 <= i < |col| ==>
        && (col[i] == Some(Num(1.0)) <==> r[i] == Some(Text("clear")))
        && (col[i] == Some(Num(2.0)) <==> r[i] == Some(Text("mist/cloudy")))
        && (col[i] == Some(Num(3.0)) <==> r[i] == Some(Text("light_precip")))
        && (col[i] == Some(Num(4.0)) <==> r[i] == Some(Text("heavy_precip")))
  {
    var r := LabelCodes(WeatherMap, col);
    forall i | 0 <= i < |col|
      ensures col[i] == Some(Num(1.0)) <==> r[i] == Some(Text("clear"))
      ensures col[i] == Some(Num(2.0)) <==> r[i] == Some(Text("mist/cloudy"))
      ensures col[i] == Some(Num(3.0)) <==> r[i] == Some(Text("light_precip"))
      ensures col[i] == Some(Num(4.0)) <==> r[i] == Some(Text("heavy_precip"))
    {
      assert r[i] == Some(Text(CodeLabel(WeatherMap, col[i])));
    }
  }

  // ---------------------------------------------------------------------
  // feature_engineering: count reconstruction

  /** `registered + casual`, row by row; a missing addend gives a missing sum. */
  function AddColumns(a: Column, b: Column): (r: Column)
    requires |a| == |b| && NumericCells(a) && NumericCells(b)
    ensures |r| == |a| && NumericCells(r)
    ensures forall i :: 0 <= i < |a| ==> (r[i].Some? <==> a[i].Some? && b[i].Some?)
    ensures forall i :: 0 <= i < |a| && r[i].Some? ==> r[i].value.x == a[i].value.x + b[i].value.x
  {
    seq(|a|, i requires 0 <= i < |a| =>
      if a[i].Some? && b[i].Some? then Some(Num(a[i].value.x + b[i].value.x)) else None)
  }

  // ---------------------------------------------------------------------
  // feature_engineering: binning

  /** Labels a column by bins: a missing cell stays missing, a number gets
      the label of its bin, or is missing when it falls in none. */
  function Cut(col: Column, edges: seq<real>, labels: seq<string>, includeLowest: bool): (r: Column)
    requires NumericCells(col) && 2 <= |edges| && |labels| == |edges| - 1
    ensures |r| == |col|
    ensures forall i :: 0 <= i < |col| && r[i].Some? ==> r[i].value.Text? && r[i].value.s in labels
    ensures forall i :: 0 <= i < |col| ==>
      (r[i].Some? <==> col[i].Some? && BinOf(edges, col[i].value.x, includeLowest).Some?)
    ensures forall i :: 0 <= i < |col| && r[i].Some? ==>
      r[i] == Some(Text(labels[BinOf(edges, col[i].value.x, includeLowest).value]))
  {
    seq(|col|, i requires 0 <= i < |col| =>
      if col[i].None? then None
      else
        var k := BinOf(edges, col[i].value.x, includeLowest);
        if k.Some? then Some(Text(labels[k.value])) else None)
  }

  const HumidityEdges: seq<real> := [-1.0, 30.0, 60.0, 100.0]
  const HumidityLabels: seq<string> := ["low", "medium", "high"]

  /** `pd.cut(humidity, bins=[-1, 30, 60, 100], labels=["low", "medium", "high"])`:
      right-closed bins, so (-1, 30] is low, (30, 60] medium and (60, 100]
      high, and a value outside (-1, 100] gets no category. */
  function HumidityCategory(col: Column): (r: Column)
    requires NumericCells(col)
    ensures |r| == |col|
    ensures forall i :: 0 <= i < |col| && col[i].None? ==> r[i].None?
    ensures forall i, h :: 0 <= i < |col| && col[i] == Some(Num(h)) ==>
      && (-1.0 < h <= 30.0 <==> r[i] == Some(Text("low")))
      && (30.0 < h <= 60.0 <==> r[i] == Some(Text("medium")))
      && (60.0 < h <= 100.0 <==> r[i] == Some(Text("high")))
      && (h <= -1.0 || 100.0 < h <==> r[i].None?)
  {
    var r := Cut(col, HumidityEdges, HumidityLabels, false);
    assert Sorted(HumidityEdges);
    forall i, h | 0 <= i < |col| && col[i] == Some(Num(h))
      ensures r[i] == (if -1.0 < h <= 30.0 then Some(Text("low"))
                       else if 30.0 < h <= 60.0 then Some(Text("medium"))
                       else if 60.0 < h <= 100.0 then Some(Text("high"))
                       else None)
    {
      BinOfInterval(HumidityEdges, h, false);
    }
    r
  }

  // ---------------------------------------------------------------------
  // feature_engineering: quantile bins

  /** The fraction k/q, a quantile level between 0 and 1. */
  function Level(k: nat, q: nat): (f: real)
    requires k <= q && 0 < q
    ensures 0.0 <= f <= 1.0
    ensures k == 0 ==> f == 0.0
    ensures k == q ==> f == 1.0
  {
    FractionWithin(k as real, q as real);
    k as real / q as real
  }

  lemma FractionWithin(a: real, b: real)
    requires 0.0 <= a <= b && 0.0 < b
    ensures 0.0 <= a / b <= 1.0
    ensures a == 0.0 ==> a / b == 0.0
    ensures a == b ==> a / b == 1.0
  {
    assert a / b * b == a;
  }

  lemma LevelMonotone(a: nat, b: nat, q: nat)
    requires a <= b <= q && 0 < q
    ensures Level(a, q) <= Level(b, q)
  {
    assert Level(b, q) - Level(a, q) == (b - a) as real / q as real;
  }

  /** The `q + 1` edges `pd.qcut(x, q)` takes: the 0, 1/q, ..., 1 quantiles of
      the present values. They rise, and run from the smallest value to the
      largest. */
  function QuantileEdges(t: seq<real>, q: nat): (e: seq<real>)
    requires t != [] && Sorted(t) && 0 < q
    ensures |e| == q + 1 && Sorted(e)
    ensures e[0] == t[0] && e[q] == t[|t| - 1]
  {
    var e := seq(q + 1, k requires 0 <= k <= q => Quantile(t, Level(k, q)));
    forall i, j | 0 <= i <= j < |e|
      ensures e[i] <= e[j]
    {
      LevelMonotone(i, j, q);
      QuantileMonotone(t, Level(i, q), Level(j, q));
    }
    QuantileMonotone(t, 0.0, 1.0);
    e
  }

  /** `pd.qcut(col, q=|labels|, labels=labels)`: bins with equally many values
      each, bounded by the quantiles of the present numbers. A column with no
      number stays all missing. */
  function QCut(col: Column, labels: seq<string>): (r: Column)
    requires NumericCells(col) && 0 < |labels|
    ensures |r| == |col|
    ensures forall i :: 0 <= i < |col| && r[i].Some? ==>
      col[i].Some? && r[i].value.Text? && r[i].value.s in labels
  {
    var xs := PresentNumbers(col);
    if xs == [] then seq(|col|, i => None)
    else Cut(col, QuantileEdges(Sort(xs), |labels|), labels, true)
  }

  /** Every number gets one of the labels and every missing cell stays
      missing: quantile binning labels the whole column. */
  lemma QCutLabelsEveryNumber(col: Column, labels: seq<string>)
    requires NumericCells(col) && 0 < |labels|
    ensures var r := QCut(col, labels);
      forall i :: 0 <= i < |col| ==>
        (col[i].None? ==> r[i].None?) &&
        (col[i].Some? ==> r[i].Some? && r[i].value.Text? && r[i].value.s in labels)
  {
    var xs := PresentNumbers(col);
    if xs != [] {
      var t := Sort(xs);
      SortPermutes(xs);
      var e := QuantileEdges(t, |labels|);
      forall i | 0 <= i < |col| && col[i].Some?
        ensures BinOf(e, col[i].value.x, true).Some?
      {
        var x := col[i].value.x;
        assert x in xs;
        assert x in multiset(t);
        var j :| 0 <= j < |t| && t[j] == x;
        BinOfInterval(e, x, true);
      }
    }
  }

  /** The position of a label in the ordered label list (-1 if absent). */
  function LabelRank(labels: seq<string>, c: Cell): int
  {
    if c.Some? && c.value.Text? && c.value.s in labels then IndexOf(labels, c.value.s) else -1
  }

  function IndexOf(labels: seq<string>, l: string): (k: nat)
    requires l in labels
    ensures k < |labels| && labels[k] == l
    ensures forall j :: 0 <= j < k ==> labels[j] != l
  {
    if labels[0] == l then 0 else 1 + IndexOf(labels[1..], l)
  }

  predicate DistinctLabels(labels: seq<string>)
  {
    forall a, b :: 0 <= a < b < |labels| ==> labels[a] != labels[b]
  }

  /** Quantile binning keeps the order of values: a value no larger than
      another never gets a later label (cold < mild < warm < hot). */
  lemma QCutMonotone(col: Column, labels: seq<string>, i: nat, j: nat)
    requires NumericCells(col) && 0 < |labels| && DistinctLabels(labels)
    requires i < |col| && j < |col| && col[i].Some? && col[j].Some?
    requires col[i].value.x <= col[j].value.x
    ensures 0 <= LabelRank(labels, QCut(col, labels)[i]) <= LabelRank(labels, QCut(col, labels)[j])
  {
    QCutLabelsEveryNumber(col, labels);
    var xs := PresentNumbers(col);
    var e := QuantileEdges(Sort(xs), |labels|);
    var r := QCut(col, labels);
    var ki := BinOf(e, col[i].value.x, true).value;
    var kj := BinOf(e, col[j].value.x, true).value;
    BinOfMonotone(e, col[i].value.x, col[j].value.x, true);
    assert r[i] == Some(Text(labels[ki])) && r[j] == Some(Text(labels[kj]));
    assert IndexOf(labels, labels[ki]) == ki;
    assert IndexOf(labels, labels[kj]) == kj;
  }

  // ---------------------------------------------------------------------
  // feature_engineering: wind speed

  /** `windspeed.replace(0, windspeed.median())`: exactly the cells holding 0
      take the median of the whole column as it was, zeros included; every
      other cell is kept. */
  function ReplaceZeros(col: Column): (r: Column)
    requires NumericCells(col)
    ensures |r| == |col| && NumericCells(r)
    ensures forall i :: 0 <= i < |col| && col[i] != Some(Num(0.0)) ==> r[i] == col[i]
    ensures forall i :: 0 <= i < |col| && col[i] == Some(Num(0.0)) ==>
      Median(PresentNumbers(col)).Some? && r[i] == Some(Num(Median(PresentNumbers(col)).value))
  {
    var m := Median(PresentNumbers(col));
    seq(|col|, i requires 0 <= i < |col| =>
      if col[i] == Some(Num(0.0)) && m.Some? then Some(Num(m.value)) else col[i])
  }

  /** For the wind speeds 0, 0, 10, 20, 30 the rewrite gives 10, 10, 10, 20, 30. */
  lemma ReplaceZerosExample()
    ensures ReplaceZeros([Some(Num(0.0)), Some(Num(0.0)), Some(Num(10.0)), Some(Num(20.0)), Some(Num(30.0))])
         == [Some(Num(10.0)), Some(Num(10.0)), Some(Num(10.0)), Some(Num(20.0)), Some(Num(30.0))]
  {
    var col := [Some(Num(0.0)), Some(Num(0.0)), Some(Num(10.0)), Some(Num(20.0)), Some(Num(30.0))];
    assert NumericCells(col);
    NumbersOfWindExample(col);
    MedianOfWindExample();
    assert Median(PresentNumbers(col)) == Some(10.0);
    ReplacedWindExample(col);
  }

  lemma ReplacedWindExample(col: Column)
    requires NumericCells(col)
    requires |col| == 5 && col[0] == Some(Num(0.0)) && col[1] == Some(Num(0.0))
    requires col[2] == Some(Num(10.0)) && col[3] == Some(Num(20.0)) && col[4] == Some(Num(30.0))
    requires Median(PresentNumbers(col)) == Some(10.0)
    ensures ReplaceZeros(col) == [Some(Num(10.0)), Some(Num(10.0)), Some(Num(10.0)), Some(Num(20.0)), Some(Num(30.0))]
  {
    ZerosOfWindExample(col);
    KeptOfWindExample(col);
    AdjustedWindCells(ReplaceZeros(col));
  }

  lemma ZerosOfWindExample(col: Column)
    requires NumericCells(col)
    requires |col| == 5 && col[0] == Some(Num(0.0)) && col[1] == Some(Num(0.0))
    requires col[2] == Some(Num(10.0)) && col[3] == Some(Num(20.0)) && col[4] == Some(Num(30.0))
    requires Median(PresentNumbers(col)) == Some(10.0)
    ensures |ReplaceZeros(col)| == 5
    ensures ReplaceZeros(col)[0] == Some(Num(10.0)) && ReplaceZeros(col)[1] == Some(Num(10.0))
  {
  }

  lemma KeptOfWindExample(col: Column)
    requires NumericCells(col)
    requires |col| == 5 && col[0] == Some(Num(0.0)) && col[1] == Some(Num(0.0))
    requires col[2] == Some(Num(10.0)) && col[3] == Some(Num(20.0)) && col[4] == Some(Num(30.0))
    ensures ReplaceZeros(col)[2] == Some(Num(10.0))
    ensures ReplaceZeros(col)[3] == Some(Num(20.0)) && ReplaceZeros(col)[4] == Some(Num(30.0))
  {
  }

  /** Five cells given one by one make up the adjusted column. */
  lemma AdjustedWindCells(r: Column)
    requires |r| == 5 && r[0] == Some(Num(10.0)) && r[1] == Some(Num(10.0)) && r[2] == Some(Num(10.0))
    requires r[3] == Some(Num(20.0)) && r[4] == Some(Num(30.0))
    ensures r == [Some(Num(10.0)), Some(Num(10.0)), Some(Num(10.0)), Some(Num(20.0)), Some(Num(30.0))]
  {
  }

  lemma NumbersOfWindExample(col: Column)
    requires |col| == 5 && col[0] == Some(Num(0.0)) && col[1] == Some(Num(0.0))
    requires col[2] == Some(Num(10.0)) && col[3] == Some(Num(20.0)) && col[4] == Some(Num(30.0))
    ensures PresentNumbers(col) == [0.0, 0.0, 10.0, 20.0, 30.0]
  {
    assert Filled(col);
  }
}
