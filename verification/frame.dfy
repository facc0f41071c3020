/** The two in-place steps of the pipeline in src/data_processing.py:
    `impute_and_cast` overwrites listed columns of the data frame one after
    another, and `feature_engineering` adds derived columns (and rewrites
    `windspeed`) step by step. The data frame is a `DataFrame` object whose
    methods do the same; what each method leaves behind is specified by a
    function on `Clean.Table` values (`Imputed`, `Engineered`), and the
    lemmas below state what the source promises about those functions. */
module Frame {
  import opened Cells
  import opened Stats
  import opened Columns
  import opened Clean

  /** The columns `impute_and_cast` coerces to numbers and fills with medians. */
  const NumericColumns: seq<string> := ["temp", "atemp", "humidity", "windspeed", "casual", "registered", "count"]

  /** The code columns it casts to whole numbers, filling gaps with 0. */
  const CodeColumns: seq<string> := ["season", "weather", "workingday", "holiday"]

  const TempLabels: seq<string> := ["cold", "mild", "warm", "hot"]
  const WindLabels: seq<string> := ["low", "medium", "high"]

  // ---------------------------------------------------------------------
  // impute_and_cast, as a function on tables

  /** No column is listed twice, and no numeric column is a code column. */
  lemma ColumnListsApart()
    ensures forall a, b :: 0 <= a < b < |NumericColumns| ==> NumericColumns[a] != NumericColumns[b]
    ensures forall a, b :: 0 <= a < b < |CodeColumns| ==> CodeColumns[a] != CodeColumns[b]
    ensures forall c :: c in CodeColumns ==> c !in NumericColumns
  {
  }

  /** One more step along a list of distinct column names: the next name is
      not among those already visited, and it is the only one added. */
  lemma PrefixStep(names: seq<string>, i: nat)
    requires i < |names|
    requires forall a, b :: 0 <= a < b < |names| ==> names[a] != names[b]
    ensures names[i] !in names[..i]
    ensures forall k :: k in names[..i + 1] <==> k in names[..i] || k == names[i]
  {
    assert names[..i + 1] == names[..i] + [names[i]];
    forall k | 0 <= k < i ensures names[..i][k] != names[i] {
      assert names[..i][k] == names[k];
    }
  }

  /** What `impute_and_cast` does to the column called `name`. */
  function ImputeColumn(name: string, col: Column, parse: string -> Option<real>): (r: Column)
    ensures |r| == |col|
    ensures name !in NumericColumns && name !in CodeColumns ==> r == col
  {
    if name in NumericColumns then ImputeNumeric(col, parse)
    else if name in CodeColumns then CastCode(col, parse)
    else col
  }

  /** The table `impute_and_cast` leaves behind. */
  function Imputed(t: Table, parse: string -> Option<real>): (r: Table)
    requires WellFormed(t)
    ensures WellFormed(r) && r.rows == t.rows && r.cols.Keys == t.cols.Keys
  {
    Table(t.rows, map c | c in t.cols :: ImputeColumn(c, t.cols[c], parse))
  }

  /** After imputation a numeric column has no gap: every number it had (or
      that the parser read from its text) keeps its place, and every other
      cell holds the median of those numbers, or 0 when there are none. */
  lemma ImputedNumericColumn(t: Table, parse: string -> Option<real>, c: string)
    requires WellFormed(t) && c in t.cols && c in NumericColumns
    ensures var col := Imputed(t, parse).cols[c];
      && Filled(col)
      && (forall i :: 0 <= i < t.rows && t.cols[c][i].Some? && t.cols[c][i].value.Num? ==> col[i] == t.cols[c][i])
      && (forall i :: 0 <= i < t.rows && ToNumeric(t.cols[c][i], parse).None? ==>
            col[i] == Some(Num(MedianOrZero(Coerce(t.cols[c], parse)))))
  {
  }

  /** A cell holding a whole number. */
  predicate WholeNumber(c: Cell)
  {
    c.Some? && c.value.Num? && c.value.x == c.value.x.Floor as real
  }

  /** After imputation a code column has no gap: a missing or unreadable
      code is 0, and a code that is already a whole number is kept. */
  lemma ImputedCodeColumn(t: Table, parse: string -> Option<real>, c: string)
    requires WellFormed(t) && c in t.cols && c in CodeColumns
    ensures var col := Imputed(t, parse).cols[c];
      && Filled(col)
      && (forall i :: 0 <= i < t.rows && ToNumeric(t.cols[c][i], parse).None? ==> col[i] == Some(Num(0.0)))
      && (forall i :: 0 <= i < t.rows && WholeNumber(t.cols[c][i]) ==> col[i] == t.cols[c][i])
  {
    ColumnListsApart();
    forall i | 0 <= i < t.rows && WholeNumber(t.cols[c][i])
      ensures Imputed(t, parse).cols[c][i] == t.cols[c][i]
    {
      CastCodeKeepsWholeCodes(t.cols[c], parse, i);
    }
  }

  /** Imputation leaves every column it does not list as it was. */
  lemma ImputedKeepsOtherColumns(t: Table, parse: string -> Option<real>)
    requires WellFormed(t)
    ensures forall c :: c in t.cols && c !in NumericColumns && c !in CodeColumns ==>
      Imputed(t, parse).cols[c] == t.cols[c]
  {
  }

  // ---------------------------------------------------------------------
  // feature_engineering, as a function on tables

  /** A `datetime` column as basic_clean leaves it: timestamps or gaps. */
  predicate StampsOrMissing(col: Column)
  {
    forall i :: 0 <= i < |col| ==> col[i].None? || col[i].value.Stamp?
  }

  /** One calendar field of every timestamp (`df["datetime"].dt.hour` and
      the like); `calendar(field, t)` stands for the library's calendar
      arithmetic, and a missing timestamp gives a missing field. */
  function CalendarColumn(dt: Column, field: string, calendar: (string, int) -> Value): (r: Column)
    requires StampsOrMissing(dt)
    ensures |r| == |dt|
    ensures forall i :: 0 <= i < |dt| ==> (r[i].None? <==> dt[i].None?)
  {
    seq(|dt|, i requires 0 <= i < |dt| => if dt[i].None? then None else Some(calendar(field, dt[i].value.t)))
  }

  /** `df[name] = col` on the columns of a table of `rows` rows. */
  function Put(cols: map<string, Column>, rows: nat, name: string, col: Column): (r: map<string, Column>)
    requires WellFormed(Table(rows, cols)) && |col| == rows
    ensures WellFormed(Table(rows, r)) && r == cols[name := col]
  {
    cols[name := col]
  }

  /** `r` is `t` with at most the columns named in `changed` added or
      rewritten: the same rows, no column dropped, every other column kept. */
  predicate Keeps(t: Table, r: Table, changed: set<string>)
  {
    && r.rows == t.rows
    && t.cols.Keys <= r.cols.Keys <= t.cols.Keys + changed
    && forall c :: c in t.cols && c !in changed ==> r.cols[c] == t.cols[c]
  }

  predicate CalendarReady(t: Table)
  {
    "datetime" in t.cols ==> StampsOrMissing(t.cols["datetime"])
  }

  /** `registered + casual` is only computed on numbers and gaps. */
  predicate CountReady(t: Table)
  {
    "count" !in t.cols && "registered" in t.cols && "casual" in t.cols ==>
      NumericCells(t.cols["registered"]) && NumericCells(t.cols["casual"])
  }

  /** Quantile bin edges `pd.qcut` accepts: there is at least one number,
      and the edges are all different (with no number every edge is NaN, and
      pandas raises on repeated edges either way). */
  predicate QuantileEdgesApart(col: Column, q: nat)
    requires 0 < q
  {
    var xs := PresentNumbers(col);
    xs != [] && forall a, b :: 0 <= a < b <= q ==> QuantileEdges(Sort(xs), q)[a] < QuantileEdges(Sort(xs), q)[b]
  }

  /** The edge condition is exactly pandas' test before binning: there is a
      number to take quantiles of, and no two of the `q + 1` edges are equal
      ("Bin edges must be unique"). */
  lemma QuantileEdgesUnique(col: Column, q: nat)
    requires 0 < q
    ensures QuantileEdgesApart(col, q) <==>
      var xs := PresentNumbers(col);
      xs != [] && forall a, b :: 0 <= a < b <= q ==> QuantileEdges(Sort(xs), q)[a] != QuantileEdges(Sort(xs), q)[b]
  {
    var xs := PresentNumbers(col);
    if xs != [] {
      var e := QuantileEdges(Sort(xs), q);
      assert Sorted(e);
    }
  }

  /** The column a missing quantile category is computed from holds only
      numbers and gaps, and its edges are all different. */
  predicate QCutReady(t: Table, source: string, category: string, q: nat)
    requires 0 < q
  {
    source in t.cols && category !in t.cols ==>
      NumericCells(t.cols[source]) && QuantileEdgesApart(t.cols[source], q)
  }

  /** The humidities a missing humidity category is cut from are numbers
      or gaps. */
  predicate HumidityReady(t: Table)
  {
    "humidity" in t.cols && "humidity_category" !in t.cols ==> NumericCells(t.cols["humidity"])
  }

  predicate CategoriesReady(t: Table)
  {
    QCutReady(t, "temp", "temp_category", 4) && QCutReady(t, "atemp", "atemp_category", 4) && HumidityReady(t)
  }

  /** The wind speeds are numbers or gaps, and after the zero rewrite their
      four quantile edges (three bins) are all different. */
  predicate WindReady(t: Table)
  {
    "windspeed" in t.cols && "windspeed_category" !in t.cols ==>
      NumericCells(t.cols["windspeed"]) && QuantileEdgesApart(ReplaceZeros(t.cols["windspeed"]), 3)
  }

  /** What `feature_engineering` needs of its input not to raise: the
      timestamps are timestamps, and every column fed to `+`, `pd.cut` or
      `pd.qcut` holds numbers (text raises a TypeError) with distinct
      quantile edges (a repeated edge raises a ValueError). */
  predicate FeatureReady(t: Table)
  {
    WellFormed(t) && CalendarReady(t) && CountReady(t) && CategoriesReady(t) && WindReady(t)
  }

  /** For the wind speeds 0, 0, 10, 20, 30 the source raises: the zeros
      become the median 10, and the lowest two of the four quantile edges
      of 10, 10, 10, 20, 30 (three bins) are both 10, which
      `pd.qcut` refuses. So a table with these wind speeds and no wind-speed
      category is not one feature_engineering can process. */
  lemma WindExampleNotReady(t: Table)
    requires "windspeed" in t.cols && "windspeed_category" !in t.cols
    requires t.cols["windspeed"] == [Some(Num(0.0)), Some(Num(0.0)), Some(Num(10.0)), Some(Num(20.0)), Some(Num(30.0))]
    ensures !WindReady(t)
  {
    var col := t.cols["windspeed"];
    assert NumericCells(col);
    WindExampleEdges(col);
  }

  lemma WindExampleEdges(col: Column)
    requires NumericCells(col)
    requires |col| == 5 && col[0] == Some(Num(0.0)) && col[1] == Some(Num(0.0))
    requires col[2] == Some(Num(10.0)) && col[3] == Some(Num(20.0)) && col[4] == Some(Num(30.0))
    ensures !QuantileEdgesApart(ReplaceZeros(col), 3)
  {
    NumbersOfWindExample(col);
    MedianOfWindExample();
    ReplacedWindExample(col);
    AdjustedWindEdgesRepeat(ReplaceZeros(col));
  }

  lemma AdjustedWindEdgesRepeat(col: Column)
    requires col == [Some(Num(10.0)), Some(Num(10.0)), Some(Num(10.0)), Some(Num(20.0)), Some(Num(30.0))]
    ensures !QuantileEdgesApart(col, 3)
  {
    assert Filled(col);
    var xs := PresentNumbers(col);
    assert xs == [10.0, 10.0, 10.0, 20.0, 30.0];
    SortAdjustedWindExample();
    EdgesOfAdjustedWind(Sort(xs));
  }

  lemma EdgesOfAdjustedWind(t: seq<real>)
    requires t == [10.0, 10.0, 10.0, 20.0, 30.0]
    ensures QuantileEdges(t, 3)[0] == QuantileEdges(t, 3)[1]
  {
    var e := QuantileEdges(t, 3);
    assert Level(1, 3) == 1.0 / 3.0;
    var p := QuantilePosition(5, 1.0 / 3.0);
    assert p.0 == 1;
    assert e[1] == Interpolate(t[1], t[2], p.1);
  }

  const CalendarNames: set<string> := {"hour", "day_of_week", "weekday", "month", "year", "date"}
  const LabelNames: set<string> := {"season_label", "weather_label"}
  const CategoryNames: set<string> := {"temp_category", "atemp_category", "humidity_category"}
  const WindNames: set<string> := {"windspeed", "windspeed_category"}

  /** The calendar fields of `datetime`, when there is one. */
  function CalendarStep(t: Table, calendar: (string, int) -> Value): (r: Table)
    requires WellFormed(t) && CalendarReady(t)
    ensures WellFormed(r) && Keeps(t, r, CalendarNames)
    ensures "datetime" !in t.cols ==> r == t
    ensures "datetime" in t.cols ==> forall f :: f in CalendarNames ==>
      f in r.cols && r.cols[f] == CalendarColumn(t.cols["datetime"], f, calendar)
  {
    if "datetime" in t.cols then
      var dt := t.cols["datetime"];
      var n := t.rows;
      var h := Put(t.cols, n, "hour", CalendarColumn(dt, "hour", calendar));
      var d := Put(h, n, "day_of_week", CalendarColumn(dt, "day_of_week", calendar));
      var w := Put(d, n, "weekday", CalendarColumn(dt, "weekday", calendar));
      var m := Put(w, n, "month", CalendarColumn(dt, "month", calendar));
      var y := Put(m, n, "year", CalendarColumn(dt, "year", calendar));
      Table(n, Put(y, n, "date", CalendarColumn(dt, "date", calendar)))
    else t
  }

  /** The season and weather labels, recomputed whenever their code column
      is there. */
  function LabelStep(t: Table): (r: Table)
    requires WellFormed(t)
    ensures WellFormed(r) && Keeps(t, r, LabelNames)
    ensures "season" in t.cols ==> "season_label" in r.cols && r.cols["season_label"] == LabelCodes(SeasonMap, t.cols["season"])
    ensures "weather" in t.cols ==> "weather_label" in r.cols && r.cols["weather_label"] == LabelCodes(WeatherMap, t.cols["weather"])
    ensures "season" !in t.cols ==>
      ("season_label" in r.cols <==> "season_label" in t.cols) && ("season_label" in t.cols ==> r.cols["season_label"] == t.cols["season_label"])
    ensures "weather" !in t.cols ==>
      ("weather_label" in r.cols <==> "weather_label" in t.cols) && ("weather_label" in t.cols ==> r.cols["weather_label"] == t.cols["weather_label"])
  {
    var s := if "season" in t.cols then Put(t.cols, t.rows, "season_label", LabelCodes(SeasonMap, t.cols["season"])) else t.cols;
    var w := if "weather" in s then Put(s, t.rows, "weather_label", LabelCodes(WeatherMap, s["weather"])) else s;
    Table(t.rows, w)
  }

  /** `count`, when it is missing and both addends are there. */
  function CountStep(t: Table): (r: Table)
    requires WellFormed(t) && CountReady(t)
    ensures WellFormed(r) && Keeps(t, r, {"count"} - t.cols.Keys)
    ensures !("registered" in t.cols && "casual" in t.cols) ==> r == t
    ensures "count" !in t.cols && "registered" in t.cols && "casual" in t.cols ==>
      "count" in r.cols && r.cols["count"] == AddColumns(t.cols["registered"], t.cols["casual"])
  {
    if "count" !in t.cols && "registered" in t.cols && "casual" in t.cols
    then Table(t.rows, Put(t.cols, t.rows, "count", AddColumns(t.cols["registered"], t.cols["casual"])))
    else t
  }

  /** One quartile category, `pd.qcut(df[source], q=4, labels=TempLabels)`,
      when the source is there and the category is not. */
  function QuartileStep(t: Table, source: string, category: string): (r: Table)
    requires WellFormed(t) && QCutReady(t, source, category, 4)
    ensures WellFormed(r) && Keeps(t, r, {category} - t.cols.Keys)
    ensures source in t.cols && category !in t.cols ==>
      category in r.cols && r.cols[category] == QCut(t.cols[source], TempLabels)
    ensures source !in t.cols || category in t.cols ==> r == t
  {
    if source in t.cols && category !in t.cols
    then Table(t.rows, Put(t.cols, t.rows, category, QCut(t.cols[source], TempLabels)))
    else t
  }

  /** The humidity category, when humidity is there and the category is not. */
  function HumidityStep(t: Table): (r: Table)
    requires WellFormed(t) && HumidityReady(t)
    ensures WellFormed(r) && Keeps(t, r, {"humidity_category"} - t.cols.Keys)
    ensures "humidity" in t.cols && "humidity_category" !in t.cols ==>
      "humidity_category" in r.cols && r.cols["humidity_category"] == HumidityCategory(t.cols["humidity"])
    ensures "humidity" !in t.cols || "humidity_category" in t.cols ==> r == t
  {
    if "humidity" in t.cols && "humidity_category" !in t.cols
    then Table(t.rows, Put(t.cols, t.rows, "humidity_category", HumidityCategory(t.cols["humidity"])))
    else t
  }

  /** The temperature, apparent temperature and humidity categories that
      are not there yet, in the source's order. */
  function CategoryStep(t: Table): (r: Table)
    requires WellFormed(t) && CategoriesReady(t)
    ensures WellFormed(r) && Keeps(t, r, CategoryNames - t.cols.Keys)
    ensures "temp" in t.cols && "temp_category" !in t.cols ==>
      "temp_category" in r.cols && r.cols["temp_category"] == QCut(t.cols["temp"], TempLabels)
    ensures "atemp" in t.cols && "atemp_category" !in t.cols ==>
      "atemp_category" in r.cols && r.cols["atemp_category"] == QCut(t.cols["atemp"], TempLabels)
    ensures "humidity" in t.cols && "humidity_category" !in t.cols ==>
      "humidity_category" in r.cols && r.cols["humidity_category"] == HumidityCategory(t.cols["humidity"])
    ensures "temp" !in t.cols && "temp_category" !in t.cols ==> "temp_category" !in r.cols
    ensures "atemp" !in t.cols && "atemp_category" !in t.cols ==> "atemp_category" !in r.cols
    ensures "humidity" !in t.cols && "humidity_category" !in t.cols ==> "humidity_category" !in r.cols
  {
    var t1 := QuartileStep(t, "temp", "temp_category");
    AfterTempCategory(t, t1);
    var t2 := QuartileStep(t1, "atemp", "atemp_category");
    AfterAtempCategory(t1, t2);
    var r := HumidityStep(t2);
    CategoryStepChain(t, t1, t2, r);
    r
  }

  lemma AfterTempCategory(t: Table, t1: Table)
    requires WellFormed(t) && CategoriesReady(t) && Keeps(t, t1, {"temp_category"} - t.cols.Keys)
    ensures QCutReady(t1, "atemp", "atemp_category", 4) && HumidityReady(t1)
  {
  }

  lemma AfterAtempCategory(t1: Table, t2: Table)
    requires HumidityReady(t1) && Keeps(t1, t2, {"atemp_category"} - t1.cols.Keys)
    ensures HumidityReady(t2)
  {
  }

  /** How the three category updates add up: only missing categories are
      added, each source reaches its update unchanged, and each category
      added survives the later updates. */
  lemma CategoryStepChain(t: Table, t1: Table, t2: Table, r: Table)
    requires Keeps(t, t1, {"temp_category"} - t.cols.Keys)
    requires Keeps(t1, t2, {"atemp_category"} - t1.cols.Keys)
    requires Keeps(t2, r, {"humidity_category"} - t2.cols.Keys)
    ensures Keeps(t, r, CategoryNames - t.cols.Keys)
    ensures "temp_category" in t1.cols ==> "temp_category" in r.cols && r.cols["temp_category"] == t1.cols["temp_category"]
    ensures "atemp" in t.cols ==> t1.cols["atemp"] == t.cols["atemp"]
    ensures "atemp_category" !in t.cols ==> "atemp_category" !in t1.cols
    ensures "atemp_category" in t2.cols ==> "atemp_category" in r.cols && r.cols["atemp_category"] == t2.cols["atemp_category"]
    ensures "humidity" in t.cols ==> t2.cols["humidity"] == t.cols["humidity"]
    ensures "humidity_category" !in t.cols ==> "humidity_category" !in t2.cols
  {
    var s := CategoryNames - t.cols.Keys;
    KeepsWider(t, t1, {"temp_category"} - t.cols.Keys, s);
    KeepsWider(t1, t2, {"atemp_category"} - t1.cols.Keys, s);
    KeepsWider(t2, r, {"humidity_category"} - t2.cols.Keys, s);
    KeepsChain(t, t1, t2, s);
    KeepsChain(t, t2, r, s);
  }

  /** The wind-speed step, when there is no wind-speed category yet: zeros
      become the median, then the rewritten speeds are binned in three. */
  function WindStep(t: Table): (r: Table)
    requires WellFormed(t) && WindReady(t)
    ensures WellFormed(r) && Keeps(t, r, if "windspeed_category" in t.cols then {} else WindNames)
    ensures "windspeed" in t.cols && "windspeed_category" !in t.cols ==>
      r.cols["windspeed"] == ReplaceZeros(t.cols["windspeed"]) &&
      "windspeed_category" in r.cols && r.cols["windspeed_category"] == QCut(ReplaceZeros(t.cols["windspeed"]), WindLabels)
    ensures "windspeed" !in t.cols || "windspeed_category" in t.cols ==> r == t
  {
    if "windspeed" in t.cols && "windspeed_category" !in t.cols then
      var w := Put(t.cols, t.rows, "windspeed", ReplaceZeros(t.cols["windspeed"]));
      Table(t.rows, Put(w, t.rows, "windspeed_category", QCut(w["windspeed"], WindLabels)))
    else t
  }

  /** Readiness for the later steps survives the earlier ones, which touch
      none of the columns it is about. */
  lemma CountReadyKept(t: Table, r: Table, changed: set<string>)
    requires WellFormed(t) && Keeps(t, r, changed) && CountReady(t)
    requires "count" !in changed && "registered" !in changed && "casual" !in changed
    ensures CountReady(r)
  {
  }

  lemma CategoriesReadyKept(t: Table, r: Table, changed: set<string>)
    requires WellFormed(t) && Keeps(t, r, changed) && CategoriesReady(t)
    requires "temp" !in changed && "temp_category" !in changed && "atemp" !in changed
    requires "atemp_category" !in changed && "humidity" !in changed && "humidity_category" !in changed
    ensures CategoriesReady(r)
  {
  }

  lemma WindReadyKept(t: Table, r: Table, changed: set<string>)
    requires WellFormed(t) && Keeps(t, r, changed) && WindReady(t)
    requires "windspeed" !in changed && "windspeed_category" !in changed
    ensures WindReady(r)
  {
  }

  lemma AfterCalendar(t: Table, calendar: (string, int) -> Value)
    requires FeatureReady(t)
    ensures var r := CalendarStep(t, calendar); CountReady(r) && CategoriesReady(r) && WindReady(r)
  {
    var r := CalendarStep(t, calendar);
    CountReadyKept(t, r, CalendarNames);
    CategoriesReadyKept(t, r, CalendarNames);
    WindReadyKept(t, r, CalendarNames);
  }

  lemma AfterLabels(t: Table)
    requires WellFormed(t) && CountReady(t) && CategoriesReady(t) && WindReady(t)
    ensures var r := LabelStep(t); CountReady(r) && CategoriesReady(r) && WindReady(r)
  {
    var r := LabelStep(t);
    CountReadyKept(t, r, LabelNames);
    CategoriesReadyKept(t, r, LabelNames);
    WindReadyKept(t, r, LabelNames);
  }

  lemma AfterCount(t: Table)
    requires WellFormed(t) && CountReady(t) && CategoriesReady(t) && WindReady(t)
    ensures var r := CountStep(t); CategoriesReady(r) && WindReady(r)
  {
    var r := CountStep(t);
    CategoriesReadyKept(t, r, {"count"} - t.cols.Keys);
    WindReadyKept(t, r, {"count"} - t.cols.Keys);
  }

  lemma AfterCategories(t: Table)
    requires WellFormed(t) && CategoriesReady(t) && WindReady(t)
    ensures WindReady(CategoryStep(t))
  {
    WindReadyKept(t, CategoryStep(t), CategoryNames - t.cols.Keys);
  }

  /** The table `feature_engineering` leaves behind: its steps in the
      source's order. */
  function Engineered(t: Table, calendar: (string, int) -> Value): (r: Table)
    requires FeatureReady(t)
    ensures WellFormed(r) && r.rows == t.rows
  {
    AfterCalendar(t, calendar);
    var t1 := CalendarStep(t, calendar);
    AfterLabels(t1);
    var t2 := LabelStep(t1);
    AfterCount(t2);
    var t3 := CountStep(t2);
    AfterCategories(t3);
    WindStep(CategoryStep(t3))
  }

  /** The names feature_engineering reads and writes are all different. */
  lemma NamesApart()
    ensures forall c :: c in CalendarNames ==> c !in LabelNames && c !in CategoryNames && c !in WindNames && c != "count"
    ensures forall c :: c in LabelNames ==> c !in CategoryNames && c !in WindNames && c != "count"
    ensures forall c :: c in CategoryNames ==> c !in WindNames && c != "count"
    ensures "count" !in WindNames
    ensures forall c :: c in {"season", "weather", "registered", "casual", "temp", "atemp", "humidity"} ==>
      c !in CalendarNames && c !in LabelNames && c !in CategoryNames && c !in WindNames && c != "count"
    ensures "windspeed" in WindNames && "windspeed_category" in WindNames
    ensures "temp_category" in CategoryNames && "atemp_category" in CategoryNames && "humidity_category" in CategoryNames
    ensures "season_label" in LabelNames && "weather_label" in LabelNames
  {
  }

  /** The intermediate tables of `Engineered`, and what each step keeps. */
  lemma Stages(t: Table, calendar: (string, int) -> Value) returns (t1: Table, t2: Table, t3: Table, t4: Table)
    requires FeatureReady(t)
    ensures WellFormed(t1) && t1 == CalendarStep(t, calendar) && Keeps(t, t1, CalendarNames)
    ensures CountReady(t1) && CategoriesReady(t1) && WindReady(t1)
    ensures WellFormed(t2) && t2 == LabelStep(t1) && Keeps(t1, t2, LabelNames)
    ensures CountReady(t2) && CategoriesReady(t2) && WindReady(t2)
    ensures WellFormed(t3) && t3 == CountStep(t2) && Keeps(t2, t3, {"count"} - t2.cols.Keys)
    ensures CategoriesReady(t3) && WindReady(t3)
    ensures WellFormed(t4) && t4 == CategoryStep(t3) && Keeps(t3, t4, CategoryNames - t3.cols.Keys)
    ensures WindReady(t4) && Engineered(t, calendar) == WindStep(t4)
  {
    AfterCalendar(t, calendar);
    t1 := CalendarStep(t, calendar);
    AfterLabels(t1);
    t2 := LabelStep(t1);
    AfterCount(t2);
    t3 := CountStep(t2);
    AfterCategories(t3);
    t4 := CategoryStep(t3);
  }

  lemma KeepsChain(a: Table, b: Table, c: Table, s: set<string>)
    requires Keeps(a, b, s) && Keeps(b, c, s)
    ensures Keeps(a, c, s)
  {
  }

  lemma KeepsWider(a: Table, b: Table, s1: set<string>, s2: set<string>)
    requires Keeps(a, b, s1) && s1 <= s2
    ensures Keeps(a, b, s2)
  {
  }

  /** A column outside the changed names comes through a step unchanged. */
  lemma KeepsColumn(a: Table, b: Table, s: set<string>, c: string)
    requires Keeps(a, b, s) && c in a.cols && c !in s
    ensures c in b.cols && b.cols[c] == a.cols[c]
  {
  }

  /** Every name feature_engineering may write. */
  const FeatureNames: set<string> := CalendarNames + LabelNames + {"count"} + CategoryNames + WindNames

  lemma StepNamesInFeatureNames(t: Table)
    ensures CalendarNames <= FeatureNames && LabelNames <= FeatureNames
    ensures {"count"} - t.cols.Keys <= FeatureNames && CategoryNames - t.cols.Keys <= FeatureNames
    ensures (if "windspeed_category" in t.cols then {} else WindNames) <= FeatureNames
  {
  }

  /** feature_engineering keeps the rows, drops no column, and adds or
      rewrites only the columns it names. */
  lemma EngineeredFrame(t: Table, calendar: (string, int) -> Value)
    requires FeatureReady(t)
    ensures Keeps(t, Engineered(t, calendar), FeatureNames)
  {
    var t1, t2, t3, t4 := Stages(t, calendar);
    var r := WindStep(t4);
    StepNamesInFeatureNames(t2);
    StepNamesInFeatureNames(t3);
    StepNamesInFeatureNames(t4);
    KeepsWider(t, t1, CalendarNames, FeatureNames);
    KeepsWider(t1, t2, LabelNames, FeatureNames);
    KeepsWider(t2, t3, {"count"} - t2.cols.Keys, FeatureNames);
    KeepsWider(t3, t4, CategoryNames - t3.cols.Keys, FeatureNames);
    KeepsWider(t4, r, if "windspeed_category" in t4.cols then {} else WindNames, FeatureNames);
    KeepsChain(t, t1, t2, FeatureNames);
    KeepsChain(t, t2, t3, FeatureNames);
    KeepsChain(t, t3, t4, FeatureNames);
    KeepsChain(t, t4, r, FeatureNames);
  }

  /** The columns whose presence guards the block that writes `c`: the
      calendar fields need `datetime`, a label its code column, `count` both
      addends, a category its source, and the wind-speed columns `windspeed`.
      Empty for a column feature_engineering never writes. */
  function SourcesOf(c: string): set<string>
  {
    if c in CalendarNames then {"datetime"}
    else if c == "season_label" then {"season"}
    else if c == "weather_label" then {"weather"}
    else if c == "count" then {"registered", "casual"}
    else if c == "temp_category" then {"temp"}
    else if c == "atemp_category" then {"atemp"}
    else if c == "humidity_category" then {"humidity"}
    else if c in WindNames then {"windspeed"}
    else {}
  }

  /** The sources of each derived column other than the calendar fields. */
  lemma SourcesOfDerived()
    ensures SourcesOf("season_label") == {"season"} && SourcesOf("weather_label") == {"weather"}
    ensures SourcesOf("count") == {"registered", "casual"}
    ensures SourcesOf("temp_category") == {"temp"} && SourcesOf("atemp_category") == {"atemp"}
    ensures SourcesOf("humidity_category") == {"humidity"}
    ensures SourcesOf("windspeed") == {"windspeed"} && SourcesOf("windspeed_category") == {"windspeed"}
  {
  }

  /** Some source of `c` is missing from `t`. */
  predicate Unsourced(t: Table, c: string)
  {
    !(SourcesOf(c) <= t.cols.Keys)
  }

  /** A step that writes none of the sources of `c` cannot supply a
      missing one. */
  lemma UnsourcedKept(t: Table, r: Table, changed: set<string>, c: string)
    requires Keeps(t, r, changed) && Unsourced(t, c) && SourcesOf(c) !! changed
    ensures Unsourced(r, c)
  {
    var s :| s in SourcesOf(c) && s !in t.cols;
    assert s !in r.cols;
  }

  lemma SourcesApart(c: string)
    ensures SourcesOf(c) !! CalendarNames && SourcesOf(c) !! LabelNames
    ensures "count" !in SourcesOf(c) && SourcesOf(c) !! CategoryNames
  {
  }

  // A missing column stays missing through each block, given only what
  // the block promises: it writes nothing its missing source guards.

  lemma CalendarAddsNoUnsourced(t: Table, r: Table, c: string)
    requires Keeps(t, r, CalendarNames) && ("datetime" !in t.cols ==> r == t)
    requires c !in t.cols && Unsourced(t, c)
    ensures c !in r.cols && Unsourced(r, c)
  {
    SourcesApart(c);
    UnsourcedKept(t, r, CalendarNames, c);
  }

  lemma LabelsAddNoUnsourced(t: Table, r: Table, c: string)
    requires Keeps(t, r, LabelNames)
    requires "season" !in t.cols ==> ("season_label" in r.cols <==> "season_label" in t.cols)
    requires "weather" !in t.cols ==> ("weather_label" in r.cols <==> "weather_label" in t.cols)
    requires c !in t.cols && Unsourced(t, c)
    ensures c !in r.cols && Unsourced(r, c)
  {
    SourcesApart(c);
    UnsourcedKept(t, r, LabelNames, c);
  }

  lemma CountAddsNoUnsourced(t: Table, r: Table, c: string)
    requires Keeps(t, r, {"count"} - t.cols.Keys) && (!("registered" in t.cols && "casual" in t.cols) ==> r == t)
    requires c !in t.cols && Unsourced(t, c)
    ensures c !in r.cols && Unsourced(r, c)
  {
    SourcesApart(c);
    UnsourcedKept(t, r, {"count"} - t.cols.Keys, c);
  }

  lemma CategoriesAddNoUnsourced(t: Table, r: Table, c: string)
    requires Keeps(t, r, CategoryNames - t.cols.Keys)
    requires "temp" !in t.cols && "temp_category" !in t.cols ==> "temp_category" !in r.cols
    requires "atemp" !in t.cols && "atemp_category" !in t.cols ==> "atemp_category" !in r.cols
    requires "humidity" !in t.cols && "humidity_category" !in t.cols ==> "humidity_category" !in r.cols
    requires c !in t.cols && Unsourced(t, c)
    ensures c !in r.cols && Unsourced(r, c)
  {
    SourcesApart(c);
    UnsourcedKept(t, r, CategoryNames - t.cols.Keys, c);
  }

  lemma WindAddsNoUnsourced(t: Table, r: Table, wind: set<string>, c: string)
    requires Keeps(t, r, wind) && wind <= WindNames && ("windspeed" !in t.cols ==> r == t)
    requires c !in t.cols && Unsourced(t, c)
    ensures c !in r.cols
  {
  }

  /** A column feature_engineering derives from source columns is not
      created when one of those sources is missing: each block is guarded by
      the presence of its sources. */
  lemma EngineeredNoUnsourcedColumn(t: Table, calendar: (string, int) -> Value, c: string)
    requires FeatureReady(t) && c !in t.cols && Unsourced(t, c)
    ensures c !in Engineered(t, calendar).cols
  {
    var t1, t2, t3, t4 := Stages(t, calendar);
    var wind := if "windspeed_category" in t4.cols then {} else WindNames;
    CalendarAddsNoUnsourced(t, t1, c);
    LabelsAddNoUnsourced(t1, t2, c);
    CountAddsNoUnsourced(t2, t3, c);
    CategoriesAddNoUnsourced(t3, t4, c);
    WindAddsNoUnsourced(t4, WindStep(t4), wind, c);
  }

  /** The calendar fields are those of the incoming timestamps when there
      is a `datetime` column; without one they are left as they were. */
  lemma EngineeredCalendar(t: Table, calendar: (string, int) -> Value)
    requires FeatureReady(t)
    ensures var r := Engineered(t, calendar);
      "datetime" in t.cols ==> forall f :: f in CalendarNames ==>
        f in r.cols && r.cols[f] == CalendarColumn(t.cols["datetime"], f, calendar)
    ensures var r := Engineered(t, calendar);
      "datetime" !in t.cols ==> forall f :: f in CalendarNames ==>
        (f in r.cols <==> f in t.cols) && (f in t.cols ==> r.cols[f] == t.cols[f])
  {
    NamesApart();
    var t1, t2, t3, t4 := Stages(t, calendar);
    var r := WindStep(t4);
    var wind := if "windspeed_category" in t4.cols then {} else WindNames;
    forall f | f in CalendarNames && f in t1.cols
      ensures f in r.cols && r.cols[f] == t1.cols[f]
    {
      KeepsColumn(t1, t2, LabelNames, f);
      KeepsColumn(t2, t3, {"count"} - t2.cols.Keys, f);
      KeepsColumn(t3, t4, CategoryNames - t3.cols.Keys, f);
      KeepsColumn(t4, r, wind, f);
    }
    if "datetime" !in t.cols {
      forall f | f in CalendarNames && f !in t.cols
        ensures f !in r.cols
      {
        EngineeredNoUnsourcedColumn(t, calendar, f);
      }
    }
  }

  /** `count` is added as `registered + casual` (row by row, see
      `AddColumns`) only when it is missing and both addends are there; it
      is not added otherwise. */
  lemma EngineeredCount(t: Table, calendar: (string, int) -> Value)
    requires FeatureReady(t)
    ensures var r := Engineered(t, calendar);
      "count" !in t.cols && "registered" in t.cols && "casual" in t.cols ==>
        "count" in r.cols && r.cols["count"] == AddColumns(t.cols["registered"], t.cols["casual"])
    ensures var r := Engineered(t, calendar);
      "count" !in t.cols && !("registered" in t.cols && "casual" in t.cols) ==> "count" !in r.cols
  {
    NamesApart();
    var t1, t2, t3, t4 := Stages(t, calendar);
    var r := WindStep(t4);
    var later := CategoryNames - t3.cols.Keys;
    var wind := if "windspeed_category" in t4.cols then {} else WindNames;
    if "count" !in t.cols {
      assert "count" !in t1.cols && "count" !in t2.cols;
      if "registered" in t.cols && "casual" in t.cols {
        KeepsColumn(t, t1, CalendarNames, "registered");
        KeepsColumn(t1, t2, LabelNames, "registered");
        KeepsColumn(t, t1, CalendarNames, "casual");
        KeepsColumn(t1, t2, LabelNames, "casual");
        assert t3.cols["count"] == AddColumns(t.cols["registered"], t.cols["casual"]);
        KeepsColumn(t3, t4, later, "count");
        KeepsColumn(t4, r, wind, "count");
      } else {
        assert !("registered" in t2.cols && "casual" in t2.cols);
        assert "count" !in t3.cols;
        assert "count" !in t4.cols;
      }
    }
  }

  /** The season label is (re)computed whenever there is a season column,
      from the codes as they came in. */
  lemma EngineeredSeasonLabel(t: Table, calendar: (string, int) -> Value)
    requires FeatureReady(t)
    ensures var r := Engineered(t, calendar);
      "season" in t.cols ==> "season_label" in r.cols && r.cols["season_label"] == LabelCodes(SeasonMap, t.cols["season"])
    ensures var r := Engineered(t, calendar);
      "season" !in t.cols ==>
        ("season_label" in r.cols <==> "season_label" in t.cols) && ("season_label" in t.cols ==> r.cols["season_label"] == t.cols["season_label"])
  {
    NamesApart();
    var t1, t2, t3, t4 := Stages(t, calendar);
    if "season" !in t.cols {
      if "season_label" in t.cols {
        KeepsColumn(t, t1, CalendarNames, "season_label");
        KeepsColumn(t2, t3, {"count"} - t2.cols.Keys, "season_label");
        KeepsColumn(t3, t4, CategoryNames - t3.cols.Keys, "season_label");
        KeepsColumn(t4, WindStep(t4), if "windspeed_category" in t4.cols then {} else WindNames, "season_label");
      } else {
        SourcesOfDerived();
        EngineeredNoUnsourcedColumn(t, calendar, "season_label");
      }
    } else {
      KeepsColumn(t, t1, CalendarNames, "season");
      assert t2.cols["season_label"] == LabelCodes(SeasonMap, t.cols["season"]);
      KeepsColumn(t2, t3, {"count"} - t2.cols.Keys, "season_label");
      KeepsColumn(t3, t4, CategoryNames - t3.cols.Keys, "season_label");
      KeepsColumn(t4, WindStep(t4), if "windspeed_category" in t4.cols then {} else WindNames, "season_label");
    }
  }

  /** The same for the weather label. */
  lemma EngineeredWeatherLabel(t: Table, calendar: (string, int) -> Value)
    requires FeatureReady(t)
    ensures var r := Engineered(t, calendar);
      "weather" in t.cols ==> "weather_label" in r.cols && r.cols["weather_label"] == LabelCodes(WeatherMap, t.cols["weather"])
    ensures var r := Engineered(t, calendar);
      "weather" !in t.cols ==>
        ("weather_label" in r.cols <==> "weather_label" in t.cols) && ("weather_label" in t.cols ==> r.cols["weather_label"] == t.cols["weather_label"])
  {
    NamesApart();
    var t1, t2, t3, t4 := Stages(t, calendar);
    if "weather" !in t.cols {
      if "weather_label" in t.cols {
        KeepsColumn(t, t1, CalendarNames, "weather_label");
        KeepsColumn(t2, t3, {"count"} - t2.cols.Keys, "weather_label");
        KeepsColumn(t3, t4, CategoryNames - t3.cols.Keys, "weather_label");
        KeepsColumn(t4, WindStep(t4), if "windspeed_category" in t4.cols then {} else WindNames, "weather_label");
      } else {
        SourcesOfDerived();
        EngineeredNoUnsourcedColumn(t, calendar, "weather_label");
      }
    } else {
      KeepsColumn(t, t1, CalendarNames, "weather");
      assert t2.cols["weather_label"] == LabelCodes(WeatherMap, t.cols["weather"]);
      KeepsColumn(t2, t3, {"count"} - t2.cols.Keys, "weather_label");
      KeepsColumn(t3, t4, CategoryNames - t3.cols.Keys, "weather_label");
      KeepsColumn(t4, WindStep(t4), if "windspeed_category" in t4.cols then {} else WindNames, "weather_label");
    }
  }

  /** A missing temperature category is computed from the temperatures as
      they came in; the apparent temperature and humidity categories are
      computed the same way from their own columns. */
  lemma EngineeredCategories(t: Table, calendar: (string, int) -> Value)
    requires FeatureReady(t)
    ensures var r := Engineered(t, calendar);
      "temp" in t.cols && "temp_category" !in t.cols ==>
        "temp_category" in r.cols && r.cols["temp_category"] == QCut(t.cols["temp"], TempLabels)
    ensures var r := Engineered(t, calendar);
      "atemp" in t.cols && "atemp_category" !in t.cols ==>
        "atemp_category" in r.cols && r.cols["atemp_category"] == QCut(t.cols["atemp"], TempLabels)
    ensures var r := Engineered(t, calendar);
      "humidity" in t.cols && "humidity_category" !in t.cols ==>
        "humidity_category" in r.cols && r.cols["humidity_category"] == HumidityCategory(t.cols["humidity"])
  {
    NamesApart();
    var t1, t2, t3, t4 := Stages(t, calendar);
    var r := WindStep(t4);
    var wind := if "windspeed_category" in t4.cols then {} else WindNames;
    CategorySurvives(t, t1, t2, t3, t4, r, "temp", "temp_category", wind);
    CategorySurvives(t, t1, t2, t3, t4, r, "atemp", "atemp_category", wind);
    CategorySurvives(t, t1, t2, t3, t4, r, "humidity", "humidity_category", wind);
  }

  /** The source of a category reaches the category step unchanged, and the
      category it computes reaches the end unchanged. */
  lemma CategorySurvives(t: Table, t1: Table, t2: Table, t3: Table, t4: Table, r: Table,
                         source: string, category: string, wind: set<string>)
    requires Keeps(t, t1, CalendarNames) && Keeps(t1, t2, LabelNames) && Keeps(t2, t3, {"count"} - t2.cols.Keys)
    requires Keeps(t3, t4, CategoryNames - t3.cols.Keys) && Keeps(t4, r, wind) && wind <= WindNames
    requires source in {"temp", "atemp", "humidity"} && category in CategoryNames
    ensures source in t.cols && category !in t.cols ==>
      source in t3.cols && t3.cols[source] == t.cols[source] && category !in t3.cols
    ensures category in t4.cols ==> category in r.cols && r.cols[category] == t4.cols[category]
  {
    NamesApart();
  }

  /** No category appears without its source column: a category that was
      missing stays missing when its source is missing too. */
  lemma EngineeredCategoriesNeedSources(t: Table, calendar: (string, int) -> Value)
    requires FeatureReady(t)
    ensures var r := Engineered(t, calendar);
      && ("temp" !in t.cols && "temp_category" !in t.cols ==> "temp_category" !in r.cols)
      && ("atemp" !in t.cols && "atemp_category" !in t.cols ==> "atemp_category" !in r.cols)
      && ("humidity" !in t.cols && "humidity_category" !in t.cols ==> "humidity_category" !in r.cols)
  {
    SourcesOfDerived();
    if "temp" !in t.cols && "temp_category" !in t.cols {
      EngineeredNoUnsourcedColumn(t, calendar, "temp_category");
    }
    if "atemp" !in t.cols && "atemp_category" !in t.cols {
      EngineeredNoUnsourcedColumn(t, calendar, "atemp_category");
    }
    if "humidity" !in t.cols && "humidity_category" !in t.cols {
      EngineeredNoUnsourcedColumn(t, calendar, "humidity_category");
    }
  }

  /** Without wind speeds, no wind-speed column appears. */
  lemma EngineeredWindNeedsSpeeds(t: Table, calendar: (string, int) -> Value)
    requires FeatureReady(t)
    ensures var r := Engineered(t, calendar);
      "windspeed" !in t.cols && "windspeed_category" !in t.cols ==>
        "windspeed" !in r.cols && "windspeed_category" !in r.cols
  {
    SourcesOfDerived();
    if "windspeed" !in t.cols && "windspeed_category" !in t.cols {
      EngineeredNoUnsourcedColumn(t, calendar, "windspeed");
      EngineeredNoUnsourcedColumn(t, calendar, "windspeed_category");
    }
  }

  /** A column feature_engineering would compute is left as it is when it
      is already there: `count`, the three categories, and both wind-speed
      columns once there is a wind-speed category. */
  lemma EngineeredKeepsExisting(t: Table, calendar: (string, int) -> Value, c: string)
    requires FeatureReady(t) && c in t.cols
    requires c == "count" || c in CategoryNames || ("windspeed_category" in t.cols && c in WindNames)
    ensures var r := Engineered(t, calendar); c in r.cols && r.cols[c] == t.cols[c]
  {
    NamesApart();
    var t1, t2, t3, t4 := Stages(t, calendar);
    KeepsColumn(t, t1, CalendarNames, c);
    KeepsColumn(t1, t2, LabelNames, c);
    KeepsColumn(t2, t3, {"count"} - t2.cols.Keys, c);
    KeepsColumn(t3, t4, CategoryNames - t3.cols.Keys, c);
    KeepsColumn(t4, WindStep(t4), if "windspeed_category" in t4.cols then {} else WindNames, c);
  }

  /** Without a wind-speed category, the zeros of `windspeed` become the
      median of the incoming speeds and the category bins the rewritten
      speeds in three. */
  lemma EngineeredWind(t: Table, calendar: (string, int) -> Value)
    requires FeatureReady(t)
    ensures var r := Engineered(t, calendar);
      "windspeed" in t.cols && "windspeed_category" !in t.cols ==>
        && "windspeed_category" in r.cols
        && r.cols["windspeed"] == ReplaceZeros(t.cols["windspeed"])
        && r.cols["windspeed_category"] == QCut(ReplaceZeros(t.cols["windspeed"]), WindLabels)
  {
    NamesApart();
    var t1, t2, t3, t4 := Stages(t, calendar);
    if "windspeed" in t.cols && "windspeed_category" !in t.cols {
      KeepsColumn(t, t1, CalendarNames, "windspeed");
      KeepsColumn(t1, t2, LabelNames, "windspeed");
      KeepsColumn(t2, t3, {"count"} - t2.cols.Keys, "windspeed");
      KeepsColumn(t3, t4, CategoryNames - t3.cols.Keys, "windspeed");
      assert "windspeed_category" !in t2.cols;
      assert "windspeed_category" !in t4.cols;
      assert t4.cols["windspeed"] == t.cols["windspeed"];
      var w := ReplaceZeros(t4.cols["windspeed"]);
      assert WindStep(t4).cols == t4.cols["windspeed" := w]["windspeed_category" := QCut(w, WindLabels)];
      assert WindStep(t4).cols["windspeed"] == w;
    }
  }

  /** Run in the source's order, imputation leaves every listed numeric
      column without a gap, so the `registered + casual` sum of
      feature_engineering only ever sees numbers. */
  lemma ImputedFeedsFeatures(t: Table, parse: string -> Option<real>)
    requires WellFormed(t)
    ensures var r := Imputed(t, parse);
      && (forall c :: c in r.cols && c in NumericColumns ==> Filled(r.cols[c]))
      && CountReady(r)
  {
    var r := Imputed(t, parse);
    forall c | c in r.cols && c in NumericColumns
      ensures Filled(r.cols[c])
    {
      ImputedNumericColumn(t, parse, c);
    }
  }

  // ---------------------------------------------------------------------
  // the data frame object

  class DataFrame {
    var rows: nat
    var cols: map<string, Column>

    predicate Valid()
      reads this
    {
      forall c :: c in cols ==> |cols[c]| == rows
    }

    /** The frame's current contents as a table value. */
    function Snapshot(): (t: Table)
      reads this
      ensures Valid() <==> WellFormed(t)
    {
      Table(rows, cols)
    }

    constructor (t: Table)
      requires WellFormed(t)
      ensures Valid() && Snapshot() == t
    {
      rows := t.rows;
      cols := t.cols;
    }

    /** `impute_and_cast`: first every listed numeric column, then every
        listed code column, each overwritten in place when present. */
    method ImputeAndCast(parse: string -> Option<real>)
      requires Valid()
      modifies this
      ensures Valid() && Snapshot() == Imputed(old(Snapshot()), parse)
    {
      ColumnListsApart();
      ImputeNumbers(parse);
      CastCodes(parse);
      assert cols == Imputed(old(Snapshot()), parse).cols;
    }

    /** The first loop of `impute_and_cast`: each numeric column present is
        coerced to numbers and its gaps filled with its median (0 if none). */
    method ImputeNumbers(parse: string -> Option<real>)
      requires Valid()
      modifies this
      ensures Valid() && rows == old(rows) && cols.Keys == old(cols).Keys
      ensures forall c :: c in cols ==>
        cols[c] == (if c in NumericColumns then ImputeNumeric(old(cols)[c], parse) else old(cols)[c])
    {
      ColumnListsApart();
      var i := 0;
      while i < |NumericColumns|
        invariant 0 <= i <= |NumericColumns|
        invariant rows == old(rows) && cols.Keys == old(cols).Keys
        invariant forall c :: c in cols ==>
          cols[c] == (if c in NumericColumns[..i] then ImputeNumeric(old(cols)[c], parse) else old(cols)[c])
      {
        var c := NumericColumns[i];
        PrefixStep(NumericColumns, i);
        if c in cols {
          var nums := Coerce(cols[c], parse);
          var med := Median(PresentNumbers(nums));
          var fill := if med.None? then 0.0 else med.value;
          assert nums == Coerce(old(cols)[c], parse) && fill == MedianOrZero(nums);
          cols := cols[c := FillMissing(nums, fill)];
        }
        i := i + 1;
      }
      assert NumericColumns[..i] == NumericColumns;
    }

    /** The second loop of `impute_and_cast`: each code column present is
        coerced to numbers, its gaps set to 0, and truncated to whole codes. */
    method CastCodes(parse: string -> Option<real>)
      requires Valid()
      modifies this
      ensures Valid() && rows == old(rows) && cols.Keys == old(cols).Keys
      ensures forall c :: c in cols ==>
        cols[c] == (if c in CodeColumns then CastCode(old(cols)[c], parse) else old(cols)[c])
    {
      ColumnListsApart();
      var j := 0;
      while j < |CodeColumns|
        invariant 0 <= j <= |CodeColumns|
        invariant rows == old(rows) && cols.Keys == old(cols).Keys
        invariant forall c :: c in cols ==>
          cols[c] == (if c in CodeColumns[..j] then CastCode(old(cols)[c], parse) else old(cols)[c])
      {
        var c := CodeColumns[j];
        PrefixStep(CodeColumns, j);
        if c in cols {
          cols := cols[c := CastCode(cols[c], parse)];
        }
        j := j + 1;
      }
      assert CodeColumns[..j] == CodeColumns;
    }

    /** `feature_engineering`: the calendar fields, the two label columns,
        `count` when it is missing, then the category columns that are not
        there yet; the wind-speed step also rewrites `windspeed`. */
    method FeatureEngineering(calendar: (string, int) -> Value)
      requires FeatureReady(Snapshot())
      modifies this
      ensures Valid() && Snapshot() == Engineered(old(Snapshot()), calendar)
    {
      AfterCalendar(Snapshot(), calendar);
      AddCalendarFields(calendar);
      AfterLabels(Snapshot());
      AddLabels();
      AfterCount(Snapshot());
      AddCount();
      AfterCategories(Snapshot());
      AddCategories();
      AdjustWind();
    }

    /** data_processing.py lines 67-75: one column per calendar field of `datetime`. */
    method AddCalendarFields(calendar: (string, int) -> Value)
      requires Valid() && CalendarReady(Snapshot())
      modifies this
      ensures Valid() && Snapshot() == CalendarStep(old(Snapshot()), calendar)
    {
      if "datetime" in cols {
        var dt := cols["datetime"];
        cols := Put(cols, rows, "hour", CalendarColumn(dt, "hour", calendar));
        cols := Put(cols, rows, "day_of_week", CalendarColumn(dt, "day_of_week", calendar));
        cols := Put(cols, rows, "weekday", CalendarColumn(dt, "weekday", calendar));
        cols := Put(cols, rows, "month", CalendarColumn(dt, "month", calendar));
        cols := Put(cols, rows, "year", CalendarColumn(dt, "year", calendar));
        cols := Put(cols, rows, "date", CalendarColumn(dt, "date", calendar));
      }
    }

    /** data_processing.py lines 78-85: the season and weather labels. */
    method AddLabels()
      requires Valid()
      modifies this
      ensures Valid() && Snapshot() == LabelStep(old(Snapshot()))
    {
      if "season" in cols {
        cols := Put(cols, rows, "season_label", LabelCodes(SeasonMap, cols["season"]));
      }
      if "weather" in cols {
        cols := Put(cols, rows, "weather_label", LabelCodes(WeatherMap, cols["weather"]));
      }
    }

    /** data_processing.py lines 88-89: `count` from its two addends when it is missing. */
    method AddCount()
      requires Valid() && CountReady(Snapshot())
      modifies this
      ensures Valid() && Snapshot() == CountStep(old(Snapshot()))
    {
      if "count" !in cols && "registered" in cols && "casual" in cols {
        cols := Put(cols, rows, "count", AddColumns(cols["registered"], cols["casual"]));
      }
    }

    /** data_processing.py lines 93-100: the temperature and humidity categories not there yet. */
    method AddCategories()
      requires Valid() && CategoriesReady(Snapshot())
      modifies this
      ensures Valid() && Snapshot() == CategoryStep(old(Snapshot()))
    {
      if "temp" in cols && "temp_category" !in cols {
        cols := Put(cols, rows, "temp_category", QCut(cols["temp"], TempLabels));
      }
      ghost var t1 := Snapshot();
      assert t1 == QuartileStep(old(Snapshot()), "temp", "temp_category");
      AfterTempCategory(old(Snapshot()), t1);
      if "atemp" in cols && "atemp_category" !in cols {
        cols := Put(cols, rows, "atemp_category", QCut(cols["atemp"], TempLabels));
      }
      assert Snapshot() == QuartileStep(t1, "atemp", "atemp_category");
      AfterAtempCategory(t1, Snapshot());
      if "humidity" in cols && "humidity_category" !in cols {
        cols := Put(cols, rows, "humidity_category", HumidityCategory(cols["humidity"]));
      }
    }

    /** data_processing.py lines 102-105: zeros become the median, then three wind bins. */
    method AdjustWind()
      requires Valid() && WindReady(Snapshot())
      modifies this
      ensures Valid() && Snapshot() == WindStep(old(Snapshot()))
    {
      if "windspeed" in cols && "windspeed_category" !in cols {
        cols := Put(cols, rows, "windspeed", ReplaceZeros(cols["windspeed"]));
        cols := Put(cols, rows, "windspeed_category", QCut(cols["windspeed"], WindLabels));
      }
    }
  }
}
