/** `basic_clean` (src/data_processing.py): normalise the column names, parse
    the `datetime` column, and drop exact duplicate rows, renumbering the rows
    from zero. The table is a value here: every step builds a new one. */
module Clean {
  import opened Cells
  import opened Names
  import opened Dedup

  /** A table of `rows` rows: each column name maps to its cells, one per row.
      Row numbers are positions, so they always run 0..rows-1. */
  datatype Table = Table(rows: nat, cols: map<string, Column>)

  predicate WellFormed(t: Table)
  {
    forall c :: c in t.cols ==> |t.cols[c]| == t.rows
  }

  /** Row `i` as a record from column name to cell. Two rows are equal,
      in drop_duplicates' sense, when these records are equal (two missing
      cells count as equal, as pandas counts two NaN). */
  function Row(t: Table, i: nat): map<string, Cell>
    requires WellFormed(t) && i < t.rows
  {
    map c | c in t.cols :: t.cols[c][i]
  }

  function Rows(t: Table): (rs: seq<map<string, Cell>>)
    requires WellFormed(t)
    ensures |rs| == t.rows
    ensures forall i :: 0 <= i < t.rows ==> rs[i] == Row(t, i)
  {
    seq(t.rows, i requires 0 <= i < t.rows => Row(t, i))
  }

  /** No two of the names are sent to the same name by `f`. */
  predicate RenamedApart(names: set<string>, f: string -> string)
  {
    forall a, b :: a in names && b in names && f(a) == f(b) ==> a == b
  }

  /** `df.rename(columns=f)`: every column keeps its cells under the name `f`
      gives it. */
  function RenameColumns(t: Table, f: string -> string): (r: Table)
    requires WellFormed(t) && RenamedApart(t.cols.Keys, f)
    ensures WellFormed(r) && r.rows == t.rows
    ensures r.cols.Keys == set c | c in t.cols :: f(c)
    ensures forall c :: c in t.cols ==> r.cols[f(c)] == t.cols[c]
  {
    var cols := map c | c in t.cols :: f(c) := t.cols[c];
    forall k | k in cols
      ensures |cols[k]| == t.rows
    {
      var c :| c in t.cols && f(c) == k;
      assert cols[k] == t.cols[c];
    }
    Table(t.rows, cols)
  }

  /** `pd.to_datetime(..., errors="coerce")` on one cell; `parseTime` stands
      for pandas' date parser and answers `None` when it cannot read a value. */
  function ParseTimeCell(c: Cell, parseTime: Value -> Option<int>): (r: Cell)
    ensures r.Some? ==> r.value.Stamp?
    ensures c.None? ==> r.None?
    ensures c.Some? && parseTime(c.value).None? ==> r.None?
    ensures c.Some? && parseTime(c.value).Some? ==> r == Some(Stamp(parseTime(c.value).value))
  {
    match c
    case None => None
    case Some(v) => if parseTime(v).Some? then Some(Stamp(parseTime(v).value)) else None
  }

  /** Parse the `datetime` column when there is one; nothing else changes. */
  function ParseDatetime(t: Table, parseTime: Value -> Option<int>): (r: Table)
    requires WellFormed(t)
    ensures WellFormed(r) && r.rows == t.rows && r.cols.Keys == t.cols.Keys
    ensures forall c :: c in t.cols && c != "datetime" ==> r.cols[c] == t.cols[c]
    ensures "datetime" in t.cols ==> forall i :: 0 <= i < t.rows ==>
      r.cols["datetime"][i] == ParseTimeCell(t.cols["datetime"][i], parseTime)
  {
    if "datetime" in t.cols then
      var col := t.cols["datetime"];
      Table(t.rows, t.cols["datetime" := seq(|col|, i requires 0 <= i < |col| => ParseTimeCell(col[i], parseTime))])
    else t
  }

  /** `df.drop_duplicates().reset_index(drop=True)`: keep the first row of
      every group of equal rows, in their original order. pandas hands back an
      empty frame (no rows, or no columns) as it is, so a table with rows but
      no columns keeps every row. */
  function DropDuplicates(t: Table): (r: Table)
    requires WellFormed(t)
    ensures WellFormed(r) && r.cols.Keys == t.cols.Keys && r.rows <= t.rows
    ensures t.cols == map[] ==> r == t
    ensures t.cols != map[] ==> r.rows == |FirstIndices(Rows(t))|
    ensures t.cols != map[] ==> forall a :: 0 <= a < r.rows ==> Row(r, a) == Row(t, FirstIndices(Rows(t))[a])
  {
    if t.cols == map[] then t
    else
      var idx := FirstIndices(Rows(t));
      var r := Table(|idx|, map c | c in t.cols :: seq(|idx|, a requires 0 <= a < |idx| => t.cols[c][idx[a]]));
      assert forall a :: 0 <= a < r.rows ==> Row(r, a) == Row(t, idx[a]);
      r
  }

  /** After drop_duplicates no two rows of a table with columns are equal. */
  lemma DropDuplicatesDistinct(t: Table)
    requires WellFormed(t)
    ensures t.cols != map[] ==> forall a, b :: 0 <= a < b < DropDuplicates(t).rows ==>
      Row(DropDuplicates(t), a) != Row(DropDuplicates(t), b)
  {
    KeptValuesDistinctAndCover(Rows(t));
  }

  /** Every row of the input is still there after drop_duplicates. */
  lemma DropDuplicatesKeepsEveryRow(t: Table)
    requires WellFormed(t)
    ensures forall i :: 0 <= i < t.rows ==> Row(t, i) in Rows(DropDuplicates(t))
  {
    var r := DropDuplicates(t);
    if t.cols == map[] {
      assert r == t;
      forall i | 0 <= i < t.rows
        ensures Row(t, i) in Rows(r)
      {
        assert Rows(r)[i] == Row(t, i);
      }
    } else {
      forall i | 0 <= i < t.rows
        ensures Row(t, i) in Rows(r)
      {
        FirstOccurrenceKept(t, i);
      }
    }
  }

  lemma FirstOccurrenceKept(t: Table, i: nat)
    requires WellFormed(t) && t.cols != map[] && i < t.rows
    ensures Row(t, i) in Rows(DropDuplicates(t))
  {
    var rs := Rows(t);
    var idx := FirstIndices(rs);
    KeptValuesDistinctAndCover(rs);
    var a :| 0 <= a < |idx| && rs[idx[a]] == rs[i];
    assert Rows(DropDuplicates(t))[a] == Row(t, i);
  }

  /** The rows drop_duplicates keeps from a table with columns are the first
      occurrences, in their original order: output row `a` is input row
      `idx[a]`, the positions `idx` increase, and no earlier input row equals
      a kept one. */
  lemma DropDuplicatesKeepsFirstOccurrences(t: Table)
    requires WellFormed(t)
    ensures var idx := FirstIndices(Rows(t));
      && Increasing(idx)
      && (forall a :: 0 <= a < |idx| ==> idx[a] < t.rows)
      && (t.cols != map[] ==> forall a :: 0 <= a < |idx| ==> Row(DropDuplicates(t), a) == Row(t, idx[a]))
      && (forall a, j :: 0 <= a < |idx| && 0 <= j < idx[a] ==> Row(t, j) != Row(t, idx[a]))
  {
    var rs := Rows(t);
    var idx := FirstIndices(rs);
    forall a, j | 0 <= a < |idx| && 0 <= j < idx[a]
      ensures Row(t, j) != Row(t, idx[a])
    {
      assert IsFirst(rs, idx[a]);
      assert rs[..idx[a]][j] == rs[j];
    }
  }

  /** A table with columns whose rows are all copies of one row keeps exactly
      one of them; a table without columns keeps all its rows. */
  lemma DropDuplicatesOfCopies(t: Table)
    requires WellFormed(t) && 0 < t.rows
    requires forall i :: 0 <= i < t.rows ==> Row(t, i) == Row(t, 0)
    ensures DropDuplicates(t).rows == if t.cols == map[] then t.rows else 1
  {
    if t.cols != map[] {
      DropDuplicatesDistinct(t);
      DropDuplicatesKeepsEveryRow(t);
      var r := DropDuplicates(t);
      assert Row(t, 0) in Rows(r);
      if 2 <= r.rows {
        FirstTwoRowsDiffer(r);
        assert false;
      }
    }
  }

  lemma FirstTwoRowsDiffer(r: Table)
    requires WellFormed(r) && 2 <= r.rows
    requires forall a, b :: 0 <= a < b < r.rows ==> Row(r, a) != Row(r, b)
    ensures Row(r, 0) != Row(r, 1)
  {
  }

  /** Every name produced by normalisation is already normal. */
  lemma NormalisedNamesAreFixed(names: set<string>)
    ensures forall k :: k in (set c | c in names :: Normalise(c)) ==> Normalise(k) == k
  {
    forall k | k in (set c | c in names :: Normalise(c))
      ensures Normalise(k) == k
    {
      var o :| o in names && k == Normalise(o);
      NormaliseIdempotent(o);
    }
  }

  lemma KeysOfRenamed(t: Table)
    requires WellFormed(t) && RenamedApart(t.cols.Keys, Normalise)
    ensures RenameColumns(t, Normalise).cols.Keys == set c | c in t.cols :: Normalise(c)
    ensures forall c :: c in RenameColumns(t, Normalise).cols ==> Normalise(c) == c
  {
    NormalisedNamesAreFixed(t.cols.Keys);
  }

  /** `basic_clean`: rename, parse the timestamps, then drop duplicate rows.
      Duplicates are found after parsing, so two rows whose timestamps both
      fail to parse can become equal and be merged. */
  function BasicClean(t: Table, parseTime: Value -> Option<int>): (r: Table)
    requires WellFormed(t) && RenamedApart(t.cols.Keys, Normalise)
    ensures WellFormed(r) && r.rows <= t.rows
    ensures r.cols.Keys == set c | c in t.cols :: Normalise(c)
    ensures forall c :: c in r.cols ==> Normalise(c) == c
  {
    var renamed := RenameColumns(t, Normalise);
    var r := DropDuplicates(ParseDatetime(renamed, parseTime));
    KeysOfRenamed(t);
    assert r.cols.Keys == renamed.cols.Keys;
    r
  }

  /** A cleaned table with columns has no two equal rows, one without columns
      keeps every row, and every row of the renamed and parsed input is one of
      its rows. */
  lemma BasicCleanRows(t: Table, parseTime: Value -> Option<int>)
    requires WellFormed(t) && RenamedApart(t.cols.Keys, Normalise)
    ensures var r := BasicClean(t, parseTime);
      t.cols != map[] ==> forall a, b :: 0 <= a < b < r.rows ==> Row(r, a) != Row(r, b)
    ensures t.cols == map[] ==> BasicClean(t, parseTime).rows == t.rows
    ensures var p := ParseDatetime(RenameColumns(t, Normalise), parseTime);
      forall i :: 0 <= i < p.rows ==> Row(p, i) in Rows(BasicClean(t, parseTime))
  {
    var p := ParseDatetime(RenameColumns(t, Normalise), parseTime);
    var r := BasicClean(t, parseTime);
    assert r == DropDuplicates(p);
    PreparedKeys(t, parseTime);
    DropDuplicatesDistinct(p);
    DropDuplicatesKeepsEveryRow(p);
  }

  /** Renaming and parsing keep the row count, and leave a table without
      columns exactly when it had none. */
  lemma PreparedKeys(t: Table, parseTime: Value -> Option<int>)
    requires WellFormed(t) && RenamedApart(t.cols.Keys, Normalise)
    ensures var p := ParseDatetime(RenameColumns(t, Normalise), parseTime);
      p.rows == t.rows && (p.cols == map[] <==> t.cols == map[])
  {
    var p := ParseDatetime(RenameColumns(t, Normalise), parseTime);
    if t.cols != map[] {
      var c :| c in t.cols;
      assert Normalise(c) in p.cols;
    } else {
      assert p.cols.Keys == {};
    }
  }
}
