/** Cells and columns of the rental table.

    A column of the table is a sequence of cells, one per row. A cell is either
    missing (what pandas shows as NaN or NaT) or holds a value read from the CSV
    file or computed by the pipeline: a number, a piece of text, or a timestamp
    produced by datetime parsing. */
module Cells {

  datatype Option<+T> = None | Some(value: T)

  /** A present cell's value. Numbers are exact reals; `Stamp` is a parsed
      timestamp, kept as an opaque count of time units. */
  datatype Value = Num(x: real) | Text(s: string) | Stamp(t: int)

  type Cell = Option<Value>

  type Column = seq<Cell>

  /** A cell that numeric pandas operations accept: missing, or a number. */
  predicate IsNumeric(c: Cell)
  {
    c.None? || c.value.Num?
  }

  predicate NumericCells(col: Column)
  {
    forall i :: 0 <= i < |col| ==> IsNumeric(col[i])
  }

  /** Every cell of the column holds a number: nothing is missing. */
  predicate Filled(col: Column)
  {
    forall i :: 0 <= i < |col| ==> col[i].Some? && col[i].value.Num?
  }

  /** The numbers of a column, in row order, skipping everything else
      (the values pandas' reductions see with `skipna=True`). */
  function PresentNumbers(col: Column): (xs: seq<real>)
    ensures |xs| <= |col|
    ensures forall i :: 0 <= i < |col| && col[i].Some? && col[i].value.Num? ==> col[i].value.x in xs
    ensures forall x :: x in xs ==> Some(Num(x)) in col
    ensures Filled(col) ==> |xs| == |col| && forall i :: 0 <= i < |col| ==> xs[i] == col[i].value.x
  {
    NumbersOfCells(col);
    NumbersOf(col)
  }

  /** The number a single cell contributes: its own when it holds one. */
  function CellNumbers(c: Cell): seq<real>
  {
    if c.Some? && c.value.Num? then [c.value.x] else []
  }

  /** The row-by-row collection behind `PresentNumbers`. */
  function NumbersOf(col: Column): seq<real>
  {
    if col == [] then [] else CellNumbers(col[0]) + NumbersOf(col[1..])
  }

  lemma {:induction false} NumbersOfCells(col: Column)
    ensures |NumbersOf(col)| <= |col|
    ensures forall i :: 0 <= i < |col| && col[i].Some? && col[i].value.Num? ==> col[i].value.x in NumbersOf(col)
    ensures forall x :: x in NumbersOf(col) ==> Some(Num(x)) in col
    ensures Filled(col) ==> |NumbersOf(col)| == |col| && forall i :: 0 <= i < |col| ==> NumbersOf(col)[i] == col[i].value.x
  {
    if col != [] {
      NumbersOfCells(col[1..]);
      assert forall i :: 1 <= i < |col| ==> col[i] == col[1..][i - 1];
      assert Filled(col) ==> Filled(col[1..]);
    }
  }

  /** The numbers of a column are those of its rows, one row at a time and
      in row order: a numeric cell contributes its number once, any other
      cell nothing, and the numbers of two stacked pieces are the numbers of
      the first followed by those of the second. So each number appears as
      often as it does in the column, and in the column's order. */
  lemma PresentNumbersByRows(a: Column, b: Column)
    ensures PresentNumbers(a + b) == PresentNumbers(a) + PresentNumbers(b)
    ensures |a| == 1 && a[0].Some? && a[0].value.Num? ==> PresentNumbers(a) == [a[0].value.x]
    ensures |a| == 1 && !(a[0].Some? && a[0].value.Num?) ==> PresentNumbers(a) == []
  {
    NumbersOfAppend(a, b);
    if |a| == 1 {
      assert a[1..] == [];
    }
  }

  lemma {:induction false} NumbersOfAppend(a: Column, b: Column)
    ensures NumbersOf(a + b) == NumbersOf(a) + NumbersOf(b)
  {
    if a == [] {
      assert a + b == b;
    } else {
      assert (a + b)[0] == a[0];
      assert (a + b)[1..] == a[1..] + b;
      NumbersOfAppend(a[1..], b);
    }
  }

  /** Python's `int(x)` on a float, which `astype(int)` applies: truncation
      toward zero, unlike Dafny's `Floor`. */
  function Trunc(x: real): (n: int)
    ensures 0.0 <= x ==> n as real <= x < n as real + 1.0
    ensures x < 0.0 ==> n as real - 1.0 < x <= n as real
  {
    if 0.0 <= x then x.Floor else -((-x).Floor)
  }

  /** `pd.to_numeric(..., errors="coerce")` on one cell. Text is handed to
      `parse`, which stands for pandas' number parser and answers `None` for
      text it cannot read; that text becomes missing. A timestamp becomes its
      count of time units. */
  function ToNumeric(c: Cell, parse: string -> Option<real>): (r: Cell)
    ensures IsNumeric(r)
    ensures c.None? ==> r.None?
    ensures c.Some? && c.value.Num? ==> r == c
    ensures c.Some? && c.value.Text? ==> (r.Some? <==> parse(c.value.s).Some?)
    ensures c.Some? && c.value.Text? && parse(c.value.s).Some? ==> r == Some(Num(parse(c.value.s).value))
    ensures c.Some? && c.value.Stamp? ==> r == Some(Num(c.value.t as real))
  {
    match c
    case None => None
    case Some(Num(x)) => c
    case Some(Text(s)) => if parse(s).Some? then Some(Num(parse(s).value)) else None
    case Some(Stamp(t)) => Some(Num(t as real))
  }
}
