/** Assigning a number to one of the intervals between sorted bin edges, as
    `pd.cut` and `pd.qcut` do: bins are closed on the right, `(e[k], e[k+1]]`,
    and with `includeLowest` (what qcut uses) the lowest edge itself falls in
    the first bin. */
module Bins {
  import opened Cells
  import opened Stats

  // `CountLess(edges, x)`, how many edges lie strictly below `x`, is
  // numpy's `searchsorted(edges, x, side="left")` on sorted edges.

  lemma {:induction false} CountBelowMonotone(edges: seq<real>, a: real, b: real)
    requires a <= b
    ensures CountLess(edges, a) <= CountLess(edges, b)
  {
    if edges != [] {
      CountBelowMonotone(edges[1..], a, b);
    }
  }

  /** On sorted edges, exactly the first `CountLess` edges are below `x`. */
  lemma {:induction false} CountBelowSplits(edges: seq<real>, x: real)
    requires Sorted(edges)
    ensures forall k :: 0 <= k < CountLess(edges, x) ==> edges[k] < x
    ensures forall k :: CountLess(edges, x) <= k < |edges| ==> x <= edges[k]
  {
    if edges != [] {
      CountBelowSplits(edges[1..], x);
      if x <= edges[0] {
        NoneLess(edges, x);
      }
    }
  }

  /** The bin of `x`, numbered from 0, or `None` when `x` is outside every
      bin: pandas' `searchsorted` position minus one, with positions 0 and
      `|edges|` meaning "no bin". */
  function BinOf(edges: seq<real>, x: real, includeLowest: bool): (k: Option<nat>)
    requires edges != []
    ensures k.Some? ==> k.value + 1 < |edges|
  {
    var pos := if includeLowest && x == edges[0] then 1 else CountLess(edges, x);
    if pos == 0 || pos == |edges| then None else Some(pos - 1)
  }

  /** The bin found is the right-closed interval that holds `x`, and `x` has
      no bin exactly when it is outside `(e[0], e[last]]` (or `[e[0], e[last]]`
      with `includeLowest`). */
  lemma BinOfInterval(edges: seq<real>, x: real, includeLowest: bool)
    requires 2 <= |edges| && Sorted(edges)
    ensures var k := BinOf(edges, x, includeLowest);
      && (k.Some? ==> (edges[k.value] < x || (includeLowest && k.value == 0 && x == edges[0])) && x <= edges[k.value + 1])
      && (k.None? <==> (x < edges[0] || edges[|edges| - 1] < x || (!includeLowest && x == edges[0])))
  {
    CountBelowSplits(edges, x);
    if x == edges[0] && |edges| > 1 {
      NoneLess(edges, x);
    }
  }

  /** A larger value never falls in a lower bin. */
  lemma BinOfMonotone(edges: seq<real>, a: real, b: real, includeLowest: bool)
    requires edges != [] && Sorted(edges) && a <= b
    requires BinOf(edges, a, includeLowest).Some? && BinOf(edges, b, includeLowest).Some?
    ensures BinOf(edges, a, includeLowest).value <= BinOf(edges, b, includeLowest).value
  {
    CountBelowMonotone(edges, a, b);
    CountBelowSplits(edges, a);
    CountBelowSplits(edges, b);
  }
}
