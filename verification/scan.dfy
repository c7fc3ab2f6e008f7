/** Scans over the candidates of one category within one event.

    Every selection loop of the analysis scripts walks a candidate array in
    index order. Two shapes occur: the W-boson script stops at the first
    candidate it accepts (`FirstIndex`), the histogram scripts keep every
    candidate they accept (`Indices`). `Pick` then copies the accepted
    positions out of a parallel branch array. */
module Scan {
  import opened Optional

  /** Position of the first element satisfying `p`, or `None` when no element
      does: a `for` loop whose accepting branch ends in `break`. */
  function FirstIndex<T>(xs: seq<T>, p: T -> bool): (r: Option<nat>)
    ensures r.Some? ==> r.value < |xs| && p(xs[r.value])
    ensures r.Some? ==> forall i :: 0 <= i < r.value ==> !p(xs[i])
    ensures r.None? ==> forall i :: 0 <= i < |xs| ==> !p(xs[i])
    decreases |xs|
  {
    if |xs| == 0 then None
    else if p(xs[0]) then Some(0)
    else
      var rest := FirstIndex(xs[1..], p);
      assert forall i :: 1 <= i < |xs| ==> xs[1..][i - 1] == xs[i];
      match rest
      case None => None
      case Some(k) => Some(k + 1)
  }

  /** The positions of all elements satisfying `p`, in increasing order: a
      `for` loop that appends on every accepted element and never stops early. */
  function Indices<T>(xs: seq<T>, p: T -> bool): (r: seq<nat>)
    ensures forall k :: 0 <= k < |r| ==> r[k] < |xs| && p(xs[r[k]])
    ensures forall k, l :: 0 <= k < l < |r| ==> r[k] < r[l]
    ensures forall j :: 0 <= j < |xs| && p(xs[j]) ==> j in r
    decreases |xs|
  {
    if |xs| == 0 then []
    else
      var n := |xs| - 1;
      var front := Indices(xs[..n], p);
      assert forall j :: 0 <= j < n ==> xs[..n][j] == xs[j];
      front + (if p(xs[n]) then [n] else [])
  }

  /** The elements of `xs` at the positions `idx`, in the order of `idx`. */
  function Pick<T>(xs: seq<T>, idx: seq<nat>): (r: seq<T>)
    requires forall k :: 0 <= k < |idx| ==> idx[k] < |xs|
    ensures |r| == |idx|
    ensures forall k :: 0 <= k < |idx| ==> r[k] == xs[idx[k]]
    decreases |idx|
  {
    if |idx| == 0 then []
    else Pick(xs, idx[..|idx| - 1]) + [xs[idx[|idx| - 1]]]
  }

  /** Stopping at the first accepted element finds exactly the first of the
      elements a full scan keeps, and finds nothing exactly when a full scan
      keeps nothing. */
  lemma FirstIndexIsFirstOfIndices<T>(xs: seq<T>, p: T -> bool)
    ensures FirstIndex(xs, p).None? <==> |Indices(xs, p)| == 0
    ensures FirstIndex(xs, p).Some? ==> FirstIndex(xs, p).value == Indices(xs, p)[0]
  {
  }
}
