/** Boolean masks and numpy-style boolean indexing (`xs[mask]`). */
module Masks {

  /** Number of `true` entries of a mask. */
  function Count(mask: seq<bool>): nat
  {
    if mask == [] then 0 else (if mask[0] then 1 else 0) + Count(mask[1..])
  }

  function Negate(mask: seq<bool>): (r: seq<bool>)
    ensures |r| == |mask| && forall i :: 0 <= i < |mask| ==> r[i] == !mask[i]
  {
    seq(|mask|, i requires 0 <= i < |mask| => !mask[i])
  }

  /** `xs[mask]`: the elements whose mask entry is true, in their order. */
  function Select<T>(xs: seq<T>, mask: seq<bool>): (r: seq<T>)
    requires |xs| == |mask|
    ensures |r| == Count(mask)
  {
    if xs == [] then []
    else (if mask[0] then [xs[0]] else []) + Select(xs[1..], mask[1..])
  }

  /** Positions, counted from `from`, whose mask entry is true. */
  function IndicesFrom(mask: seq<bool>, from: nat): (ix: seq<nat>)
    ensures |ix| == Count(mask)
    ensures forall k :: 0 <= k < |ix| ==> from <= ix[k] < from + |mask| && mask[ix[k] - from]
  {
    if mask == [] then []
    else
      var rest := IndicesFrom(mask[1..], from + 1);
      assert forall k :: 0 <= k < |rest| ==> mask[rest[k] - from] == mask[1..][rest[k] - (from + 1)];
      (if mask[0] then [from] else []) + rest
  }

  /** `np.nonzero(mask)`: the positions whose mask entry is true, each in
      range and with a true entry. */
  function TrueIndices(mask: seq<bool>): (ix: seq<nat>)
    ensures |ix| == Count(mask)
    ensures forall k :: 0 <= k < |ix| ==> ix[k] < |mask| && mask[ix[k]]
  {
    IndicesFrom(mask, 0)
  }

  lemma {:induction false} IndicesFromOrdered(mask: seq<bool>, from: nat)
    ensures forall k, l :: 0 <= k < l < Count(mask) ==> IndicesFrom(mask, from)[k] < IndicesFrom(mask, from)[l]
  {
    if mask != [] {
      IndicesFromOrdered(mask[1..], from + 1);
      var rest := IndicesFrom(mask[1..], from + 1);
      var ix := IndicesFrom(mask, from);
      var d := if mask[0] then 1 else 0;
      assert ix == (if mask[0] then [from] else []) + rest;
      forall k, l | 0 <= k < l < |ix| ensures ix[k] < ix[l] {
        assert ix[l] == rest[l - d];
        if k >= d {
          assert ix[k] == rest[k - d];
        }
      }
    }
  }

  /** A position with a true entry is listed. */
  lemma {:induction false} IndicesFromComplete(mask: seq<bool>, from: nat, i: nat)
    requires from <= i < from + |mask| && mask[i - from]
    ensures i in IndicesFrom(mask, from)
  {
    var rest := IndicesFrom(mask[1..], from + 1);
    var ix := IndicesFrom(mask, from);
    assert ix == (if mask[0] then [from] else []) + rest;
    if i == from {
      assert ix[0] == from;
    } else {
      assert mask[1..][i - (from + 1)];
      IndicesFromComplete(mask[1..], from + 1, i);
    }
  }

  /** The true positions are strictly increasing and include every position
      whose mask entry is true: `TrueIndices` lists exactly the true
      positions, in order. */
  lemma TrueIndicesExactly(mask: seq<bool>)
    ensures forall k, l :: 0 <= k < l < Count(mask) ==> TrueIndices(mask)[k] < TrueIndices(mask)[l]
    ensures forall i :: 0 <= i < |mask| && mask[i] ==> i in TrueIndices(mask)
  {
    IndicesFromOrdered(mask, 0);
    forall i | 0 <= i < |mask| && mask[i] ensures i in TrueIndices(mask) {
      IndicesFromComplete(mask, 0, i);
    }
  }

  lemma {:induction false} SelectFromAt<T>(xs: seq<T>, mask: seq<bool>, from: nat, k: nat)
    requires |xs| == |mask| && k < Count(mask)
    ensures Select(xs, mask)[k] == xs[IndicesFrom(mask, from)[k] - from]
  {
    var sel, ix := Select(xs, mask), IndicesFrom(mask, from);
    var sel', ix' := Select(xs[1..], mask[1..]), IndicesFrom(mask[1..], from + 1);
    var d := if mask[0] then 1 else 0;
    assert Count(mask) == d + Count(mask[1..]);
    if mask[0] && k == 0 {
      assert sel[0] == xs[0] && ix[0] == from;
    } else {
      var j := k - d;
      SelectFromAt(xs[1..], mask[1..], from + 1, j);
      assert sel[k] == sel'[j] && ix[k] == ix'[j];
      assert xs[1..][ix'[j] - (from + 1)] == xs[ix'[j] - from];
    }
  }

  /** Element k of `xs[mask]` is the element of `xs` at the k-th true
      position, so masks applied to index-aligned arrays stay aligned. */
  lemma SelectAt<T>(xs: seq<T>, mask: seq<bool>)
    requires |xs| == |mask|
    ensures forall k :: 0 <= k < Count(mask) ==> Select(xs, mask)[k] == xs[TrueIndices(mask)[k]]
  {
    forall k | 0 <= k < Count(mask) ensures Select(xs, mask)[k] == xs[TrueIndices(mask)[k]] {
      SelectFromAt(xs, mask, 0, k);
    }
  }

  /** Every position is counted by exactly one of a mask and its negation. */
  lemma {:induction false} CountPartition(mask: seq<bool>)
    ensures Count(mask) + Count(Negate(mask)) == |mask|
  {
    if mask != [] {
      assert Negate(mask)[1..] == Negate(mask[1..]);
      CountPartition(mask[1..]);
    }
  }
}
