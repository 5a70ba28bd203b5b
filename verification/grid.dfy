/**
 * N-dimensional arrays stored flat in row-major (C) order, the layout that
 * numpy uses for every array the elasticity code builds, reshapes or indexes.
 */
module Grid {

  import opened Results

  /** Number of cells of an array of the given shape (`np.prod(shape)`). */
  function Product(shape: seq<nat>): nat
  {
    if |shape| == 0 then 1 else shape[0] * Product(shape[1..])
  }

  /** `idx` is a valid multi-index into an array of shape `shape`. */
  predicate InBounds(shape: seq<nat>, idx: seq<int>)
  {
    |idx| == |shape| && forall a :: 0 <= a < |idx| ==> 0 <= idx[a] < shape[a]
  }

  /** Row-major offset of a multi-index. */
  function Offset(shape: seq<nat>, idx: seq<int>): int
    requires |idx| == |shape|
  {
    if |shape| == 0 then 0 else idx[0] * Product(shape[1..]) + Offset(shape[1..], idx[1..])
  }

  lemma MulMonotone(a: int, b: int, p: nat)
    requires a <= b
    ensures a * p <= b * p
  {
  }

  lemma InBoundsTail(shape: seq<nat>, idx: seq<int>)
    requires InBounds(shape, idx) && |shape| > 0
    ensures InBounds(shape[1..], idx[1..]) && 0 <= idx[0] < shape[0]
  {
    forall a | 0 <= a < |idx| - 1
      ensures 0 <= idx[1..][a] < shape[1..][a]
    {
      assert idx[1..][a] == idx[a + 1];
    }
  }

  /** Every in-bounds multi-index addresses a cell of the flat storage. */
  lemma {:induction false} OffsetInRange(shape: seq<nat>, idx: seq<int>)
    requires InBounds(shape, idx)
    ensures 0 <= Offset(shape, idx) < Product(shape)
  {
    if |shape| > 0 {
      InBoundsTail(shape, idx);
      OffsetInRange(shape[1..], idx[1..]);
      var p := Product(shape[1..]);
      var o := Offset(shape[1..], idx[1..]);
      assert idx[0] * p + o < (idx[0] + 1) * p;
      MulMonotone(idx[0] + 1, shape[0], p);
      MulMonotone(0, idx[0], p);
    }
  }

  /** Distinct in-bounds multi-indices address distinct cells. */
  lemma {:induction false} OffsetInjective(shape: seq<nat>, i: seq<int>, j: seq<int>)
    requires InBounds(shape, i) && InBounds(shape, j)
    requires Offset(shape, i) == Offset(shape, j)
    ensures i == j
  {
    if |shape| > 0 {
      InBoundsTail(shape, i);
      InBoundsTail(shape, j);
      var p := Product(shape[1..]);
      var oi, oj := Offset(shape[1..], i[1..]), Offset(shape[1..], j[1..]);
      OffsetInRange(shape[1..], i[1..]);
      OffsetInRange(shape[1..], j[1..]);
      assert i[0] * p + oi == j[0] * p + oj;
      HeadsAgree(i[0], j[0], p, oi, oj);
      OffsetInjective(shape[1..], i[1..], j[1..]);
      assert i == [i[0]] + i[1..] && j == [j[0]] + j[1..];
    }
  }

  lemma HeadsAgree(x: int, y: int, p: nat, ox: int, oy: int)
    requires 0 <= ox < p && 0 <= oy < p
    requires x * p + ox == y * p + oy
    ensures x == y
  {
    if x < y {
      MulMonotone(x + 1, y, p);
    } else if y < x {
      MulMonotone(y + 1, x, p);
    }
  }

  /** Appending an axis of extent `m` multiplies the cell count by `m`. */
  lemma {:induction false} ProductAppend(shape: seq<nat>, m: nat)
    ensures Product(shape + [m]) == Product(shape) * m
  {
    if |shape| > 0 {
      assert (shape + [m])[1..] == shape[1..] + [m];
      ProductAppend(shape[1..], m);
    }
  }

  /**
   * Appending an axis of extent `m` turns offset `o` into `o * m + c`
   * for the cell `c` along the new last axis.
   */
  lemma {:induction false} OffsetAppend(shape: seq<nat>, idx: seq<int>, m: nat, c: int)
    requires |idx| == |shape|
    ensures Offset(shape + [m], idx + [c]) == Offset(shape, idx) * m + c
  {
    if |shape| > 0 {
      assert (shape + [m])[1..] == shape[1..] + [m];
      assert (idx + [c])[1..] == idx[1..] + [c];
      ProductAppend(shape[1..], m);
      OffsetAppend(shape[1..], idx[1..], m, c);
      var p := Product(shape[1..]);
      var o := Offset(shape[1..], idx[1..]);
      calc {
        Offset(shape + [m], idx + [c]);
        idx[0] * (p * m) + (o * m + c);
        (idx[0] * p + o) * m + c;
      }
    }
  }

  lemma InBoundsAppend(shape: seq<nat>, idx: seq<int>, m: nat, c: int)
    requires InBounds(shape, idx) && 0 <= c < m
    ensures InBounds(shape + [m], idx + [c])
  {
    assert forall a :: 0 <= a < |idx| ==> (idx + [c])[a] == idx[a] && (shape + [m])[a] == shape[a];
  }

  /** A numpy array: a shape and its cells in row-major order. */
  datatype NdArray<T> = NdArray(shape: seq<nat>, data: seq<T>)
  {
    predicate Valid()
    {
      |data| == Product(shape)
    }

    /** `a[idx]` for a full multi-index. */
    function At(idx: seq<int>): T
      requires Valid() && InBounds(shape, idx)
    {
      OffsetInRange(shape, idx);
      data[Offset(shape, idx)]
    }
  }

  /**
   * `np.reshape(a, newShape)`: the cells are kept in the same row-major order;
   * numpy raises ValueError when the cell counts differ.
   */
  function Reshape<T>(a: NdArray<T>, newShape: seq<nat>): (r: Option<NdArray<T>>)
    requires a.Valid()
    ensures r.Some? <==> Product(newShape) == Product(a.shape)
    ensures r.Some? ==> r.value.Valid() && r.value.shape == newShape && r.value.data == a.data
  {
    if Product(newShape) == |a.data| then Some(NdArray(newShape, a.data)) else None
  }

}
