/**
 * `make_delta_microstructures` (pymks/datasets/__init__.py): for every
 * ordered pair of distinct phases (i, j), a sample that is phase i everywhere
 * except its centre voxel, which is phase j. Each sample is a row-major
 * array of shape `size`; the stacked leading axis is a sequence.
 */
module Datasets {

  import opened Results
  import opened Grid

  // ---------------------------------------------------------------------
  // The centre index as written: true division

  /** An index entry as numpy receives it. */
  datatype IndexValue = IntIndex(i: int) | FloatIndex(f: real)

  /** `tuple((np.array(size) - 1) / 2)`: true division gives a float on every axis. */
  function CentreAsWritten(size: seq<nat>): (c: seq<IndexValue>)
    ensures |c| == |size|
    ensures forall a :: 0 <= a < |c| ==> c[a].FloatIndex? && 2.0 * c[a].f + 1.0 == size[a] as real
  {
    seq(|size|, a requires 0 <= a < |size| => FloatIndex((size[a] as real - 1.0) / 2.0))
  }

  /**
   * numpy's basic indexing accepts integer entries only (floats are refused
   * with IndexError from numpy 1.12 on).
   */
  function IntegerIndex(idx: seq<IndexValue>): (r: Option<seq<int>>)
    ensures r.Some? <==> forall a :: 0 <= a < |idx| ==> idx[a].IntIndex?
    ensures r.Some? ==> |r.value| == |idx| && forall a :: 0 <= a < |idx| ==> r.value[a] == idx[a].i
  {
    if forall a :: 0 <= a < |idx| ==> idx[a].IntIndex? then
      Some(seq(|idx|, a requires 0 <= a < |idx| => idx[a].i))
    else None
  }

  /**
   * As written, the centre write `X[(:, :) + center]` cannot index for any
   * non-empty `size`, odd or not: the doctest's (3, 3, 3) gives (1.0, 1.0, 1.0).
   */
  lemma CentreAsWrittenRejected(size: seq<nat>)
    requires |size| > 0
    ensures IntegerIndex(CentreAsWritten(size)).None?
    ensures size == [3, 3, 3] ==> CentreAsWritten(size) == [FloatIndex(1.0), FloatIndex(1.0), FloatIndex(1.0)]
  {
    assert !CentreAsWritten(size)[0].IntIndex?;
  }

  // ---------------------------------------------------------------------
  // The intended centre: integer division

  /** Every extent is at least 1, so the centre index lies inside the grid. */
  predicate PositiveSizes(size: seq<nat>)
  {
    forall a :: 0 <= a < |size| ==> size[a] >= 1
  }

  /**
   * The centre multi-index `(size - 1) // 2`: the middle voxel of an odd
   * extent, the lower of the two middle voxels of an even one.
   */
  function Centre(size: seq<nat>): (c: seq<int>)
    requires PositiveSizes(size)
    ensures InBounds(size, c)
    ensures forall a :: 0 <= a < |size| ==> 2 * c[a] + 1 == size[a] || 2 * c[a] + 2 == size[a]
  {
    seq(|size|, a requires 0 <= a < |size| => (size[a] - 1) / 2)
  }

  /** The row-major offset of the centre voxel. */
  function CentreOffset(size: seq<nat>): (o: nat)
    requires PositiveSizes(size)
    ensures o < Product(size)
  {
    OffsetInRange(size, Centre(size));
    Offset(size, Centre(size))
  }

  /** The sample of background phase i with phase j at the centre, flattened. */
  function DeltaSample(i: int, j: int, size: seq<nat>): seq<int>
    requires PositiveSizes(size)
  {
    var c := CentreOffset(size);
    seq(Product(size), p requires 0 <= p < Product(size) => if p == c then j else i)
  }

  /** The pairs (i, j) with j < m and j != i, by increasing j. */
  function RowPairs(i: nat, m: nat): seq<(nat, nat)>
  {
    if m == 0 then [] else RowPairs(i, m - 1) + (if m - 1 == i then [] else [(i, m - 1)])
  }

  /** The off-diagonal pairs of rows 0..m-1 of an n x n grid, in row-major order. */
  function OffDiagonal(n: nat, m: nat): seq<(nat, nat)>
  {
    if m == 0 then [] else OffDiagonal(n, m - 1) + RowPairs(m - 1, n)
  }

  /** One delta sample per pair, in the order of the pairs. */
  function Samples(pairs: seq<(nat, nat)>, size: seq<nat>): seq<seq<int>>
    requires PositiveSizes(size)
  {
    seq(|pairs|, k requires 0 <= k < |pairs| => DeltaSample(pairs[k].0, pairs[k].1, size))
  }

  /** The value `make_delta_microstructures(n_phases, size)` returns. */
  function DeltaMicrostructures(nPhases: nat, size: seq<nat>): seq<seq<int>>
    requires PositiveSizes(size)
  {
    Samples(OffDiagonal(nPhases, nPhases), size)
  }

  lemma SamplesAppend(a: seq<(nat, nat)>, b: seq<(nat, nat)>, size: seq<nat>)
    requires PositiveSizes(size)
    ensures Samples(a + b, size) == Samples(a, size) + Samples(b, size)
  {
  }

  /**
   * `make_delta_microstructures(n_phases, size)` with the centre computed by
   * integer division: allocate the (n, n) + size array of zeros, broadcast
   * phase i over sample (i, j), write phase j at the centre of sample (i, j),
   * then keep the samples off the diagonal in row-major order. A zero extent
   * puts the centre index -1 on an empty axis, which numpy refuses
   * (`None`).
   */
  method MakeDeltaMicrostructures(nPhases: nat, size: seq<nat>) returns (r: Option<seq<seq<int>>>)
    ensures r.Some? <==> PositiveSizes(size)
    ensures r.Some? ==> r.value == DeltaMicrostructures(nPhases, size)
  {
    if !PositiveSizes(size) {
      return None;
    }
    var cells := Product(size);
    var centre := CentreOffset(size);
    var n := nPhases;
    var X := new int[n, n, cells]((i, j, p) => 0);
    forall i, j, p | 0 <= i < n && 0 <= j < n && 0 <= p < cells {
      X[i, j, p] := i;
    }
    forall i, j | 0 <= i < n && 0 <= j < n {
      X[i, j, centre] := j;
    }
    var x: seq<seq<int>> := [];
    var i := 0;
    while i < n
      invariant 0 <= i <= n
      invariant forall i', j', p :: 0 <= i' < n && 0 <= j' < n && 0 <= p < cells ==>
                  X[i', j', p] == if p == centre then j' else i'
      invariant x == Samples(OffDiagonal(n, i), size)
    {
      var j := 0;
      while j < n
        invariant 0 <= j <= n
        invariant forall i', j', p :: 0 <= i' < n && 0 <= j' < n && 0 <= p < cells ==>
                    X[i', j', p] == if p == centre then j' else i'
        invariant x == Samples(OffDiagonal(n, i) + RowPairs(i, j), size)
      {
        if i != j {
          var sample := seq(cells, p requires 0 <= p < cells reads X => X[i, j, p]);
          assert sample == DeltaSample(i, j, size);
          x := x + [sample];
          SamplesAppend(OffDiagonal(n, i) + RowPairs(i, j), [(i, j)], size);
          assert OffDiagonal(n, i) + RowPairs(i, j + 1) == OffDiagonal(n, i) + RowPairs(i, j) + [(i, j)];
        } else {
          assert RowPairs(i, j + 1) == RowPairs(i, j);
        }
        j := j + 1;
      }
      assert OffDiagonal(n, i + 1) == OffDiagonal(n, i) + RowPairs(i, n);
      i := i + 1;
    }
    r := Some(x);
  }

  // ---------------------------------------------------------------------
  // Properties of the samples

  lemma {:induction false} RowPairsLength(i: nat, m: nat)
    ensures |RowPairs(i, m)| == if i < m then m - 1 else m
  {
    if m > 0 {
      RowPairsLength(i, m - 1);
    }
  }

  lemma {:induction false} RowPairsMembers(i: nat, m: nat)
    ensures forall p :: p in RowPairs(i, m) <==> p.0 == i && p.1 < m && p.1 != i
  {
    if m > 0 {
      RowPairsMembers(i, m - 1);
      var a: seq<(nat, nat)>, b: seq<(nat, nat)> := RowPairs(i, m - 1), if m - 1 == i then [] else [(i, m - 1)];
      assert RowPairs(i, m) == a + b;
      forall p: (nat, nat)
        ensures p in a + b <==> p.0 == i && p.1 < m && p.1 != i
      {
      }
    }
  }

  lemma {:induction false} RowPairsOrder(i: nat, m: nat)
    ensures forall k :: 0 <= k < |RowPairs(i, m)| ==> RowPairs(i, m)[k].0 == i && RowPairs(i, m)[k].1 < m
    ensures forall k, l :: 0 <= k < l < |RowPairs(i, m)| ==> RowPairs(i, m)[k].1 < RowPairs(i, m)[l].1
  {
    if m > 0 {
      RowPairsOrder(i, m - 1);
    }
  }

  /** Lexicographic order on pairs. */
  predicate Before(p: (nat, nat), q: (nat, nat))
  {
    p.0 < q.0 || (p.0 == q.0 && p.1 < q.1)
  }

  /** The first m rows hold m * (n - 1) pairs. */
  lemma {:induction false} OffDiagonalLength(n: nat, m: nat)
    requires m <= n
    ensures |OffDiagonal(n, m)| == m * (n - 1)
  {
    if m > 0 {
      OffDiagonalLength(n, m - 1);
      RowPairsLength(m - 1, n);
      assert |OffDiagonal(n, m)| == (m - 1) * (n - 1) + (n - 1);
      assert (m - 1) * (n - 1) + (n - 1) == m * (n - 1);
    }
  }

  /** The first m rows hold exactly the pairs (i, j) with i < m, j < n and i != j. */
  lemma {:induction false} OffDiagonalMembers(n: nat, m: nat)
    ensures forall p :: p in OffDiagonal(n, m) <==> p.0 < m && p.1 < n && p.0 != p.1
  {
    if m > 0 {
      OffDiagonalMembers(n, m - 1);
      RowPairsMembers(m - 1, n);
      var a, b := OffDiagonal(n, m - 1), RowPairs(m - 1, n);
      assert OffDiagonal(n, m) == a + b;
      forall p: (nat, nat)
        ensures p in a + b <==> p.0 < m && p.1 < n && p.0 != p.1
      {
      }
    }
  }

  /** The pairs come in strictly increasing row-major order. */
  lemma {:induction false} OffDiagonalOrder(n: nat, m: nat)
    ensures forall k, l :: 0 <= k < l < |OffDiagonal(n, m)| ==> Before(OffDiagonal(n, m)[k], OffDiagonal(n, m)[l])
  {
    if m > 0 {
      OffDiagonalOrder(n, m - 1);
      OffDiagonalMembers(n, m - 1);
      RowPairsOrder(m - 1, n);
      var a, b := OffDiagonal(n, m - 1), RowPairs(m - 1, n);
      assert OffDiagonal(n, m) == a + b;
      forall k, l | 0 <= k < l < |a + b|
        ensures Before((a + b)[k], (a + b)[l])
      {
        if l >= |a| && k < |a| {
          assert a[k] in a;
          assert (a + b)[l] == b[l - |a|];
        } else if k >= |a| {
          assert (a + b)[k] == b[k - |a|] && (a + b)[l] == b[l - |a|];
        }
      }
    }
  }

  /**
   * `make_delta_microstructures` returns n (n - 1) samples, none when
   * n_phases is 0 or 1, one for each ordered pair of distinct phases, in
   * row-major order of the pairs.
   */
  lemma DeltaMicrostructuresCount(nPhases: nat, size: seq<nat>)
    requires PositiveSizes(size)
    ensures |DeltaMicrostructures(nPhases, size)| == nPhases * (nPhases - 1)
    ensures nPhases <= 1 ==> DeltaMicrostructures(nPhases, size) == []
    ensures forall i, j :: 0 <= i < nPhases && 0 <= j < nPhases && i != j ==>
      exists k :: 0 <= k < |OffDiagonal(nPhases, nPhases)| && OffDiagonal(nPhases, nPhases)[k] == (i, j)
  {
    OffDiagonalLength(nPhases, nPhases);
    OffDiagonalMembers(nPhases, nPhases);
    forall i, j | 0 <= i < nPhases && 0 <= j < nPhases && i != j
      ensures exists k :: 0 <= k < |OffDiagonal(nPhases, nPhases)| && OffDiagonal(nPhases, nPhases)[k] == (i, j)
    {
      assert (i, j) in OffDiagonal(nPhases, nPhases);
    }
  }

  /**
   * Sample k belongs to the pair (i, j) in position k: every voxel holds
   * phase i except the centre voxel, which holds phase j.
   */
  lemma DeltaSampleAt(nPhases: nat, size: seq<nat>, k: nat, idx: seq<int>)
    requires PositiveSizes(size)
    requires k < |DeltaMicrostructures(nPhases, size)| && InBounds(size, idx)
    ensures var (i, j) := OffDiagonal(nPhases, nPhases)[k];
      && |DeltaMicrostructures(nPhases, size)[k]| == Product(size)
      && 0 <= Offset(size, idx) < Product(size)
      && DeltaMicrostructures(nPhases, size)[k][Offset(size, idx)] == if idx == Centre(size) then j else i
  {
    OffsetInRange(size, idx);
    if Offset(size, idx) == CentreOffset(size) {
      OffsetInjective(size, idx, Centre(size));
    }
  }

  /**
   * Every value of every sample is a phase in [0, n_phases), and the centre
   * value of each sample differs from its background.
   */
  lemma DeltaValues(nPhases: nat, size: seq<nat>, k: nat)
    requires PositiveSizes(size) && k < |DeltaMicrostructures(nPhases, size)|
    ensures forall p :: 0 <= p < |DeltaMicrostructures(nPhases, size)[k]| ==>
      0 <= DeltaMicrostructures(nPhases, size)[k][p] < nPhases
    ensures forall p :: 0 <= p < |DeltaMicrostructures(nPhases, size)[k]| && p != CentreOffset(size) ==>
      DeltaMicrostructures(nPhases, size)[k][p] != DeltaMicrostructures(nPhases, size)[k][CentreOffset(size)]
  {
    OffDiagonalMembers(nPhases, nPhases);
    var pair := OffDiagonal(nPhases, nPhases)[k];
    assert pair in OffDiagonal(nPhases, nPhases);
  }

  /** The doctest: two phases on a 3 x 3 x 3 grid. */
  lemma DeltaMicrostructuresExample()
    ensures PositiveSizes([3, 3, 3])
    ensures DeltaMicrostructures(2, [3, 3, 3])
         == [seq(27, p => if p == 13 then 1 else 0), seq(27, p => if p == 13 then 0 else 1)]
  {
    var size: seq<nat> := [3, 3, 3];
    assert Product(size) == 27 by {
      assert Product(size[1..][1..][1..]) == 1;
    }
    assert CentreOffset(size) == 13 by {
      assert Centre(size) == [1, 1, 1];
      assert Offset(size[1..][1..][1..], [1, 1, 1][1..][1..][1..]) == 0;
    }
    assert RowPairs(0, 2) == [(0, 1)];
    assert RowPairs(1, 2) == [(1, 0)];
    assert OffDiagonal(2, 2) == [(0, 1), (1, 0)];
    assert DeltaSample(0, 1, size) == seq(27, p => if p == 13 then 1 else 0);
    assert DeltaSample(1, 0, size) == seq(27, p => if p == 13 then 0 else 1);
    assert DeltaMicrostructures(2, size) == [DeltaSample(0, 1, size), DeltaSample(1, 0, size)];
  }
}
