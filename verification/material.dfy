/**
 * The material function handed to the finite-element library
 * (`_material_func_` inside `_get_material`, pymks/fmks/data/elastic_fe.py):
 * each quadrature point is mapped back to the voxel it lies in and receives
 * that voxel's (lam, mu).
 */
module MaterialField {

  import opened Results
  import opened Grid
  import opened Properties

  lemma ScaleLe(x: real, y: real, dx: real)
    requires x <= y && dx > 0.0
    ensures x * dx <= y * dx
  {
    assert (y - x) * dx >= 0.0;
  }

  lemma ScaleLt(x: real, y: real, dx: real)
    requires x < y && dx > 0.0
    ensures x * dx < y * dx
  {
    assert (y - x) * dx > 0.0;
  }

  /**
   * `np.floor((coors - bbox_min) / delta_x)` for one point: on every axis the
   * integer part of the distance from the box minimum measured in voxels.
   */
  function VoxelIndex(coord: seq<real>, bboxMin: seq<real>, dx: real): (idx: seq<int>)
    requires |coord| == |bboxMin| && dx > 0.0
    ensures |idx| == |coord|
    ensures forall a :: 0 <= a < |idx| ==>
      idx[a] as real <= (coord[a] - bboxMin[a]) / dx < idx[a] as real + 1.0
  {
    seq(|coord|, a requires 0 <= a < |coord| => ((coord[a] - bboxMin[a]) / dx).Floor)
  }

  /** The point `coord` lies in the closed-open box of voxel `v`. */
  predicate InVoxel(coord: seq<real>, bboxMin: seq<real>, dx: real, v: seq<int>)
    requires |coord| == |bboxMin| == |v|
  {
    forall a :: 0 <= a < |v| ==>
      bboxMin[a] + v[a] as real * dx <= coord[a] < bboxMin[a] + (v[a] as real + 1.0) * dx
  }

  /** k * dx <= c - m < (k + 1) * dx singles out k as the floor of (c - m) / dx. */
  lemma StepUnique(k: int, c: real, m: real, dx: real)
    requires dx > 0.0
    requires m + k as real * dx <= c < m + (k as real + 1.0) * dx
    ensures ((c - m) / dx).Floor == k
  {
    var t := (c - m) / dx;
    var lo, hi := k as real, k as real + 1.0;
    assert t * dx == c - m;
    assert lo <= t by {
      if t < lo {
        ScaleLt(t, lo, dx);
      }
    }
    assert t < hi by {
      if hi <= t {
        ScaleLe(hi, t, dx);
      }
    }
    FloorBetween(k, t);
  }

  /** k <= t < k + 1 singles out k as the floor of t. */
  lemma FloorBetween(k: int, t: real)
    requires k as real <= t < k as real + 1.0
    ensures t.Floor == k
  {
    var f := t.Floor;
    assert f as real <= t < f as real + 1.0;
    assert f as real < k as real + 1.0 && k as real < f as real + 1.0;
  }

  /** Conversely, the floor k of (c - m) / dx satisfies k * dx <= c - m < (k + 1) * dx. */
  lemma StepOfFloor(k: int, c: real, m: real, dx: real)
    requires dx > 0.0
    requires k as real <= (c - m) / dx < k as real + 1.0
    ensures m + k as real * dx <= c < m + (k as real + 1.0) * dx
  {
    var t := (c - m) / dx;
    assert t * dx == c - m;
    ScaleLe(k as real, t, dx);
    var u := k as real + 1.0;
    ScaleLt(t, u, dx);
    assert c - m < u * dx;
  }

  /** Any point of voxel v, and only such a point, is mapped to index v. */
  lemma VoxelIndexOfCell(coord: seq<real>, bboxMin: seq<real>, dx: real, v: seq<int>)
    requires |coord| == |bboxMin| == |v| && dx > 0.0
    ensures VoxelIndex(coord, bboxMin, dx) == v <==> InVoxel(coord, bboxMin, dx, v)
  {
    var idx := VoxelIndex(coord, bboxMin, dx);
    if InVoxel(coord, bboxMin, dx, v) {
      forall a | 0 <= a < |v|
        ensures idx[a] == v[a]
      {
        StepUnique(v[a], coord[a], bboxMin[a], dx);
      }
    }
    if idx == v {
      forall a | 0 <= a < |v|
        ensures bboxMin[a] + v[a] as real * dx <= coord[a] < bboxMin[a] + (v[a] as real + 1.0) * dx
      {
        StepOfFloor(v[a], coord[a], bboxMin[a], dx);
      }
    }
  }

  /** The grid part of a property array of shape grid + (2,). */
  function GridShape(pa: NdArray<real>): seq<nat>
    requires |pa.shape| > 0
  {
    pa.shape[..|pa.shape| - 1]
  }

  /** A per-sample property array: the grid of `d` axes followed by the (lam, mu) axis. */
  predicate PropertyArray(pa: NdArray<real>, d: nat)
  {
    pa.Valid() && |pa.shape| == d + 1 && pa.shape[d] == 2
  }

  /** Every quadrature point falls in a voxel of the grid. */
  predicate PointsInGrid(pa: NdArray<real>, bboxMin: seq<real>, dx: real, coords: seq<seq<real>>)
    requires PropertyArray(pa, |bboxMin|) && dx > 0.0
  {
    forall q :: 0 <= q < |coords| ==>
      |coords[q]| == |bboxMin| && InBounds(GridShape(pa), VoxelIndex(coords[q], bboxMin, dx))
  }

  /** The (lam, mu) columns the material function returns in "qp" mode. */
  datatype QpValues = QpValues(lam: seq<real>, mu: seq<real>)

  /** `property_array[voxel + (c,)]`. */
  function PropertyAt(pa: NdArray<real>, v: seq<int>, c: int): real
    requires |pa.shape| > 0 && PropertyArray(pa, |pa.shape| - 1)
    requires InBounds(GridShape(pa), v) && 0 <= c < 2
  {
    assert pa.shape == GridShape(pa) + [2];
    InBoundsAppend(GridShape(pa), v, 2, c);
    pa.At(v + [c])
  }

  /**
   * `_material_func_(_, coors, mode)`: in "qp" mode, the lam and mu of the
   * voxel each quadrature point lies in, one entry per point; in any other
   * mode, nothing (`None`). The stiffness tensor `D` is not part of this model.
   */
  function MaterialFunc(pa: NdArray<real>, bboxMin: seq<real>, dx: real,
                        coords: seq<seq<real>>, mode: string): (r: Option<QpValues>)
    requires PropertyArray(pa, |bboxMin|) && dx > 0.0
    requires PointsInGrid(pa, bboxMin, dx, coords)
    ensures r.Some? <==> mode == "qp"
    ensures r.Some? ==> |r.value.lam| == |coords| && |r.value.mu| == |coords|
  {
    if mode == "qp" then
      var n := |coords|;
      Some(QpValues(
        seq(n, q requires 0 <= q < n => PropertyAt(pa, VoxelIndex(coords[q], bboxMin, dx), 0)),
        seq(n, q requires 0 <= q < n => PropertyAt(pa, VoxelIndex(coords[q], bboxMin, dx), 1))))
    else None
  }

  /**
   * In "qp" mode a point lying in voxel v receives exactly the (lam, mu)
   * stored for voxel v.
   */
  lemma MaterialAtVoxel(pa: NdArray<real>, bboxMin: seq<real>, dx: real,
                        coords: seq<seq<real>>, q: nat, v: seq<int>)
    requires PropertyArray(pa, |bboxMin|) && dx > 0.0
    requires PointsInGrid(pa, bboxMin, dx, coords)
    requires q < |coords| && |v| == |bboxMin| && InVoxel(coords[q], bboxMin, dx, v)
    ensures InBounds(GridShape(pa), v)
    ensures MaterialFunc(pa, bboxMin, dx, coords, "qp").value.lam[q] == PropertyAt(pa, v, 0)
    ensures MaterialFunc(pa, bboxMin, dx, coords, "qp").value.mu[q] == PropertyAt(pa, v, 1)
  {
    VoxelIndexOfCell(coords[q], bboxMin, dx, v);
  }

  /**
   * End to end: for the property array of sample `s` built by looking the
   * label batch up in the phase table, a quadrature point in voxel v gets the
   * table row of the phase labelled at (s, v).
   */
  lemma MaterialMatchesLabel(table: seq<PhaseRow>, labels: NdArray<int>, s: nat,
                             bboxMin: seq<real>, dx: real, coords: seq<seq<real>>,
                             q: nat, v: seq<int>)
    requires labels.Valid() && LabelsIndexTable(labels, |table|)
    requires |labels.shape| == |bboxMin| + 1 && s < labels.shape[0] && dx > 0.0
    requires PropertyArray(SampleOf(Lookup(table, labels), s), |bboxMin|)
    requires PointsInGrid(SampleOf(Lookup(table, labels), s), bboxMin, dx, coords)
    requires q < |coords| && |v| == |bboxMin| && InVoxel(coords[q], bboxMin, dx, v)
    ensures InBounds(labels.shape, [s] + v)
    ensures 0 <= labels.At([s] + v) < |table|
    ensures MaterialFunc(SampleOf(Lookup(table, labels), s), bboxMin, dx, coords, "qp").value.lam[q]
         == table[labels.At([s] + v)].lam
    ensures MaterialFunc(SampleOf(Lookup(table, labels), s), bboxMin, dx, coords, "qp").value.mu[q]
         == table[labels.At([s] + v)].mu
  {
    var pa := Lookup(table, labels);
    var sample := SampleOf(pa, s);
    MaterialAtVoxel(sample, bboxMin, dx, coords, q, v);
    assert GridShape(sample) == labels.shape[1..];
    assert InBounds(labels.shape[1..], v);
    assert InBounds(labels.shape, [s] + v) by {
      assert forall a :: 1 <= a < |labels.shape| ==> ([s] + v)[a] == v[a - 1];
    }
    LookupAt(table, labels, [s] + v);
    forall c | 0 <= c < 2
      ensures PropertyAt(sample, v, c) == pa.At([s] + v + [c])
    {
      InBoundsAppend(labels.shape[1..], v, 2, c);
      assert sample.shape == labels.shape[1..] + [2];
      SampleOfAt(pa, s, v + [c]);
      assert [s] + (v + [c]) == [s] + v + [c];
    }
  }
}
