/**
 * The structured mesh `get_fields` asks the finite-element library for
 * (pymks/fmks/data/elastic_fe.py), and the domain bounding box that every
 * boundary condition and the material function read back from it.
 */
module Mesh {

  /** The arguments of `gen_block_mesh(dims, shape, centre)`. */
  datatype BlockMesh = BlockMesh(dims: seq<real>, nodeCounts: seq<nat>, centre: seq<real>)

  /** `domain.get_mesh_bounding_box()`: the minimum and maximum corner. */
  datatype Domain = Domain(min: seq<real>, max: seq<real>)
  {
    /** A 2D or 3D box (the spatial dimension is the box's column count). */
    predicate Valid()
    {
      |min| == |max| && 2 <= |min| <= 3
    }

    function Dim(): nat
    {
      |min|
    }

    /** The edge length along axis a. */
    function Length(a: nat): real
      requires a < |min| && a < |max|
    {
      max[a] - min[a]
    }
  }

  /**
   * `get_fields(shape, delta_x)` up to the library constructors: a block of
   * extent shape * delta_x, shape + 1 nodes per axis, centred at the origin.
   */
  function GetFields(shape: seq<nat>, dx: real): (m: BlockMesh)
    ensures |m.dims| == |m.nodeCounts| == |m.centre| == |shape|
    ensures forall a :: 0 <= a < |shape| ==> m.dims[a] == shape[a] as real * dx
    ensures forall a :: 0 <= a < |shape| ==> m.nodeCounts[a] == shape[a] + 1
    ensures forall a :: 0 <= a < |shape| ==> m.centre[a] == 0.0
  {
    var d := |shape|;
    BlockMesh(seq(d, a requires 0 <= a < d => shape[a] as real * dx),
              seq(d, a requires 0 <= a < d => shape[a] + 1),
              seq(d, a requires 0 <= a < d => 0.0))
  }

  predicate WellShaped(m: BlockMesh)
  {
    |m.dims| == |m.nodeCounts| == |m.centre|
  }

  /** The bounding box of a block of extents `dims` centred at `centre`. */
  function BoundingBox(m: BlockMesh): (dom: Domain)
    requires WellShaped(m)
    ensures |dom.min| == |dom.max| == |m.dims|
    ensures forall a :: 0 <= a < |m.dims| ==> dom.max[a] - dom.min[a] == m.dims[a]
    ensures forall a :: 0 <= a < |m.dims| ==> dom.min[a] + dom.max[a] == 2.0 * m.centre[a]
  {
    var d := |m.dims|;
    Domain(seq(d, a requires 0 <= a < d => m.centre[a] - m.dims[a] / 2.0),
           seq(d, a requires 0 <= a < d => m.centre[a] + m.dims[a] / 2.0))
  }

  /** The k-th of the evenly spaced nodes along axis a, from the minimum to the maximum face. */
  function NodeCoordinate(m: BlockMesh, a: nat, k: nat): real
    requires WellShaped(m) && a < |m.dims| && m.nodeCounts[a] >= 2
  {
    BoundingBox(m).min[a] + k as real * m.dims[a] / (m.nodeCounts[a] - 1) as real
  }

  /**
   * The mesh `get_fields` requests matches the voxel grid: the box spans
   * [-n dx / 2, n dx / 2] on an axis of n voxels, node k sits at min + k dx,
   * so node 0 is on the minimum face, node n on the maximum face, and
   * voxel k lies between nodes k and k + 1.
   */
  lemma MeshGeometry(shape: seq<nat>, dx: real, a: nat, k: nat)
    requires 2 <= |shape| <= 3 && a < |shape| && shape[a] >= 1 && dx > 0.0
    ensures BoundingBox(GetFields(shape, dx)).Valid()
    ensures BoundingBox(GetFields(shape, dx)).min[a] == -(shape[a] as real * dx) / 2.0
    ensures BoundingBox(GetFields(shape, dx)).Length(a) == shape[a] as real * dx
    ensures NodeCoordinate(GetFields(shape, dx), a, k)
         == BoundingBox(GetFields(shape, dx)).min[a] + k as real * dx
    ensures NodeCoordinate(GetFields(shape, dx), a, shape[a]) == BoundingBox(GetFields(shape, dx)).max[a]
  {
    var m := GetFields(shape, dx);
    var n := shape[a] as real;
    assert m.dims[a] == n * dx && m.nodeCounts[a] == shape[a] + 1 && m.centre[a] == 0.0;
    assert (m.nodeCounts[a] - 1) as real == n;
    assert k as real * (n * dx) / n == k as real * dx;
  }
}
