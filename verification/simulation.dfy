/**
 * The `solve` pipeline of pymks/fmks/data/elastic_fe.py around the
 * finite-element solve: validate the labels, build the property table and
 * look it up per voxel, set up one problem per sample (mesh, domain,
 * periodic, displacement and linear-combination conditions), hand each
 * problem to the finite-element library, reshape what comes back to the
 * voxel grid and stack the samples. The library's solve is a parameter.
 */
module Simulation {

  import opened Results
  import opened Grid
  import opened Validation
  import opened Properties
  import opened MaterialField
  import opened Mesh
  import opened Conditions

  // ---------------------------------------------------------------------
  // numpy shape bookkeeping

  /** `np.squeeze(a).shape`: the shape with every axis of extent 1 removed. */
  function SqueezeShape(shape: seq<nat>): (s: seq<nat>)
    ensures Product(s) == Product(shape)
    ensures |s| <= |shape|
    ensures forall a :: 0 <= a < |s| ==> s[a] != 1
  {
    if |shape| == 0 then []
    else if shape[0] == 1 then SqueezeShape(shape[1..])
    else
      var rest := SqueezeShape(shape[1..]);
      assert ([shape[0]] + rest)[1..] == rest;
      [shape[0]] + rest
  }

  /** Squeezing works axis by axis: the shape of a concatenation squeezes piecewise. */
  lemma {:induction false} SqueezeAppend(a: seq<nat>, b: seq<nat>)
    ensures SqueezeShape(a + b) == SqueezeShape(a) + SqueezeShape(b)
  {
    if |a| == 0 {
      assert a + b == b;
    } else {
      assert (a + b)[0] == a[0] && (a + b)[1..] == a[1..] + b;
      SqueezeAppend(a[1..], b);
      if a[0] != 1 {
        assert [a[0]] + SqueezeShape(a[1..] + b) == ([a[0]] + SqueezeShape(a[1..])) + SqueezeShape(b);
      }
    }
  }

  /** An axis of extent 1 disappears, and any other single axis is kept. */
  lemma SqueezeAxis(n: nat)
    ensures SqueezeShape([n]) == if n == 1 then [] else [n]
  {
    assert [n][1..] == [];
  }

  /** A shape without an axis of extent 1 is left as it is. */
  lemma {:induction false} SqueezeKeeps(shape: seq<nat>)
    requires forall a :: 0 <= a < |shape| ==> shape[a] != 1
    ensures SqueezeShape(shape) == shape
  {
    if |shape| > 0 {
      SqueezeKeeps(shape[1..]);
      assert [shape[0]] + shape[1..] == shape;
    }
  }

  /** `np.squeeze(a)`: the same cells under the squeezed shape. */
  function Squeeze<T>(a: NdArray<T>): (r: NdArray<T>)
    requires a.Valid()
    ensures r.Valid() && r.data == a.data && r.shape == SqueezeShape(a.shape)
  {
    NdArray(SqueezeShape(a.shape), a.data)
  }

  /** `shape[-1:]`: the last extent, or nothing for a 0-d shape. */
  function LastAxis(shape: seq<nat>): seq<nat>
  {
    if |shape| == 0 then [] else [shape[|shape| - 1]]
  }

  /** `tuple(x + 1 for x in shape)`: the node counts of a voxel grid. */
  function NodeShape(grid: seq<nat>): seq<nat>
  {
    seq(|grid|, a requires 0 <= a < |grid| => grid[a] + 1)
  }

  /** The node counts the reshape uses are the ones the mesh was built with. */
  lemma NodeShapeIsMesh(grid: seq<nat>, dx: real)
    ensures NodeShape(grid) == GetFields(grid, dx).nodeCounts
    ensures forall a :: 0 <= a < |grid| ==> NodeShape(grid)[a] == grid[a] + 1
  {
  }

  /** The number of independent entries of a symmetric d x d tensor: 3 in 2D, 6 in 3D. */
  function Components(d: nat): nat
  {
    d * (d + 1) / 2
  }

  // ---------------------------------------------------------------------
  // One sample

  /** What the library hands back for one sample: the nodal displacement and the element averages. */
  datatype RawOutput = RawOutput(u: NdArray<real>, strainEl: NdArray<real>, stressEl: NdArray<real>)

  predicate RawValid(raw: RawOutput)
  {
    raw.u.Valid() && raw.strainEl.Valid() && raw.stressEl.Valid()
  }

  /**
   * The layout the library uses for a grid: one displacement row of |grid|
   * components per node, and element averages of shape
   * (n_el, 1, n_components, 1), one element per voxel.
   */
  predicate RawShapes(raw: RawOutput, grid: seq<nat>)
  {
    && RawValid(raw)
    && raw.u.shape == [Product(NodeShape(grid)), |grid|]
    && raw.strainEl.shape == [Product(grid), 1, Components(|grid|), 1]
    && raw.stressEl.shape == [Product(grid), 1, Components(|grid|), 1]
  }

  /** The strain, displacement and stress of one sample on the voxel grid. */
  datatype SampleOutput = SampleOutput(strain: NdArray<real>, displacement: NdArray<real>, stress: NdArray<real>)

  /**
   * The reshapes at the end of `ElasticFESimulation.solve`: u to
   * (grid + 1) + u.shape[-1:], the squeezed strain and stress to
   * grid + shape[-1:]; any reshape whose cell count does not match raises
   * (`None`).
   */
  function ShapeOutputs(grid: seq<nat>, raw: RawOutput): (r: Option<SampleOutput>)
    requires RawValid(raw)
    ensures r.Some? <==>
      && Product(NodeShape(grid) + LastAxis(raw.u.shape)) == Product(raw.u.shape)
      && Product(grid + LastAxis(SqueezeShape(raw.strainEl.shape))) == Product(raw.strainEl.shape)
      && Product(grid + LastAxis(SqueezeShape(raw.stressEl.shape))) == Product(raw.stressEl.shape)
    ensures r.Some? ==>
      && r.value.displacement.Valid() && r.value.displacement.data == raw.u.data
      && r.value.strain.Valid() && r.value.strain.data == raw.strainEl.data
      && r.value.stress.Valid() && r.value.stress.data == raw.stressEl.data
  {
    var u := Reshape(raw.u, NodeShape(grid) + LastAxis(raw.u.shape));
    var strain := Squeeze(raw.strainEl);
    var strainR := Reshape(strain, grid + LastAxis(strain.shape));
    var stress := Squeeze(raw.stressEl);
    var stressR := Reshape(stress, grid + LastAxis(stress.shape));
    if u.Some? && strainR.Some? && stressR.Some? then
      Some(SampleOutput(strainR.value, u.value, stressR.value))
    else None
  }

  lemma ElementAverageShape(nEl: nat, nComp: nat)
    requires nComp >= 2
    ensures LastAxis(SqueezeShape([nEl, 1, nComp, 1])) == [nComp]
  {
    var s := [nEl, 1, nComp, 1];
    assert s[1..][1..] == [nComp, 1] && s[1..][1..][1..] == [1];
    assert SqueezeShape([1]) == [];
    assert SqueezeShape([nComp, 1]) == [nComp];
  }

  lemma ProductPair(m: nat, n: nat)
    ensures Product([m, n]) == m * n
  {
    assert [m, n][1..] == [n] && [n][1..] == [];
    assert Product([n]) == n;
  }

  lemma ProductElements(nEl: nat, nComp: nat)
    ensures Product([nEl, 1, nComp, 1]) == nEl * nComp
  {
    var s := [nEl, 1, nComp, 1];
    assert s[1..] == [1, nComp, 1] && s[1..][1..] == [nComp, 1] && s[1..][1..][1..] == [1];
    assert [1][1..] == [];
    assert Product([1]) == 1;
    assert Product([nComp, 1]) == nComp;
    assert Product([1, nComp, 1]) == nComp;
  }

  /**
   * The shape law: when the library returns its usual layout, every reshape
   * succeeds, the displacement has shape (grid + 1) + (d,), strain and stress
   * have shape grid + (n_components,), and no value is moved. This holds for
   * a single-voxel grid as well, where squeeze also drops the element axis.
   */
  lemma {:induction false} ShapeLaw(grid: seq<nat>, raw: RawOutput)
    requires RawShapes(raw, grid) && |grid| >= 2
    ensures ShapeOutputs(grid, raw).Some?
    ensures ShapeOutputs(grid, raw).value.displacement.shape == NodeShape(grid) + [|grid|]
    ensures ShapeOutputs(grid, raw).value.strain.shape == grid + [Components(|grid|)]
    ensures ShapeOutputs(grid, raw).value.stress.shape == grid + [Components(|grid|)]
  {
    var d := |grid|;
    var c := Components(d);
    assert c >= 2 by {
      assert d * (d + 1) >= 2 * 3;
    }
    assert LastAxis(raw.u.shape) == [d];
    ProductAppend(NodeShape(grid), d);
    ProductPair(Product(NodeShape(grid)), d);
    ElementAverageShape(Product(grid), c);
    ProductElements(Product(grid), c);
    ProductAppend(grid, c);
  }

  // ---------------------------------------------------------------------
  // Setting up each sample

  /** Everything `ElasticFESimulation.solve` builds for one sample before it calls the library. */
  datatype SampleProblem = SampleProblem(
    properties: NdArray<real>,
    mesh: BlockMesh,
    domain: Domain,
    periodic: seq<PeriodicBC>,
    matchFunctions: seq<MatchFunction>,
    essential: seq<EssentialBC>,
    linear: seq<LinearCombinationBC>)

  /** A per-sample property array: a 2D or 3D grid followed by the (lam, mu) axis. */
  predicate SampleProperties(pa: NdArray<real>)
  {
    pa.Valid() && 3 <= |pa.shape| <= 4 && pa.shape[|pa.shape| - 1] == 2
  }

  /**
   * The set-up half of `ElasticFESimulation.solve(property_array,
   * macro_strain, delta_x)`: the mesh of the grid, its bounding box, and the
   * conditions built from that box.
   */
  function SetUp(pa: NdArray<real>, macroStrain: real, dx: real): (p: SampleProblem)
    requires SampleProperties(pa)
    ensures p.domain.Valid() && p.domain.Dim() == |pa.shape| - 1
    ensures |p.periodic| == 2 * p.domain.Dim() - 1 && |p.matchFunctions| == |p.periodic|
    ensures p.properties == pa
  {
    var mesh := GetFields(GridShape(pa), dx);
    var dom := BoundingBox(mesh);
    var bcs := PeriodicBcs(dom);
    SampleProblem(pa, mesh, dom, bcs.0, bcs.1,
                  DisplacementBcs(dom, macroStrain), LinearCombinationBcs(dom, macroStrain))
  }

  /** A label array that passed `_check` has no zero extent. */
  lemma PositiveExtents(shape: seq<nat>)
    requires Product(shape) > 0
    ensures forall a :: 0 <= a < |shape| ==> shape[a] >= 1
  {
    if |shape| > 0 {
      PositiveExtents(shape[1..]);
      assert forall a :: 1 <= a < |shape| ==> shape[a] == shape[1..][a - 1];
    }
  }

  /**
   * The front of `solve(x_data, elastic_modulus, poissons_ratio,
   * macro_strain, delta_x)`: `_check`, then `_convert_properties(rank - 1,
   * ...)[x_data]`, then one problem per sample along the first axis.
   */
  function Prepare(x: Microstructure, modulus: seq<real>, ratio: seq<real>,
                   macroStrain: real, dx: real): (r: Result<seq<SampleProblem>, CheckError>)
    requires x.labels.Valid() && (Check(|modulus|, |ratio|, x).Ok? ==> AdmissibleRatios(modulus, ratio))
    ensures r.Err? <==> Check(|modulus|, |ratio|, x).Err?
    ensures r.Err? ==> r.error == Check(|modulus|, |ratio|, x).error
    ensures r.Ok? ==> |x.labels.shape| > 0 && |r.value| == x.labels.shape[0] > 0
  {
    match Check(|modulus|, |ratio|, x)
    case Err(e) => Err(e)
    case Ok(y) => Ok(Problems(y, modulus, ratio, macroStrain, dx))
  }

  /**
   * `_convert_properties(rank - 1, ...)[x_data]` on a microstructure that
   * passed `_check`, then one problem per sample along the first axis.
   */
  function Problems(x: Microstructure, modulus: seq<real>, ratio: seq<real>,
                    macroStrain: real, dx: real): (r: seq<SampleProblem>)
    requires x.labels.Valid() && AdmissibleRatios(modulus, ratio)
    requires Check(|modulus|, |ratio|, x).Ok?
    ensures |x.labels.shape| > 0 && |r| == x.labels.shape[0] > 0
  {
    CheckAccepts(|modulus|, |ratio|, x);
    var table := ConvertProperties(|x.labels.shape| - 1, modulus, ratio);
    var pa := Lookup(table, x.labels);
    PositiveExtents(x.labels.shape);
    var n := x.labels.shape[0];
    seq(n, s requires 0 <= s < n => SetUp(SampleOf(pa, s), macroStrain, dx))
  }

  /**
   * The box of one sample: edge grid[a] * delta_x on axis a, centred at the
   * origin.
   */
  lemma SetUpGeometry(pa: NdArray<real>, macroStrain: real, dx: real)
    requires SampleProperties(pa) && dx > 0.0
    requires forall a :: 0 <= a < |pa.shape| ==> pa.shape[a] >= 1
    ensures forall a :: 0 <= a < |pa.shape| - 1 ==>
      SetUp(pa, macroStrain, dx).domain.min[a] == -(pa.shape[a] as real * dx) / 2.0
    ensures forall a :: 0 <= a < |pa.shape| - 1 ==>
      SetUp(pa, macroStrain, dx).domain.Length(a) == pa.shape[a] as real * dx
  {
    var grid := GridShape(pa);
    var dom := BoundingBox(GetFields(grid, dx));
    assert SetUp(pa, macroStrain, dx).domain == dom;
    forall a | 0 <= a < |grid|
      ensures dom.min[a] == -(pa.shape[a] as real * dx) / 2.0
      ensures dom.Length(a) == pa.shape[a] as real * dx
    {
      MeshGeometry(grid, dx, a, 0);
    }
  }

  /**
   * The loading of one sample: the shift condition and the linear
   * combination both prescribe macro_strain * (n_x * delta_x) along x.
   */
  lemma SetUpLoading(pa: NdArray<real>, macroStrain: real, dx: real)
    requires SampleProperties(pa) && dx > 0.0
    requires forall a :: 0 <= a < |pa.shape| ==> pa.shape[a] >= 1
    ensures SetUp(pa, macroStrain, dx).essential[0].values == [("u.0", macroStrain * (pa.shape[0] as real * dx))]
    ensures SetUp(pa, macroStrain, dx).linear[0].offset == macroStrain * (pa.shape[0] as real * dx)
  {
    var grid := GridShape(pa);
    var dom := BoundingBox(GetFields(grid, dx));
    assert SetUp(pa, macroStrain, dx).essential == DisplacementBcs(dom, macroStrain);
    assert SetUp(pa, macroStrain, dx).linear == LinearCombinationBcs(dom, macroStrain);
    PrescribedDisplacement(grid, dx, macroStrain);
    var v := macroStrain * (grid[0] as real * dx);
    assert v == macroStrain * (pa.shape[0] as real * dx);
    assert [("u.0", v)] == [("u.0", macroStrain * (pa.shape[0] as real * dx))];
  }

  /** Problem s of `Prepare` is the set-up of sample s of the looked-up property array. */
  lemma PrepareProblem(x: Microstructure, modulus: seq<real>, ratio: seq<real>,
                       macroStrain: real, dx: real, s: nat)
    requires x.labels.Valid() && AdmissibleRatios(modulus, ratio)
    requires Prepare(x, modulus, ratio, macroStrain, dx).Ok?
    requires s < |Prepare(x, modulus, ratio, macroStrain, dx).value|
    ensures WellFormed(x, |modulus|) && |modulus| == |ratio| && Product(x.labels.shape) > 0
    ensures LabelsIndexTable(x.labels, |ConvertProperties(|x.labels.shape| - 1, modulus, ratio)|)
    ensures s < x.labels.shape[0]
    ensures var sample := SampleOf(Lookup(ConvertProperties(|x.labels.shape| - 1, modulus, ratio), x.labels), s);
      && sample.shape == x.labels.shape[1..] + [2]
      && (forall a :: 0 <= a < |sample.shape| ==> sample.shape[a] >= 1)
      && Prepare(x, modulus, ratio, macroStrain, dx).value[s] == SetUp(sample, macroStrain, dx)
  {
    CheckAccepts(|modulus|, |ratio|, x);
    PositiveExtents(x.labels.shape);
    assert Prepare(x, modulus, ratio, macroStrain, dx).value == Problems(x, modulus, ratio, macroStrain, dx);
  }

  /**
   * The material of problem s at voxel v is the table row of the phase
   * labelled at (s, v).
   */
  lemma PrepareMaterial(x: Microstructure, modulus: seq<real>, ratio: seq<real>,
                        macroStrain: real, dx: real, s: nat, v: seq<int>)
    requires x.labels.Valid() && AdmissibleRatios(modulus, ratio)
    requires Prepare(x, modulus, ratio, macroStrain, dx).Ok?
    requires s < |Prepare(x, modulus, ratio, macroStrain, dx).value|
    requires InBounds(x.labels.shape[1..], v)
    ensures var p := Prepare(x, modulus, ratio, macroStrain, dx).value[s];
      var table := ConvertProperties(|x.labels.shape| - 1, modulus, ratio);
      && InBounds(x.labels.shape, [s] + v)
      && 0 <= x.labels.At([s] + v) < |table|
      && p.properties.shape == x.labels.shape[1..] + [2]
      && InBounds(p.properties.shape, v + [0]) && InBounds(p.properties.shape, v + [1])
      && p.properties.At(v + [0]) == table[x.labels.At([s] + v)].lam
      && p.properties.At(v + [1]) == table[x.labels.At([s] + v)].mu
  {
    PrepareProblem(x, modulus, ratio, macroStrain, dx, s);
    var table := ConvertProperties(|x.labels.shape| - 1, modulus, ratio);
    var pa := Lookup(table, x.labels);
    var sample := SampleOf(pa, s);
    var grid := x.labels.shape[1..];
    assert InBounds(x.labels.shape, [s] + v) by {
      assert forall a :: 1 <= a < |x.labels.shape| ==> ([s] + v)[a] == v[a - 1];
    }
    LookupAt(table, x.labels, [s] + v);
    forall c | 0 <= c < 2
      ensures InBounds(sample.shape, v + [c]) && sample.At(v + [c]) == pa.At([s] + v + [c])
    {
      InBoundsAppend(grid, v, 2, c);
      SampleOfAt(pa, s, v + [c]);
      assert [s] + (v + [c]) == [s] + v + [c];
    }
  }

  // ---------------------------------------------------------------------
  // Stacking the samples

  /** The cells of the arrays one after another. */
  function Concat<T>(arrays: seq<NdArray<T>>, s: seq<nat>): (data: seq<T>)
    requires forall k :: 0 <= k < |arrays| ==> arrays[k].Valid() && arrays[k].shape == s
    ensures |data| == |arrays| * Product(s)
  {
    if |arrays| == 0 then []
    else
      var rest := Concat(arrays[1..], s);
      assert arrays[0].Valid() && arrays[0].shape == s;
      assert |rest| == (|arrays| - 1) * Product(s);
      assert Product(s) + (|arrays| - 1) * Product(s) == |arrays| * Product(s);
      arrays[0].data + rest
  }

  /** `np.array(arrays)` for arrays of one common shape s: shape (n,) + s. */
  function Stack<T>(arrays: seq<NdArray<T>>, s: seq<nat>): (r: NdArray<T>)
    requires forall k :: 0 <= k < |arrays| ==> arrays[k].Valid() && arrays[k].shape == s
    ensures r.Valid() && r.shape == [|arrays|] + s
  {
    assert ([|arrays|] + s)[1..] == s;
    NdArray([|arrays|] + s, Concat(arrays, s))
  }

  lemma {:induction false} ConcatAt<T>(arrays: seq<NdArray<T>>, s: seq<nat>, k: nat, o: nat)
    requires forall k :: 0 <= k < |arrays| ==> arrays[k].Valid() && arrays[k].shape == s
    requires k < |arrays| && o < Product(s)
    ensures k * Product(s) + o < |Concat(arrays, s)|
    ensures Concat(arrays, s)[k * Product(s) + o] == arrays[k].data[o]
  {
    MulMonotone(k + 1, |arrays|, Product(s));
    if k > 0 {
      ConcatAt(arrays[1..], s, k - 1, o);
      assert k * Product(s) + o == Product(s) + ((k - 1) * Product(s) + o);
    }
  }

  /** Sample k of the stack is the k-th array. */
  lemma StackAt<T>(arrays: seq<NdArray<T>>, s: seq<nat>, k: nat, idx: seq<int>)
    requires forall k :: 0 <= k < |arrays| ==> arrays[k].Valid() && arrays[k].shape == s
    requires k < |arrays| && InBounds(s, idx)
    ensures InBounds([|arrays|] + s, [k] + idx)
    ensures Stack(arrays, s).At([k] + idx) == arrays[k].At(idx)
  {
    var full := [|arrays|] + s;
    assert full[1..] == s && ([k] + idx)[1..] == idx;
    assert InBounds(full, [k] + idx) by {
      assert forall a :: 1 <= a < |full| ==> ([k] + idx)[a] == idx[a - 1];
    }
    OffsetInRange(s, idx);
    ConcatAt(arrays, s, k, Offset(s, idx));
  }

  // ---------------------------------------------------------------------
  // The whole pipeline

  datatype SolveError = Invalid(cause: CheckError) | ReshapeFailed | Ragged

  /** The three stacked outputs: strain, displacement and stress. */
  datatype Fields = Fields(strain: NdArray<real>, displacement: NdArray<real>, stress: NdArray<real>)

  predicate Uniform(arrays: seq<NdArray<real>>)
  {
    forall k :: 0 <= k < |arrays| ==> arrays[k].Valid() && arrays[k].shape == arrays[0].shape
  }

  /** The reshaped outputs of every problem, `None` where a reshape fails. */
  function Outputs(problems: seq<SampleProblem>, fe: SampleProblem -> RawOutput): (outs: seq<Option<SampleOutput>>)
    requires forall k :: 0 <= k < |problems| ==> SampleProperties(problems[k].properties)
    requires forall p :: RawValid(fe(p))
    ensures |outs| == |problems|
  {
    seq(|problems|, k requires 0 <= k < |problems| =>
      assert SampleProperties(problems[k].properties);
      ShapeOutputs(GridShape(problems[k].properties), fe(problems[k])))
  }

  /**
   * `zip(*outputs)` and `np.array` on each of the three groups: each group
   * must have one shape, and is then stacked along a new first axis.
   */
  function StackOutputs(outs: seq<SampleOutput>): (r: Result<Fields, SolveError>)
    ensures r.Ok? <==> |outs| > 0 && Uniform(Strains(outs)) && Uniform(Displacements(outs)) && Uniform(Stresses(outs))
    ensures r.Ok? ==> && r.value.strain.shape == [|outs|] + outs[0].strain.shape
                      && r.value.displacement.shape == [|outs|] + outs[0].displacement.shape
                      && r.value.stress.shape == [|outs|] + outs[0].stress.shape
  {
    if |outs| > 0 && Uniform(Strains(outs)) && Uniform(Displacements(outs)) && Uniform(Stresses(outs)) then
      Ok(Fields(Stack(Strains(outs), outs[0].strain.shape),
                Stack(Displacements(outs), outs[0].displacement.shape),
                Stack(Stresses(outs), outs[0].stress.shape)))
    else Err(Ragged)
  }

  function Strains(outs: seq<SampleOutput>): seq<NdArray<real>>
  {
    seq(|outs|, k requires 0 <= k < |outs| => outs[k].strain)
  }

  function Displacements(outs: seq<SampleOutput>): seq<NdArray<real>>
  {
    seq(|outs|, k requires 0 <= k < |outs| => outs[k].displacement)
  }

  function Stresses(outs: seq<SampleOutput>): seq<NdArray<real>>
  {
    seq(|outs|, k requires 0 <= k < |outs| => outs[k].stress)
  }

  /** The values of a sequence of options that are all present. */
  function Values(outs: seq<Option<SampleOutput>>): seq<SampleOutput>
    requires forall k :: 0 <= k < |outs| ==> outs[k].Some?
  {
    seq(|outs|, k requires 0 <= k < |outs| => outs[k].value)
  }

  /**
   * The back of `solve`: solve and reshape each prepared problem, then stack.
   */
  function SolveProblems(problems: seq<SampleProblem>, fe: SampleProblem -> RawOutput): (r: Result<Fields, SolveError>)
    requires forall k :: 0 <= k < |problems| ==> SampleProperties(problems[k].properties)
    requires forall p :: RawValid(fe(p))
    ensures r.Err? ==> !r.error.Invalid?
    ensures r.Ok? ==> && |r.value.strain.shape| > 0 && r.value.strain.shape[0] == |problems|
                      && |r.value.displacement.shape| > 0 && r.value.displacement.shape[0] == |problems|
                      && |r.value.stress.shape| > 0 && r.value.stress.shape[0] == |problems|
  {
    var outs := Outputs(problems, fe);
    if exists k :: 0 <= k < |outs| && outs[k].None? then Err(ReshapeFailed)
    else StackOutputs(Values(outs))
  }

  /**
   * `solve(x_data, elastic_modulus, poissons_ratio, macro_strain, delta_x)`
   * with the library's solve given as `fe`: prepare every sample, solve and
   * reshape each, then stack the strains, the displacements and the
   * stresses.
   */
  function Solve(x: Microstructure, modulus: seq<real>, ratio: seq<real>, macroStrain: real, dx: real,
                 fe: SampleProblem -> RawOutput): (r: Result<Fields, SolveError>)
    requires x.labels.Valid() && (Check(|modulus|, |ratio|, x).Ok? ==> AdmissibleRatios(modulus, ratio))
    requires forall p :: RawValid(fe(p))
    ensures r.Err? && r.error.Invalid? <==> Check(|modulus|, |ratio|, x).Err?
    ensures r.Err? && r.error.Invalid? ==> r.error.cause == Check(|modulus|, |ratio|, x).error
    ensures r.Ok? ==> && |x.labels.shape| > 0
                      && |r.value.strain.shape| > 0 && r.value.strain.shape[0] == x.labels.shape[0]
                      && |r.value.displacement.shape| > 0 && r.value.displacement.shape[0] == x.labels.shape[0]
                      && |r.value.stress.shape| > 0 && r.value.stress.shape[0] == x.labels.shape[0]
  {
    match Prepare(x, modulus, ratio, macroStrain, dx)
    case Err(e) => Err(Invalid(e))
    case Ok(problems) => SolveProblems(problems, fe)
  }

  /**
   * When `_check` passes and the library returns its usual layout for every
   * sample, `solve` succeeds with strain and stress of shape
   * (n_samples,) + grid + (n_components,) and displacement of shape
   * (n_samples,) + (grid + 1) + (d,).
   */
  lemma SolveShapes(x: Microstructure, modulus: seq<real>, ratio: seq<real>, macroStrain: real, dx: real,
                    fe: SampleProblem -> RawOutput)
    requires x.labels.Valid() && AdmissibleRatios(modulus, ratio)
    requires forall p :: RawValid(fe(p))
    requires Check(|modulus|, |ratio|, x).Ok?
    requires forall p: SampleProblem :: SampleProperties(p.properties) ==> RawShapes(fe(p), GridShape(p.properties))
    ensures var grid := x.labels.shape[1..];
      var n := x.labels.shape[0];
      var r := Solve(x, modulus, ratio, macroStrain, dx, fe);
      && r.Ok?
      && r.value.strain.shape == [n] + grid + [Components(|grid|)]
      && r.value.stress.shape == [n] + grid + [Components(|grid|)]
      && r.value.displacement.shape == [n] + NodeShape(grid) + [|grid|]
  {
    var problems := Prepare(x, modulus, ratio, macroStrain, dx).value;
    var grid := x.labels.shape[1..];
    forall k | 0 <= k < |problems|
      ensures SampleProperties(problems[k].properties) && GridShape(problems[k].properties) == grid
    {
      PrepareProblem(x, modulus, ratio, macroStrain, dx, k);
      assert problems[k].properties.shape == x.labels.shape[1..] + [2];
    }
    ProblemsShapes(problems, grid, fe);
  }

  /** Problems on one grid of at least two axes stack into outputs of the documented shapes. */
  lemma ProblemsShapes(problems: seq<SampleProblem>, grid: seq<nat>, fe: SampleProblem -> RawOutput)
    requires |problems| > 0 && |grid| >= 2
    requires forall k :: 0 <= k < |problems| ==>
      SampleProperties(problems[k].properties) && GridShape(problems[k].properties) == grid
    requires forall p :: RawValid(fe(p))
    requires forall p: SampleProblem :: SampleProperties(p.properties) ==> RawShapes(fe(p), GridShape(p.properties))
    ensures var r := SolveProblems(problems, fe);
      && r.Ok?
      && r.value.strain.shape == [|problems|] + grid + [Components(|grid|)]
      && r.value.stress.shape == [|problems|] + grid + [Components(|grid|)]
      && r.value.displacement.shape == [|problems|] + NodeShape(grid) + [|grid|]
  {
    var c := Components(|grid|);
    var outs := Outputs(problems, fe);
    forall k | 0 <= k < |problems|
      ensures outs[k].Some?
      ensures outs[k].value.strain.shape == grid + [c]
      ensures outs[k].value.stress.shape == grid + [c]
      ensures outs[k].value.displacement.shape == NodeShape(grid) + [|grid|]
    {
      ShapeLaw(grid, fe(problems[k]));
    }
    var vs := Values(outs);
    assert Uniform(Strains(vs)) && Uniform(Displacements(vs)) && Uniform(Stresses(vs));
  }
}
