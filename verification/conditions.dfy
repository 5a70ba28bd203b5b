/**
 * The boundary-condition builders of pymks/fmks/data/elastic_fe.py
 * (`get_region_func`, `get_bc`, `get_periodic_bc_yz`, `get_periodic_bc_x`,
 * `get_periodic_bcs`, `get_shift_or_fixed_bcs`, `get_displacement_bcs`,
 * `get_linear_combination_bcs`), with the library's Region, PeriodicBC,
 * EssentialBC, LinearCombinationBC and Function objects as plain values.
 */
module Conditions {

  import opened Results
  import opened Subdomain
  import opened Mesh

  /** How the library turns the selected vertices into a region. */
  datatype RegionKind = Facet | Vertex

  /** `domain.create_region(name, "vertices by <functionName>", kind)` with its selector. */
  datatype Region = Region(name: string, functionName: string, selector: Selector, kind: RegionKind)

  /** `Function("match_<axis>_plane", per.match_<axis>_plane)`. */
  datatype MatchFunction = MatchFunction(name: string, axis: nat)

  /** `PeriodicBC(name, [plus, minus], dofs, match=matchName)`. */
  datatype PeriodicBC = PeriodicBC(name: string, regions: seq<Region>, dofs: seq<(string, string)>, matchName: string)

  /** `EssentialBC(name, region, values)`: prescribed displacement components. */
  datatype EssentialBC = EssentialBC(name: string, region: Region, values: seq<(string, real)>)

  /**
   * `LinearCombinationBC(name, [plus, minus], dofs, match, kind,
   * arguments=(Function(shiftName, shift_),))`, with `offset` the constant
   * value that `shift_` returns at every node.
   */
  datatype LinearCombinationBC = LinearCombinationBC(
    name: string, regions: seq<Region>, dofs: seq<(string, string)>,
    matchFunction: MatchFunction, kind: string, shiftName: string, offset: real)

  /** "x", "y" or "z". */
  function AxisName(a: nat): string
  {
    if a == 0 then "x" else if a == 1 then "y" else "z"
  }

  /** The displacement component "u.c". */
  function Component(c: nat): string
  {
    if c == 0 then "u.0" else if c == 1 then "u.1" else "u.2"
  }

  /** `subdomain_func(max_x=maxX, <axis>_points=points)`. */
  function AxisSelector(a: nat, points: seq<real>, maxX: Option<real>): Selector
  {
    Selector(if a == 0 then points else [], if a == 1 then points else [], if a == 2 then points else [], maxX)
  }

  /**
   * `get_region_func(max_x, dim_string, domain, (side, value))`: the facet
   * region "region_<axis>_<side>" of the vertices close to `value` on that axis.
   */
  function GetRegionFunc(maxX: Option<real>, a: nat, side: string, value: real): (r: Region)
    ensures r.name == "region_" + AxisName(a) + "_" + side && r.kind == Facet
    ensures r.selector.maxX == maxX
    ensures a < 3 ==> OnFace(r, a, value)
  {
    Region("region_" + AxisName(a) + "_" + side, AxisName(a) + side, AxisSelector(a, [value], maxX), Facet)
  }

  /**
   * `get_bc(max_x_func, domain, dim, bc_dict_func)`: the periodic condition
   * "periodic_<axis>" pairing the maximum ("plus") and minimum ("minus") face
   * of the axis, and the plane-matching function it names.
   */
  function GetBc(maxX: Option<real>, dom: Domain, a: nat, dofs: seq<(string, string)>): (r: (PeriodicBC, MatchFunction))
    requires dom.Valid() && a < dom.Dim()
    ensures r.0.name == "periodic_" + AxisName(a) && r.0.dofs == dofs
    ensures PairsFaces(r.0.regions, dom, a)
    ensures r.0.regions[0].selector.maxX == maxX && r.0.regions[1].selector.maxX == maxX
    ensures r.1.name == r.0.matchName && r.1.axis == a
  {
    var regions := [GetRegionFunc(maxX, a, "plus", dom.max[a]), GetRegionFunc(maxX, a, "minus", dom.min[a])];
    var matchName := "match_" + AxisName(a) + "_plane";
    (PeriodicBC("periodic_" + AxisName(a), regions, dofs, matchName), MatchFunction(matchName, a))
  }

  /** The components other than u.0: u.1, and u.2 in 3D. */
  function TransverseDofs(d: nat): seq<(string, string)>
  {
    [("u.1", "u.1")] + (if d == 3 then [("u.2", "u.2")] else [])
  }

  /** `get_periodic_bc_yz(domain, dim)`: no x exclusion, maps u.1 (and u.2 in 3D). */
  function PeriodicBcYZ(dom: Domain, a: nat): (r: (PeriodicBC, MatchFunction))
    requires dom.Valid() && a < dom.Dim()
    ensures PairsFaces(r.0.regions, dom, a)
    ensures r.0.regions[0].selector.maxX.None? && r.0.regions[1].selector.maxX.None?
    ensures forall c :: 0 <= c < dom.Dim() ==> (Ties(r.0.dofs, c) <==> c != 0)
  {
    GetBc(None, dom, a, TransverseDofs(dom.Dim()))
  }

  /** `get_periodic_bc_x(domain, dim)`: excludes x = max_x, maps u.0. */
  function PeriodicBcX(dom: Domain, a: nat): (r: (PeriodicBC, MatchFunction))
    requires dom.Valid() && a < dom.Dim()
    ensures PairsFaces(r.0.regions, dom, a)
    ensures r.0.regions[0].selector.maxX == Some(dom.max[0]) && r.0.regions[1].selector.maxX == Some(dom.max[0])
    ensures forall c :: 0 <= c < dom.Dim() ==> (Ties(r.0.dofs, c) <==> c == 0)
  {
    GetBc(Some(dom.max[0]), dom, a, [("u.0", "u.0")])
  }

  /**
   * `get_periodic_bcs(domain)`: the yz-kind conditions for axes 0..d-1
   * followed by the x-kind conditions for axes 1..d-1, with their functions
   * in the same order.
   */
  function PeriodicBcs(dom: Domain): (r: (seq<PeriodicBC>, seq<MatchFunction>))
    requires dom.Valid()
    ensures |r.0| == 2 * dom.Dim() - 1 && |r.1| == |r.0|
    ensures forall i :: 0 <= i < |r.0| ==> r.1[i].name == r.0[i].matchName
  {
    var d := dom.Dim();
    var yz := seq(d, a requires 0 <= a < d => PeriodicBcYZ(dom, a));
    var x := seq(d - 1, k requires 0 <= k < d - 1 => PeriodicBcX(dom, k + 1));
    (seq(d, i requires 0 <= i < d => yz[i].0) + seq(d - 1, i requires 0 <= i < d - 1 => x[i].0),
     seq(d, i requires 0 <= i < d => yz[i].1) + seq(d - 1, i requires 0 <= i < d - 1 => x[i].1))
  }

  /**
   * `get_shift_or_fixed_bcs(domain, points_dict_f, name, x_points_f)`: the
   * vertex region "region_<name>_points" of the nodes at the given x that
   * sit on the minimum or maximum y (and z) face, with prescribed values.
   */
  function ShiftOrFixedBc(dom: Domain, values: seq<(string, real)>, name: string, xPoints: seq<real>): EssentialBC
    requires dom.Valid()
  {
    var sel := Selector(xPoints, [dom.max[1], dom.min[1]],
                        if dom.Dim() == 3 then [dom.max[2], dom.min[2]] else [], None);
    EssentialBC(name + "_points_BC", Region("region_" + name + "_points", name + "_x_points", sel, Vertex), values)
  }

  /** The zero value for every displacement component of the domain. */
  function FixedValues(d: nat): seq<(string, real)>
  {
    [("u.0", 0.0), ("u.1", 0.0)] + (if d == 3 then [("u.2", 0.0)] else [])
  }

  /**
   * `get_displacement_bcs(domain, macro_strain)`: the shift condition at
   * x = max followed by the fix condition at x = min.
   */
  function DisplacementBcs(dom: Domain, macroStrain: real): (r: seq<EssentialBC>)
    requires dom.Valid()
    ensures |r| == 2
    ensures r[0].region.selector.xPoints == [dom.max[0]] && r[1].region.selector.xPoints == [dom.min[0]]
    ensures r[0].region.kind == Vertex && r[1].region.kind == Vertex
  {
    [ShiftOrFixedBc(dom, [("u.0", macroStrain * dom.Length(0))], "shift", [dom.max[0]]),
     ShiftOrFixedBc(dom, FixedValues(dom.Dim()), "fix", [dom.min[0]])]
  }

  /**
   * `get_linear_combination_bcs(domain, macro_strain)`: u.0 on the x-plus
   * face equals u.0 on the matched x-minus node shifted by
   * macro_strain * (max_x - min_x).
   */
  function LinearCombinationBcs(dom: Domain, macroStrain: real): (r: seq<LinearCombinationBC>)
    requires dom.Valid()
    ensures |r| == 1 && PairsFaces(r[0].regions, dom, 0)
    ensures r[0].offset == macroStrain * dom.Length(0)
  {
    [LinearCombinationBC("lcbc",
       [GetRegionFunc(None, 0, "plus", dom.max[0]), GetRegionFunc(None, 0, "minus", dom.min[0])],
       [("u.0", "u.0")], MatchFunction("match_x_plane", 0), "shifted_periodic", "shift",
       macroStrain * dom.Length(0))]
  }

  /** `shift_(_, coors, __)`: the offset repeated for each of the `n` nodes. */
  function Shift(lc: LinearCombinationBC, n: nat): (s: seq<real>)
    ensures |s| == n && forall k :: 0 <= k < n ==> s[k] == lc.offset
  {
    seq(n, _ => lc.offset)
  }

  // ---------------------------------------------------------------------
  // What the conditions mean

  /** The region selects by `value` on axis a alone. */
  predicate OnFace(r: Region, a: nat, value: real)
    requires a < 3
  {
    r.selector.Points(a) == [value] && forall b :: 0 <= b < 3 && b != a ==> r.selector.Points(b) == []
  }

  /** The regions are the maximum face, then the minimum face, of axis a. */
  predicate PairsFaces(regions: seq<Region>, dom: Domain, a: nat)
    requires dom.Valid() && a < dom.Dim()
  {
    |regions| == 2 && OnFace(regions[0], a, dom.max[a]) && OnFace(regions[1], a, dom.min[a])
  }

  /** The component map ties component c to itself. */
  predicate Ties(dofs: seq<(string, string)>, c: nat)
  {
    (Component(c), Component(c)) in dofs
  }

  /**
   * The layout of `get_periodic_bcs`: first d conditions on axes 0..d-1
   * tying u.1 (and u.2 in 3D) with no x exclusion, then d-1 conditions on
   * axes 1..d-1 tying u.0 whose regions exclude x >= max_x - eps; each
   * pairs the maximum face with the minimum face.
   */
  lemma PeriodicLayout(dom: Domain, i: nat)
    requires dom.Valid() && i < 2 * dom.Dim() - 1
    ensures var conds := PeriodicBcs(dom).0;
      var fns := PeriodicBcs(dom).1;
      var a := if i < dom.Dim() then i else i - dom.Dim() + 1;
      && conds[i].matchName == "match_" + AxisName(a) + "_plane"
      && fns[i] == MatchFunction(conds[i].matchName, a)
    ensures var conds := PeriodicBcs(dom).0;
      if i < dom.Dim() then
        && PairsFaces(conds[i].regions, dom, i)
        && conds[i].dofs == TransverseDofs(dom.Dim())
        && conds[i].regions[0].selector.maxX.None? && conds[i].regions[1].selector.maxX.None?
        && conds[i].name == "periodic_" + AxisName(i)
      else
        && PairsFaces(conds[i].regions, dom, i - dom.Dim() + 1)
        && conds[i].dofs == [("u.0", "u.0")]
        && conds[i].regions[0].selector.maxX == Some(dom.max[0])
        && conds[i].regions[1].selector.maxX == Some(dom.max[0])
        && conds[i].name == "periodic_" + AxisName(i - dom.Dim() + 1)
  {
  }

  /** Where the periodic condition for (axis a, component c) sits in the list. */
  function PeriodicIndex(d: nat, a: nat, c: nat): nat
    requires d >= 1
  {
    if c == 0 then d + a - 1 else a
  }

  /**
   * Every displacement component is tied across every pair of opposite faces
   * by exactly one condition: u.0 across the x faces by the linear
   * combination (with the macro-strain offset), every other (axis, component)
   * pair by exactly one periodic condition.
   */
  lemma ComponentCoverage(dom: Domain, macroStrain: real, a: nat, c: nat)
    requires dom.Valid() && a < dom.Dim() && c < dom.Dim()
    ensures var lc := LinearCombinationBcs(dom, macroStrain)[0];
      (PairsFaces(lc.regions, dom, a) && Ties(lc.dofs, c)) <==> (a == 0 && c == 0)
    ensures var conds := PeriodicBcs(dom).0;
      forall i :: 0 <= i < |conds| ==>
        ((PairsFaces(conds[i].regions, dom, a) && Ties(conds[i].dofs, c))
         <==> (!(a == 0 && c == 0) && i == PeriodicIndex(dom.Dim(), a, c)))
  {
    var d := dom.Dim();
    var conds := PeriodicBcs(dom).0;
    forall i | 0 <= i < |conds|
      ensures (PairsFaces(conds[i].regions, dom, a) && Ties(conds[i].dofs, c))
              <==> (!(a == 0 && c == 0) && i == PeriodicIndex(d, a, c))
    {
      PeriodicLayout(dom, i);
      if i < d {
        assert Ties(conds[i].dofs, c) <==> c != 0;
        assert PairsFaces(conds[i].regions, dom, a) <==> a == i;
      } else {
        assert Ties(conds[i].dofs, c) <==> c == 0;
        assert PairsFaces(conds[i].regions, dom, a) <==> a == i - d + 1;
      }
    }
  }

  /** A region built by `get_region_func` selects the rows within eps of its value on its axis. */
  lemma RegionSelection(maxX: Option<real>, a: nat, side: string, value: real, eps: real, row: seq<real>)
    requires a < 3
    ensures Selected(GetRegionFunc(maxX, a, side, value).selector, eps, row)
        <==> a < |row| && Abs(row[a] - value) < eps && (maxX.Some? ==> row[0] < maxX.value - eps)
  {
    var sel := GetRegionFunc(maxX, a, side, value).selector;
    assert sel.Points(a) == [value];
    if a < |row| && Abs(row[a] - value) < eps {
      assert exists k :: 0 <= k < |sel.Points(a)| && Abs(row[a] - sel.Points(a)[k]) < eps by {
        assert Abs(row[a] - sel.Points(a)[0]) < eps;
      }
    }
  }

  /**
   * The u.0 periodic conditions of the transverse axes leave out the nodes
   * at x = max_x: no node their regions select is on the x-plus face of the
   * linear-combination condition, which prescribes u.0 there instead.
   */
  lemma EdgeExclusion(dom: Domain, macroStrain: real, i: nat, r: nat, eps: real, row: seq<real>)
    requires dom.Valid() && dom.Dim() <= i < 2 * dom.Dim() - 1 && r < 2 && eps > 0.0
    requires Selected(PeriodicBcs(dom).0[i].regions[r].selector, eps, row)
    ensures !Selected(LinearCombinationBcs(dom, macroStrain)[0].regions[0].selector, eps, row)
  {
    var a := i - dom.Dim() + 1;
    PeriodicLayout(dom, i);
    var side := if r == 0 then "plus" else "minus";
    var value := if r == 0 then dom.max[a] else dom.min[a];
    assert PeriodicBcs(dom).0[i].regions[r] == GetRegionFunc(Some(dom.max[0]), a, side, value);
    RegionSelection(Some(dom.max[0]), a, side, value, eps, row);
    RegionSelection(None, 0, "plus", dom.max[0], eps, row);
  }

  /** The value `v` is within eps of one of the two faces of axis a. */
  predicate NearEitherFace(dom: Domain, a: nat, v: real, eps: real)
    requires dom.Valid() && a < dom.Dim()
  {
    Abs(v - dom.max[a]) < eps || Abs(v - dom.min[a]) < eps
  }

  /**
   * The displacement conditions: "shift" prescribes u.0 = macro_strain *
   * (max_x - min_x); "fix" prescribes 0 for every component of the domain.
   */
  lemma DisplacementValues(dom: Domain, macroStrain: real)
    requires dom.Valid()
    ensures |DisplacementBcs(dom, macroStrain)| == 2
    ensures DisplacementBcs(dom, macroStrain)[0].name == "shift_points_BC"
    ensures DisplacementBcs(dom, macroStrain)[0].values == [("u.0", macroStrain * dom.Length(0))]
    ensures DisplacementBcs(dom, macroStrain)[1].name == "fix_points_BC"
    ensures |DisplacementBcs(dom, macroStrain)[1].values| == dom.Dim()
    ensures forall c :: 0 <= c < dom.Dim() ==> DisplacementBcs(dom, macroStrain)[1].values[c] == (Component(c), 0.0)
  {
    var shift := [("u.0", macroStrain * dom.Length(0))];
    assert DisplacementBcs(dom, macroStrain)[0] == ShiftOrFixedBc(dom, shift, "shift", [dom.max[0]]);
    assert ShiftOrFixedBc(dom, shift, "shift", [dom.max[0]]).values == shift;
  }

  /**
   * A region of `get_shift_or_fixed_bcs` at x = `x` selects exactly the
   * nodes near that x which lie on a y face (and, in 3D, also on a z face).
   */
  lemma ShiftOrFixedSelection(dom: Domain, values: seq<(string, real)>, name: string, x: real,
                              eps: real, row: seq<real>)
    requires dom.Valid() && |row| == dom.Dim()
    ensures Selected(ShiftOrFixedBc(dom, values, name, [x]).region.selector, eps, row)
        <==> Abs(row[0] - x) < eps && NearEitherFace(dom, 1, row[1], eps)
             && (dom.Dim() == 3 ==> NearEitherFace(dom, 2, row[2], eps))
  {
    var sel := ShiftOrFixedBc(dom, values, name, [x]).region.selector;
    assert sel.Points(0) == [x] && sel.Points(1) == [dom.max[1], dom.min[1]];
    if Abs(row[0] - x) < eps && NearEitherFace(dom, 1, row[1], eps)
       && (dom.Dim() == 3 ==> NearEitherFace(dom, 2, row[2], eps)) {
      assert Abs(row[0] - sel.Points(0)[0]) < eps;
      if Abs(row[1] - dom.max[1]) < eps {
        assert Abs(row[1] - sel.Points(1)[0]) < eps;
      } else {
        assert Abs(row[1] - sel.Points(1)[1]) < eps;
      }
      if dom.Dim() == 3 {
        assert sel.Points(2) == [dom.max[2], dom.min[2]];
        if Abs(row[2] - dom.max[2]) < eps {
          assert Abs(row[2] - sel.Points(2)[0]) < eps;
        } else {
          assert Abs(row[2] - sel.Points(2)[1]) < eps;
        }
      }
    }
    if Selected(sel, eps, row) {
      var k :| 0 <= k < |sel.Points(1)| && Abs(row[1] - sel.Points(1)[k]) < eps;
      if dom.Dim() == 3 {
        assert sel.Points(2) == [dom.max[2], dom.min[2]];
        var l :| 0 <= l < |sel.Points(2)| && Abs(row[2] - sel.Points(2)[l]) < eps;
      }
    }
  }

  /**
   * "shift" acts on the nodes near x = max_x and "fix" on those near
   * x = min_x, in both cases only the ones lying on a y face (and, in 3D,
   * also on a z face).
   */
  lemma DisplacementRegions(dom: Domain, macroStrain: real, eps: real, row: seq<real>)
    requires dom.Valid() && |row| == dom.Dim()
    ensures var bcs := DisplacementBcs(dom, macroStrain);
      && (Selected(bcs[0].region.selector, eps, row)
          <==> Abs(row[0] - dom.max[0]) < eps && NearEitherFace(dom, 1, row[1], eps)
               && (dom.Dim() == 3 ==> NearEitherFace(dom, 2, row[2], eps)))
      && (Selected(bcs[1].region.selector, eps, row)
          <==> Abs(row[0] - dom.min[0]) < eps && NearEitherFace(dom, 1, row[1], eps)
               && (dom.Dim() == 3 ==> NearEitherFace(dom, 2, row[2], eps)))
  {
    ShiftOrFixedSelection(dom, [("u.0", macroStrain * dom.Length(0))], "shift", dom.max[0], eps, row);
    ShiftOrFixedSelection(dom, FixedValues(dom.Dim()), "fix", dom.min[0], eps, row);
  }

  /** With eps at most half the x length, no node is both shifted and fixed. */
  lemma ShiftFixDisjoint(dom: Domain, macroStrain: real, eps: real, row: seq<real>)
    requires dom.Valid() && |row| == dom.Dim() && 0.0 < eps && 2.0 * eps <= dom.Length(0)
    ensures var bcs := DisplacementBcs(dom, macroStrain);
      !(Selected(bcs[0].region.selector, eps, row) && Selected(bcs[1].region.selector, eps, row))
  {
    DisplacementRegions(dom, macroStrain, eps, row);
  }

  /**
   * The linear-combination condition ties u.0 of the x-plus face to the
   * matched x-minus node plus an offset that is macro_strain times the x
   * length, the same at every node and equal to the shift condition's value.
   */
  lemma LinearCombinationSpec(dom: Domain, macroStrain: real, n: nat)
    requires dom.Valid()
    ensures var lcs := LinearCombinationBcs(dom, macroStrain);
      && |lcs| == 1
      && PairsFaces(lcs[0].regions, dom, 0)
      && lcs[0].dofs == [("u.0", "u.0")]
      && lcs[0].matchFunction == MatchFunction("match_x_plane", 0)
      && lcs[0].kind == "shifted_periodic"
      && |Shift(lcs[0], n)| == n
      && (forall k :: 0 <= k < n ==> Shift(lcs[0], n)[k] == macroStrain * dom.Length(0))
      && DisplacementBcs(dom, macroStrain)[0].values[0].1 == lcs[0].offset
  {
  }

  lemma StepAtLeast(j: int, dx: real, eps: real)
    requires j >= 1 && 0.0 < eps <= dx
    ensures j as real * dx >= eps
  {
    var r := j as real - 1.0;
    assert r >= 0.0;
    assert r * dx >= 0.0;
    assert j as real * dx == r * dx + dx;
  }

  /**
   * On the mesh `get_fields` builds, with a tolerance in (0, dx], the face
   * value of axis a is matched by node k exactly when k is the last node
   * layer (plus face) or the first one (minus face).
   */
  lemma FaceNodes(shape: seq<nat>, dx: real, a: nat, k: nat, eps: real)
    requires 2 <= |shape| <= 3 && a < |shape| && shape[a] >= 1 && dx > 0.0
    requires k <= shape[a] && 0.0 < eps <= dx
    ensures var m := GetFields(shape, dx);
      && (Abs(NodeCoordinate(m, a, k) - BoundingBox(m).max[a]) < eps <==> k == shape[a])
      && (Abs(NodeCoordinate(m, a, k) - BoundingBox(m).min[a]) < eps <==> k == 0)
  {
    var m := GetFields(shape, dx);
    MeshGeometry(shape, dx, a, k);
    MeshGeometry(shape, dx, a, shape[a]);
    var node := NodeCoordinate(m, a, k);
    var lo, hi := BoundingBox(m).min[a], BoundingBox(m).max[a];
    var j: int := shape[a] - k;
    var below, above := k as real * dx, j as real * dx;
    assert node - lo == below;
    assert node - hi == -above;
    if k < shape[a] {
      StepAtLeast(j, dx, eps);
      assert Abs(node - hi) == above;
    } else {
      assert node - hi == 0.0;
    }
    assert Abs(node - hi) < eps <==> k == shape[a];
    if k > 0 {
      StepAtLeast(k, dx, eps);
      assert Abs(node - lo) == below;
    } else {
      assert node - lo == 0.0;
    }
    assert Abs(node - lo) < eps <==> k == 0;
  }

  /**
   * On that mesh the prescribed macroscopic displacement (shift condition
   * and linear-combination offset) is macro_strain * n_x * dx.
   */
  lemma PrescribedDisplacement(shape: seq<nat>, dx: real, macroStrain: real)
    requires 2 <= |shape| <= 3 && shape[0] >= 1 && dx > 0.0
    ensures var dom := BoundingBox(GetFields(shape, dx));
      && dom.Valid()
      && DisplacementBcs(dom, macroStrain)[0].values == [("u.0", macroStrain * (shape[0] as real * dx))]
      && LinearCombinationBcs(dom, macroStrain)[0].offset == macroStrain * (shape[0] as real * dx)
  {
    var dom := BoundingBox(GetFields(shape, dx));
    MeshGeometry(shape, dx, 0, 0);
    DisplacementValues(dom, macroStrain);
    var v := macroStrain * (shape[0] as real * dx);
    assert macroStrain * dom.Length(0) == v;
    assert [("u.0", macroStrain * dom.Length(0))] == [("u.0", v)];
  }
}
