/**
 * The node-selection predicate `subdomain_func` (pymks/fmks/data/elastic_fe.py),
 * with numpy's broadcasting of boolean masks and `np.where` written out.
 */
module Subdomain {

  import opened Results

  /** The arguments of `subdomain_func(x_points, y_points, z_points, max_x)`. */
  datatype Selector = Selector(xPoints: seq<real>, yPoints: seq<real>, zPoints: seq<real>, maxX: Option<real>)
  {
    /** The point list of axis a (0, 1 or 2). */
    function Points(a: nat): seq<real>
      requires a < 3
    {
      if a == 0 then xPoints else if a == 1 then yPoints else zPoints
    }

    /** Some axis has points or max_x is given, so the tolerance is evaluated. */
    predicate Restricts()
    {
      xPoints != [] || yPoints != [] || zPoints != [] || maxX.Some?
    }
  }

  datatype SelectError = IndexError

  /** A numpy 2-D coordinate array: every row has `width` entries. */
  predicate Rectangular(coords: seq<seq<real>>, width: nat)
  {
    forall i :: 0 <= i < |coords| ==> |coords[i]| == width
  }

  /** `eps(coords)`: a thousandth of the last-column step between the first two rows. */
  function Eps(coords: seq<seq<real>>, width: nat): (e: real)
    requires Rectangular(coords, width) && |coords| >= 2 && width >= 1
    ensures e > 0.0 <==> coords[0][width - 1] < coords[1][width - 1]
    ensures e == 0.0 <==> coords[0][width - 1] == coords[1][width - 1]
  {
    0.001 * (coords[1][width - 1] - coords[0][width - 1])
  }

  /** A boolean numpy value: a scalar (Python bool) or one entry per row. */
  datatype Mask = Scalar(b: bool) | Rows(bits: seq<bool>)

  predicate Fits(m: Mask, n: nat)
  {
    m.Rows? ==> |m.bits| == n
  }

  /** `m1 & m2` with numpy broadcasting of a scalar against a row mask. */
  function And(m1: Mask, m2: Mask, n: nat): (m: Mask)
    requires Fits(m1, n) && Fits(m2, n)
    ensures Fits(m, n)
    ensures m.Scalar? <==> m1.Scalar? && m2.Scalar?
  {
    match (m1, m2)
    case (Scalar(a), Scalar(b)) => Scalar(a && b)
    case (Scalar(a), Rows(r)) => Rows(seq(n, i requires 0 <= i < n => a && r[i]))
    case (Rows(r), Scalar(b)) => Rows(seq(n, i requires 0 <= i < n => r[i] && b))
    case (Rows(r), Rows(s)) => Rows(seq(n, i requires 0 <= i < n => r[i] && s[i]))
  }

  /** True at row i iff `m` (broadcast to n rows) is true there. */
  function Bit(m: Mask, i: nat): bool
    requires m.Rows? ==> i < |m.bits|
  {
    if m.Scalar? then m.b else m.bits[i]
  }

  lemma AndBit(m1: Mask, m2: Mask, n: nat, i: nat)
    requires Fits(m1, n) && Fits(m2, n) && i < n
    ensures Bit(And(m1, m2, n), i) == (Bit(m1, i) && Bit(m2, i))
  {
  }

  /** `close(p)` for one coordinate value: strictly within eps of p. */
  predicate Close(v: real, p: real, eps: real)
  {
    v < p + eps && v > p - eps
  }

  /** `np_or` over the per-point `close` masks, for one coordinate value. */
  function AnyClose(v: real, points: seq<real>, eps: real): (r: bool)
    ensures r <==> exists k :: 0 <= k < |points| && Close(v, points[k], eps)
  {
    if |points| == 0 then false
    else
      var init := points[..|points| - 1];
      assert forall k :: 0 <= k < |init| ==> init[k] == points[k];
      AnyClose(v, init, eps) || Close(v, points[|points| - 1], eps)
  }

  /**
   * `flag_it(points, coords, a)`: a scalar True when the axis has no points,
   * else one entry per row telling whether its a-th coordinate is close to some point.
   */
  function FlagAxis(points: seq<real>, coords: seq<seq<real>>, a: nat, eps: real): (m: Mask)
    requires points != [] ==> forall i :: 0 <= i < |coords| ==> a < |coords[i]|
    ensures Fits(m, |coords|)
    ensures |points| == 0 ==> m == Scalar(true)
    ensures |points| > 0 ==> m.Rows? && |m.bits| == |coords|
  {
    if |points| == 0 then Scalar(true)
    else Rows(seq(|coords|, i requires 0 <= i < |coords| => AnyClose(coords[i][a], points, eps)))
  }

  /** Ascending indices of the true entries (`np.where(bits)[0]`). */
  function TrueIndices(bits: seq<bool>): (r: seq<nat>)
    ensures forall k :: 0 <= k < |r| ==> r[k] < |bits|
  {
    if |bits| == 0 then []
    else TrueIndices(bits[..|bits| - 1]) + (if bits[|bits| - 1] then [|bits| - 1] else [])
  }

  /**
   * `first(np.where(mask))`. A scalar mask is treated as a one-element array
   * (numpy's behaviour for 0-d input before release 2.1), so `True` gives [0].
   */
  function Where(m: Mask): (r: seq<nat>)
    ensures m.Rows? ==> forall i :: i in r <==> 0 <= i < |m.bits| && m.bits[i]
    ensures m.Scalar? ==> |r| <= 1 && (0 in r <==> m.b)
  {
    match m
    case Scalar(b) => if b then [0] else []
    case Rows(bits) => TrueIndicesSpec(bits); TrueIndices(bits)
  }

  /** An axis that the selector reads is missing from the coordinate array. */
  predicate AxisMissing(sel: Selector, width: nat)
  {
    || (sel.xPoints != [] && width < 1)
    || (sel.yPoints != [] && width < 2)
    || (sel.zPoints != [] && width < 3)
  }

  /**
   * The folded mask `fold(np_and, [flag_it(x), flag_it(y), flag_it(z)])`,
   * and with max_x the further `& (coords[:, 0] < max_x - eps)`.
   */
  function SelectMask(sel: Selector, coords: seq<seq<real>>, width: nat, eps: real): (m: Mask)
    requires Rectangular(coords, width) && !AxisMissing(sel, width)
    requires sel.maxX.Some? ==> width >= 1
    ensures Fits(m, |coords|)
    ensures m.Rows? <==> sel.Restricts()
  {
    var n := |coords|;
    var m := And(And(FlagAxis(sel.xPoints, coords, 0, eps), FlagAxis(sel.yPoints, coords, 1, eps), n),
                 FlagAxis(sel.zPoints, coords, 2, eps), n);
    if sel.maxX.Some?
    then And(m, Rows(seq(n, i requires 0 <= i < n => coords[i][0] < sel.maxX.value - eps)), n)
    else m
  }

  /**
   * `subdomain_func(...)(coords)`: the indices of the selected rows, or the
   * IndexError numpy raises when eps needs two rows or a read axis is absent.
   */
  function Select(sel: Selector, coords: seq<seq<real>>, width: nat): (r: Result<seq<nat>, SelectError>)
    requires Rectangular(coords, width)
    ensures r.Err? <==> AxisMissing(sel, width) || (sel.Restricts() && (|coords| < 2 || width == 0))
  {
    if AxisMissing(sel, width) || (sel.Restricts() && (|coords| < 2 || width == 0)) then Err(IndexError)
    else
      var eps := if sel.Restricts() then Eps(coords, width) else 0.0;
      Ok(Where(SelectMask(sel, coords, width, eps)))
  }

  function Abs(x: real): real
  {
    if x < 0.0 then -x else x
  }

  /**
   * The selection rule stated directly: on every axis with points the row is
   * less than eps away from one of them, and with max_x given its x
   * coordinate is below max_x - eps.
   */
  predicate Selected(sel: Selector, eps: real, row: seq<real>)
  {
    && (forall a :: 0 <= a < 3 && sel.Points(a) != [] ==>
          a < |row| && exists k :: 0 <= k < |sel.Points(a)| && Abs(row[a] - sel.Points(a)[k]) < eps)
    && (sel.maxX.Some? ==> |row| > 0 && row[0] < sel.maxX.value - eps)
  }

  lemma {:induction false} AnyCloseSpec(v: real, points: seq<real>, eps: real)
    ensures AnyClose(v, points, eps) <==> exists k :: 0 <= k < |points| && Abs(v - points[k]) < eps
  {
    if |points| > 0 {
      var init := points[..|points| - 1];
      AnyCloseSpec(v, init, eps);
      assert forall k :: 0 <= k < |init| ==> init[k] == points[k];
      if AnyClose(v, points, eps) {
        if Close(v, points[|points| - 1], eps) {
          assert Abs(v - points[|points| - 1]) < eps;
        }
      } else {
        forall k | 0 <= k < |points|
          ensures !(Abs(v - points[k]) < eps)
        {
          if k < |init| {
            assert !Close(v, init[k], eps);
          }
        }
      }
    }
  }

  lemma {:induction false} TrueIndicesSpec(bits: seq<bool>)
    ensures forall i :: i in TrueIndices(bits) <==> 0 <= i < |bits| && bits[i]
    ensures forall k, l :: 0 <= k < l < |TrueIndices(bits)| ==> TrueIndices(bits)[k] < TrueIndices(bits)[l]
  {
    if |bits| > 0 {
      var init := bits[..|bits| - 1];
      TrueIndicesSpec(init);
      assert forall i :: 0 <= i < |init| ==> init[i] == bits[i];
    }
  }

  /** Row i of `flag_it` is set iff the axis has no points or the row's coordinate is close to one. */
  lemma FlagAxisBit(points: seq<real>, coords: seq<seq<real>>, a: nat, eps: real, i: nat)
    requires points != [] ==> forall i :: 0 <= i < |coords| ==> a < |coords[i]|
    requires i < |coords|
    ensures Bit(FlagAxis(points, coords, a, eps), i) <==>
      (points != [] ==> exists k :: 0 <= k < |points| && Abs(coords[i][a] - points[k]) < eps)
  {
    if points != [] {
      AnyCloseSpec(coords[i][a], points, eps);
    }
  }

  /**
   * With some restriction in force, `subdomain_func` returns exactly the
   * ascending indices of the rows meeting the selection rule.
   */
  lemma SelectSpec(sel: Selector, coords: seq<seq<real>>, width: nat)
    requires Rectangular(coords, width) && sel.Restricts()
    requires Select(sel, coords, width).Ok?
    ensures |coords| >= 2 && width >= 1
    ensures forall i :: i in Select(sel, coords, width).value
              <==> 0 <= i < |coords| && Selected(sel, Eps(coords, width), coords[i])
    ensures forall k, l :: 0 <= k < l < |Select(sel, coords, width).value| ==>
              Select(sel, coords, width).value[k] < Select(sel, coords, width).value[l]
  {
    var eps := Eps(coords, width);
    var m := SelectMask(sel, coords, width, eps);
    assert Select(sel, coords, width) == Ok(Where(m));
    forall i | 0 <= i < |coords|
      ensures m.bits[i] == Selected(sel, eps, coords[i])
    {
      SelectMaskBit(sel, coords, width, eps, i);
    }
    TrueIndicesSpec(m.bits);
  }

  /** Row i of the folded mask is set iff the row meets the selection rule. */
  lemma SelectMaskBit(sel: Selector, coords: seq<seq<real>>, width: nat, eps: real, i: nat)
    requires Rectangular(coords, width) && !AxisMissing(sel, width)
    requires sel.maxX.Some? ==> width >= 1
    requires i < |coords|
    ensures Bit(SelectMask(sel, coords, width, eps), i) == Selected(sel, eps, coords[i])
  {
    var n := |coords|;
    var fx := FlagAxis(sel.xPoints, coords, 0, eps);
    var fy := FlagAxis(sel.yPoints, coords, 1, eps);
    var fz := FlagAxis(sel.zPoints, coords, 2, eps);
    var m := And(And(fx, fy, n), fz, n);
    AndBit(fx, fy, n, i);
    AndBit(And(fx, fy, n), fz, n, i);
    FlagAxisBit(sel.Points(0), coords, 0, eps, i);
    FlagAxisBit(sel.Points(1), coords, 1, eps, i);
    FlagAxisBit(sel.Points(2), coords, 2, eps, i);
    if sel.maxX.Some? {
      AndBit(m, Rows(seq(n, j requires 0 <= j < n => coords[j][0] < sel.maxX.value - eps)), n, i);
    }
  }

  /**
   * With no restriction at all the folded mask is the Python scalar True and
   * `np.where` reports the single index 0, whatever the coordinates.
   */
  lemma SelectUnrestricted(sel: Selector, coords: seq<seq<real>>, width: nat)
    requires Rectangular(coords, width) && !sel.Restricts()
    ensures Select(sel, coords, width) == Ok([0])
  {
  }
}
