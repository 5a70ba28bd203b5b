/**
 * The phase property table (`_convert_properties`) and its lookup by the label
 * array (`_convert_properties(...)[x]` inside `solve`), in
 * pymks/fmks/data/elastic_fe.py. Real numbers stand for the float64 values.
 */
module Properties {

  import opened Grid

  /** One row of the property table: Lamé's first parameter and the scaled shear modulus. */
  datatype PhaseRow = PhaseRow(lam: real, mu: real)

  /** The isotropic relations are defined only away from nu = -1 and nu = 1/2. */
  predicate Admissible(nu: real)
  {
    1.0 + nu != 0.0 && 1.0 - 2.0 * nu != 0.0
  }

  /** Lamé's first parameter from Young's modulus and Poisson's ratio. */
  function Lame(e: real, nu: real): (lam: real)
    requires Admissible(nu)
    ensures lam * ((1.0 + nu) * (1.0 - 2.0 * nu)) == e * nu
  {
    e * nu / ((1.0 + nu) * (1.0 - 2.0 * nu))
  }

  /** The shear modulus from Young's modulus and Poisson's ratio. */
  function Shear(e: real, nu: real): (mu: real)
    requires 1.0 + nu != 0.0
    ensures mu * (2.0 * (1.0 + nu)) == e
  {
    e / (2.0 * (1.0 + nu))
  }

  /**
   * The inverse relations recover (E, nu) from (lam, mu): the conversion loses
   * nothing for a non-zero modulus.
   */
  lemma YoungPoissonRoundTrip(e: real, nu: real)
    requires Admissible(nu) && e != 0.0
    ensures Lame(e, nu) + Shear(e, nu) != 0.0
    ensures nu == Lame(e, nu) / (2.0 * (Lame(e, nu) + Shear(e, nu)))
    ensures e == Shear(e, nu) * (3.0 * Lame(e, nu) + 2.0 * Shear(e, nu)) / (Lame(e, nu) + Shear(e, nu))
  {
    var a, b := 1.0 + nu, 1.0 - 2.0 * nu;
    var d := a * b;
    var lam, mu := Lame(e, nu), Shear(e, nu);
    var s := lam + mu;
    assert mu * d == e * b / 2.0 by {
      assert mu * d == (mu * (2.0 * a)) * b / 2.0;
    }
    assert s * d == e / 2.0 by {
      assert s * d == lam * d + mu * d;
    }
    assert s != 0.0;
    assert lam * d == (nu * (2.0 * s)) * d;
    Cancel(lam, nu * (2.0 * s), d);
    assert (3.0 * lam + 2.0 * mu) * d == e * a;
    assert (mu * (3.0 * lam + 2.0 * mu)) * d == mu * (e * a);
    assert mu * (e * a) == e * (s * d) by {
      assert mu * (e * a) == e * (mu * (2.0 * a)) / 2.0;
    }
    assert (mu * (3.0 * lam + 2.0 * mu)) * d == (e * s) * d;
    Cancel(mu * (3.0 * lam + 2.0 * mu), e * s, d);
  }

  lemma Cancel(x: real, y: real, d: real)
    requires d != 0.0 && x * d == y * d
    ensures x == y
  {
    assert (x - y) * d == 0.0;
  }

  /** The table row of one phase: `(lam, dim / 3 * mu)`. */
  function Row(dim: int, e: real, nu: real): PhaseRow
    requires Admissible(nu)
  {
    PhaseRow(Lame(e, nu), dim as real / 3.0 * Shear(e, nu))
  }

  /** Every pair `zip` visits has an admissible Poisson's ratio. */
  predicate AdmissibleRatios(modulus: seq<real>, ratio: seq<real>)
  {
    forall k :: 0 <= k < |modulus| && k < |ratio| ==> Admissible(ratio[k])
  }

  /**
   * `_convert_properties(dim, elastic_modulus, poissons_ratio)`: one row per
   * pair of `zip(elastic_modulus, poissons_ratio)` (so the shorter list decides
   * the count), holding the Lamé parameter and dim/3 times the shear modulus.
   */
  function ConvertProperties(dim: int, modulus: seq<real>, ratio: seq<real>): (table: seq<PhaseRow>)
    requires AdmissibleRatios(modulus, ratio)
    ensures |table| == if |modulus| <= |ratio| then |modulus| else |ratio|
    ensures forall k :: 0 <= k < |table| ==>
      && table[k].lam * ((1.0 + ratio[k]) * (1.0 - 2.0 * ratio[k])) == modulus[k] * ratio[k]
      && table[k].mu * (2.0 * (1.0 + ratio[k])) * 3.0 == dim as real * modulus[k]
  {
    var n := if |modulus| <= |ratio| then |modulus| else |ratio|;
    seq(n, k requires 0 <= k < n => Row(dim, modulus[k], ratio[k]))
  }

  /** The doctest of `_convert_properties`: E = (1, 2), nu = (1, 1), dim = 2. */
  lemma ConvertPropertiesExample()
    ensures ConvertProperties(2, [1.0, 2.0], [1.0, 1.0])
         == [PhaseRow(-0.5, 1.0 / 6.0), PhaseRow(-1.0, 1.0 / 3.0)]
  {
    var t := ConvertProperties(2, [1.0, 2.0], [1.0, 1.0]);
    assert t[0] == Row(2, 1.0, 1.0) && t[1] == Row(2, 2.0, 1.0);
  }

  /** The labels can index the table. */
  predicate LabelsIndexTable(labels: NdArray<int>, n: nat)
  {
    forall k :: 0 <= k < |labels.data| ==> 0 <= labels.data[k] < n
  }

  /**
   * `table[x]`: numpy fancy indexing by the label array, giving an array of
   * the labels' shape with a trailing axis of 2 (lam, mu).
   */
  function Lookup(table: seq<PhaseRow>, labels: NdArray<int>): (pa: NdArray<real>)
    requires labels.Valid() && LabelsIndexTable(labels, |table|)
    ensures pa.shape == labels.shape + [2] && pa.Valid()
  {
    ProductAppend(labels.shape, 2);
    var n := |labels.data|;
    NdArray(labels.shape + [2],
      seq(2 * n, k requires 0 <= k < 2 * n =>
        var row := table[labels.data[k / 2]];
        if k % 2 == 0 then row.lam else row.mu))
  }

  /** At every voxel, the lookup holds the row of that voxel's phase. */
  lemma {:induction false} LookupAt(table: seq<PhaseRow>, labels: NdArray<int>, idx: seq<int>)
    requires labels.Valid() && LabelsIndexTable(labels, |table|)
    requires InBounds(labels.shape, idx)
    ensures 0 <= labels.At(idx) < |table|
    ensures InBounds(labels.shape + [2], idx + [0]) && InBounds(labels.shape + [2], idx + [1])
    ensures Lookup(table, labels).At(idx + [0]) == table[labels.At(idx)].lam
    ensures Lookup(table, labels).At(idx + [1]) == table[labels.At(idx)].mu
  {
    var o := Offset(labels.shape, idx);
    OffsetInRange(labels.shape, idx);
    InBoundsAppend(labels.shape, idx, 2, 0);
    InBoundsAppend(labels.shape, idx, 2, 1);
    OffsetAppend(labels.shape, idx, 2, 0);
    OffsetAppend(labels.shape, idx, 2, 1);
    assert (o * 2) / 2 == o && (o * 2) % 2 == 0;
    assert (o * 2 + 1) / 2 == o && (o * 2 + 1) % 2 == 1;
  }

  /**
   * The `s`-th sample of a batched property array (iterating over its first
   * axis, as `map_` does in `solve`).
   */
  function SampleOf(pa: NdArray<real>, s: nat): (sample: NdArray<real>)
    requires pa.Valid() && |pa.shape| > 0 && s < pa.shape[0]
    ensures sample.Valid() && sample.shape == pa.shape[1..]
  {
    var q := Product(pa.shape[1..]);
    MulMonotone(s + 1, pa.shape[0], q);
    NdArray(pa.shape[1..], pa.data[s * q .. (s + 1) * q])
  }

  /** A sample holds the batch's cells whose first index is the sample number. */
  lemma SampleOfAt(pa: NdArray<real>, s: nat, idx: seq<int>)
    requires pa.Valid() && |pa.shape| > 0 && s < pa.shape[0]
    requires InBounds(pa.shape[1..], idx)
    ensures InBounds(pa.shape, [s] + idx)
    ensures SampleOf(pa, s).At(idx) == pa.At([s] + idx)
  {
    var full := [s] + idx;
    var q := Product(pa.shape[1..]);
    var o := Offset(pa.shape[1..], idx);
    assert full[0] == s && full[1..] == idx;
    assert InBounds(pa.shape, full) by {
      assert forall a :: 1 <= a < |pa.shape| ==> full[a] == idx[a - 1];
    }
    OffsetInRange(pa.shape[1..], idx);
    assert Offset(pa.shape, full) == s * q + o;
    MulMonotone(s + 1, pa.shape[0], q);
    var cells := pa.data[s * q .. (s + 1) * q];
    assert SampleOf(pa, s).data == cells;
    assert cells[o] == pa.data[s * q + o];
  }
}
