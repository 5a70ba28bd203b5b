/**
 * The input guards run before any finite-element work (`_check` in
 * pymks/fmks/data/elastic_fe.py) and the microstructure they admit.
 */
module Validation {

  import opened Results
  import opened Grid

  /** The exceptions `_check` raises, one per guard, and numpy's empty reduction. */
  datatype CheckError =
    | LengthMismatch     // RuntimeError: elastic_modulus and poissons_ratio differ in length
    | NotIntegerArray    // TypeError: the dtype is not an integer type
    | EmptyArray         // ValueError from np.max on a zero-size array
    | LabelOutOfRange    // RuntimeError: some label is >= n_phases or < 0
    | BadRank            // RuntimeError: rank is not 3 or 4

  /**
   * A microstructure array: its shape, its labels in row-major order and whether
   * its dtype is an integer type (the label values only matter when it is).
   */
  datatype Microstructure = Microstructure(labels: NdArray<int>, integerDtype: bool)

  /** `np.max` of a non-empty sequence. */
  function Max(s: seq<int>): (m: int)
    requires |s| > 0
    ensures forall k :: 0 <= k < |s| ==> s[k] <= m
    ensures exists k :: 0 <= k < |s| && s[k] == m
  {
    if |s| == 1 then s[0]
    else
      var rest := Max(s[1..]);
      assert forall k :: 1 <= k < |s| ==> s[k] == s[1..][k - 1];
      if s[0] >= rest then s[0] else rest
  }

  /** `np.min` of a non-empty sequence. */
  function Min(s: seq<int>): (m: int)
    requires |s| > 0
    ensures forall k :: 0 <= k < |s| ==> m <= s[k]
    ensures exists k :: 0 <= k < |s| && s[k] == m
  {
    if |s| == 1 then s[0]
    else
      var rest := Min(s[1..]);
      assert forall k :: 1 <= k < |s| ==> s[k] == s[1..][k - 1];
      if s[0] <= rest then s[0] else rest
  }

  /** Every label names one of the `nPhases` phases. */
  predicate LabelsInRange(s: seq<int>, nPhases: int)
  {
    forall k :: 0 <= k < |s| ==> 0 <= s[k] < nPhases
  }

  /**
   * The invariant of a well-formed microstructure: integer labels, each a
   * phase index, on a 2D or 3D grid preceded by the sample axis.
   */
  predicate WellFormed(x: Microstructure, nPhases: int)
  {
    && x.integerDtype
    && LabelsInRange(x.labels.data, nPhases)
    && 3 <= |x.labels.shape| <= 4
  }

  /**
   * `_check(n_phases, n_phases_other, x_data)`: the guards in source order;
   * the first one that fails decides the error, and on success the data is
   * passed on untouched (`do` in the `solve` pipeline).
   */
  function Check(nModulus: nat, nRatio: nat, x: Microstructure): (r: Result<Microstructure, CheckError>)
    requires x.labels.Valid()
    ensures r.Ok? ==> r.value == x
  {
    var data := x.labels.data;
    if nModulus != nRatio then Err(LengthMismatch)
    else if !x.integerDtype then Err(NotIntegerArray)
    else if |data| == 0 then Err(EmptyArray)
    else if Max(data) >= nModulus || Min(data) < 0 then Err(LabelOutOfRange)
    else if !(3 <= |x.labels.shape| <= 4) then Err(BadRank)
    else Ok(x)
  }

  /** The max/min range guard rejects exactly the arrays holding some label outside [0, n). */
  lemma RangeGuard(s: seq<int>, n: int)
    requires |s| > 0
    ensures (Max(s) >= n || Min(s) < 0) <==> !LabelsInRange(s, n)
  {
    if !LabelsInRange(s, n) {
      var k :| 0 <= k < |s| && !(0 <= s[k] < n);
      assert s[k] <= Max(s) && Min(s) <= s[k];
    }
  }

  /**
   * Acceptance: `_check` passes exactly when the lengths agree, the array is
   * non-empty and well formed, and it then hands the same data on.
   */
  lemma CheckAccepts(nModulus: nat, nRatio: nat, x: Microstructure)
    requires x.labels.Valid()
    ensures Check(nModulus, nRatio, x).Ok?
        <==> nModulus == nRatio && |x.labels.data| > 0 && WellFormed(x, nModulus)
    ensures Check(nModulus, nRatio, x).Ok? ==> Check(nModulus, nRatio, x).value == x
  {
    if nModulus == nRatio && x.integerDtype && |x.labels.data| > 0 {
      RangeGuard(x.labels.data, nModulus);
    }
  }

  /** Each error is raised exactly when every earlier guard passed and its own failed. */
  lemma CheckErrorOrder(nModulus: nat, nRatio: nat, x: Microstructure)
    requires x.labels.Valid()
    ensures Check(nModulus, nRatio, x) == Err(LengthMismatch) <==> nModulus != nRatio
    ensures Check(nModulus, nRatio, x) == Err(NotIntegerArray)
        <==> nModulus == nRatio && !x.integerDtype
    ensures Check(nModulus, nRatio, x) == Err(EmptyArray)
        <==> nModulus == nRatio && x.integerDtype && |x.labels.data| == 0
    ensures Check(nModulus, nRatio, x) == Err(LabelOutOfRange)
        <==> nModulus == nRatio && x.integerDtype && |x.labels.data| > 0
             && !LabelsInRange(x.labels.data, nModulus)
    ensures Check(nModulus, nRatio, x) == Err(BadRank)
        <==> nModulus == nRatio && x.integerDtype && |x.labels.data| > 0
             && LabelsInRange(x.labels.data, nModulus) && !(3 <= |x.labels.shape| <= 4)
  {
    if nModulus == nRatio && x.integerDtype && |x.labels.data| > 0 {
      RangeGuard(x.labels.data, nModulus);
    }
  }
}
