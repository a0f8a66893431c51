/** The appraisal metrics reduced from the yearly cash flows: net present value and the
    payback period. */
module Appraisal {
  import opened Powers
  import opened Folds

  /** Years covered by the projection; also the payback reported when the outlay is never
      recovered. */
  const Horizon: nat := 25

  /** The cash flows discounted to the start: the flow of year i (counted from 1) is divided
      by (1 + discountRate)^i, accumulated from the first year on. */
  function PresentValue(cashFlows: seq<real>, discountRate: real): real
    requires 1.0 + discountRate != 0.0
  {
    if |cashFlows| == 0 then 0.0
    else
      PowNonZero(1.0 + discountRate, |cashFlows|);
      PresentValue(cashFlows[..|cashFlows| - 1], discountRate)
        + cashFlows[|cashFlows| - 1] / Pow(1.0 + discountRate, |cashFlows|)
  }

  /** Without discounting the present value is the plain sum of the cash flows. */
  lemma {:induction false} PresentValueUndiscounted(cashFlows: seq<real>)
    ensures PresentValue(cashFlows, 0.0) == Sum(cashFlows)
  {
    if |cashFlows| > 0 {
      PresentValueUndiscounted(cashFlows[..|cashFlows| - 1]);
      PowOfOne(|cashFlows|);
    }
  }

  /** Net present value: the upfront outlay, undiscounted at time zero, against the
      discounted yearly cash flows. */
  function Npv(cashFlows: seq<real>, discountRate: real, outlay: real): (npv: real)
    requires 1.0 + discountRate != 0.0
    ensures discountRate == 0.0 ==> npv == Sum(cashFlows) - outlay
    ensures |cashFlows| == 0 ==> npv == -outlay
  {
    PresentValueUndiscounted(cashFlows);
    -outlay + PresentValue(cashFlows, discountRate)
  }

  function Abs(x: real): real
  {
    if x < 0.0 then -x else x
  }

  /** Year index i (counted from 0) is the first whose cumulative cash flow is not negative. */
  ghost predicate FirstRecovery(cumulative: seq<real>, i: int)
  {
    && 0 <= i < |cumulative|
    && cumulative[i] >= 0.0
    && forall j :: 0 <= j < i ==> cumulative[j] < 0.0
  }

  /** The payback for a first recovery at index i: exactly 1 when the first year already
      recovers the outlay, otherwise i plus the fraction of year i + 1 at which the
      cumulative cash flow crosses zero on the straight line between the two years. */
  function Interpolated(cumulative: seq<real>, i: nat): real
    requires FirstRecovery(cumulative, i)
  {
    if i == 0 then 1.0
    else i as real + Abs(cumulative[i - 1]) / (cumulative[i] - cumulative[i - 1])
  }

  /** `payback` is what the source reports for `cumulative`: the interpolated recovery time
      at the first non-negative year, or the horizon when there is none. */
  ghost predicate IsPayback(cumulative: seq<real>, payback: real)
  {
    && ((forall j :: 0 <= j < |cumulative| ==> cumulative[j] < 0.0) ==> payback == Horizon as real)
    && (forall i :: FirstRecovery(cumulative, i) ==> payback == Interpolated(cumulative, i))
  }

  /** A later recovery implies a first one. */
  lemma {:induction false} FirstRecoveryExists(cumulative: seq<real>, j: nat)
    requires j < |cumulative| && cumulative[j] >= 0.0
    ensures exists i :: 0 <= i <= j && FirstRecovery(cumulative, i)
  {
    if forall k :: 0 <= k < j ==> cumulative[k] < 0.0 {
      assert FirstRecovery(cumulative, j);
    } else {
      var k :| 0 <= k < j && cumulative[k] >= 0.0;
      FirstRecoveryExists(cumulative, k);
    }
  }

  /** The payback is determined by the cumulative cash flows. */
  lemma PaybackUnique(cumulative: seq<real>, p1: real, p2: real)
    requires IsPayback(cumulative, p1) && IsPayback(cumulative, p2)
    ensures p1 == p2
  {
    if j :| 0 <= j < |cumulative| && cumulative[j] >= 0.0 {
      FirstRecoveryExists(cumulative, j);
      var i :| 0 <= i <= j && FirstRecovery(cumulative, i);
      assert p1 == Interpolated(cumulative, i) == p2;
    }
  }

  /** A recovery after the first year is reported strictly inside that year or at its end. */
  lemma InterpolationWithinYear(cumulative: seq<real>, i: nat)
    requires FirstRecovery(cumulative, i) && i > 0
    ensures i as real < Interpolated(cumulative, i) <= i as real + 1.0
  {
    var before := cumulative[i - 1];
    assert before < 0.0;
    FractionOfYear(before, cumulative[i]);
  }

  /** The part of the recovering year still owed when it starts is a fraction in (0, 1]. */
  lemma FractionOfYear(before: real, after: real)
    requires before < 0.0 <= after
    ensures 0.0 < Abs(before) / (after - before) <= 1.0
  {
  }

  /** The payback loop: scan the cumulative cash flows for the first non-negative one,
      interpolate inside that year, and fall back to the horizon when the scan finds none. */
  method PaybackPeriod(cumulative: seq<real>) returns (payback: real)
    ensures IsPayback(cumulative, payback)
    ensures 1.0 <= payback
    ensures |cumulative| <= Horizon ==> payback <= Horizon as real
  {
    payback := 0.0;
    var i := 0;
    while i < |cumulative|
      invariant 0 <= i <= |cumulative|
      invariant forall j :: 0 <= j < i ==> cumulative[j] < 0.0
      invariant payback == 0.0
    {
      if cumulative[i] >= 0.0 {
        assert FirstRecovery(cumulative, i);
        if i == 0 {
          payback := 1.0;
        } else {
          var previous := cumulative[i - 1];
          var current := cumulative[i];
          payback := i as real + Abs(previous) / (current - previous);
          InterpolationWithinYear(cumulative, i);
        }
        break;
      }
      i := i + 1;
    }
    if payback == 0.0 {
      payback := Horizon as real;
    }
  }
}
