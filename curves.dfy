/** The yearly curves of the projection: panel output degradation and the inflation
    escalation of prices and operating cost. */
module Curves {
  import opened Powers

  /** Output lost in the first year of operation (1%). */
  const FirstYearDegradation: real := 0.01
  /** Output lost in every later year, compounded (0.4%). */
  const SubsequentYearDegradation: real := 0.004

  /** The share of nameplate output the panels still deliver in `year` (counted from 1). */
  function DegradationFactor(year: nat): (factor: real)
    requires year >= 1
    ensures year == 1 ==> factor == 1.0 - FirstYearDegradation
    ensures 0.0 < factor <= 1.0 - FirstYearDegradation
  {
    if year == 1 then 1.0 - FirstYearDegradation
    else
      PowDecreasing(1.0 - SubsequentYearDegradation, year - 1);
      (1.0 - FirstYearDegradation) * Pow(1.0 - SubsequentYearDegradation, year - 1)
  }

  /** Output falls strictly every year, so over the horizon the factor stays in (0, 1]. */
  lemma DegradationDecreasing(year: nat)
    requires year >= 1
    ensures 0.0 < DegradationFactor(year + 1) < DegradationFactor(year) <= 1.0
  {
    var x := 1.0 - SubsequentYearDegradation;
    PowDecreasing(x, year - 1);
    assert Pow(x, year) < Pow(x, year - 1);
    if year == 1 {
      assert Pow(x, 1) == x;
    }
  }

  /** `base` compounded at `rate` for the years after the first: the first year carries the
      base value itself. */
  function Escalate(base: real, rate: real, year: nat): real
    requires year >= 1
  {
    base * Pow(1.0 + rate, year - 1)
  }

  /** Each year's escalated value is the previous year's grown by one year of inflation. */
  lemma EscalationCompounds(base: real, rate: real, year: nat)
    requires year >= 1
    ensures Escalate(base, rate, 1) == base
    ensures Escalate(base, rate, year + 1) == Escalate(base, rate, year) * (1.0 + rate)
  {
    assert Pow(1.0 + rate, year) == (1.0 + rate) * Pow(1.0 + rate, year - 1);
  }

  /** The electricity price of `year`: the base price in the first year, inflated after. */
  function ElectricityPrice(price: real, inflationRate: real, year: nat): (p: real)
    requires year >= 1
    ensures p == Escalate(price, inflationRate, year)
  {
    if year == 1 then price else price * Pow(1.0 + inflationRate, year - 1)
  }
}
