/** The two systems the analysis compares, fixed-tilt and single-axis tracking, run under the
    same settings and financing; and the application's default inputs. */
module Comparison {
  import opened Powers
  import opened Appraisal
  import opened Projection

  /** Yearly energy yield of the fixed-tilt system, MWh. */
  const FixedEnergyYield: real := 174547.0
  /** Yearly energy yield of the single-axis tracking system, MWh. */
  const TrackingEnergyYield: real := 223556.0

  /** The settings the application starts with. */
  function DefaultSettings(): Settings
  {
    Settings(
      fixedInitialInvestment := 35004586.20,
      trackingInitialInvestment := 38004586.20,
      yearlyOpex := 2348946.00,
      electricityPrice2024 := 0.07,
      electricityPrice2025 := 0.09,
      loanPercentage := 0.7,
      loanInterestRate := 0.035,
      inflationRate := 0.04,
      discountRate := 0.06,
      loanTerm := 15)
  }

  function FixedScenario(settings: Settings, isLevered: bool): Scenario
  {
    Scenario(settings, isLevered, FixedEnergyYield, settings.fixedInitialInvestment)
  }

  function TrackingScenario(settings: Settings, isLevered: bool): Scenario
  {
    Scenario(settings, isLevered, TrackingEnergyYield, settings.trackingInitialInvestment)
  }

  /** Both systems projected under the same settings and financing, each independently. */
  method CompareSystems(settings: Settings, isLevered: bool) returns (fixed: Financials, tracking: Financials)
    requires Computable(FixedScenario(settings, isLevered))
    requires Computable(TrackingScenario(settings, isLevered))
    ensures IsProjection(FixedScenario(settings, isLevered), fixed)
    ensures IsProjection(TrackingScenario(settings, isLevered), tracking)
    ensures 1.0 <= fixed.paybackPeriod <= Horizon as real && 1.0 <= tracking.paybackPeriod <= Horizon as real
    ensures fixed.averageDSCR.Some? == tracking.averageDSCR.Some? == isLevered
  {
    fixed := CalculateFinancials(FixedScenario(settings, isLevered));
    tracking := CalculateFinancials(TrackingScenario(settings, isLevered));
  }

  /** The default inputs can be projected for both systems, with or without a loan. */
  lemma DefaultsComputable(isLevered: bool)
    ensures Computable(FixedScenario(DefaultSettings(), isLevered))
    ensures Computable(TrackingScenario(DefaultSettings(), isLevered))
  {
    var s := DefaultSettings();
    PowIncreasing(1.0 + s.loanInterestRate, 0, s.loanTerm);
    assert Pow(1.0 + s.loanInterestRate, 0) == 1.0;
  }

  /** The first year of the default fixed system with a loan: 1% degradation on the yield at
      the 2025 price, a 25th of the investment written off, 70% of it borrowed and 30% paid
      upfront. */
  lemma DefaultFixedFirstYear()
    ensures var sc := FixedScenario(DefaultSettings(), true);
      && Revenue(sc, 1) == 174547.0 * 1000.0 * 0.99 * 0.09
      && Revenue(sc, 1) == 15552137.7
      && Depreciation(sc) == 1400183.448
      && LoanOf(sc) == 24503210.34
      && Outlay(sc) == 10501375.86
      && Opex(sc, 1) == 2348946.00
  {
    var sc := FixedScenario(DefaultSettings(), true);
    assert Pow(1.0 + sc.settings.inflationRate, 0) == 1.0;
  }
}
