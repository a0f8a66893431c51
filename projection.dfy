/** The 25-year projection of one plant: the yearly operating figures, the loan schedule,
    tax, cash flow, and the summary metrics derived from them. The specification functions
    describe each year directly; `CalculateFinancials` computes the same figures the way
    the application does, in one pass that carries the remaining loan forward. */
module Projection {
  import opened Powers
  import opened Folds
  import opened Loan
  import opened Curves
  import opened Appraisal

  /** Corporate income tax rate (10%). */
  const CorporateTax: real := 0.1
  /** Energy yields are given in MWh per year, prices per kWh. */
  const KwhPerMwh: real := 1000.0
  /** The investment is written off in equal parts over this many years. */
  const DepreciationYears: real := 25.0

  /** The adjustable parameters of the analysis. Rates are fractions (0.035 for 3.5%). */
  datatype Settings = Settings(
    fixedInitialInvestment: real,
    trackingInitialInvestment: real,
    yearlyOpex: real,
    electricityPrice2024: real,
    electricityPrice2025: real,
    loanPercentage: real,
    loanInterestRate: real,
    inflationRate: real,
    discountRate: real,
    loanTerm: nat)

  /** One projection run: the settings, whether the plant is financed with a loan, the
      system's yearly energy yield (MWh) and its initial investment. */
  datatype Scenario = Scenario(settings: Settings, isLevered: bool, energyYield: real, initialInvestment: real)

  /** One year of the projection; `dscr` is absent outside the loan term. */
  datatype YearRow = YearRow(
    year: nat,
    revenue: real,
    opex: real,
    depreciation: real,
    interest: real,
    principal: real,
    taxableIncome: real,
    tax: real,
    netProfit: real,
    cashFlow: real,
    cumulativeCashFlow: real,
    dscr: Option<real>)

  datatype Financials = Financials(
    npv: real,
    roe: real,
    paybackPeriod: real,
    averageDSCR: Option<real>,
    totalProfit: real,
    yearlyData: seq<YearRow>)

  function Max(a: real, b: real): real
  {
    if a >= b then a else b
  }

  function Min(a: nat, b: nat): nat
  {
    if a <= b then a else b
  }

  function LoanOf(sc: Scenario): real
  {
    LoanAmount(sc.initialInvestment, sc.settings.loanPercentage)
  }

  /** What the owners pay upfront: the equity when levered, the whole investment otherwise. */
  function Outlay(sc: Scenario): (outlay: real)
    ensures outlay == sc.initialInvestment - (if sc.isLevered then LoanOf(sc) else 0.0)
  {
    if sc.isLevered then EquityAmount(sc.initialInvestment, sc.settings.loanPercentage)
    else sc.initialInvestment
  }

  /** The annuity payment is defined: its factor (1 + rate)^term differs from one. */
  predicate Financed(sc: Scenario)
  {
    sc.isLevered ==> Pow(1.0 + sc.settings.loanInterestRate, sc.settings.loanTerm) != 1.0
  }

  /** Every division of the projection has a non-zero divisor: the annuity factor, the
      payment (DSCR), the outlay (ROE) and the discount factors (NPV). */
  predicate Computable(sc: Scenario)
  {
    && Financed(sc)
    && (sc.isLevered ==> Payment(sc) != 0.0)
    && Outlay(sc) != 0.0
    && 1.0 + sc.settings.discountRate != 0.0
  }

  /** The yearly annuity payment; no payment is made without a loan. */
  function Payment(sc: Scenario): real
    requires Financed(sc)
  {
    if sc.isLevered then Pmt(sc.settings.loanInterestRate, sc.settings.loanTerm, LoanOf(sc)) else 0.0
  }

  /** Debt is serviced in `year` (counted from 1). */
  predicate LoanYear(sc: Scenario, year: nat)
  {
    sc.isLevered && year <= sc.settings.loanTerm
  }

  /** The loan still outstanding after `years` years: it amortises during the term and stays
      put after it. */
  function BalanceAfter(sc: Scenario, years: nat): real
    requires Financed(sc)
  {
    if sc.isLevered then
      Remaining(LoanOf(sc), sc.settings.loanInterestRate, Payment(sc), Min(years, sc.settings.loanTerm))
    else LoanOf(sc)
  }

  /** Sales of a year: the yield (MWh) in kWh, degraded, at the year's price per kWh. */
  function Sales(energyYield: real, degradation: real, price: real): real
  {
    energyYield * KwhPerMwh * degradation * price
  }

  function Revenue(sc: Scenario, year: nat): real
    requires year >= 1
  {
    Sales(sc.energyYield, DegradationFactor(year),
      ElectricityPrice(sc.settings.electricityPrice2025, sc.settings.inflationRate, year))
  }

  function Opex(sc: Scenario, year: nat): real
    requires year >= 1
  {
    Escalate(sc.settings.yearlyOpex, sc.settings.inflationRate, year)
  }

  function Depreciation(sc: Scenario): real
  {
    sc.initialInvestment / DepreciationYears
  }

  /** Interest accrues on the balance at the start of a loan year. */
  function Interest(sc: Scenario, year: nat): real
    requires Financed(sc) && year >= 1
  {
    if LoanYear(sc, year) then BalanceAfter(sc, year - 1) * sc.settings.loanInterestRate else 0.0
  }

  /** The part of a loan year's payment left after interest repays principal. */
  function Principal(sc: Scenario, year: nat): real
    requires Financed(sc) && year >= 1
  {
    if LoanYear(sc, year) then Payment(sc) - Interest(sc, year) else 0.0
  }

  function TaxableIncome(sc: Scenario, year: nat): real
    requires Financed(sc) && year >= 1
  {
    Revenue(sc, year) - Opex(sc, year) - Depreciation(sc) - Interest(sc, year)
  }

  /** Corporate tax on a year's taxable income: a loss pays no tax and carries nothing
      forward, a profit pays the flat rate. */
  function Tax(taxableIncome: real): (tax: real)
    ensures tax >= 0.0 && tax >= taxableIncome * CorporateTax
    ensures taxableIncome <= 0.0 ==> tax == 0.0
    ensures taxableIncome >= 0.0 ==> tax == taxableIncome * CorporateTax
  {
    Max(0.0, taxableIncome * CorporateTax)
  }

  /** Net profit after tax: 90% of a positive taxable income, the whole of a loss. */
  function NetProfit(sc: Scenario, year: nat): (profit: real)
    requires Financed(sc) && year >= 1
    ensures TaxableIncome(sc, year) >= 0.0 ==> profit == (1.0 - CorporateTax) * TaxableIncome(sc, year)
    ensures TaxableIncome(sc, year) <= 0.0 ==> profit == TaxableIncome(sc, year)
    ensures profit <= Max(TaxableIncome(sc, year), (1.0 - CorporateTax) * TaxableIncome(sc, year))
  {
    var taxable := TaxableIncome(sc, year);
    taxable - Tax(taxable)
  }

  /** Cash to the owners: depreciation is added back, principal repayments are paid out. */
  function CashFlow(sc: Scenario, year: nat): real
    requires Financed(sc) && year >= 1
  {
    NetProfit(sc, year) + Depreciation(sc) - Principal(sc, year)
  }

  /** The cumulative cash flow after `year` years, the upfront outlay included. */
  function Cumulative(sc: Scenario, year: nat): real
    requires Financed(sc) && year >= 1
  {
    if year == 1 then CashFlow(sc, 1) - Outlay(sc)
    else Cumulative(sc, year - 1) + CashFlow(sc, year)
  }

  /** Debt service coverage: operating cash after tax over the loan payment, in loan years. */
  function Dscr(sc: Scenario, year: nat): Option<real>
    requires Computable(sc) && year >= 1
  {
    if LoanYear(sc, year) then
      Some((Revenue(sc, year) - Opex(sc, year) - Tax(TaxableIncome(sc, year))) / Payment(sc))
    else None
  }

  /** The row the projection reports for `year`. */
  function Row(sc: Scenario, year: nat): YearRow
    requires Computable(sc) && year >= 1
  {
    YearRow(year, Revenue(sc, year), Opex(sc, year), Depreciation(sc), Interest(sc, year),
      Principal(sc, year), TaxableIncome(sc, year), Tax(TaxableIncome(sc, year)),
      NetProfit(sc, year), CashFlow(sc, year), Cumulative(sc, year), Dscr(sc, year))
  }

  function CashFlows(rows: seq<YearRow>): seq<real>
  {
    seq(|rows|, k requires 0 <= k < |rows| => rows[k].cashFlow)
  }

  function CumulativeCashFlows(rows: seq<YearRow>): seq<real>
  {
    seq(|rows|, k requires 0 <= k < |rows| => rows[k].cumulativeCashFlow)
  }

  function NetProfits(rows: seq<YearRow>): seq<real>
  {
    seq(|rows|, k requires 0 <= k < |rows| => rows[k].netProfit)
  }

  function Principals(rows: seq<YearRow>): seq<real>
  {
    seq(|rows|, k requires 0 <= k < |rows| => rows[k].principal)
  }

  function Depreciations(rows: seq<YearRow>): seq<real>
  {
    seq(|rows|, k requires 0 <= k < |rows| => rows[k].depreciation)
  }

  function Dscrs(rows: seq<YearRow>): seq<Option<real>>
  {
    seq(|rows|, k requires 0 <= k < |rows| => rows[k].dscr)
  }

  /** `f` is the projection of `sc`: one row per year of the horizon as the specification
      functions describe it, and the metrics reduced from those rows. */
  ghost predicate IsProjection(sc: Scenario, f: Financials)
    requires Computable(sc)
  {
    && |f.yearlyData| == Horizon
    && (forall k :: 0 <= k < Horizon ==> f.yearlyData[k] == Row(sc, k + 1))
    && f.npv == Npv(CashFlows(f.yearlyData), sc.settings.discountRate, Outlay(sc))
    && IsPayback(CumulativeCashFlows(f.yearlyData), f.paybackPeriod)
    && f.totalProfit == Sum(NetProfits(f.yearlyData))
    && f.roe == f.totalProfit / (Horizon as real) / Outlay(sc)
    && f.averageDSCR == (if sc.isLevered
         then Some(Sum(Present(Dscrs(f.yearlyData))) / (sc.settings.loanTerm as real))
         else None)
  }

  /** The loan balance recurrence: in a loan year the balance falls by exactly the principal
      repaid, the payment less the interest on the balance at the start of the year; outside
      the loan years it does not move. */
  lemma BalanceStep(sc: Scenario, year: nat)
    requires Financed(sc) && year >= 1
    ensures LoanYear(sc, year) ==> BalanceAfter(sc, year) == BalanceAfter(sc, year - 1) - Principal(sc, year)
    ensures LoanYear(sc, year) ==>
      Principal(sc, year) == Payment(sc) - BalanceAfter(sc, year - 1) * sc.settings.loanInterestRate
    ensures !LoanYear(sc, year) ==> BalanceAfter(sc, year) == BalanceAfter(sc, year - 1)
  {
    var term := sc.settings.loanTerm;
    if LoanYear(sc, year) {
      assert Min(year, term) == year && Min(year - 1, term) == year - 1;
    } else if sc.isLevered {
      assert Min(year, term) == Min(year - 1, term);
    }
  }

  /** The loan part of one year of the yearly pass: in a loan year interest accrues on the
      outstanding balance and the rest of the payment retires principal; otherwise neither
      is paid and the balance stays. */
  method ServiceDebt(sc: Scenario, year: nat, remainingLoan: real, payment: real)
    returns (interest: real, principal: real, remainingAfter: real)
    requires Financed(sc) && year >= 1
    requires remainingLoan == BalanceAfter(sc, year - 1) && payment == Payment(sc)
    ensures interest == Interest(sc, year) && principal == Principal(sc, year)
    ensures remainingAfter == BalanceAfter(sc, year)
  {
    var s := sc.settings;
    interest := 0.0;
    if sc.isLevered && year <= s.loanTerm {
      interest := remainingLoan * s.loanInterestRate;
    }
    principal := 0.0;
    remainingAfter := remainingLoan;
    if sc.isLevered && year <= s.loanTerm {
      principal := payment - interest;
      remainingAfter := remainingLoan - principal;
    }
    BalanceStep(sc, year);
  }

  /** One year of the yearly pass, given the year's revenue and operating cost: interest on
      the outstanding loan and the principal the payment retires, tax, cash flow, the running
      cumulative cash flow and the DSCR. `payment`, `depreciation` and `outlay` are the
      values the pass fixes before its first year. */
  method ProjectYear(sc: Scenario, year: nat, revenue: real, opex: real,
                     remainingLoan: real, previousCumulative: real,
                     payment: real, depreciation: real, outlay: real)
    returns (row: YearRow, remainingAfter: real)
    requires Computable(sc) && year >= 1
    requires revenue == Revenue(sc, year) && opex == Opex(sc, year)
    requires remainingLoan == BalanceAfter(sc, year - 1)
    requires year > 1 ==> previousCumulative == Cumulative(sc, year - 1)
    requires payment == Payment(sc) && depreciation == Depreciation(sc) && outlay == Outlay(sc)
    ensures row == Row(sc, year)
    ensures remainingAfter == BalanceAfter(sc, year)
  {
    var interest, principal;
    interest, principal, remainingAfter := ServiceDebt(sc, year, remainingLoan, payment);

    var taxableIncome := revenue - opex - depreciation - interest;
    var tax := Tax(taxableIncome);
    var netProfit := taxableIncome - tax;
    var cashFlow := netProfit + depreciation - principal;
    var cumulative := if year == 1 then cashFlow - outlay else previousCumulative + cashFlow;
    var dscr := if sc.isLevered && year <= sc.settings.loanTerm
      then Some((revenue - opex - tax) / payment) else None;

    row := YearRow(year, revenue, opex, depreciation, interest, principal,
      taxableIncome, tax, netProfit, cashFlow, cumulative, dscr);
  }

  /** The projection: one pass over the 25 years that carries the outstanding loan forward,
      followed by the reductions to NPV, payback, ROE and average DSCR. */
  method CalculateFinancials(sc: Scenario) returns (f: Financials)
    requires Computable(sc)
    ensures IsProjection(sc, f)
    ensures 1.0 <= f.paybackPeriod <= Horizon as real
    ensures f.averageDSCR.Some? <==> sc.isLevered
  {
    var s := sc.settings;
    var loanAmount := LoanAmount(sc.initialInvestment, s.loanPercentage);
    var equityAmount := EquityAmount(sc.initialInvestment, s.loanPercentage);
    var remainingLoan := loanAmount;
    var yearlyLoanPayment := if sc.isLevered then Pmt(s.loanInterestRate, s.loanTerm, loanAmount) else 0.0;
    var depreciation := sc.initialInvestment / DepreciationYears;
    var outlay := if sc.isLevered then equityAmount else sc.initialInvestment;

    // The yearly curves, computed for the whole horizon before the pass.
    var degradationFactors := seq(Horizon, i requires 0 <= i < Horizon => DegradationFactor(i + 1));
    var electricityPrices := seq(Horizon, i requires 0 <= i < Horizon =>
      ElectricityPrice(s.electricityPrice2025, s.inflationRate, i + 1));
    var opexValues := seq(Horizon, i requires 0 <= i < Horizon => Escalate(s.yearlyOpex, s.inflationRate, i + 1));

    var rows: seq<YearRow> := [];
    var index := 0;
    while index < Horizon
      invariant 0 <= index <= Horizon
      invariant |rows| == index
      invariant forall k :: 0 <= k < index ==> rows[k] == Row(sc, k + 1)
      invariant remainingLoan == BalanceAfter(sc, index)
    {
      var previous := if index == 0 then 0.0 else rows[index - 1].cumulativeCashFlow;
      var row;
      var revenue := Sales(sc.energyYield, degradationFactors[index], electricityPrices[index]);
      row, remainingLoan := ProjectYear(sc, index + 1, revenue, opexValues[index],
        remainingLoan, previous, yearlyLoanPayment, depreciation, outlay);
      rows := rows + [row];
      index := index + 1;
    }

    var npv := Npv(CashFlows(rows), s.discountRate, outlay);
    var paybackPeriod := PaybackPeriod(CumulativeCashFlows(rows));
    var totalNetProfit := Sum(NetProfits(rows));
    var averageAnnualRoe := totalNetProfit / (Horizon as real) / outlay;
    var averageDscr := if sc.isLevered
      then Some(Sum(Present(Dscrs(rows))) / (s.loanTerm as real)) else None;
    f := Financials(npv, averageAnnualRoe, paybackPeriod, averageDscr, totalNetProfit, rows);
  }
}
