/** What the yearly schedule of a projection promises as a whole: the loan is retired by
    the principal repayments, the cumulative cash flow is the running sum of the cash flows
    less the outlay, the investment is written off in full, debt service and coverage
    appear exactly in the loan years, and the average DSCR is the mean over the term. */
module Schedule {
  import opened Powers
  import opened Folds
  import opened Loan
  import opened Appraisal
  import opened Projection

  /** `rows` are the first |rows| years of the projection of `sc`. */
  ghost predicate RowsOf(sc: Scenario, rows: seq<YearRow>)
    requires Computable(sc)
  {
    forall k :: 0 <= k < |rows| ==> rows[k] == Row(sc, k + 1)
  }

  /** The principal repaid over the first n years is what the loan balance fell by. */
  lemma {:induction false} PrincipalsRepaid(sc: Scenario, rows: seq<YearRow>, n: nat)
    requires Computable(sc) && RowsOf(sc, rows) && n <= |rows|
    ensures Sum(Principals(rows)[..n]) == LoanOf(sc) - BalanceAfter(sc, n)
  {
    var ps := Principals(rows);
    if n == 0 {
      assert ps[..0] == [];
      if sc.isLevered {
        assert Min(0, sc.settings.loanTerm) == 0;
      }
    } else {
      PrincipalsRepaid(sc, rows, n - 1);
      SumExtend(ps, n - 1);
      assert ps[n - 1] == Principal(sc, n);
      BalanceStep(sc, n);
    }
  }

  /** Over the horizon the principal repayments add up to the loan when the term fits in
      the horizon, and to nothing without a loan. */
  lemma LoanRetired(sc: Scenario, f: Financials)
    requires Computable(sc) && IsProjection(sc, f)
    ensures sc.isLevered && sc.settings.loanTerm <= Horizon ==> Sum(Principals(f.yearlyData)) == LoanOf(sc)
    ensures !sc.isLevered ==> Sum(Principals(f.yearlyData)) == 0.0
  {
    var rows := f.yearlyData;
    PrincipalsRepaid(sc, rows, Horizon);
    assert Principals(rows)[..Horizon] == Principals(rows);
    if sc.isLevered && sc.settings.loanTerm <= Horizon {
      assert Min(Horizon, sc.settings.loanTerm) == sc.settings.loanTerm;
    }
  }

  /** The cumulative cash flow of year k + 1 is the sum of the cash flows up to that year
      less the upfront outlay. */
  lemma {:induction false} CumulativeIsRunningSum(sc: Scenario, rows: seq<YearRow>, k: nat)
    requires Computable(sc) && RowsOf(sc, rows) && k < |rows|
    ensures CumulativeCashFlows(rows)[k] == Sum(CashFlows(rows)[..k + 1]) - Outlay(sc)
  {
    var cfs := CashFlows(rows);
    SumExtend(cfs, k);
    if k == 0 {
      assert cfs[..0] == [];
    } else {
      CumulativeIsRunningSum(sc, rows, k - 1);
    }
  }

  /** Each year's cumulative cash flow adds exactly that year's cash flow to the previous
      one; the first subtracts the outlay. */
  lemma CumulativeRecurrence(sc: Scenario, f: Financials)
    requires Computable(sc) && IsProjection(sc, f)
    ensures CumulativeCashFlows(f.yearlyData)[0] == CashFlows(f.yearlyData)[0] - Outlay(sc)
    ensures forall k :: 1 <= k < Horizon ==>
      CumulativeCashFlows(f.yearlyData)[k] == CumulativeCashFlows(f.yearlyData)[k - 1] + CashFlows(f.yearlyData)[k]
  {
    var rows := f.yearlyData;
    forall k | 1 <= k < Horizon
      ensures CumulativeCashFlows(rows)[k] == CumulativeCashFlows(rows)[k - 1] + CashFlows(rows)[k]
    {
      assert rows[k] == Row(sc, k + 1) && rows[k - 1] == Row(sc, k);
    }
  }

  /** Without discounting the net present value is the last year's cumulative cash flow:
      the sum of all cash flows less the outlay. */
  lemma UndiscountedNpv(sc: Scenario, f: Financials)
    requires Computable(sc) && IsProjection(sc, f) && sc.settings.discountRate == 0.0
    ensures f.npv == Sum(CashFlows(f.yearlyData)) - Outlay(sc)
    ensures f.npv == f.yearlyData[Horizon - 1].cumulativeCashFlow
  {
    var rows := f.yearlyData;
    CumulativeIsRunningSum(sc, rows, Horizon - 1);
    assert CashFlows(rows)[..Horizon] == CashFlows(rows);
  }

  /** Straight-line depreciation: the same amount every year, writing off the whole
      investment over the horizon. */
  lemma InvestmentWrittenOff(sc: Scenario, f: Financials)
    requires Computable(sc) && IsProjection(sc, f)
    ensures forall k :: 0 <= k < Horizon ==> f.yearlyData[k].depreciation == sc.initialInvestment / 25.0
    ensures Sum(Depreciations(f.yearlyData)) == sc.initialInvestment
  {
    SumConstant(Depreciations(f.yearlyData), Depreciation(sc));
  }

  /** At a positive rate every loan year repays a positive amount of principal on a balance
      that is still outstanding and never above the amount borrowed. */
  lemma PrincipalRepaidEachLoanYear(sc: Scenario, year: nat)
    requires Financed(sc) && year >= 1 && LoanYear(sc, year)
    requires sc.settings.loanInterestRate > 0.0 && LoanOf(sc) > 0.0
    ensures Principal(sc, year) > 0.0
    ensures 0.0 < BalanceAfter(sc, year - 1) <= LoanOf(sc)
  {
    var rate, term := sc.settings.loanInterestRate, sc.settings.loanTerm;
    BalanceStep(sc, year);
    assert Min(year - 1, term) == year - 1;
    PrincipalPositive(rate, term, LoanOf(sc), Payment(sc), year - 1);
    BalanceWithinLoan(rate, term, LoanOf(sc), Payment(sc), year - 1);
  }

  /** Interest, principal and the coverage ratio belong to the loan years only: outside them
      interest and principal are zero and the DSCR is absent; inside them the DSCR is the
      operating cash after tax over the payment, and interest and principal split the payment. */
  lemma DebtServiceInYear(sc: Scenario, year: nat, row: YearRow)
    requires Computable(sc) && year >= 1 && row == Row(sc, year)
    ensures row.dscr.Some? <==> LoanYear(sc, year)
    ensures !LoanYear(sc, year) ==> row.interest == 0.0 && row.principal == 0.0
    ensures LoanYear(sc, year) ==>
      && row.interest + row.principal == Payment(sc)
      && row.interest == BalanceAfter(sc, year - 1) * sc.settings.loanInterestRate
      && row.dscr.value * Payment(sc) == row.revenue - row.opex - row.tax
  {
    if LoanYear(sc, year) {
      DivTimes(row.revenue - row.opex - row.tax, Payment(sc));
    }
  }

  /** Multiplying the DSCR back by the payment recovers the operating cash after tax. */
  lemma DivTimes(a: real, b: real)
    requires b != 0.0
    ensures (a / b) * b == a
  {
  }

  /** With a loan whose term fits in the horizon, the coverage ratios present are exactly
      those of the loan years, so the average DSCR is their mean. */
  lemma AverageDscrIsMean(sc: Scenario, f: Financials)
    requires Computable(sc) && IsProjection(sc, f)
    requires sc.isLevered && sc.settings.loanTerm <= Horizon
    ensures |Present(Dscrs(f.yearlyData))| == sc.settings.loanTerm
    ensures forall k :: 0 <= k < sc.settings.loanTerm ==> Present(Dscrs(f.yearlyData))[k] == Dscr(sc, k + 1).value
    ensures f.averageDSCR == Some(Sum(Present(Dscrs(f.yearlyData))) / (sc.settings.loanTerm as real))
  {
    var rows := f.yearlyData;
    var ds := Dscrs(rows);
    forall k | 0 <= k < |ds|
      ensures ds[k].Some? <==> k < sc.settings.loanTerm
    {
      assert rows[k] == Row(sc, k + 1);
    }
    PresentPrefix(ds, sc.settings.loanTerm);
  }

  /** A recovery after the first year is interpolated over that year's own cash flow, the
      rise of the cumulative cash flow across it. */
  lemma PaybackFromCashFlow(sc: Scenario, f: Financials, i: nat)
    requires Computable(sc) && IsProjection(sc, f)
    requires FirstRecovery(CumulativeCashFlows(f.yearlyData), i) && i > 0
    ensures f.paybackPeriod
         == i as real + Abs(f.yearlyData[i - 1].cumulativeCashFlow) / f.yearlyData[i].cashFlow
    ensures i as real < f.paybackPeriod <= i as real + 1.0
  {
    var rows := f.yearlyData;
    assert rows[i] == Row(sc, i + 1) && rows[i - 1] == Row(sc, i);
    InterpolationWithinYear(CumulativeCashFlows(rows), i);
  }

  /** The annuity formula has no value at a zero rate: a levered plan at 0% cannot be
      projected, as the source divides 0 by 0 there. */
  lemma ZeroRateNotFinanced(sc: Scenario)
    requires sc.isLevered && sc.settings.loanInterestRate == 0.0
    ensures !Financed(sc)
  {
    PowOfOne(sc.settings.loanTerm);
  }
}
