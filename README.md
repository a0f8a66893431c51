# Photovoltaic plant financial projection — a verified Dafny model

The Photovoltaic Calculator compares two solar plants, a fixed-tilt system and a
single-axis tracking system. It projects each one over 25 years, with or without a
bank loan. This project models the calculation engine inside `src/App.js`:

- the loan/equity split of the investment;
- the annuity payment (`calculatePMT`);
- the year-by-year projection of `calculateFinancials`. Each year it degrades panel output, inflates
  the electricity price and operating cost, writes off the investment on a straight line,
  amortises the loan, applies a 10% tax that is never negative, and derives cash flow,
  cumulative cash flow and the debt-service coverage ratio (DSCR);
- the summary metrics: NPV, payback period, average return on equity, average DSCR and
  total profit;
- the cost-breakdown handlers that recompute the investment and operating-cost totals
  when a component is edited.

All quantities are Dafny `real`s. `Pow` (integer exponent) stands in for `Math.pow`;
in this model every exponent is a whole number of years, the loan term included.

Modules, leaf first:

- `Powers` (`powers.dfy`): `Pow` and its monotonicity facts.
- `Folds` (`folds.dfy`): the left-to-right `Sum` used by the summing reduces (total profit, average DSCR, cost totals), the
  `Option` that stands for `null`, and the null filter `Present`.
- `Loan` (`loan.dfy`): the loan/equity split, the `Remaining` balance recurrence and
  `Pmt`, proved to retire the loan in exactly `nper` years.
- `Curves` (`curves.dfy`): the degradation factor and the inflation escalation.
- `Appraisal` (`appraisal.dfy`): NPV and the payback loop.
- `Projection` (`projection.dfy`): the inputs, one specification function per line item
  and year, and `CalculateFinancials`. That method runs the source's single pass, carrying
  `remainingLoan` and the cumulative cash flow forward in a loop whose invariants tie each
  built row to the specification. `IsProjection` states what the whole result is.
- `Schedule` (`schedule.dfy`): properties of the schedule as a whole.
- `Comparison` (`comparison.dfy`): both systems under the same settings, and the
  application's default inputs.
- `Costs` (`costs.dfy`): the ordered cost breakdowns and the three edit handlers.

Where the code does something other than one might expect, the model follows the code:

- There is no special case for a zero interest rate. The annuity formula then divides 0 by 0.
- The average DSCR divides by the loan term even when the term exceeds the horizon.
- The first-year payback is exactly 1, with no interpolation against the outlay.
- When nothing is recovered, the payback is 25, the same value as recovery at the end of year 25.
- An investment-component edit recomputes only the investment of the system being viewed.
  In the comparison view that is the tracking system. The other system's investment keeps
  its old value (`InvestmentEditMovesTotal`).
- An operating-cost edit in the comparison view changes the tracker breakdown but not
  the yearly opex.
- Both systems are projected with the same yearly opex setting.

`Comparison.DefaultFixedFirstYear` proves that the default fixed plant's year-1 revenue is
174547 · 1000 · 0.99 · 0.09 = 15,552,137.7.

## Model

| member | source | states |
|---|---|---|
| `Loan.EquityAmount` | src/App.js:84-85 | loan amount plus equity amount is exactly the investment |
| `Loan.Pmt` | src/App.js:88-91 | the payment satisfies the annuity relation P·(q^n − 1) = r·pv·q^n; paying it for n years leaves a balance of exactly 0; for r > 0 and a positive loan it exceeds the first year's interest; it is non-zero for a non-zero loan at any rate other than −100% |
| `Loan.RemainingClosedForm` | src/App.js:213-224 | the yearly recurrence (interest on the balance, payment less interest retires principal) has the closed form r·B(k) = r·pv·q^k − P·(q^k − 1) |
| `Loan.AnnuityBalance` | src/App.js:158-159 | for any payment meeting the annuity relation, the balance after k years is the loan times the share of compounding still ahead: B(k)·(q^n − 1) = pv·(q^n − q^k) |
| `Loan.BalanceWithinLoan` | src/App.js:213-224 | before the term ends, with a positive rate and loan, the balance under the annuity payment stays in (0, pv] |
| `Loan.PrincipalPositive` | src/App.js:219-222 | before the term ends, with a positive rate and loan, the annuity payment exceeds the interest on the balance, so the principal repaid is positive |
| `Curves.DegradationFactor` | src/App.js:175-181 | the factor is 0.99 in year 1 and stays in (0, 0.99] |
| `Curves.DegradationDecreasing` | src/App.js:175-181 | the factor strictly decreases from year to year and stays in (0, 1] |
| `Curves.EscalationCompounds` | src/App.js:193-195 | escalation is the base value in year 1 and grows by a factor (1 + inflation) each year |
| `Curves.ElectricityPrice` | src/App.js:184-190 | the year-1 special case agrees with the general escalation formula, so price and opex escalate alike |
| `Appraisal.PresentValueUndiscounted` | src/App.js:260-262 | at a zero discount rate the discounted sum is the plain sum of the cash flows |
| `Appraisal.Npv` | src/App.js:260-262 | NPV at a zero discount rate is the sum of cash flows less the outlay; with no cash flows it is −outlay |
| `Appraisal.PaybackPeriod` | src/App.js:265-280 | the loop's result is the payback `IsPayback` defines: 1 if year 1 recovers, the interpolation at the first recovering year otherwise, 25 if none; always at least 1, and at most 25 over the horizon |
| `Appraisal.PaybackUnique` | src/App.js:265-280 | the cumulative cash flows determine the payback: any two values meeting `IsPayback` are equal |
| `Appraisal.InterpolationWithinYear` | src/App.js:270-274 | a first recovery at index i > 0 is reported in (i, i + 1] |
| `Projection.Outlay` | src/App.js:245 | the upfront outlay is the investment less the loan when levered and the whole investment otherwise |
| `Projection.Tax` | src/App.js:231-233 | tax is never negative, is at least 10% of taxable income, is 0 on a loss and exactly 10% of a profit |
| `Projection.NetProfit` | src/App.js:235-237 | net profit is 90% of a positive taxable income and the whole taxable income when it is a loss |
| `Projection.BalanceStep` | src/App.js:212-224 | in a loan year principal = payment − balance·rate and the balance falls by exactly the principal; outside loan years the balance is unchanged |
| `Projection.ServiceDebt` | src/App.js:212-224 | the loan part of one iteration yields the specification's interest and principal of that year and the balance after it |
| `Projection.ProjectYear` | src/App.js:201-257 | one loop iteration produces exactly the specification row of that year and the balance after it |
| `Projection.CalculateFinancials` | src/App.js:154-312 | the result is `IsProjection`: 25 rows equal to the specification rows, with `year` = i + 1; NPV, payback, total profit, ROE = totalProfit/25/outlay and average DSCR are reduced from the rows; payback is in [1, 25]; the average DSCR is present iff levered |
| `Schedule.PrincipalsRepaid` | src/App.js:219-224 | the principal repaid over the first n years equals the loan less the balance after n years |
| `Schedule.LoanRetired` | src/App.js:158-159 | the principals of the whole schedule sum to the loan amount when levered with a term of at most 25 years, and to 0 when unlevered |
| `Schedule.CumulativeIsRunningSum` | src/App.js:243-248 | cumulative cash flow of year k+1 is the sum of cash flows of years 1..k+1 less the outlay |
| `Schedule.CumulativeRecurrence` | src/App.js:243-248 | cum[0] = cf[0] − outlay and cum[k] = cum[k−1] + cf[k] in the result |
| `Schedule.UndiscountedNpv` | src/App.js:259-262 | at a zero discount rate NPV equals Σcf − outlay, which is the last cumulative cash flow |
| `Schedule.InvestmentWrittenOff` | src/App.js:198 | every year's depreciation is investment/25, and the 25 of them sum to the investment |
| `Schedule.PrincipalRepaidEachLoanYear` | src/App.js:212-224 | at a positive rate, each loan year of a positive loan repays a positive principal on a balance in (0, loan] |
| `Schedule.DebtServiceInYear` | src/App.js:212-256 | in a year's row the DSCR is present iff levered and year ≤ loan term; outside those years interest and principal are 0; inside them interest + principal = payment, interest = balance·rate and DSCR·payment = revenue − opex − tax |
| `Schedule.AverageDscrIsMean` | src/App.js:286-289 | when levered with a term of at most 25 years, the non-null DSCRs are exactly the loan-term years' ratios in order, so the average DSCR is their mean |
| `Schedule.PaybackFromCashFlow` | src/App.js:270-274 | a recovery after the first year is interpolated over that year's cash flow: payback = i + abs(cum[i−1])/cf[i], in (i, i+1] |
| `Schedule.ZeroRateNotFinanced` | src/App.js:88-91 | at a 0% rate the annuity factor is 1, so a levered projection falls outside the model's precondition (the source divides 0 by 0) |
| `Comparison.CompareSystems` | src/App.js:315-316 | both systems are projected under the same settings and financing; each result is `IsProjection` of its own scenario |
| `Comparison.DefaultsComputable` | src/App.js:56-81 | the default settings meet the projection's precondition for both systems, levered or not |
| `Comparison.DefaultFixedFirstYear` | src/App.js:155-210 | default fixed levered plant: year-1 revenue 15,552,137.7, depreciation 1,400,183.448, loan 24,503,210.34, outlay 10,501,375.86 |
| `Costs.SetAmount` | src/App.js:103-106 | after the object-spread update the edited component has the new amount, every other component keeps its amount, and names keep their places; the application edits only names it lists from the same breakdown (src/App.js:637-643, 661-667), so the edited component is always replaced in place |
| `Costs.SetAmountDistinct` | src/App.js:103-106 | the update keeps component names distinct |
| `Costs.TotalAfterSet` | src/App.js:109 | the recomputed total moves by exactly the change of the edited component |
| `Costs.TotalIsFromFront` | src/App.js:109 | summing the breakdown in either direction gives the same total |
| `Costs.InitialInvestmentChange` | src/App.js:102-115 | the breakdown is updated; the viewed system's investment becomes the new total plus its construction cost; nothing else changes |
| `Costs.InvestmentEditMovesTotal` | src/App.js:108-114 | from consistent totals, the viewed system's investment moves by the component's change and the other system's stays as it was |
| `Costs.ConstructionCostChange` | src/App.js:117-128 | the static (tracker) cost is set, and the fixed (tracking) investment becomes the components' total plus it |
| `Costs.ConstructionEditKeepsTotals` | src/App.js:117-128 | a construction-cost edit keeps both investments equal to components plus their own construction cost |
| `Costs.OpexChange` | src/App.js:130-151 | the static or tracker opex breakdown is updated; the yearly opex becomes its total only in that system's own view; nothing else changes |
| `Costs.OpexEditMovesTotal` | src/App.js:137-149 | in its own view an opex edit moves the yearly opex by the change of the edited component |
| `Costs.DefaultInvestmentsCurrent` | src/App.js:18-33 | the default components total 30,004,586.20, and the default investments (35,004,586.20 and 38,004,586.20) are that total plus 5,000,000 and 8,000,000 |
| `Costs.DefaultOpexCurrent` | src/App.js:35-53 | the default breakdowns total 1,962,414 (static) and 2,348,946 (tracker, the default yearly opex) |

## Left out

- Floating point: all arithmetic is over exact reals. IEEE-754 rounding, `NaN` and `Infinity` are not modelled, so the "within tolerance" of the loan-retirement property becomes an exact equality.
- Division by zero: the projection requires the annuity factor (1 + rate)^term to differ from 1 when levered, the payment to be non-zero, the outlay to be non-zero (ROE) and 1 + discount rate to be non-zero (NPV). The source divides anyway and yields `NaN` or `Infinity`; a zero interest rate or a zero loan term is such a case (`Schedule.ZeroRateNotFinanced`).
- `Projection.CalculateFinancials`: the source computes the annuity payment even without a loan and never uses it. The model computes it only when levered, so an unlevered run needs no annuity precondition.
- The loan term is a natural number of years. The source takes any `parseFloat` result, and a fractional term would make `Math.pow` take a fractional exponent.
- React state, hooks and `handleSettingChange`'s `parseFloat` / `|| 0` string parsing. The handlers take the already parsed amount. The effects of `setState` become functions from state to new state, and React's batching is not modelled.
- The viewMode-dependent initial `yearlyOpex`. The default state holds the value the default comparison view gets.
- Chart data reshaping, JSX rendering, pie-label geometry and number formatting.
- `electricityPrice2024` is a setting the engine never reads; it is carried but unused.
- The default breakdowns are not proved to satisfy `DistinctNames`: in the source they are object keys, distinct by construction, and comparing the string literals pairwise is too costly for the verifier. `SetAmountDistinct` therefore applies to them only on that assumption.
