/** Debt financing of the plant: the loan/equity split of the investment, the annuity
    payment and the year-by-year amortisation of the remaining loan. */
module Loan {
  import opened Powers

  /** The part of the investment financed by the loan. */
  function LoanAmount(investment: real, loanPercentage: real): real
  {
    investment * loanPercentage
  }

  /** The part of the investment the owners put up themselves. */
  function EquityAmount(investment: real, loanPercentage: real): (equity: real)
    ensures LoanAmount(investment, loanPercentage) + equity == investment
  {
    investment * (1.0 - loanPercentage)
  }

  /** The balance left after `years` annual payments: each year interest accrues on the
      balance at `rate`, and the part of `payment` above that interest retires principal. */
  function Remaining(principal: real, rate: real, payment: real, years: nat): real
  {
    if years == 0 then principal
    else
      var balance := Remaining(principal, rate, payment, years - 1);
      balance - (payment - balance * rate)
  }

  /** b is the balance after the years that compounded the loan by a = (1 + rate)^k, in
      closed form multiplied through by the rate: the loan grows with compound interest and
      every payment is deducted with its own compound interest. */
  predicate ClosedForm(principal: real, rate: real, payment: real, a: real, b: real)
  {
    rate * b == rate * principal * a - payment * (a - 1.0)
  }

  /** `payment` is the annuity of the loan `pv` for the compounding factor a = (1 + rate)^n. */
  predicate Annuity(rate: real, pv: real, a: real, payment: real)
  {
    payment * (a - 1.0) == rate * pv * a
  }

  /** w is the loan `pv` scaled by the share (a - b) / (a - 1) of the compounding still ahead. */
  predicate Share(pv: real, a: real, b: real, w: real)
  {
    w * (a - 1.0) == pv * (a - b)
  }

  /** The balance recurrence in closed form:
      rate * B(k) == rate * pv * q^k - payment * (q^k - 1) with q = 1 + rate. */
  lemma {:induction false} RemainingClosedForm(principal: real, rate: real, payment: real, years: nat)
    ensures ClosedForm(principal, rate, payment, Pow(1.0 + rate, years), Remaining(principal, rate, payment, years))
  {
    if years == 0 {
      assert Pow(1.0 + rate, years) == 1.0;
    } else {
      RemainingClosedForm(principal, rate, payment, years - 1);
      ClosedFormStep(principal, rate, payment,
        Pow(1.0 + rate, years - 1), Pow(1.0 + rate, years),
        Remaining(principal, rate, payment, years - 1), Remaining(principal, rate, payment, years));
    }
  }

  /** One year of the recurrence keeps the closed form (a = q^k, c = q^(k+1)). */
  lemma ClosedFormStep(principal: real, rate: real, payment: real, a: real, c: real, b: real, b': real)
    requires ClosedForm(principal, rate, payment, a, b)
    requires c == (1.0 + rate) * a
    requires b' == b - (payment - b * rate)
    ensures ClosedForm(principal, rate, payment, c, b')
  {
  }

  /** The annuity formula for a = q^n != 1 meets the annuity relation; it exceeds the first
      year's interest on a positive loan at a positive rate, and it is zero only when there
      is no loan. */
  lemma PaymentAlgebra(rate: real, pv: real, a: real, payment: real)
    requires a != 1.0
    requires payment == (rate * pv * a) / (a - 1.0)
    ensures Annuity(rate, pv, a, payment)
    ensures rate != 0.0 && pv != 0.0 && a != 0.0 ==> payment != 0.0
    ensures rate > 0.0 && pv > 0.0 && a > 1.0 ==> payment > pv * rate
  {
    var d := a - 1.0;
    assert payment == rate * pv * (a / d);
    if rate > 0.0 && pv > 0.0 && a > 1.0 {
      PaymentAbove(rate, pv, a, payment);
    }
  }

  /** What a well-defined annuity factor q^n says about the rate and the term. */
  lemma PvifFacts(rate: real, nper: nat)
    requires Pow(1.0 + rate, nper) != 1.0
    ensures rate != 0.0 && nper >= 1
    ensures rate > 0.0 ==> Pow(1.0 + rate, nper) > 1.0
    ensures rate != -1.0 ==> Pow(1.0 + rate, nper) != 0.0
  {
    if rate == 0.0 {
      PowOfOne(nper);
    }
    if rate > 0.0 && nper >= 1 {
      PowIncreasing(1.0 + rate, 0, nper);
    }
    if rate != -1.0 {
      PowNonZero(1.0 + rate, nper);
    }
  }

  /** From the closed form and the annuity relation (b = q^k): the balance is the share of
      the loan still ahead. */
  lemma BalanceAlgebra(rate: real, pv: real, a: real, b: real, payment: real, balance: real)
    requires rate != 0.0
    requires Annuity(rate, pv, a, payment)
    requires ClosedForm(pv, rate, payment, b, balance)
    ensures Share(pv, a, b, balance)
  {
    var d := a - 1.0;
    assert rate * balance * d == rate * pv * b * d - payment * d * (b - 1.0);
    assert rate * balance * d == rate * pv * b * d - rate * pv * a * (b - 1.0);
    assert rate * (balance * d) == rate * (pv * (a - b));
  }

  /** For any payment meeting the annuity relation the balance after k years is the loan
      scaled by the share of the compounding still ahead:
      B(k) * (q^n - 1) == pv * (q^n - q^k) with q = 1 + rate. */
  lemma AnnuityBalance(rate: real, nper: nat, pv: real, payment: real, k: nat)
    requires Pow(1.0 + rate, nper) != 1.0
    requires Annuity(rate, pv, Pow(1.0 + rate, nper), payment)
    ensures Share(pv, Pow(1.0 + rate, nper), Pow(1.0 + rate, k), Remaining(pv, rate, payment, k))
  {
    PvifFacts(rate, nper);
    RemainingClosedForm(pv, rate, payment, k);
    BalanceAlgebra(rate, pv, Pow(1.0 + rate, nper), Pow(1.0 + rate, k), payment,
      Remaining(pv, rate, payment, k));
  }

  /** The constant yearly payment that pays off a loan `pv` over `nper` years at `rate`;
      defined wherever the annuity factor (1 + rate)^nper differs from one. */
  function Pmt(rate: real, nper: nat, pv: real): (payment: real)
    requires Pow(1.0 + rate, nper) != 1.0
    ensures Annuity(rate, pv, Pow(1.0 + rate, nper), payment)
    ensures Remaining(pv, rate, payment, nper) == 0.0
    ensures rate > 0.0 && pv > 0.0 ==> payment > pv * rate
    ensures rate != -1.0 && pv != 0.0 ==> payment != 0.0
  {
    var pvif := Pow(1.0 + rate, nper);
    PvifFacts(rate, nper);
    var payment := (rate * pv * pvif) / (pvif - 1.0);
    PaymentAlgebra(rate, pv, pvif, payment);
    AnnuityBalance(rate, nper, pv, payment, nper);
    ShareNone(pv, pvif, Remaining(pv, rate, payment, nper));
    payment
  }

  lemma ShareNone(pv: real, a: real, w: real)
    requires a != 1.0 && Share(pv, a, a, w)
    ensures w == 0.0
  {
  }

  /** Before the term ends, with a positive rate and loan, a payment meeting the annuity
      relation leaves a positive balance never above the amount borrowed. */
  lemma BalanceWithinLoan(rate: real, nper: nat, pv: real, payment: real, k: nat)
    requires Pow(1.0 + rate, nper) != 1.0
    requires Annuity(rate, pv, Pow(1.0 + rate, nper), payment)
    requires rate > 0.0 && pv > 0.0 && k < nper
    ensures 0.0 < Remaining(pv, rate, payment, k) <= pv
  {
    AnnuityBalance(rate, nper, pv, payment, k);
    PowIncreasing(1.0 + rate, k, nper);
    ShareBetween(pv, Pow(1.0 + rate, nper), Pow(1.0 + rate, k), Remaining(pv, rate, payment, k));
  }

  /** In every year of the term such a payment exceeds the interest due, so it retires a
      positive amount of principal. */
  lemma PrincipalPositive(rate: real, nper: nat, pv: real, payment: real, k: nat)
    requires Pow(1.0 + rate, nper) != 1.0
    requires Annuity(rate, pv, Pow(1.0 + rate, nper), payment)
    requires rate > 0.0 && pv > 0.0 && k < nper
    ensures payment - Remaining(pv, rate, payment, k) * rate > 0.0
  {
    PvifFacts(rate, nper);
    PaymentAbove(rate, pv, Pow(1.0 + rate, nper), payment);
    BalanceWithinLoan(rate, nper, pv, payment, k);
    ScaleBelow(Remaining(pv, rate, payment, k), pv, rate);
  }

  lemma ShareBetween(pv: real, a: real, b: real, w: real)
    requires pv > 0.0 && 1.0 <= b < a
    requires Share(pv, a, b, w)
    ensures 0.0 < w <= pv
  {
    assert (pv - w) * (a - 1.0) == pv * (b - 1.0);
  }

  /** A positive loan at a positive rate with a > 1: a payment meeting the annuity relation
      exceeds the first year's interest. */
  lemma PaymentAbove(rate: real, pv: real, a: real, payment: real)
    requires rate > 0.0 && pv > 0.0 && a > 1.0
    requires Annuity(rate, pv, a, payment)
    ensures payment > pv * rate
  {
    var d := a - 1.0;
    assert (payment - rate * pv) * d == rate * pv;
  }

  /** A balance no larger than the loan accrues no more interest than the loan would. */
  lemma ScaleBelow(w: real, pv: real, rate: real)
    requires w <= pv && rate > 0.0
    ensures w * rate <= pv * rate
  {
  }
}
