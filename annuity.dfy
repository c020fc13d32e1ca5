/** Level-payment (annuity) arithmetic of the loan calculator, common to
  * backend/utils.py, backend.py and src/lib/loan-service.ts. Money and rates are
  * exact reals; a rate is a fraction (0.165 is 16.5%). */
module Annuity {

  /** `x` raised to the natural power `n` (Python's `**`, JavaScript's `Math.pow`). */
  function Pow(x: real, n: nat): real
  {
    if n == 0 then 1.0 else x * Pow(x, n - 1)
  }

  /** The nominal annual rate spread evenly over twelve months. */
  function MonthlyRate(annualRate: real): real
  {
    annualRate / 12.0
  }

  /** The number of monthly payments in a term of `years` years. */
  function NumPayments(years: nat): nat
  {
    years * 12
  }

  /** The payment formulas divide by the number of payments (zero rate) or by
    * `(1 + r)^n - 1` (any other rate); both divisors are non-zero exactly when
    * this holds. */
  predicate Defined(annualRate: real, years: int)
  {
    years >= 1 &&
    (MonthlyRate(annualRate) == 0.0 || Pow(1.0 + MonthlyRate(annualRate), NumPayments(years)) != 1.0)
  }

  /** The balance the schedule loop holds after `months` months, before any
    * final-month correction: each month the balance is reduced by the part of
    * the payment that is not interest on it. */
  function Balance(principal: real, monthlyRate: real, payment: real, months: nat): real
  {
    if months == 0 then principal
    else
      var opening := Balance(principal, monthlyRate, payment, months - 1);
      opening - (payment - opening * monthlyRate)
  }

  /** 1 + q + ... + q^(k-1): what a stream of unit payments has grown to after k months. */
  ghost function Geometric(q: real, k: nat): real
  {
    if k == 0 then 0.0 else q * Geometric(q, k - 1) + 1.0
  }

  // Steps of real arithmetic, each small enough for the solver on its own.

  lemma MulNonNegative(a: real, b: real)
    requires a >= 0.0 && b >= 0.0
    ensures a * b >= 0.0
  {}

  lemma ProductZero(x: real, y: real)
    requires x * y == 0.0 && y != 0.0
    ensures x == 0.0
  {
    assert x == (x * y) / y;
  }

  lemma ClosedFormStep(principal: real, r: real, payment: real, b: real, p: real, g: real, b': real, p': real, g': real)
    requires b == principal * p - payment * g
    requires b' == b - (payment - b * r) && p' == (1.0 + r) * p && g' == (1.0 + r) * g + 1.0
    ensures b' == principal * p' - payment * g'
  {}

  lemma GeometricStep(r: real, g: real, p: real)
    requires r * g == p - 1.0
    ensures r * ((1.0 + r) * g + 1.0) == (1.0 + r) * p - 1.0
  {}

  lemma BernoulliStep(r: real, p: real, k: real)
    requires r >= 0.0 && k >= 0.0 && p >= 1.0 + k * r
    ensures (1.0 + r) * p >= 1.0 + (k + 1.0) * r
  {
    MulNonNegative(r, p - 1.0);
    MulNonNegative(k, r);
    assert (1.0 + r) * p == p + r * (p - 1.0) + r;
  }

  lemma CancelGrowth(principal: real, r: real, payment: real, q: real, g: real)
    requires q != 1.0 && payment * (q - 1.0) == principal * r * q && r * g == q - 1.0
    ensures principal * q - payment * g == 0.0
  {
    assert payment * g * (q - 1.0) == g * (payment * (q - 1.0));
    assert g * (principal * r * q) == principal * q * (r * g);
    assert (principal * q - payment * g) * (q - 1.0) == 0.0;
    ProductZero(principal * q - payment * g, q - 1.0);
  }

  lemma PrincipalPartStep(r: real, payment: real, b0: real, b1: real, d: real, p0: real, p1: real)
    requires b1 == b0 - (payment - b0 * r)
    requires payment - b0 * r == p0 * d && p1 == (1.0 + r) * p0
    ensures payment - b1 * r == p1 * d
  {
    assert payment - b1 * r == (payment - b0 * r) * (1.0 + r);
  }

  lemma CoverStep(principal: real, r: real, payment: real, q: real)
    requires q - 1.0 > 0.0 && payment * (q - 1.0) == principal * r * q && r * principal >= 0.0
    ensures payment >= r * principal
  {
    var d := q - 1.0;
    assert (payment - r * principal) * d == r * principal;
    assert payment - r * principal == (r * principal) / d;
  }

  /** The balance after k months is the principal grown by k months of interest,
    * less the payments grown likewise. */
  lemma {:induction false} BalanceClosedForm(principal: real, monthlyRate: real, payment: real, months: nat)
    ensures Balance(principal, monthlyRate, payment, months)
         == principal * Pow(1.0 + monthlyRate, months) - payment * Geometric(1.0 + monthlyRate, months)
  {
    if months > 0 {
      BalanceClosedForm(principal, monthlyRate, payment, months - 1);
      ClosedFormSucc(principal, monthlyRate, payment, months);
    }
  }

  lemma ClosedFormSucc(principal: real, monthlyRate: real, payment: real, k: nat)
    requires k > 0
    requires Balance(principal, monthlyRate, payment, k - 1)
          == principal * Pow(1.0 + monthlyRate, k - 1) - payment * Geometric(1.0 + monthlyRate, k - 1)
    ensures Balance(principal, monthlyRate, payment, k)
         == principal * Pow(1.0 + monthlyRate, k) - payment * Geometric(1.0 + monthlyRate, k)
  {
    var q := 1.0 + monthlyRate;
    var b := Balance(principal, monthlyRate, payment, k - 1);
    var b' := Balance(principal, monthlyRate, payment, k);
    assert b' == b - (payment - b * monthlyRate);
    ClosedFormStep(principal, monthlyRate, payment, b, Pow(q, k - 1), Geometric(q, k - 1), b', Pow(q, k), Geometric(q, k));
  }

  lemma {:induction false} GeometricTimesRate(monthlyRate: real, months: nat)
    ensures monthlyRate * Geometric(1.0 + monthlyRate, months) == Pow(1.0 + monthlyRate, months) - 1.0
  {
    if months > 0 {
      GeometricTimesRate(monthlyRate, months - 1);
      GeometricStep(monthlyRate, Geometric(1.0 + monthlyRate, months - 1), Pow(1.0 + monthlyRate, months - 1));
    }
  }

  /** With no interest the balance falls by one payment a month. */
  lemma {:induction false} ZeroRateBalance(principal: real, payment: real, months: nat)
    ensures Balance(principal, 0.0, payment, months) == principal - (months as real) * payment
  {
    if months > 0 {
      ZeroRateBalance(principal, payment, months - 1);
    }
  }

  /** Bernoulli's inequality: (1 + r)^n >= 1 + n·r for r >= 0. */
  lemma {:induction false} PowAtLeastLinear(monthlyRate: real, n: nat)
    requires monthlyRate >= 0.0
    ensures Pow(1.0 + monthlyRate, n) >= 1.0 + (n as real) * monthlyRate
  {
    if n > 0 {
      PowAtLeastLinear(monthlyRate, n - 1);
      BernoulliStep(monthlyRate, Pow(1.0 + monthlyRate, n - 1), (n - 1) as real);
    }
  }

  /** A non-negative rate and a term of at least one year never divide by zero. */
  lemma NonNegativeRateIsDefined(annualRate: real, years: int)
    requires annualRate >= 0.0 && years >= 1
    ensures Defined(annualRate, years)
  {
    PowAtLeastLinear(MonthlyRate(annualRate), NumPayments(years));
    MulNonNegative(NumPayments(years) as real, MonthlyRate(annualRate));
  }

  /** Any payment `m` with m·((1+r)^n − 1) = P·r·(1+r)^n drives the balance to zero after n months. */
  lemma AnnuityRetiresLoan(principal: real, monthlyRate: real, payment: real, months: nat)
    requires Pow(1.0 + monthlyRate, months) != 1.0
    requires payment * (Pow(1.0 + monthlyRate, months) - 1.0) == principal * monthlyRate * Pow(1.0 + monthlyRate, months)
    ensures Balance(principal, monthlyRate, payment, months) == 0.0
  {
    var q := Pow(1.0 + monthlyRate, months);
    var g := Geometric(1.0 + monthlyRate, months);
    BalanceClosedForm(principal, monthlyRate, payment, months);
    GeometricTimesRate(monthlyRate, months);
    assert payment * (q - 1.0) == principal * monthlyRate * q;
    assert monthlyRate * g == q - 1.0;
    CancelGrowth(principal, monthlyRate, payment, q, g);
  }

  /** The annuity formula M = P·r(1+r)^n / ((1+r)^n − 1), r = annualRate/12 and
    * n = 12·years, as backend.py and src/lib/loan-service.ts write it: without a
    * zero-rate branch, so its divisor must not vanish. In exact arithmetic the
    * payment retires the loan in exactly n months. */
  function CompoundInterest(principal: real, annualRate: real, years: nat): (payment: real)
    requires Pow(1.0 + MonthlyRate(annualRate), NumPayments(years)) != 1.0
    ensures Balance(principal, MonthlyRate(annualRate), payment, NumPayments(years)) == 0.0
  {
    var growth := Pow(1.0 + MonthlyRate(annualRate), NumPayments(years));
    var payment := principal * (MonthlyRate(annualRate) * growth) / (growth - 1.0);
    assert payment * (growth - 1.0) == principal * MonthlyRate(annualRate) * growth;
    AnnuityRetiresLoan(principal, MonthlyRate(annualRate), payment, NumPayments(years));
    payment
  }

  /** The monthly payment with the zero-rate branch: `principal / n` when the
    * monthly rate is 0, the annuity formula otherwise (calculate_compound_interest
    * of backend/utils.py; the same branch stands in the callers in backend.py and
    * src/lib/loan-service.ts). Either way the payment retires the loan exactly. */
  function MonthlyPayment(principal: real, annualRate: real, years: int): (payment: real)
    requires Defined(annualRate, years)
    ensures Balance(principal, MonthlyRate(annualRate), payment, NumPayments(years)) == 0.0
    ensures MonthlyRate(annualRate) == 0.0 ==> payment * (NumPayments(years) as real) == principal
    ensures MonthlyRate(annualRate) != 0.0 ==> payment == CompoundInterest(principal, annualRate, years)
  {
    if MonthlyRate(annualRate) == 0.0 then
      var payment := principal / (NumPayments(years) as real);
      ZeroRateBalance(principal, payment, NumPayments(years));
      payment
    else
      CompoundInterest(principal, annualRate, years)
  }

  /** The part of the payment that reduces the balance in month k + 1 is (1 + r)^k
    * times the first month's: the principal parts of a level payment grow
    * geometrically. */
  lemma {:induction false} PrincipalPartGrows(principal: real, monthlyRate: real, payment: real, k: nat)
    ensures payment - Balance(principal, monthlyRate, payment, k) * monthlyRate
         == Pow(1.0 + monthlyRate, k) * (payment - monthlyRate * principal)
  {
    if k > 0 {
      PrincipalPartGrows(principal, monthlyRate, payment, k - 1);
      PrincipalPartSucc(principal, monthlyRate, payment, k);
    }
  }

  lemma PrincipalPartSucc(principal: real, monthlyRate: real, payment: real, k: nat)
    requires k > 0
    requires payment - Balance(principal, monthlyRate, payment, k - 1) * monthlyRate
          == Pow(1.0 + monthlyRate, k - 1) * (payment - monthlyRate * principal)
    ensures payment - Balance(principal, monthlyRate, payment, k) * monthlyRate
         == Pow(1.0 + monthlyRate, k) * (payment - monthlyRate * principal)
  {
    PrincipalPartStep(monthlyRate, payment, Balance(principal, monthlyRate, payment, k - 1),
                      Balance(principal, monthlyRate, payment, k), payment - monthlyRate * principal,
                      Pow(1.0 + monthlyRate, k - 1), Pow(1.0 + monthlyRate, k));
  }

  /** For a non-negative principal and rate the level payment is at least the
    * first month's interest. */
  lemma PaymentCoversInterest(principal: real, annualRate: real, years: int)
    requires Defined(annualRate, years)
    requires principal >= 0.0 && annualRate >= 0.0
    ensures MonthlyPayment(principal, annualRate, years) >= MonthlyRate(annualRate) * principal
  {
    var r := MonthlyRate(annualRate);
    if r != 0.0 {
      var n := NumPayments(years);
      var q := Pow(1.0 + r, n);
      var m := CompoundInterest(principal, annualRate, years);
      PowAtLeastLinear(r, n);
      MulNonNegative(n as real, r);
      MulNonNegative(r, principal);
      assert m * (q - 1.0) == principal * r * q;
      CoverStep(principal, r, m, q);
    }
  }

  /** With a payment at least the first month's interest and a non-negative rate,
    * the balance never rises. */
  lemma {:induction false} BalanceNonIncreasing(principal: real, monthlyRate: real, payment: real, j: nat, k: nat)
    requires monthlyRate >= 0.0 && payment >= monthlyRate * principal
    requires j <= k
    ensures Balance(principal, monthlyRate, payment, k) <= Balance(principal, monthlyRate, payment, j)
  {
    if j < k {
      var growth := Pow(1.0 + monthlyRate, k - 1);
      var surplus := payment - monthlyRate * principal;
      BalanceNonIncreasing(principal, monthlyRate, payment, j, k - 1);
      PrincipalPartGrows(principal, monthlyRate, payment, k - 1);
      PowAtLeastLinear(monthlyRate, k - 1);
      MulNonNegative((k - 1) as real, monthlyRate);
      assert growth >= 0.0 && surplus >= 0.0;
      MulNonNegative(growth, surplus);
    }
  }

  /** Under the level payment, for a non-negative principal and rate, every
    * balance of the schedule lies between 0 and the principal and no month
    * raises it. */
  lemma BalanceWithinPrincipal(principal: real, annualRate: real, years: int, k: nat)
    requires Defined(annualRate, years)
    requires principal >= 0.0 && annualRate >= 0.0
    requires k <= NumPayments(years)
    ensures var b := Balance(principal, MonthlyRate(annualRate), MonthlyPayment(principal, annualRate, years), k);
      0.0 <= b <= principal
    ensures k < NumPayments(years) ==>
      Balance(principal, MonthlyRate(annualRate), MonthlyPayment(principal, annualRate, years), k + 1)
      <= Balance(principal, MonthlyRate(annualRate), MonthlyPayment(principal, annualRate, years), k)
  {
    var r := MonthlyRate(annualRate);
    var m := MonthlyPayment(principal, annualRate, years);
    PaymentCoversInterest(principal, annualRate, years);
    BalanceNonIncreasing(principal, r, m, 0, k);
    BalanceNonIncreasing(principal, r, m, k, NumPayments(years));
    if k < NumPayments(years) {
      BalanceNonIncreasing(principal, r, m, k, k + 1);
    }
  }
}
