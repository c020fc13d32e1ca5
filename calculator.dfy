/** The loan calculation request, common to the three implementations
  * (calculateLoan in src/lib/loan-service.ts, calculate_loan in backend.py and
  * LoanCalculationService.calculate_loan in backend/services.py with the helpers
  * of backend/utils.py): find the product by its exact name, check the amount
  * against its range, pick the rate, and produce the summary and the schedule. */
module LoanCalculator {
  import opened Wrappers
  import opened LoanData
  import opened Annuity
  import opened Schedule
  import opened LoanTable

  /** The figures of a summary for a level payment over `n` months: the total
    * is `n` payments, the interest what the total exceeds the principal by. */
  function SummaryFor(principal: real, annualRate: real, payment: real, n: nat): (s: LoanSummary)
    ensures s.principal == principal && s.annualInterestRate == annualRate && s.monthlyPayment == payment
    ensures s.totalPayment == (n as real) * payment
    ensures s.totalInterest == s.totalPayment - principal
  {
    var total := (n as real) * payment;
    LoanSummary(total, principal, total - principal, payment, annualRate)
  }

  /** The figures of the summary (calculate_loan_summary of backend/utils.py; the
    * same figures are computed inline in backend.py and src/lib/loan-service.ts). */
  function Summary(principal: real, annualRate: real, years: int): (s: LoanSummary)
    requires Defined(annualRate, years)
    ensures s.principal == principal && s.annualInterestRate == annualRate
    ensures s.monthlyPayment == MonthlyPayment(principal, annualRate, years)
    ensures s.totalPayment == (NumPayments(years) as real) * s.monthlyPayment
    ensures s.totalInterest == s.totalPayment - principal
  {
    SummaryFor(principal, annualRate, MonthlyPayment(principal, annualRate, years), NumPayments(years))
  }

  /** The schedule of the level payment (generate_amortization_schedule of
    * backend/utils.py with its rule; the TypeScript service uses its own). */
  function LevelSchedule(principal: real, annualRate: real, years: int, rule: FinalMonthRule)
    : seq<AmortizationEntry>
    requires Defined(annualRate, years)
  {
    Rows(principal, MonthlyRate(annualRate), MonthlyPayment(principal, annualRate, years), NumPayments(years), rule)
  }

  /** A schedule agrees with a summary when its principal parts add up to the
    * summary's principal, its interest to the summary's total interest, and
    * both together to the total payment. */
  predicate Agrees(s: LoanSummary, rows: seq<AmortizationEntry>)
  {
    PrincipalTotal(rows) == s.principal &&
    InterestTotal(rows) == s.totalInterest &&
    PrincipalTotal(rows) + InterestTotal(rows) == s.totalPayment
  }

  /** A payment that leaves no balance gives a schedule that agrees with its
    * summary. */
  lemma ExactPaymentAgrees(principal: real, annualRate: real, payment: real, n: nat, rule: FinalMonthRule)
    requires n >= 1 && rule.threshold >= 0.0
    requires Balance(principal, MonthlyRate(annualRate), payment, n) == 0.0
    ensures Agrees(SummaryFor(principal, annualRate, payment, n), Rows(principal, MonthlyRate(annualRate), payment, n, rule))
  {
    var rows := Rows(principal, MonthlyRate(annualRate), payment, n, rule);
    ExactPaymentSchedule(principal, MonthlyRate(annualRate), payment, n, rule);
    assert |rows| == n;
  }

  /** The summary agrees with the level-payment schedule under either rule. */
  lemma SummaryMatchesSchedule(principal: real, annualRate: real, years: int, rule: FinalMonthRule)
    requires Defined(annualRate, years) && rule.threshold >= 0.0
    ensures |LevelSchedule(principal, annualRate, years, rule)| == NumPayments(years)
    ensures Agrees(Summary(principal, annualRate, years), LevelSchedule(principal, annualRate, years, rule))
  {
    ExactPaymentAgrees(principal, annualRate, MonthlyPayment(principal, annualRate, years), NumPayments(years), rule);
  }

  /** At a zero rate nothing is paid in interest. */
  lemma ZeroRateCostsNothing(principal: real, years: int)
    requires years >= 1
    ensures Defined(0.0, years) && Summary(principal, 0.0, years).totalInterest == 0.0
  {}

  /** Interest is never negative for a non-negative amount and rate: each
    * month's interest is charged on a balance that stays at or above 0. */
  lemma InterestNotNegative(principal: real, annualRate: real, years: int)
    requires Defined(annualRate, years)
    requires principal >= 0.0 && annualRate >= 0.0
    ensures Summary(principal, annualRate, years).totalInterest >= 0.0
  {
    var rows := LevelSchedule(principal, annualRate, years, PythonRule);
    forall i | 0 <= i < |rows|
      ensures rows[i].interestPaid >= 0.0
    {
      LevelInterestNotNegative(principal, annualRate, years, i);
    }
    InterestTotalNotNegative(rows);
    SummaryMatchesSchedule(principal, annualRate, years, PythonRule);
  }

  lemma LevelInterestNotNegative(principal: real, annualRate: real, years: int, i: nat)
    requires Defined(annualRate, years)
    requires principal >= 0.0 && annualRate >= 0.0
    requires i < NumPayments(years)
    ensures LevelSchedule(principal, annualRate, years, PythonRule)[i].interestPaid >= 0.0
  {
    var r := MonthlyRate(annualRate);
    var m := MonthlyPayment(principal, annualRate, years);
    var n := NumPayments(years);
    LevelRow(principal, annualRate, years, i);
    RowMeaning(principal, r, m, n, PythonRule, i);
    MulNonNegative(Balance(principal, r, m, i), r);
  }

  lemma {:induction false} InterestTotalNotNegative(s: seq<AmortizationEntry>)
    requires forall i :: 0 <= i < |s| ==> s[i].interestPaid >= 0.0
    ensures InterestTotal(s) >= 0.0
  {
    if s != [] {
      InterestTotalNotNegative(s[..|s| - 1]);
    }
  }

  /** validate_loan_amount of backend/utils.py: the amount must lie in the
    * product's closed range; otherwise the error quotes the amount and the
    * range. */
  function ValidateLoanAmount(amount: real, minimumAmount: real, maximumAmount: real)
    : (r: (bool, Option<LoanError>))
    ensures r.0 <==> minimumAmount <= amount <= maximumAmount
    ensures r.0 ==> r.1 == None
    ensures !r.0 ==> r.1 == Some(AmountOutOfRange(amount, minimumAmount, maximumAmount))
  {
    if !(minimumAmount <= amount <= maximumAmount) then
      (false, Some(AmountOutOfRange(amount, minimumAmount, maximumAmount)))
    else
      (true, None)
  }

  /** The rate of a calculation: the custom rate whenever one is given, 0
    * included (`??` in TypeScript, `is not None` in Python), else the
    * product's. */
  function RateFor(c: LoanCalculation, product: Loan): (rate: real)
    ensures c.customInterestRate.Some? ==> rate == c.customInterestRate.value
    ensures c.customInterestRate.None? ==> rate == product.annualInterestRate
  {
    match c.customInterestRate
    case Some(custom) => custom
    case None => product.annualInterestRate
  }

  /** The calculation reaches the payment formula only for a known product and an
    * amount in range; there the formula's divisor must not vanish. */
  predicate Computable(loans: seq<Loan>, c: LoanCalculation)
  {
    var product := FindByName(loans, c.loanName);
    product.Some? && ValidateLoanAmount(c.amount, product.value.minimumAmount, product.value.maximumAmount).0 ==>
      Defined(RateFor(c, product.value), c.years)
  }

  /** The outcome of a calculation request against a store, with the given
    * final-month rule. */
  function Calculate(loans: seq<Loan>, c: LoanCalculation, rule: FinalMonthRule)
    : (r: Result<CalculationResult, LoanError>)
    requires Computable(loans, c)
    ensures FindByName(loans, c.loanName).None? ==> r == Failure(NotFound)
    ensures FindByName(loans, c.loanName).Some? ==>
      var p := FindByName(loans, c.loanName).value;
      (!(p.minimumAmount <= c.amount <= p.maximumAmount) ==>
        r == Failure(AmountOutOfRange(c.amount, p.minimumAmount, p.maximumAmount))) &&
      (p.minimumAmount <= c.amount <= p.maximumAmount ==>
        r.Success? &&
        r.value.summary == Summary(c.amount, RateFor(c, p), c.years) &&
        r.value.amortizationSchedule == LevelSchedule(c.amount, RateFor(c, p), c.years, rule))
  {
    match FindByName(loans, c.loanName)
    case None => Failure(NotFound)
    case Some(p) =>
      var (valid, error) := ValidateLoanAmount(c.amount, p.minimumAmount, p.maximumAmount);
      if !valid then Failure(error.value)
      else
        var rate := RateFor(c, p);
        Success(CalculationResult(Summary(c.amount, rate, c.years), LevelSchedule(c.amount, rate, c.years, rule)))
  }

  /** A request fails exactly when the product is unknown (404) or the amount is
    * out of its range (400), and an unknown product is reported first. */
  lemma CalculationErrors(loans: seq<Loan>, c: LoanCalculation, rule: FinalMonthRule)
    requires Computable(loans, c)
    ensures var r := Calculate(loans, c, rule);
      var p := FindByName(loans, c.loanName);
      (r.Failure? <==> p.None? || !(p.value.minimumAmount <= c.amount <= p.value.maximumAmount)) &&
      (r.Failure? && StatusCode(r.error) == 404 <==> p.None?) &&
      (r.Failure? && StatusCode(r.error) == 400 <==> p.Some? && !(p.value.minimumAmount <= c.amount <= p.value.maximumAmount))
  {}

  /** A successful calculation is internally consistent under either rule: one
    * entry per month numbered from 1, every month paying the summary's
    * monthly payment, the schedule summing to the summary, and a last balance
    * of 0. */
  lemma SuccessfulCalculation(loans: seq<Loan>, c: LoanCalculation, rule: FinalMonthRule)
    requires Computable(loans, c) && rule.threshold >= 0.0
    requires Calculate(loans, c, rule).Success?
    ensures var res := Calculate(loans, c, rule).value;
      var s := res.amortizationSchedule;
      |s| == c.years * 12 &&
      (forall i :: 0 <= i < |s| ==> s[i].month == i + 1 && s[i].monthlyPayment == res.summary.monthlyPayment) &&
      PaysOff(s, c.amount, res.summary.monthlyPayment) &&
      Agrees(res.summary, s)
  {
    var p := FindByName(loans, c.loanName).value;
    var rate := RateFor(c, p);
    var s := LevelSchedule(c.amount, rate, c.years, rule);
    var m := MonthlyPayment(c.amount, rate, c.years);
    forall i | 0 <= i < |s|
      ensures s[i].month == i + 1 && s[i].monthlyPayment == m
    {
      RowMeaning(c.amount, MonthlyRate(rate), m, NumPayments(c.years), rule, i);
    }
    LevelPaymentSchedule(c.amount, rate, c.years, rule);
    SummaryMatchesSchedule(c.amount, rate, c.years, rule);
  }

  /** For a known product, an amount in range, a non-negative amount and a
    * non-negative rate, the TypeScript and the Python rules give the same
    * result. */
  lemma RulesGiveSameResult(loans: seq<Loan>, c: LoanCalculation)
    requires Computable(loans, c) && c.amount >= 0.0
    requires FindByName(loans, c.loanName).Some? ==> RateFor(c, FindByName(loans, c.loanName).value) >= 0.0
    ensures Calculate(loans, c, TypeScriptRule) == Calculate(loans, c, PythonRule)
  {
    match FindByName(loans, c.loanName)
    case None =>
    case Some(p) =>
      if p.minimumAmount <= c.amount <= p.maximumAmount {
        RulesAgreeOnLevelPayment(c.amount, RateFor(c, p), c.years);
      }
  }

  /** The seed's first product lends from 5,000,000 to 50,000,000: a request for
    * 1,000,000 is refused with status 400, quoting that range. */
  lemma SeedAmountBelowRange(rule: FinalMonthRule)
    ensures var c := LoanCalculation(1000000.0, "Libranza", 5, None);
      Computable(SeedLoans(), c) &&
      Calculate(SeedLoans(), c, rule) == Failure(AmountOutOfRange(1000000.0, 5000000.0, 50000000.0)) &&
      StatusCode(Calculate(SeedLoans(), c, rule).error) == 400
  {
    assert FindByName(SeedLoans(), "Libranza") == Some(SeedLoans()[0]);
  }

  /** The product is found by its exact name: the lower-case "libranza" names no
    * product (whereas the searches ignore case). */
  lemma CalculatorNameIsExact(rule: FinalMonthRule)
    ensures var c := LoanCalculation(10000000.0, "libranza", 5, None);
      Computable(SeedLoans(), c) &&
      Calculate(SeedLoans(), c, rule) == Failure(NotFound)
  {
    var seed := SeedLoans();
    forall l | l in seed ensures l.productName != "libranza" {
      var i :| 0 <= i < |seed| && seed[i] == l;
      assert seed[i].productName[0] != 'l';
    }
  }
}
