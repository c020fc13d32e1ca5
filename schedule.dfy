/** The month-by-month amortization schedule. The TypeScript service and both
  * Python back ends run the same loop and differ only in the final-month
  * correction: TypeScript corrects a leftover balance above one cent and shows
  * negative balances as 0; Python corrects any non-zero leftover and shows the
  * balance as it is. */
module Schedule {
  import opened LoanData
  import opened Annuity

  /** The final-month correction: a leftover whose size exceeds `threshold` is
    * added to the last principal part and the balance set to 0; `clampShown`
    * says whether a shown balance is raised to at least 0. */
  datatype FinalMonthRule = FinalMonthRule(threshold: real, clampShown: bool)

  /** `Math.abs(remainingBalance) > 0.01` and `Math.max(0, remainingBalance)`. */
  const TypeScriptRule := FinalMonthRule(0.01, true)

  /** `remaining_balance != 0`, balance shown unclamped. */
  const PythonRule := FinalMonthRule(0.0, false)

  function Abs(x: real): (r: real)
    ensures r >= 0.0 && (r == x || r == -x)
  {
    if x < 0.0 then -x else x
  }

  /** The balance a row reports. */
  function Shown(rule: FinalMonthRule, balance: real): (r: real)
    ensures rule.clampShown ==> r >= 0.0 && (r == balance || (balance < 0.0 && r == 0.0))
    ensures !rule.clampShown ==> r == balance
  {
    if rule.clampShown && balance < 0.0 then 0.0 else balance
  }

  /** Whether the correction fires in month `i + 1` of `n`: only in the last
    * month, and only when the leftover exceeds the threshold. */
  predicate Corrected(principal: real, monthlyRate: real, payment: real, n: nat, rule: FinalMonthRule, i: nat)
  {
    i + 1 == n && Abs(Balance(principal, monthlyRate, payment, n)) > rule.threshold
  }

  /** Row `i` of an `n`-month schedule (month `i + 1`): interest on the opening
    * balance, the rest of the payment as principal and, in the last month, the
    * correction. */
  function Row(principal: real, monthlyRate: real, payment: real, n: nat, rule: FinalMonthRule, i: nat)
    : (r: AmortizationEntry)
    ensures r.month == i + 1 && r.monthlyPayment == payment
  {
    var opening := Balance(principal, monthlyRate, payment, i);
    var interest := opening * monthlyRate;
    var part := payment - interest;
    var closing := opening - part;
    if i + 1 == n && Abs(closing) > rule.threshold then
      AmortizationEntry(i + 1, payment, part + closing, interest, Shown(rule, 0.0))
    else
      AmortizationEntry(i + 1, payment, part, interest, Shown(rule, closing))
  }

  /** The whole schedule: one row per month. */
  function Rows(principal: real, monthlyRate: real, payment: real, n: nat, rule: FinalMonthRule)
    : (r: seq<AmortizationEntry>)
    ensures |r| == n
  {
    seq(n, i requires 0 <= i < n => Row(principal, monthlyRate, payment, n, rule, i))
  }

  /** What a row says: month `i + 1` pays the fixed payment and interest on the
    * balance left after `i` months; a corrected row's principal part is that
    * whole balance and leaves 0, any other row's principal and interest make up
    * the payment and leave the next balance. */
  lemma RowMeaning(principal: real, monthlyRate: real, payment: real, n: nat, rule: FinalMonthRule, i: nat)
    requires i < n
    ensures var e := Row(principal, monthlyRate, payment, n, rule, i);
      e.month == i + 1 && e.monthlyPayment == payment &&
      e.interestPaid == Balance(principal, monthlyRate, payment, i) * monthlyRate &&
      (Corrected(principal, monthlyRate, payment, n, rule, i) ==>
        e.principalPaid == Balance(principal, monthlyRate, payment, i) && e.remainingBalance == 0.0) &&
      (!Corrected(principal, monthlyRate, payment, n, rule, i) ==>
        e.principalPaid + e.interestPaid == payment &&
        e.principalPaid == Balance(principal, monthlyRate, payment, i) - Balance(principal, monthlyRate, payment, i + 1) &&
        e.remainingBalance == Shown(rule, Balance(principal, monthlyRate, payment, i + 1)))
  {
    var b := Balance(principal, monthlyRate, payment, i);
    var interest := b * monthlyRate;
    assert Balance(principal, monthlyRate, payment, i + 1) == b - (payment - interest);
  }

  /** One pass of the schedule loop from the balance after `i` months yields
    * row `i` and the balance after `i + 1` months. */
  lemma LoopStep(principal: real, monthlyRate: real, payment: real, n: nat, rule: FinalMonthRule,
                 i: nat, opening: real)
    requires i < n && opening == Balance(principal, monthlyRate, payment, i)
    ensures var interest := opening * monthlyRate;
      var part := payment - interest;
      var closing := opening - part;
      Balance(principal, monthlyRate, payment, i + 1) == closing &&
      Row(principal, monthlyRate, payment, n, rule, i) ==
        if i + 1 == n && Abs(closing) > rule.threshold then
          AmortizationEntry(i + 1, payment, part + closing, interest, Shown(rule, 0.0))
        else
          AmortizationEntry(i + 1, payment, part, interest, Shown(rule, closing))
  {
    assert Balance(principal, monthlyRate, payment, i + 1) == opening - (payment - opening * monthlyRate);
  }

  /** The schedule loop (generateAmortizationSchedule of src/lib/loan-service.ts,
    * the loop of generate_amortization_schedule in backend/utils.py and of
    * calculate_loan in backend.py). */
  method Generate(principal: real, monthlyRate: real, payment: real, n: nat, rule: FinalMonthRule)
    returns (schedule: seq<AmortizationEntry>)
    ensures schedule == Rows(principal, monthlyRate, payment, n, rule)
  {
    schedule := [];
    var remaining := principal;
    for month := 1 to n + 1
      invariant |schedule| == month - 1
      invariant forall i :: 0 <= i < month - 1 ==> schedule[i] == Row(principal, monthlyRate, payment, n, rule, i)
      invariant month <= n ==> remaining == Balance(principal, monthlyRate, payment, month - 1)
    {
      LoopStep(principal, monthlyRate, payment, n, rule, month - 1, remaining);
      var interest := remaining * monthlyRate;
      var part := payment - interest;
      remaining := remaining - part;
      if month == n && Abs(remaining) > rule.threshold {
        part := part + remaining;
        remaining := 0.0;
      }
      schedule := schedule + [AmortizationEntry(month, payment, part, interest, Shown(rule, remaining))];
    }
  }

  /** Sums of a column of a schedule. */
  function PrincipalTotal(s: seq<AmortizationEntry>): real
  {
    if s == [] then 0.0 else PrincipalTotal(s[..|s| - 1]) + s[|s| - 1].principalPaid
  }

  function InterestTotal(s: seq<AmortizationEntry>): real
  {
    if s == [] then 0.0 else InterestTotal(s[..|s| - 1]) + s[|s| - 1].interestPaid
  }

  /** Principal parts that each take the balance from `b[i]` to `b[i + 1]` add
    * up to the whole drop from `b[0]` to the last balance. */
  lemma {:induction false} Telescope(s: seq<AmortizationEntry>, b: seq<real>)
    requires |b| == |s| + 1
    requires forall i :: 0 <= i < |s| ==> s[i].principalPaid == b[i] - b[i + 1]
    ensures PrincipalTotal(s) == b[0] - b[|s|]
  {
    if s != [] {
      var k := |s| - 1;
      Telescope(s[..k], b[..k + 1]);
    }
  }

  /** `k` payments are one payment more than `k - 1`. */
  lemma CountStep(k: nat, payment: real)
    requires k > 0
    ensures (k as real) * payment == ((k - 1) as real) * payment + payment
  {}

  /** Rows that each pay `payment` add up to `|s|` payments. */
  lemma {:induction false} LevelTotals(s: seq<AmortizationEntry>, payment: real)
    requires forall i :: 0 <= i < |s| ==> s[i].principalPaid + s[i].interestPaid == payment
    ensures PrincipalTotal(s) + InterestTotal(s) == (|s| as real) * payment
  {
    if s != [] {
      LevelTotals(s[..|s| - 1], payment);
      CountStep(|s|, payment);
    }
  }

  /** The balance a schedule really ends on: 0 after a correction, the loop's
    * balance otherwise. */
  function Leftover(principal: real, monthlyRate: real, payment: real, n: nat, rule: FinalMonthRule): real
  {
    if n > 0 && Corrected(principal, monthlyRate, payment, n, rule, n - 1) then 0.0
    else Balance(principal, monthlyRate, payment, n)
  }

  /** The balance before each month of the schedule and the one it ends on. */
  function Balances(principal: real, monthlyRate: real, payment: real, n: nat, rule: FinalMonthRule): seq<real>
  {
    seq(n + 1, k requires 0 <= k <= n =>
      if k == n then Leftover(principal, monthlyRate, payment, n, rule)
      else Balance(principal, monthlyRate, payment, k))
  }

  /** The principal parts of any schedule add up to the principal less the
    * balance it ends on. */
  lemma PrincipalTotalOfRows(principal: real, monthlyRate: real, payment: real, n: nat, rule: FinalMonthRule)
    ensures PrincipalTotal(Rows(principal, monthlyRate, payment, n, rule))
         == principal - Leftover(principal, monthlyRate, payment, n, rule)
  {
    var s := Rows(principal, monthlyRate, payment, n, rule);
    var b := Balances(principal, monthlyRate, payment, n, rule);
    forall i | 0 <= i < n
      ensures s[i].principalPaid == b[i] - b[i + 1]
    {
      RowMeaning(principal, monthlyRate, payment, n, rule, i);
    }
    Telescope(s, b);
  }

  /** Before the last month, the principal parts paid so far and the balance
    * still owed always make up the principal. */
  lemma PrincipalPaidSoFar(principal: real, monthlyRate: real, payment: real, n: nat, rule: FinalMonthRule, k: nat)
    requires k < n
    ensures PrincipalTotal(Rows(principal, monthlyRate, payment, n, rule)[..k]) + Balance(principal, monthlyRate, payment, k)
         == principal
  {
    var s := Rows(principal, monthlyRate, payment, n, rule)[..k];
    var b := Balances(principal, monthlyRate, payment, n, rule)[..k + 1];
    forall i | 0 <= i < k
      ensures s[i].principalPaid == b[i] - b[i + 1]
    {
      RowMeaning(principal, monthlyRate, payment, n, rule, i);
    }
    Telescope(s, b);
  }

  /** Under the Python rule the principal parts add up to the principal and the
    * last balance is 0, whatever the payment: the correction always makes the
    * last principal part the whole opening balance of the last month. */
  lemma PythonScheduleRetiresPrincipal(principal: real, monthlyRate: real, payment: real, n: nat)
    requires n >= 1
    ensures var s := Rows(principal, monthlyRate, payment, n, PythonRule);
      PrincipalTotal(s) == principal && s[n - 1].remainingBalance == 0.0
  {
    PrincipalTotalOfRows(principal, monthlyRate, payment, n, PythonRule);
    RowMeaning(principal, monthlyRate, payment, n, PythonRule, n - 1);
  }

  /** Under the TypeScript rule the principal parts come within a cent of the
    * principal, and the last balance shown is between 0 and a cent. */
  lemma TypeScriptScheduleWithinCent(principal: real, monthlyRate: real, payment: real, n: nat)
    requires n >= 1
    ensures var s := Rows(principal, monthlyRate, payment, n, TypeScriptRule);
      Abs(PrincipalTotal(s) - principal) <= 0.01 &&
      0.0 <= s[n - 1].remainingBalance <= 0.01
  {
    PrincipalTotalOfRows(principal, monthlyRate, payment, n, TypeScriptRule);
    RowMeaning(principal, monthlyRate, payment, n, TypeScriptRule, n - 1);
  }

  /** A schedule that runs the loan down exactly: every row pays exactly the
    * payment, the principal parts add up to the principal, the interest to
    * `n·M − P`, and the last balance is 0. */
  predicate PaysOff(s: seq<AmortizationEntry>, principal: real, payment: real)
  {
    s != [] &&
    (forall i :: 0 <= i < |s| ==> s[i].principalPaid + s[i].interestPaid == payment) &&
    PrincipalTotal(s) == principal &&
    InterestTotal(s) == (|s| as real) * payment - principal &&
    s[|s| - 1].remainingBalance == 0.0
  }

  /** Rows without a correction each pay exactly the payment. */
  lemma UncorrectedRowsLevel(principal: real, monthlyRate: real, payment: real, n: nat, rule: FinalMonthRule)
    requires n >= 1 && !Corrected(principal, monthlyRate, payment, n, rule, n - 1)
    ensures var s := Rows(principal, monthlyRate, payment, n, rule);
      forall i :: 0 <= i < n ==> s[i].principalPaid + s[i].interestPaid == payment
  {
    var s := Rows(principal, monthlyRate, payment, n, rule);
    forall i | 0 <= i < n
      ensures s[i].principalPaid + s[i].interestPaid == payment
    {
      RowMeaning(principal, monthlyRate, payment, n, rule, i);
    }
  }

  /** Without a correction, the last row reports the balance the loop ends on. */
  lemma UncorrectedLastRow(principal: real, monthlyRate: real, payment: real, n: nat, rule: FinalMonthRule)
    requires n >= 1 && !Corrected(principal, monthlyRate, payment, n, rule, n - 1)
    ensures Rows(principal, monthlyRate, payment, n, rule)[n - 1].remainingBalance
         == Shown(rule, Balance(principal, monthlyRate, payment, n))
  {
    RowMeaning(principal, monthlyRate, payment, n, rule, n - 1);
  }

  /** A payment that leaves no balance after `n` months needs no correction
    * under either rule, and its schedule pays the loan off. */
  lemma ExactPaymentSchedule(principal: real, monthlyRate: real, payment: real, n: nat, rule: FinalMonthRule)
    requires n >= 1 && rule.threshold >= 0.0
    requires Balance(principal, monthlyRate, payment, n) == 0.0
    ensures PaysOff(Rows(principal, monthlyRate, payment, n, rule), principal, payment)
  {
    var s := Rows(principal, monthlyRate, payment, n, rule);
    assert !Corrected(principal, monthlyRate, payment, n, rule, n - 1);
    UncorrectedRowsLevel(principal, monthlyRate, payment, n, rule);
    LevelTotals(s, payment);
    PrincipalTotalOfRows(principal, monthlyRate, payment, n, rule);
    assert Leftover(principal, monthlyRate, payment, n, rule) == 0.0;
    UncorrectedLastRow(principal, monthlyRate, payment, n, rule);
  }

  /** The level payment of the calculator is such a payment, under either rule. */
  lemma LevelPaymentSchedule(principal: real, annualRate: real, years: int, rule: FinalMonthRule)
    requires Defined(annualRate, years) && rule.threshold >= 0.0
    ensures PaysOff(Rows(principal, MonthlyRate(annualRate), MonthlyPayment(principal, annualRate, years),
                         NumPayments(years), rule),
                    principal, MonthlyPayment(principal, annualRate, years))
  {
    ExactPaymentSchedule(principal, MonthlyRate(annualRate), MonthlyPayment(principal, annualRate, years),
                         NumPayments(years), rule);
  }

  /** One row of the level-payment schedule for a non-negative principal and
    * rate: both rules give it, and its balance is the exact one, between 0 and
    * the principal and no higher than the month before. */
  lemma LevelRow(principal: real, annualRate: real, years: int, i: nat)
    requires Defined(annualRate, years)
    requires principal >= 0.0 && annualRate >= 0.0
    requires i < NumPayments(years)
    ensures var n := NumPayments(years);
      var r := MonthlyRate(annualRate);
      var m := MonthlyPayment(principal, annualRate, years);
      var e := Row(principal, r, m, n, TypeScriptRule, i);
      e == Row(principal, r, m, n, PythonRule, i) &&
      e.remainingBalance == Balance(principal, r, m, i + 1) &&
      0.0 <= e.remainingBalance <= Balance(principal, r, m, i) <= principal
  {
    var n := NumPayments(years);
    var r := MonthlyRate(annualRate);
    var m := MonthlyPayment(principal, annualRate, years);
    BalanceWithinPrincipal(principal, annualRate, years, i);
    BalanceWithinPrincipal(principal, annualRate, years, i + 1);
    RowMeaning(principal, r, m, n, TypeScriptRule, i);
    RowMeaning(principal, r, m, n, PythonRule, i);
    assert !Corrected(principal, r, m, n, TypeScriptRule, i);
    assert !Corrected(principal, r, m, n, PythonRule, i);
  }

  /** For a non-negative principal and rate, the level-payment schedule is the
    * same under both rules, and every balance it shows lies between 0 and the
    * principal and never rises. */
  lemma RulesAgreeOnLevelPayment(principal: real, annualRate: real, years: int)
    requires Defined(annualRate, years)
    requires principal >= 0.0 && annualRate >= 0.0
    ensures var n := NumPayments(years);
      var m := MonthlyPayment(principal, annualRate, years);
      var s := Rows(principal, MonthlyRate(annualRate), m, n, TypeScriptRule);
      s == Rows(principal, MonthlyRate(annualRate), m, n, PythonRule) &&
      (forall i :: 0 <= i < n ==> 0.0 <= s[i].remainingBalance <= principal) &&
      (forall i :: 0 < i < n ==> s[i].remainingBalance <= s[i - 1].remainingBalance)
  {
    var n := NumPayments(years);
    var r := MonthlyRate(annualRate);
    var m := MonthlyPayment(principal, annualRate, years);
    var ts := Rows(principal, r, m, n, TypeScriptRule);
    var py := Rows(principal, r, m, n, PythonRule);
    forall i | 0 <= i < n
      ensures ts[i] == py[i] && 0.0 <= ts[i].remainingBalance <= principal
    {
      LevelRow(principal, annualRate, years, i);
    }
    forall i | 0 < i < n
      ensures ts[i].remainingBalance <= ts[i - 1].remainingBalance
    {
      LevelRow(principal, annualRate, years, i);
      LevelRow(principal, annualRate, years, i - 1);
    }
  }
}
