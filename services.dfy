/** The request handlers of the Python service (LoanService and
  * LoanCalculationService of backend/services.py) over one database. An
  * `HTTPException` is a `Failure`; its status is `StatusCode(error)`. */
module Services {
  import opened Wrappers
  import opened LoanData
  import opened Annuity
  import opened Schedule
  import opened LoanTable
  import opened LoanCalculator
  import opened Database

  /** `get_all_loans(name_filter)`: the whole store for a missing or empty
    * filter, the matches otherwise, and 404 when nothing matches. */
  function GetAllLoans(db: LoanDatabase, nameFilter: Option<string>): (r: Result<seq<Loan>, LoanError>)
    reads db
    ensures r == Listing(db.loans, nameFilter)
    ensures r.Failure? ==> StatusCode(r.error) == 404 && nameFilter.Some?
  {
    if nameFilter.Some? && nameFilter.value != "" then
      var found := db.GetLoansByName(nameFilter.value);
      if found == [] then Failure(NotFound) else Success(found)
    else
      Success(db.GetAllLoans())
  }

  /** `get_loan_by_id`: the first record with this id, or 404. */
  function GetLoanById(db: LoanDatabase, id: int): (r: Result<Loan, LoanError>)
    reads db
    ensures r.Failure? <==> forall l :: l in db.loans ==> l.id != id
    ensures r.Failure? ==> StatusCode(r.error) == 404
    ensures r.Success? ==> Some(r.value) == GetById(db.loans, id)
  {
    match db.GetLoanById(id)
    case None => Failure(NotFound)
    case Some(l) => Success(l)
  }

  /** `create_loan`: store the record and return the whole store. */
  method CreateLoan(db: LoanDatabase, body: LoanBody) returns (all: seq<Loan>)
    modifies db
    ensures db.loans == Appended(old(db.loans), DraftOf(body)) && all == db.loans
  {
    var _ := db.CreateLoan(body);
    all := db.GetAllLoans();
  }

  /** `update_loan`: the overwritten record, or 404 with nothing changed. */
  method UpdateLoan(db: LoanDatabase, id: int, body: LoanBody) returns (r: Result<Loan, LoanError>)
    modifies db
    ensures Updated(old(db.loans), id, AsPatch(body)).None? ==> r == Failure(NotFound) && db.loans == old(db.loans)
    ensures Updated(old(db.loans), id, AsPatch(body)).Some? ==>
      db.loans == Updated(old(db.loans), id, AsPatch(body)).value && r == Success(Stamp(DraftOf(body), id))
  {
    var updated := db.UpdateLoan(id, body);
    if updated.None? {
      r := Failure(NotFound);
    } else {
      r := Success(updated.value);
    }
  }

  /** `delete_loan`: success with the record removed, or 404 with nothing
    * changed. */
  method DeleteLoan(db: LoanDatabase, id: int) returns (r: Result<(), LoanError>)
    modifies db
    ensures Removed(old(db.loans), id).None? ==> r == Failure(NotFound) && db.loans == old(db.loans)
    ensures Removed(old(db.loans), id).Some? ==> r == Success(()) && db.loans == Removed(old(db.loans), id).value
  {
    var deleted := db.DeleteLoan(id);
    if deleted {
      r := Success(());
    } else {
      r := Failure(NotFound);
    }
  }

  /** `search_loans`: the matches of the term (the empty one matching every
    * record), 404 when nothing matches. */
  function SearchLoans(db: LoanDatabase, term: string): (r: Result<seq<Loan>, LoanError>)
    reads db
    ensures r == Search(db.loans, term)
    ensures r.Success? <==> exists l :: l in db.loans && Matches(l, term)
  {
    var found := db.GetLoansByName(term);
    if found == [] then Failure(NotFound) else Success(found)
  }

  /** `generate_amortization_schedule` of backend/utils.py: the level payment's
    * schedule under the Python final-month rule, which pays the loan off. */
  method GenerateAmortizationSchedule(principal: real, annualRate: real, years: int)
    returns (schedule: seq<AmortizationEntry>)
    requires Defined(annualRate, years)
    ensures schedule == LevelSchedule(principal, annualRate, years, PythonRule)
    ensures PaysOff(schedule, principal, MonthlyPayment(principal, annualRate, years))
  {
    var payment := MonthlyPayment(principal, annualRate, years);
    schedule := Generate(principal, MonthlyRate(annualRate), payment, NumPayments(years), PythonRule);
    LevelPaymentSchedule(principal, annualRate, years, PythonRule);
  }

  /** `LoanCalculationService.calculate_loan`: 404 for an unknown product name,
    * 400 for an amount out of range, else the summary and the schedule. */
  method CalculateLoan(db: LoanDatabase, c: LoanCalculation) returns (r: Result<CalculationResult, LoanError>)
    requires Computable(db.loans, c)
    ensures r == Calculate(db.loans, c, PythonRule)
  {
    var product := db.GetLoanByName(c.loanName);
    if product.None? {
      return Failure(NotFound);
    }
    var p := product.value;
    var (valid, error) := ValidateLoanAmount(c.amount, p.minimumAmount, p.maximumAmount);
    if !valid {
      return Failure(error.value);
    }
    var rate := RateFor(c, p);
    var summary := Summary(c.amount, rate, c.years);
    var schedule := GenerateAmortizationSchedule(c.amount, rate, c.years);
    r := Success(CalculationResult(summary, schedule));
  }
}
