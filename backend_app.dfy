/** The single-file Python service (backend.py): the module-level `loans` list,
  * started from the seed, and the endpoints that read and change it. An
  * `HTTPException` is a `Failure`; its status is `StatusCode(error)`. */
module BackendApp {
  import opened Wrappers
  import opened LoanData
  import opened Annuity
  import opened Schedule
  import opened LoanTable
  import opened LoanCalculator

  class LoanApi {
    var loans: seq<Loan>

    /** The list starts with the seven seed products. */
    constructor()
      ensures loans == SeedLoans()
    {
      loans := SeedLoans();
    }

    /** `POST /loans` (create_loan): give the body id "length + 1", append it and
      * return the list. */
    method CreateLoan(body: LoanBody) returns (all: seq<Loan>)
      modifies this
      ensures loans == Appended(old(loans), DraftOf(body)) && all == loans
    {
      loans := loans + [Stamp(DraftOf(body), |loans| + 1)];
      all := loans;
    }

    /** `POST /loans/search` (search_loans): the matches of the term, 404 when
      * nothing matches. */
    function SearchLoans(term: string): (r: Result<seq<Loan>, LoanError>)
      reads this
      ensures r == Search(loans, term)
      ensures r.Failure? ==> StatusCode(r.error) == 404
    {
      var found := FilterByName(loans, term);
      if found == [] then Failure(NotFound) else Success(found)
    }

    /** `GET /loans` (get_loans): the whole list for a missing or empty name, the
      * matches otherwise, 404 when nothing matches. */
    function GetLoans(name: Option<string>): (r: Result<seq<Loan>, LoanError>)
      reads this
      ensures r == Listing(loans, name)
      ensures r.Failure? ==> StatusCode(r.error) == 404 && name.Some? && name.value != ""
    {
      if name.Some? && name.value != "" then SearchLoans(name.value) else Success(loans)
    }

    /** `GET /loans/{loan_id}` (get_loan): the first product with this id, or 404. */
    function GetLoan(id: int): (r: Result<Loan, LoanError>)
      reads this
      ensures r.Failure? <==> forall l :: l in loans ==> l.id != id
      ensures r.Success? ==> Some(r.value) == GetById(loans, id)
    {
      match GetById(loans, id)
      case None => Failure(NotFound)
      case Some(l) => Success(l)
    }

    /** `PUT /loans/{loan_id}` (edit_loan): overwrite the first product with this
      * id with the body's fields, keeping the id; 404 with nothing changed for an
      * unknown id. */
    method EditLoan(id: int, body: LoanBody) returns (r: Result<Loan, LoanError>)
      modifies this
      ensures Updated(old(loans), id, AsPatch(body)).None? ==> r == Failure(NotFound) && loans == old(loans)
      ensures Updated(old(loans), id, AsPatch(body)).Some? ==>
        loans == Updated(old(loans), id, AsPatch(body)).value && r == Success(Stamp(DraftOf(body), id))
    {
      match IndexOfId(loans, id)
      case None =>
        r := Failure(NotFound);
      case Some(i) =>
        var merged := Merge(loans[i], AsPatch(body), id);
        loans := loans[i := merged];
        r := Success(merged);
    }

    /** `DELETE /loans/{loan_id}` (delete_loan): find the first product with this
      * id and `remove` it from the list, which drops the first record equal to
      * it; that is the found one, so the list loses exactly that record. */
    method DeleteLoan(id: int) returns (r: Result<(), LoanError>)
      modifies this
      ensures Removed(old(loans), id).None? ==> r == Failure(NotFound) && loans == old(loans)
      ensures Removed(old(loans), id).Some? ==> r == Success(()) && loans == Removed(old(loans), id).value
    {
      match IndexOfId(loans, id)
      case None =>
        r := Failure(NotFound);
      case Some(i) =>
        RemoveFirstEqualIsRemoved(loans, id);
        loans := RemoveFirstEqual(loans, loans[i]);
        r := Success(());
    }

    /** `POST /calculate-loan` (calculate_loan): 404 for an unknown product name,
      * 400 for an amount out of range, else the summary and the schedule under
      * the Python final-month rule. */
    method CalculateLoan(c: LoanCalculation) returns (r: Result<CalculationResult, LoanError>)
      requires Computable(loans, c)
      ensures r == Calculate(loans, c, PythonRule)
    {
      var product := FindByName(loans, c.loanName);
      if product.None? {
        return Failure(NotFound);
      }
      var p := product.value;
      if !(p.minimumAmount <= c.amount <= p.maximumAmount) {
        return Failure(AmountOutOfRange(c.amount, p.minimumAmount, p.maximumAmount));
      }
      var rate := RateFor(c, p);
      var payment := MonthlyPayment(c.amount, rate, c.years);
      var total := (NumPayments(c.years) as real) * payment;
      var summary := LoanSummary(total, c.amount, total - c.amount, payment, rate);
      assert summary == Summary(c.amount, rate, c.years);
      var schedule := Generate(c.amount, MonthlyRate(rate), payment, NumPayments(c.years), PythonRule);
      r := Success(CalculationResult(summary, schedule));
    }
  }
}
