/** The product service of the web front end (class LoanService of
  * src/lib/loan-service.ts): a private list of products, started from the seed,
  * that the create, update and delete operations change in place. A thrown
  * `Error` is a `Failure`. */
module FrontendService {
  import opened Wrappers
  import opened LoanData
  import opened Annuity
  import opened Schedule
  import opened LoanTable
  import opened LoanCalculator

  class LoanService {
    var loans: seq<Loan>

    /** The store starts as a copy of the seven seed products. */
    constructor()
      ensures loans == SeedLoans()
    {
      loans := SeedLoans();
    }

    /** `getAllLoans(name?)`: the whole store for a missing or empty name, the
      * matches otherwise, and an error when nothing matches. */
    function GetAllLoans(name: Option<string>): (r: Result<seq<Loan>, LoanError>)
      reads this
      ensures name.None? || name == Some("") ==> r == Success(loans)
      ensures name.Some? && name.value != "" ==>
        (r.Success? <==> exists l :: l in loans && Matches(l, name.value)) &&
        (r.Success? ==> r.value == FilterByName(loans, name.value))
    {
      Listing(loans, name)
    }

    /** `getLoanById`: the first product with this id, or an error. */
    function GetLoanById(id: int): (r: Result<Loan, LoanError>)
      reads this
      ensures r.Failure? <==> forall l :: l in loans ==> l.id != id
      ensures r.Success? ==> r.value.id == id && r.value == GetById(loans, id).value
    {
      match GetById(loans, id)
      case None => Failure(NotFound)
      case Some(l) => Success(l)
    }

    /** `createLoan`: append the product with id "length + 1" and return the store. */
    method CreateLoan(draft: LoanDraft) returns (all: seq<Loan>)
      modifies this
      ensures loans == Appended(old(loans), draft) && all == loans
      ensures DenseIds(old(loans)) ==> DenseIds(loans) && GetById(loans, |old(loans)| + 1) == Some(Stamp(draft, |old(loans)| + 1))
    {
      if DenseIds(loans) {
        CreateKeepsDenseIds(loans, draft);
      }
      loans := loans + [Stamp(draft, |loans| + 1)];
      all := loans;
    }

    /** `updateLoan`: merge the given fields into the first product with this id,
      * keeping that id; an unknown id changes nothing. */
    method UpdateLoan(id: int, patch: LoanPatch) returns (r: Result<Loan, LoanError>)
      modifies this
      ensures Updated(old(loans), id, patch).None? ==> r == Failure(NotFound) && loans == old(loans)
      ensures Updated(old(loans), id, patch).Some? ==>
        loans == Updated(old(loans), id, patch).value &&
        r == Success(Merge(GetById(old(loans), id).value, patch, id)) &&
        GetById(loans, id) == Some(r.value)
    {
      match IndexOfId(loans, id)
      case None =>
        r := Failure(NotFound);
      case Some(i) =>
        GetAfterUpdate(loans, id, patch);
        var merged := Merge(loans[i], patch, id);
        loans := loans[i := merged];
        r := Success(merged);
    }

    /** `deleteLoan`: remove the first product with this id; an unknown id
      * changes nothing. */
    method DeleteLoan(id: int) returns (r: Result<(), LoanError>)
      modifies this
      ensures Removed(old(loans), id).None? ==> r == Failure(NotFound) && loans == old(loans)
      ensures Removed(old(loans), id).Some? ==> r == Success(()) && loans == Removed(old(loans), id).value
    {
      match IndexOfId(loans, id)
      case None =>
        r := Failure(NotFound);
      case Some(i) =>
        loans := loans[..i] + loans[i + 1..];
        r := Success(());
    }

    /** `searchLoans`: the matches of the term (any term, the empty one matching
      * everything), an error when nothing matches. */
    function SearchLoans(term: string): (r: Result<seq<Loan>, LoanError>)
      reads this
      ensures r.Success? <==> exists l :: l in loans && Matches(l, term)
      ensures r.Success? ==> r.value == FilterByName(loans, term)
    {
      Search(loans, term)
    }

    /** `calculateLoan` with its private schedule generator, under the
      * TypeScript final-month rule. */
    method CalculateLoan(c: LoanCalculation) returns (r: Result<CalculationResult, LoanError>)
      requires Computable(loans, c)
      ensures r == Calculate(loans, c, TypeScriptRule)
    {
      var product := FindByName(loans, c.loanName);
      if product.None? {
        return Failure(NotFound);
      }
      var p := product.value;
      if c.amount < p.minimumAmount || c.amount > p.maximumAmount {
        return Failure(AmountOutOfRange(c.amount, p.minimumAmount, p.maximumAmount));
      }
      var rate := RateFor(c, p);
      var payment := MonthlyPayment(c.amount, rate, c.years);
      var schedule := Generate(c.amount, MonthlyRate(rate), payment, NumPayments(c.years), TypeScriptRule);
      r := Success(CalculationResult(Summary(c.amount, rate, c.years), schedule));
    }
  }
}
