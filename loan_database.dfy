/** The simulated database of the Python service (class LoanDatabase of
  * backend/database.py): a private list of product records, started from the
  * seed, that create, update and delete change in place. */
module Database {
  import opened Wrappers
  import opened LoanData
  import opened LoanTable

  class LoanDatabase {
    var loans: seq<Loan>

    /** The store starts with the seven seed products. */
    constructor()
      ensures loans == SeedLoans()
    {
      loans := SeedLoans();
    }

    /** `get_all_loans`: a copy of the store, in order. */
    function GetAllLoans(): (r: seq<Loan>)
      reads this
      ensures r == loans
    {
      loans
    }

    /** `get_loan_by_id`: the first record with this id, if any. */
    function GetLoanById(id: int): (r: Option<Loan>)
      reads this
      ensures r.None? <==> forall l :: l in loans ==> l.id != id
      ensures r.Some? ==> r.value.id == id && r == GetById(loans, id)
    {
      GetById(loans, id)
    }

    /** `get_loans_by_name`: the records whose name contains the given one,
      * ignoring case. */
    function GetLoansByName(name: string): (r: seq<Loan>)
      reads this
      ensures r == FilterByName(loans, name)
      ensures forall l :: l in r <==> l in loans && Matches(l, name)
      ensures name == "" ==> r == loans
    {
      FilterByEmptyTermKeepsAll(loans);
      FilterByName(loans, name)
    }

    /** `create_loan`: store the body's fields under id "length + 1" and return
      * the new record. */
    method CreateLoan(body: LoanBody) returns (created: Loan)
      modifies this
      ensures created == Stamp(DraftOf(body), |old(loans)| + 1)
      ensures loans == Appended(old(loans), DraftOf(body))
    {
      created := Stamp(DraftOf(body), |loans| + 1);
      loans := loans + [created];
    }

    /** `update_loan`: overwrite the first record with this id with the body's
      * fields, keeping the id; `None` for an unknown id, which changes nothing. */
    method UpdateLoan(id: int, body: LoanBody) returns (r: Option<Loan>)
      modifies this
      ensures Updated(old(loans), id, AsPatch(body)).None? ==> r.None? && loans == old(loans)
      ensures Updated(old(loans), id, AsPatch(body)).Some? ==>
        loans == Updated(old(loans), id, AsPatch(body)).value && r == Some(Stamp(DraftOf(body), id))
    {
      match IndexOfId(loans, id)
      case None =>
        r := None;
      case Some(i) =>
        var merged := Merge(loans[i], AsPatch(body), id);
        loans := loans[i := merged];
        r := Some(merged);
    }

    /** `delete_loan`: remove the first record with this id and report whether
      * there was one. */
    method DeleteLoan(id: int) returns (deleted: bool)
      modifies this
      ensures deleted <==> Removed(old(loans), id).Some?
      ensures deleted ==> loans == Removed(old(loans), id).value
      ensures !deleted ==> loans == old(loans)
    {
      match IndexOfId(loans, id)
      case None =>
        deleted := false;
      case Some(i) =>
        loans := loans[..i] + loans[i + 1..];
        deleted := true;
    }

    /** `get_loan_by_name`: the first record with exactly this name, if any. */
    function GetLoanByName(name: string): (r: Option<Loan>)
      reads this
      ensures r.None? <==> forall l :: l in loans ==> l.productName != name
      ensures r.Some? ==> r.value.productName == name && r == FindByName(loans, name)
    {
      FindByName(loans, name)
    }
  }
}
