/** The in-memory product table as values: the lookups, the name filter and the
  * new contents after a create, an update or a delete. The three stores
  * (src/lib/loan-service.ts, backend/database.py and the module list of
  * backend.py) change their list exactly as these functions say. */
module LoanTable {
  import opened Wrappers
  import opened LoanData
  import Text

  /** The index of the first loan satisfying `p` (the callback of `find` and
    * `findIndex` in TypeScript, of `next(...)` in Python). */
  function FirstWhere(loans: seq<Loan>, p: Loan -> bool): (r: Option<nat>)
    ensures r.Some? ==> r.value < |loans| && p(loans[r.value])
    ensures r.Some? ==> forall j :: 0 <= j < r.value ==> !p(loans[j])
    ensures r.None? ==> forall j :: 0 <= j < |loans| ==> !p(loans[j])
  {
    if loans == [] then None
    else if p(loans[0]) then Some(0)
    else match FirstWhere(loans[1..], p)
      case None => None
      case Some(i) => Some(i + 1)
  }

  /** The position of the first loan with this id. */
  function IndexOfId(loans: seq<Loan>, id: int): (r: Option<nat>)
    ensures r.Some? ==> r.value < |loans| && loans[r.value].id == id
    ensures r.Some? ==> forall j :: 0 <= j < r.value ==> loans[j].id != id
    ensures r.None? <==> forall l :: l in loans ==> l.id != id
  {
    FirstWhere(loans, (l: Loan) => l.id == id)
  }

  /** The first loan with this id, if any. */
  function GetById(loans: seq<Loan>, id: int): (r: Option<Loan>)
    ensures r.None? <==> forall l :: l in loans ==> l.id != id
    ensures r.Some? ==> r.value.id == id && r.value in loans
    ensures r.Some? ==> exists i :: 0 <= i < |loans| && loans[i] == r.value &&
                                    forall j :: 0 <= j < i ==> loans[j].id != id
  {
    match IndexOfId(loans, id)
    case None => None
    case Some(i) => Some(loans[i])
  }

  /** The first loan whose name is exactly `name` (case-sensitive). */
  function FindByName(loans: seq<Loan>, name: string): (r: Option<Loan>)
    ensures r.None? <==> forall l :: l in loans ==> l.productName != name
    ensures r.Some? ==> r.value.productName == name && r.value in loans
    ensures r.Some? ==> exists i :: 0 <= i < |loans| && loans[i] == r.value &&
                                    forall j :: 0 <= j < i ==> loans[j].productName != name
  {
    match FirstWhere(loans, (l: Loan) => l.productName == name)
    case None => None
    case Some(i) => Some(loans[i])
  }

  /** The lower-cased name of the loan contains the lower-cased term. */
  predicate Matches(loan: Loan, term: string)
  {
    Text.Contains(Text.Lower(loan.productName), Text.Lower(term))
  }

  /** The loans whose name matches the term, in store order. */
  function FilterByName(loans: seq<Loan>, term: string): (r: seq<Loan>)
    ensures forall l :: l in r <==> l in loans && Matches(l, term)
    ensures forall l :: Matches(l, term) ==> multiset(r)[l] == multiset(loans)[l]
    ensures multiset(r) <= multiset(loans)
  {
    if loans == [] then []
    else
      assert loans == [loans[0]] + loans[1..];
      (if Matches(loans[0], term) then [loans[0]] else []) + FilterByName(loans[1..], term)
  }

  /** Filtering a single record keeps it exactly when it matches. */
  lemma FilterOne(loan: Loan, term: string)
    ensures FilterByName([loan], term) == if Matches(loan, term) then [loan] else []
  {
    assert [loan][1..] == [];
  }

  /** Filtering distributes over concatenation: the matches of `a` come first,
    * in their order, then those of `b`. With `FilterOne` this fixes the result
    * as the matches in store order, each occurrence kept. */
  lemma {:induction false} FilterConcat(a: seq<Loan>, b: seq<Loan>, term: string)
    ensures FilterByName(a + b, term) == FilterByName(a, term) + FilterByName(b, term)
  {
    if a == [] {
      assert a + b == b;
    } else {
      var head := if Matches(a[0], term) then [a[0]] else [];
      assert (a + b)[1..] == a[1..] + b;
      calc {
        FilterByName(a + b, term);
        head + FilterByName(a[1..] + b, term);
        { FilterConcat(a[1..], b, term); }
        head + (FilterByName(a[1..], term) + FilterByName(b, term));
        (head + FilterByName(a[1..], term)) + FilterByName(b, term);
        FilterByName(a, term) + FilterByName(b, term);
      }
    }
  }

  /** Every name contains the empty term, so filtering by it keeps the whole store. */
  lemma {:induction false} FilterByEmptyTermKeepsAll(loans: seq<Loan>)
    ensures FilterByName(loans, "") == loans
  {
    if loans != [] {
      Text.EmptyIsEverywhere(Text.Lower(loans[0].productName));
      FilterByEmptyTermKeepsAll(loans[1..]);
      assert loans == [loans[0]] + loans[1..];
    }
  }

  /** The search requests: the matching loans, or `NotFound` when none match.
    * The empty term matches every loan. */
  function Search(loans: seq<Loan>, term: string): (r: Result<seq<Loan>, LoanError>)
    ensures r.Success? <==> exists l :: l in loans && Matches(l, term)
    ensures r.Success? ==> r.value == FilterByName(loans, term) && r.value != []
    ensures r.Failure? ==> r.error == NotFound
  {
    var found := FilterByName(loans, term);
    if found == [] then Failure(NotFound)
    else
      assert found[0] in found;
      Success(found)
  }

  /** Searching for the empty term lists the whole store, unless it is empty. */
  lemma SearchEmptyTerm(loans: seq<Loan>)
    ensures Search(loans, "") == if loans == [] then Failure(NotFound) else Success(loans)
  {
    FilterByEmptyTermKeepsAll(loans);
  }

  /** Case does not matter to a search: "LIB" finds a product named
    * "Libranza" (the seed's first) wherever it stands in the store. */
  lemma SearchIgnoresCase(loans: seq<Loan>, i: nat)
    requires i < |loans| && loans[i].productName == "Libranza"
    ensures Search(loans, "LIB").Success? && loans[i] in Search(loans, "LIB").value
  {
    var hay := Text.Lower(loans[i].productName);
    assert hay[..3] == "lib";
    assert Text.Lower("LIB") == "lib";
    assert Matches(loans[i], "LIB");
  }

  /** The list requests with an optional name filter: a missing or empty name
    * (both falsy) lists the whole store, any other name is a search. */
  function Listing(loans: seq<Loan>, name: Option<string>): (r: Result<seq<Loan>, LoanError>)
    ensures name.None? || name == Some("") ==> r == Success(loans)
    ensures name.Some? && name.value != "" ==> r == Search(loans, name.value)
  {
    match name
    case None => Success(loans)
    case Some(term) => if term == "" then Success(loans) else Search(loans, term)
  }

  /** A new product with the given id. */
  function Stamp(draft: LoanDraft, id: int): (r: Loan)
    ensures r.id == id && r.productName == draft.productName
    ensures r.minimumAmount == draft.minimumAmount && r.maximumAmount == draft.maximumAmount
    ensures r.annualInterestRate == draft.annualInterestRate
  {
    Loan(id, draft.productName, draft.minimumAmount, draft.maximumAmount, draft.annualInterestRate)
  }

  /** The store after a create: the new product goes last, with id "length + 1". */
  function Appended(loans: seq<Loan>, draft: LoanDraft): (r: seq<Loan>)
    ensures |r| == |loans| + 1 && r[..|loans|] == loans
    ensures r[|loans|] == Stamp(draft, |loans| + 1)
  {
    loans + [Stamp(draft, |loans| + 1)]
  }

  /** The record spread `{...loan, ...patch, id}`: every given field replaces the
    * old one, the others stay, and the id is the requested one whatever the
    * patch says. */
  function Merge(loan: Loan, patch: LoanPatch, id: int): (r: Loan)
    ensures r.id == id
    ensures patch.productName.Some? ==> r.productName == patch.productName.value
    ensures patch.productName.None? ==> r.productName == loan.productName
    ensures patch.minimumAmount.Some? ==> r.minimumAmount == patch.minimumAmount.value
    ensures patch.minimumAmount.None? ==> r.minimumAmount == loan.minimumAmount
    ensures patch.maximumAmount.Some? ==> r.maximumAmount == patch.maximumAmount.value
    ensures patch.maximumAmount.None? ==> r.maximumAmount == loan.maximumAmount
    ensures patch.annualInterestRate.Some? ==> r.annualInterestRate == patch.annualInterestRate.value
    ensures patch.annualInterestRate.None? ==> r.annualInterestRate == loan.annualInterestRate
  {
    Loan(
      id,
      match patch.productName case Some(v) => v case None => loan.productName,
      match patch.minimumAmount case Some(v) => v case None => loan.minimumAmount,
      match patch.maximumAmount case Some(v) => v case None => loan.maximumAmount,
      match patch.annualInterestRate case Some(v) => v case None => loan.annualInterestRate)
  }

  /** The fields of a Python request body, for a create; its id, if any, is
    * replaced. */
  function DraftOf(body: LoanBody): (r: LoanDraft)
    ensures r.productName == body.productName
    ensures r.minimumAmount == body.minimumAmount && r.maximumAmount == body.maximumAmount
    ensures r.annualInterestRate == body.annualInterestRate
  {
    LoanDraft(body.productName, body.minimumAmount, body.maximumAmount, body.annualInterestRate)
  }

  /** `model_dump(exclude_unset=True)` of a Python request body. Only the id may
    * be left unset, so every other field is part of the update, and merging it
    * overwrites the whole record. */
  function AsPatch(body: LoanBody): (p: LoanPatch)
    ensures forall loan: Loan, id: int :: Merge(loan, p, id) == Stamp(DraftOf(body), id)
  {
    LoanPatch(body.id, Some(body.productName), Some(body.minimumAmount), Some(body.maximumAmount),
              Some(body.annualInterestRate))
  }

  /** The store after an update of the first loan with this id, or `None` when
    * there is none. */
  function Updated(loans: seq<Loan>, id: int, patch: LoanPatch): (r: Option<seq<Loan>>)
    ensures r.None? <==> IndexOfId(loans, id).None?
    ensures r.Some? ==> |r.value| == |loans|
    ensures r.Some? ==> var i := IndexOfId(loans, id).value;
      r.value[i] == Merge(loans[i], patch, id) &&
      forall j :: 0 <= j < |loans| && j != i ==> r.value[j] == loans[j]
  {
    match IndexOfId(loans, id)
    case None => None
    case Some(i) => Some(loans[i := Merge(loans[i], patch, id)])
  }

  /** The store after deleting the first loan with this id, or `None` when there
    * is none. */
  function Removed(loans: seq<Loan>, id: int): (r: Option<seq<Loan>>)
    ensures r.None? <==> IndexOfId(loans, id).None?
    ensures r.Some? ==> var i := IndexOfId(loans, id).value;
      |r.value| == |loans| - 1 &&
      (forall j :: 0 <= j < i ==> r.value[j] == loans[j]) &&
      (forall j :: i <= j < |r.value| ==> r.value[j] == loans[j + 1])
    ensures r.Some? ==> multiset(r.value) + multiset{loans[IndexOfId(loans, id).value]} == multiset(loans)
  {
    match IndexOfId(loans, id)
    case None => None
    case Some(i) =>
      assert loans == loans[..i] + [loans[i]] + loans[i + 1..];
      Some(loans[..i] + loans[i + 1..])
  }

  /** Python's `list.remove(x)`: drop the first element equal to `x`. */
  function RemoveFirstEqual(loans: seq<Loan>, x: Loan): (r: seq<Loan>)
    requires x in loans
    ensures |r| == |loans| - 1
  {
    if loans[0] == x then loans[1..] else [loans[0]] + RemoveFirstEqual(loans[1..], x)
  }

  /** Removing by equality drops the first element equal to `x`. */
  lemma {:induction false} RemoveFirstEqualAt(loans: seq<Loan>, i: nat)
    requires i < |loans| && forall j :: 0 <= j < i ==> loans[j] != loans[i]
    ensures RemoveFirstEqual(loans, loans[i]) == loans[..i] + loans[i + 1..]
  {
    if i > 0 {
      var tail := loans[1..];
      assert tail[i - 1] == loans[i];
      assert forall j :: 0 <= j < i - 1 ==> tail[j] == loans[j + 1];
      RemoveFirstEqualAt(tail, i - 1);
      assert loans[..i] + loans[i + 1..] == [loans[0]] + (tail[..i - 1] + tail[i..]);
    }
  }

  /** Removing the found record by equality removes it at its index: no earlier
    * record can equal it, since none has its id. */
  lemma RemoveFirstEqualIsRemoved(loans: seq<Loan>, id: int)
    requires IndexOfId(loans, id).Some?
    ensures RemoveFirstEqual(loans, loans[IndexOfId(loans, id).value]) == Removed(loans, id).value
  {
    RemoveFirstEqualAt(loans, IndexOfId(loans, id).value);
  }

  /** Ids are 1, 2, ..., n in store order, as in the seed. */
  predicate DenseIds(loans: seq<Loan>)
  {
    forall i :: 0 <= i < |loans| ==> loans[i].id == i + 1
  }

  predicate UniqueIds(loans: seq<Loan>)
  {
    forall i, j :: 0 <= i < j < |loans| ==> loans[i].id != loans[j].id
  }

  /** After a create, looking up "length + 1" finds the first old loan with that
    * id if there is one, and the new loan otherwise. */
  lemma GetAfterCreate(loans: seq<Loan>, draft: LoanDraft)
    ensures GetById(Appended(loans, draft), |loans| + 1) ==
      if GetById(loans, |loans| + 1).Some? then GetById(loans, |loans| + 1)
      else Some(Stamp(draft, |loans| + 1))
  {
    var s := Appended(loans, draft);
    var id := |loans| + 1;
    match IndexOfId(loans, id)
    case None =>
      assert forall j :: 0 <= j < |loans| ==> s[j] == loans[j] && s[j] in loans;
      assert IndexOfId(s, id) == Some(|loans|);
    case Some(i) =>
      assert forall j :: 0 <= j <= i ==> s[j] == loans[j];
      assert IndexOfId(s, id) == Some(i);
  }

  /** While ids are dense a create keeps them dense, and a lookup of the new id
    * finds the new loan. */
  lemma CreateKeepsDenseIds(loans: seq<Loan>, draft: LoanDraft)
    requires DenseIds(loans)
    ensures DenseIds(Appended(loans, draft))
    ensures GetById(Appended(loans, draft), |loans| + 1) == Some(Stamp(draft, |loans| + 1))
  {
    GetAfterCreate(loans, draft);
    assert forall l :: l in loans ==> l.id != |loans| + 1;
  }

  /** An update keeps every id where it was. */
  lemma UpdateKeepsIds(loans: seq<Loan>, id: int, patch: LoanPatch)
    requires Updated(loans, id, patch).Some?
    ensures forall j :: 0 <= j < |loans| ==> Updated(loans, id, patch).value[j].id == loans[j].id
  {}

  /** After an update, the id leads to the merged record. */
  lemma GetAfterUpdate(loans: seq<Loan>, id: int, patch: LoanPatch)
    requires Updated(loans, id, patch).Some?
    ensures GetById(Updated(loans, id, patch).value, id) == Some(Merge(GetById(loans, id).value, patch, id))
  {
    var s := Updated(loans, id, patch).value;
    var i := IndexOfId(loans, id).value;
    assert forall j :: 0 <= j < i ==> s[j] == loans[j];
    assert IndexOfId(s, id) == Some(i);
  }

  /** With unique ids, a delete takes that id out of the store and keeps every
    * other loan. */
  lemma DeleteRemovesId(loans: seq<Loan>, id: int)
    requires UniqueIds(loans) && Removed(loans, id).Some?
    ensures GetById(Removed(loans, id).value, id).None?
    ensures forall l :: l in loans && l.id != id ==> l in Removed(loans, id).value
  {
    var s := Removed(loans, id).value;
    var i := IndexOfId(loans, id).value;
    forall l | l in s ensures l.id != id {
      var k :| 0 <= k < |s| && s[k] == l;
      if k < i { assert s[k] == loans[k]; } else { assert s[k] == loans[k + 1]; }
    }
    forall l | l in loans && l.id != id ensures l in s {
      var k :| 0 <= k < |loans| && loans[k] == l;
      if k < i { assert s[k] == l; } else { assert k > i; assert s[k - 1] == l; }
    }
  }

  /** Ids come from the length, not from the ids in use: delete product 1 from the
    * seed and create one, and two products have id 7. */
  lemma IdsCollideAfterDeleteAndCreate(draft: LoanDraft)
    ensures Removed(SeedLoans(), 1).Some?
    ensures var s := Appended(Removed(SeedLoans(), 1).value, draft);
      |s| == 7 && s[5].id == 7 && s[6].id == 7 && !UniqueIds(s)
  {
    var seed := SeedLoans();
    assert IndexOfId(seed, 1) == Some(0);
    var s := Appended(Removed(seed, 1).value, draft);
    assert s[5] == seed[6];
  }
}
