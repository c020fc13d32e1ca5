# Loan products and the amortization calculator

This project models a small loan-products application. It has three code
variants:

- a TypeScript front-end service (`LoanService` in `src/lib/loan-service.ts`);
- a modular Python back end (`backend/utils.py`, `backend/database.py` and
  `backend/services.py`);
- a single-file Python back end (`backend.py`).

Each variant keeps an in-memory table of loan products, seeded with the same
seven records. Each offers lookups, a case-insensitive name search, create,
update and delete. Each also has a calculator that turns an amount, a term in
years and an annual rate into a level monthly payment, a summary and a
month-by-month amortization schedule.

The model is split into these modules:

- `Wrappers`: `Option` and `Result`.
- `LoanData`: the record shapes, the seed and the HTTP status of each error.
- `Text`: ASCII lower-casing and substring containment.
- `Annuity`: the payment formula and the loop balance, with its closed form. Money is exact `real`.
- `Schedule`: the schedule loop, as a `method` proved against a row function, with the final-month correction as a parameter. TypeScript corrects a leftover above one cent and clamps the shown balance at 0. Python corrects any non-zero leftover.
- `LoanCalculator`: the summary, the amount validation, the rate choice and the reference outcome `Calculate` of a calculation request.
- `LoanTable`: reference functions for the table operations.
- `FrontendService.LoanService`, `Database.LoanDatabase` and `BackendApp.LoanApi`: the three stores, as classes whose `loans` field the methods change in place.
- `Services`: the request wrappers of `backend/services.py` over one database.

Every store method is proved to leave exactly the state the reference
function describes. Every `calculate_loan` variant is proved to return
`Calculate(loans, c, rule)` under its own final-month rule.

Where the code may surprise a reader, the model follows the code:

- The calculator finds its product by exact, case-sensitive name. Only the searches ignore case.
- No variant rejects a zero or negative term or a negative rate.
- The comment at backend.py:123 calls the Python update partial. However, the request model requires every field except `id`, so `model_dump(exclude_unset=True)` always carries the four data fields, and the update overwrites the whole record.

## Model

| member | source | states |
|---|---|---|
| LoanData.SeedLoans | src/lib/data.ts:42-50 | the seed has seven records with ids 1..7 in order, 0 < minimum < maximum, rates in [0.09, 0.30] and pairwise distinct names; the same records are the initial table at backend/database.py:8-16 and backend.py:62-69 |
| LoanData.StatusCode | backend/services.py:80-97 | an unknown product or id is status 404 and an amount out of range is 400, and nothing else has those statuses |
| Text.Contains | backend/database.py:29 | substring containment (`in` in Python, `includes` in JavaScript): a prefix of the text is contained in it, and a contained term is no longer than the text; `Text.ContainsAt` states the full meaning |
| Text.LowerChar | backend/database.py:28-29 | the result is never an ASCII capital; it is the character itself or the capital's lower-case letter |
| Text.Lower | backend/database.py:28-29 | lower-casing keeps the length and lower-cases each character |
| Text.EmptyIsEverywhere | backend/database.py:29 | every name contains the lower-cased empty term |
| Text.ContainsAt | backend/database.py:29 | containment (`in` / `includes`) holds exactly when the term occurs at some offset |
| LoanTable.FirstWhere | backend/database.py:24 | `next(...)` over a predicate: `None` exactly when nothing satisfies it, else the first index that does |
| LoanTable.IndexOfId | src/lib/loan-service.ts:37 | `findIndex` by id: `None` exactly when no record has the id, else the first index with it |
| LoanTable.GetById | backend/database.py:22-24 | `None` exactly when no record has the id; otherwise the first record with the id |
| LoanTable.FindByName | backend/database.py:61-63 | exact, case-sensitive name lookup: `None` exactly when no name equals it, else the first record with that name |
| LoanTable.Matches | backend/database.py:29 | the filter predicate: the lower-cased name contains the lower-cased term (also src/lib/loan-service.ts:9 and backend.py:91,101) |
| LoanTable.FilterByName | backend/database.py:26-29 | the result holds exactly the records whose lower-cased name contains the lower-cased term, each matching record as often as in the table, and is a sub-multiset of the table; its order is fixed by `FilterOne` and `FilterConcat` |
| LoanTable.FilterOne | src/lib/loan-service.ts:8-10 | filtering one record keeps it exactly when it matches |
| LoanTable.FilterConcat | backend/database.py:29 | filtering distributes over concatenation: the matches of the first part come first, in table order, then those of the rest, so the result keeps table order and every occurrence (also src/lib/loan-service.ts:61-63 and backend.py:91,101) |
| LoanTable.FilterByEmptyTermKeepsAll | backend/database.py:26-29 | filtering by the empty term returns the whole table |
| LoanTable.Search | backend/services.py:65-73 | success exactly when some record matches; the value is then the non-empty filter result; failure is `NotFound` |
| LoanTable.SearchEmptyTerm | src/lib/loan-service.ts:59-68 | a search for "" lists the whole table, failing only on an empty table |
| LoanTable.SearchIgnoresCase | backend.py:88-94 | a search for "LIB" succeeds and finds a record named "Libranza" wherever it stands |
| LoanTable.Listing | backend/services.py:13-23 | a missing or empty name lists everything; any other name behaves as the search for it |
| LoanTable.Stamp | src/lib/loan-service.ts:28-31 | `{...loanData, id}`: the draft's fields under the given id |
| LoanTable.DraftOf | backend/database.py:33-34 | `model_dump()` of a Python body with its id, if any, dropped; the id is then replaced by the stamped one |
| LoanTable.Appended | src/lib/loan-service.ts:27-34 | a create keeps the old records as the prefix and appends the draft with id = old length + 1 |
| LoanTable.Merge | src/lib/loan-service.ts:42-46 | the spread `{...loan, ...patch, id}`: each given field replaces the old one, each missing field is kept, and the id is the requested one |
| LoanTable.AsPatch | backend/database.py:45-47 | a Python body merged into any record gives the body's four fields under the requested id (a full overwrite) |
| LoanTable.Updated | src/lib/loan-service.ts:36-49 | `None` exactly for an unknown id; otherwise the same length, the merged record at the first index with the id and every other index unchanged |
| LoanTable.Removed | src/lib/loan-service.ts:51-57 | `None` exactly for an unknown id; otherwise one element fewer: the records before the first match stay, the later ones shift down by one, and the multiset loses exactly the matched record |
| LoanTable.RemoveFirstEqual | backend.py:219 | `list.remove` drops one element |
| LoanTable.RemoveFirstEqualAt | backend.py:219 | `list.remove(loans[i])` deletes index i when no earlier element equals it |
| LoanTable.RemoveFirstEqualIsRemoved | backend.py:215-221 | removing the found record by equality gives the same table as deleting its index |
| LoanTable.GetAfterCreate | backend/database.py:31-36 | after a create, looking up id length + 1 finds an older record with that id if there is one, and the new record otherwise |
| LoanTable.CreateKeepsDenseIds | src/lib/loan-service.ts:27-34 | while ids are 1..n, a create keeps them 1..n+1 and the new id finds the new record |
| LoanTable.UpdateKeepsIds | backend/database.py:38-49 | an update keeps every record's id |
| LoanTable.GetAfterUpdate | src/lib/loan-service.ts:36-49 | after an update, the id leads to the merged record |
| LoanTable.DeleteRemovesId | backend/database.py:51-59 | with unique ids, after a delete no record has the id and every other record is still there |
| LoanTable.IdsCollideAfterDeleteAndCreate | backend/database.py:34 | deleting product 1 from the seed and creating one gives two records with id 7, so the ids are not unique |
| Annuity.Balance | backend/utils.py:75-77 | the loop's `remaining_balance` after a number of months, before the final-month correction: each month the balance falls by the payment less the interest on it; its closed form is `Annuity.BalanceClosedForm` |
| Annuity.BalanceClosedForm | backend/utils.py:74-77 | after k months the loop balance is P·(1+r)^k − M·(1 + (1+r) + … + (1+r)^(k−1)) |
| Annuity.GeometricTimesRate | backend/utils.py:25 | r·(1 + q + … + q^(n−1)) = q^n − 1 for q = 1 + r, which links the formula to the loop |
| Annuity.ZeroRateBalance | backend/utils.py:21-22 | at rate 0, n payments of P/n leave nothing |
| Annuity.PowAtLeastLinear | backend/utils.py:25 | Bernoulli's inequality: (1+r)^n ≥ 1 + n·r for r ≥ 0 |
| Annuity.NonNegativeRateIsDefined | backend/utils.py:17-25 | for a term of at least one year and a rate ≥ 0, no formula divides by zero |
| Annuity.AnnuityRetiresLoan | backend.py:26-30 | any payment M with M·((1+r)^n − 1) = P·r·(1+r)^n leaves a loop balance of exactly 0 after n months |
| Annuity.CompoundInterest | src/lib/loan-service.ts:115-120 | the annuity formula without a zero-rate branch (and likewise backend.py:26-30) retires the loan exactly in n months |
| Annuity.MonthlyPayment | backend/utils.py:5-25 | at rate 0 the payment is P/n (M·n = P), otherwise it is the annuity formula; either way it retires the loan exactly in n months, so the correction is not needed in exact arithmetic (also src/lib/loan-service.ts:89-94 and backend.py:170-174) |
| Annuity.PrincipalPartGrows | backend/utils.py:75-77 | the part of the payment that reduces the balance in month k+1 is (1+r)^k times the first month's |
| Annuity.PaymentCoversInterest | backend/utils.py:5-25 | for P ≥ 0 and rate ≥ 0 the level payment is at least the first month's interest |
| Annuity.BalanceNonIncreasing | backend/utils.py:74-77 | with such a payment and a rate ≥ 0, the loop balance never rises from month to month |
| Annuity.BalanceWithinPrincipal | backend/utils.py:74-82 | under the level payment with P ≥ 0 and rate ≥ 0, every loop balance lies in [0, P] and no month raises it |
| Schedule.Shown | src/lib/loan-service.ts:152 | TypeScript shows max(0, balance), which is never negative; Python shows the balance unchanged |
| Schedule.Row | src/lib/loan-service.ts:138-153 | the entry one loop pass emits for month i+1, with the correction in the last month; its meaning is stated by `Schedule.RowMeaning` (also backend/utils.py:75-90) |
| Schedule.Rows | src/lib/loan-service.ts:137-154 | one `Row` per month, in month order, so as many rows as months; `Schedule.Generate` is proved to return it |
| Schedule.RowMeaning | src/lib/loan-service.ts:137-153 | row i is month i+1 with the fixed payment and interest equal to the previous balance × rate; in a corrected last month the principal part is that whole balance and 0 remains; otherwise principal part + interest = payment, the balance drops by the principal part and the shown balance is the new one |
| Schedule.LoopStep | backend/utils.py:74-90 | one loop pass from the balance after i months produces row i and the balance after i+1 months |
| Schedule.Generate | src/lib/loan-service.ts:128-157 | the loop (also backend/utils.py:71-92 and backend.py:192-211) returns exactly one row per month, and each row is the one `RowMeaning` describes |
| Schedule.PrincipalPaidSoFar | backend/utils.py:74-77 | before the last month, the principal paid so far plus the balance owed equals the principal |
| Schedule.PrincipalTotalOfRows | backend/utils.py:74-90 | the principal parts of a whole schedule add up to the principal less the balance it ends on |
| Schedule.PythonScheduleRetiresPrincipal | backend/utils.py:80-82 | under the Python correction, for any payment, the last balance is 0 and the principal parts add up to exactly the principal (also backend.py:201-203) |
| Schedule.TypeScriptScheduleWithinCent | src/lib/loan-service.ts:142-145 | under the TypeScript correction, the principal parts come within 0.01 of the principal and the last shown balance lies in [0, 0.01] |
| Schedule.ExactPaymentSchedule | backend.py:200-203 | a payment that leaves no balance never triggers the correction, under either rule; every row then pays exactly the payment, the principal parts add up to P, the interest to n·M − P, and the last balance is 0 |
| Schedule.LevelPaymentSchedule | backend/utils.py:55-92 | the level payment's schedule pays the loan off in that sense |
| Schedule.LevelRow | src/lib/loan-service.ts:137-153 | for P ≥ 0 and rate ≥ 0, each level-payment row is the same under both rules, and its shown balance is the exact one, in [0, P] and no higher than the previous balance |
| Schedule.RulesAgreeOnLevelPayment | src/lib/loan-service.ts:142-152 | for P ≥ 0 and rate ≥ 0, the TypeScript and Python schedules are equal, and every shown balance lies in [0, P] and never rises |
| LoanCalculator.SummaryFor | backend/utils.py:40-43 | total paid = n·M and total interest = total paid − P, for the given payment |
| LoanCalculator.Summary | backend/utils.py:28-52 | the summary carries P, the rate and the monthly payment, with total = n·M and interest = total − P (also src/lib/loan-service.ts:96-97 and backend.py:176-177) |
| LoanCalculator.ExactPaymentAgrees | backend/services.py:107-119 | for a payment that leaves no balance, the schedule's principal parts add up to the summary's principal, its interest to the summary's total interest, and the two together to its total payment |
| LoanCalculator.SummaryMatchesSchedule | backend/services.py:107-119 | the summary and the level-payment schedule use the same payment and agree: n rows, principal parts summing to P, interest to the total interest, and both to the total payment |
| LoanCalculator.ZeroRateCostsNothing | backend/utils.py:40-43 | at rate 0 the total interest is 0 |
| LoanCalculator.InterestNotNegative | backend/utils.py:40-43 | for P ≥ 0 and rate ≥ 0 the total interest is never negative |
| LoanCalculator.LevelInterestNotNegative | backend/utils.py:75 | for P ≥ 0 and rate ≥ 0 each month's interest is ≥ 0 |
| LoanCalculator.InterestTotalNotNegative | backend/utils.py:75 | a column of non-negative interest amounts sums to a non-negative total |
| LoanCalculator.ValidateLoanAmount | backend/utils.py:95-114 | valid exactly when minimum ≤ amount ≤ maximum (both bounds inclusive); valid carries no error, invalid carries the out-of-range error with the amount and the range |
| LoanCalculator.RateFor | backend/services.py:100-104 | a given custom rate (0 included) is used; otherwise the product's rate (also src/lib/loan-service.ts:84 and backend.py:162) |
| LoanCalculator.Calculate | backend/services.py:80-119 | an unknown exact name gives `NotFound`; a known product with the amount out of range gives the range error; otherwise success, with the summary and the schedule computed from the same amount, rate and term |
| LoanCalculator.CalculationErrors | backend/services.py:83-97 | a request fails exactly when the name is unknown or the amount is out of range; the status is 404 exactly for the unknown name, which is checked first, and 400 exactly for the range |
| LoanCalculator.SuccessfulCalculation | src/lib/loan-service.ts:70-113 | a success has years·12 rows numbered 1..n, each carrying the summary's monthly payment; it pays the loan off, and it agrees with the summary's totals |
| LoanCalculator.RulesGiveSameResult | src/lib/loan-service.ts:142-145 | for an amount ≥ 0 and rate ≥ 0, the TypeScript and the Python calculations return identical results |
| LoanCalculator.SeedAmountBelowRange | backend.py:152-159 | on the seed, 1,000,000 for "Libranza" is refused with the range 5,000,000–50,000,000 and status 400 |
| LoanCalculator.CalculatorNameIsExact | backend.py:146-149 | on the seed, the lower-case name "libranza" is not found |
| FrontendService.LoanService.constructor | src/lib/loan-service.ts:4 | the store starts as the seed |
| FrontendService.LoanService.GetAllLoans | src/lib/loan-service.ts:6-17 | a missing or empty name returns the whole store; otherwise success exactly when something matches, with the matches |
| FrontendService.LoanService.GetLoanById | src/lib/loan-service.ts:19-25 | fails exactly when no record has the id; otherwise the first record with it |
| FrontendService.LoanService.CreateLoan | src/lib/loan-service.ts:27-34 | the store becomes the appended one and is returned; dense ids stay dense, and the new id finds the new record |
| FrontendService.LoanService.UpdateLoan | src/lib/loan-service.ts:36-49 | an unknown id fails and changes nothing; otherwise the store is the updated one, the result is the merged record, and the id now finds it |
| FrontendService.LoanService.DeleteLoan | src/lib/loan-service.ts:51-57 | an unknown id fails and changes nothing; otherwise the store loses exactly the first record with the id and keeps the order of the rest |
| FrontendService.LoanService.SearchLoans | src/lib/loan-service.ts:59-68 | success exactly when some record matches the term, with the matches |
| FrontendService.LoanService.CalculateLoan | src/lib/loan-service.ts:70-113 | the result equals `Calculate` under the TypeScript rule |
| Database.LoanDatabase.constructor | backend/database.py:6-16 | the store starts as the seed |
| Database.LoanDatabase.GetAllLoans | backend/database.py:18-20 | the entries of the store, in order |
| Database.LoanDatabase.GetLoanById | backend/database.py:22-24 | `None` exactly when no record has the id; otherwise the first with it |
| Database.LoanDatabase.GetLoansByName | backend/database.py:26-29 | the filter result (the matches in store order, every occurrence kept); a record is in it exactly when it matches; the empty name gives the whole store |
| Database.LoanDatabase.CreateLoan | backend/database.py:31-36 | returns the body stamped with id = old length + 1, and the store becomes the appended one |
| Database.LoanDatabase.UpdateLoan | backend/database.py:38-49 | an unknown id returns `None` and changes nothing; otherwise only that index changes, to the body's fields under the requested id |
| Database.LoanDatabase.DeleteLoan | backend/database.py:51-59 | true exactly for a known id; then the first record with it is removed; otherwise nothing changes |
| Database.LoanDatabase.GetLoanByName | backend/database.py:61-63 | `None` exactly when no name equals it; otherwise the first exact match |
| Services.GetAllLoans | backend/services.py:13-23 | equals the listing; a failure is a 404 for a given filter |
| Services.GetLoanById | backend/services.py:26-34 | 404 exactly when no record has the id; otherwise the first with it |
| Services.CreateLoan | backend/services.py:37-40 | the database becomes the appended table, and the whole table is returned |
| Services.UpdateLoan | backend/services.py:43-51 | 404 with nothing changed exactly when the id is unknown; otherwise the overwritten record and the updated table |
| Services.DeleteLoan | backend/services.py:54-62 | 404 with nothing changed exactly when the id is unknown; otherwise success and the removed table |
| Services.SearchLoans | backend/services.py:65-73 | equals the search; success exactly when something matches |
| Services.GenerateAmortizationSchedule | backend/utils.py:55-92 | the level-payment schedule under the Python rule, which pays the loan off |
| Services.CalculateLoan | backend/services.py:80-119 | the result equals `Calculate` under the Python rule |
| BackendApp.LoanApi.constructor | backend.py:62-69 | the table starts as the seed |
| BackendApp.LoanApi.CreateLoan | backend.py:80-86 | the table becomes the appended one and is returned |
| BackendApp.LoanApi.SearchLoans | backend.py:88-94 | equals the search; a failure is a 404 |
| BackendApp.LoanApi.GetLoans | backend.py:97-105 | equals the listing; a failure is a 404 and happens only for a non-empty name |
| BackendApp.LoanApi.GetLoan | backend.py:108-113 | fails exactly when no record has the id; otherwise the first with it |
| BackendApp.LoanApi.EditLoan | backend.py:116-134 | 404 with nothing changed for an unknown id; otherwise that record is overwritten with the body under the requested id |
| BackendApp.LoanApi.DeleteLoan | backend.py:215-221 | 404 with nothing changed for an unknown id; otherwise the table loses exactly the found record |
| BackendApp.LoanApi.CalculateLoan | backend.py:143-213 | the result equals `Calculate` under the Python rule |

## Left out

- Binary floating point: amounts are exact reals. The drift that the final-month correction compensates for is not reproduced, so in the model the correction never fires for the level payment.
- Annuity.MonthlyPayment: requires a term of at least one year and a non-vanishing annuity divisor. For a zero term or a rate with (1+r)^n = 1, the code divides by zero (a `ZeroDivisionError` in Python, an infinite or NaN payment in TypeScript). For a negative term the code does not fail: `(1+r)**(12·years)` gives a finite, negative payment, the schedule loop runs no month, and the request succeeds with an empty schedule (backend/utils.py:18-25,74; src/lib/loan-service.ts:87-94,137). Neither outcome is modelled, and the calculation methods carry the same precondition for the requests that reach the formula.
- Negative rates and negative amounts are accepted, as in the code. The lemmas about balances, interest and the agreement of the two rules assume a non-negative amount and rate.
- Currency and percent formatting (`toLocaleString`, `toFixed`, `f"{x:,.2f}"`): the model returns numbers, not strings.
- LoanCalculator.ValidateLoanAmount: returns the error kind with the amount and the range, not the message text. Error message texts are left out everywhere.
- The end date of the summary (`latest_date_of_payment_after_loan`, `calculateEndDate`): it depends on the system clock.
- Text.Lower: lower-cases ASCII capitals only. Accented capitals are left as they are, unlike `.lower()` and `.toLowerCase()`.
- Aliasing: the TypeScript and `backend.py` lists are returned by reference, `backend/database.py:24,49` return the stored dict itself, and `backend.py` mutates the dict it found. The model returns values, so later changes through a returned reference are not captured.
- The success messages of the delete endpoints: they are plain text and are modelled as `Success(())`.
- The web UI, the client hooks and API wrapper, and the FastAPI wiring: routing, CORS, server start-up, the configuration, and the demo endpoints (`/`, `/save-loan`, `/items`) with their `Item` model. None of these is part of the loan logic.
