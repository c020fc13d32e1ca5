/** The records of the loan system (src/lib/data.ts and backend/models.py) and
  * the seven loan products every store starts with. */
module LoanData {
  import opened Wrappers

  /** A loan product. The source spells the rate field `anual_interest_rate`; the
    * rate is a fraction (0.165 is 16.5%). */
  datatype Loan = Loan(
    id: int,
    productName: string,
    minimumAmount: real,
    maximumAmount: real,
    annualInterestRate: real)

  /** The fields of a new product, without an id (`Omit<Loan, 'id'>` in TypeScript). */
  datatype LoanDraft = LoanDraft(
    productName: string,
    minimumAmount: real,
    maximumAmount: real,
    annualInterestRate: real)

  /** Some of the fields of a product (`Partial<Loan>` in TypeScript); `None`
    * marks a field that is not given. */
  datatype LoanPatch = LoanPatch(
    id: Option<int>,
    productName: Option<string>,
    minimumAmount: Option<real>,
    maximumAmount: Option<real>,
    annualInterestRate: Option<real>)

  /** The request body the Python services accept (`Loan` in backend/models.py and
    * backend.py): the id may be left unset, every other field is required. */
  datatype LoanBody = LoanBody(
    id: Option<int>,
    productName: string,
    minimumAmount: real,
    maximumAmount: real,
    annualInterestRate: real)

  /** A calculation request; only the custom rate is optional. */
  datatype LoanCalculation = LoanCalculation(
    amount: real,
    loanName: string,
    years: int,
    customInterestRate: Option<real>)

  /** The numbers of a calculation summary (the source formats each as text). */
  datatype LoanSummary = LoanSummary(
    totalPayment: real,
    principal: real,
    totalInterest: real,
    monthlyPayment: real,
    annualInterestRate: real)

  /** One month of an amortization schedule. */
  datatype AmortizationEntry = AmortizationEntry(
    month: int,
    monthlyPayment: real,
    principalPaid: real,
    interestPaid: real,
    remainingBalance: real)

  datatype CalculationResult = CalculationResult(
    summary: LoanSummary,
    amortizationSchedule: seq<AmortizationEntry>)

  /** What the services report instead of a result: a missing loan or product,
    * or a requested amount outside the product's range (with the values its
    * message quotes). */
  datatype LoanError =
    | NotFound
    | AmountOutOfRange(amount: real, minimumAmount: real, maximumAmount: real)

  /** The HTTP status the FastAPI services raise for each error. */
  function StatusCode(e: LoanError): (code: int)
    ensures code == 404 <==> e.NotFound?
    ensures code == 400 <==> e.AmountOutOfRange?
  {
    match e
    case NotFound => 404
    case AmountOutOfRange(_, _, _) => 400
  }

  /** The products every store starts with. */
  function SeedLoans(): (loans: seq<Loan>)
    ensures |loans| == 7
    ensures forall i :: 0 <= i < |loans| ==> loans[i].id == i + 1
    ensures forall i :: 0 <= i < |loans| ==> 0.0 < loans[i].minimumAmount < loans[i].maximumAmount
    ensures forall i :: 0 <= i < |loans| ==> 0.09 <= loans[i].annualInterestRate <= 0.30
    ensures forall i, j :: 0 <= i < j < |loans| ==> loans[i].productName != loans[j].productName
  {
    [ Loan(1, "Libranza", 5000000.0, 50000000.0, 0.165),
      Loan(2, "Hipotecario Vivienda", 20000000.0, 500000000.0, 0.12),
      Loan(3, "Crédito de Consumo", 1000000.0, 25000000.0, 0.21),
      Loan(4, "Crédito Vehicular", 15000000.0, 150000000.0, 0.15),
      Loan(5, "Crédito Educativo", 2000000.0, 60000000.0, 0.09),
      Loan(6, "Crédito de Libre Inversión", 1000000.0, 40000000.0, 0.24),
      Loan(7, "Microcrédito para Negocio", 500000.0, 25000000.0, 0.30) ]
  }
}
