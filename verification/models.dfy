/** The records the loan engine produces and stores, and sums over a schedule. */
module Models {

  import opened Calendar

  /** One schedule entry: a dated cash flow and the balance left after it. */
  datatype Payment = Payment(
    date: Date,
    paymentAmount: real,
    interestAmount: real,
    principalAmount: real,
    specialPrincipalAmount: real,
    totalPrincipalAmount: real,
    loanBalanceAmount: real)

  /** A recurring extra principal payment, as registered. */
  datatype SpecialPayment = SpecialPayment(
    paymentAmount: real,
    firstPaymentDate: Date,
    specialPaymentTerm: int,
    annualPayments: int,
    specialPaymentTermPeriod: string)

  /** Totals derived from a schedule. */
  datatype LoanSummary = LoanSummary(
    loanAmount: real,
    totalPaymentAmount: real,
    totalPrincipalAmount: real,
    totalInterestAmount: real,
    residualLoanBalance: real,
    repaymentToPrincipal: real)

  /** A term unit counts in months iff it upper-cases to "M"; anything else counts in years. */
  predicate IsMonthUnit(period: string) {
    period == "M" || period == "m"
  }

  /** A term converted to years (`term / 12` for a month unit). */
  function TermInYears(term: int, period: string): (y: real)
    ensures IsMonthUnit(period) ==> y * 12.0 == term as real
    ensures !IsMonthUnit(period) ==> y == term as real
    ensures term >= 1 ==> y > 0.0
  {
    if IsMonthUnit(period) then term as real / 12.0 else term as real
  }

  /** Running sums of the three summed columns, accumulated front to back. */
  function SumPayment(s: seq<Payment>): real
    decreases |s|
  {
    if s == [] then 0.0 else SumPayment(s[..|s| - 1]) + s[|s| - 1].paymentAmount
  }

  function SumInterest(s: seq<Payment>): real
    decreases |s|
  {
    if s == [] then 0.0 else SumInterest(s[..|s| - 1]) + s[|s| - 1].interestAmount
  }

  function SumTotalPrincipal(s: seq<Payment>): real
    decreases |s|
  {
    if s == [] then 0.0 else SumTotalPrincipal(s[..|s| - 1]) + s[|s| - 1].totalPrincipalAmount
  }
}
