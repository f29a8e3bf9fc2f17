/** The loan summary: column totals over the payment schedule and the payment-to-principal
    ratio. */
module Summary {

  import opened Money
  import opened Models
  import opened Loans
  import opened SpecialPayments
  import opened Schedule

  /** The summary of a schedule for a given loan amount. Every reported amount is in
      cents; the ratio of payments to principal is 0 exactly when no principal was repaid
      (before rounding), and otherwise the ratio rounded to cents. */
  function SummarizeSchedule(loanAmount: real, s: seq<Payment>): (r: LoanSummary)
    ensures IsCents(r.loanAmount) && IsCents(r.totalPaymentAmount) && IsCents(r.totalPrincipalAmount)
            && IsCents(r.totalInterestAmount) && IsCents(r.residualLoanBalance) && IsCents(r.repaymentToPrincipal)
    ensures -0.005 <= loanAmount - r.loanAmount < 0.005
    ensures -0.005 <= SumPayment(s) - r.totalPaymentAmount < 0.005
    ensures -0.005 <= SumTotalPrincipal(s) - r.totalPrincipalAmount < 0.005
    ensures -0.005 <= SumInterest(s) - r.totalInterestAmount < 0.005
    ensures -0.005 <= loanAmount - SumTotalPrincipal(s) - r.residualLoanBalance < 0.005
    ensures SumTotalPrincipal(s) == 0.0 ==> r.repaymentToPrincipal == 0.0
    ensures SumTotalPrincipal(s) != 0.0 ==>
      -0.005 <= SumPayment(s) / SumTotalPrincipal(s) - r.repaymentToPrincipal < 0.005
  {
    var payments := SumPayment(s);
    var principal := SumTotalPrincipal(s);
    var interest := SumInterest(s);
    Round2Zero();
    var ratio := if principal == 0.0 then 0.0 else RoundedRatio(payments, principal);
    LoanSummary(
      Round2(loanAmount),
      Round2(payments),
      Round2(principal),
      Round2(interest),
      Round2(loanAmount - principal),
      ratio)
  }

  /** A quotient rounded to cents. */
  function RoundedRatio(a: real, b: real): (r: real)
    requires b != 0.0
    ensures IsCents(r) && -0.005 <= a / b - r < 0.005
  {
    Round2(a / b)
  }

  /** `get_loan_summary()`: the summary of the loan's current payment schedule. */
  function GetLoanSummary(loan: Loan, ext: Externals, reg: Registry): (r: LoanSummary)
    requires loan.Valid()
    ensures var s := PaymentSchedule(loan, ext, reg);
            && -0.005 <= loan.loanAmount - r.loanAmount < 0.005
            && -0.005 <= SumPayment(s) - r.totalPaymentAmount < 0.005
            && -0.005 <= SumTotalPrincipal(s) - r.totalPrincipalAmount < 0.005
            && -0.005 <= SumInterest(s) - r.totalInterestAmount < 0.005
            && -0.005 <= loan.loanAmount - SumTotalPrincipal(s) - r.residualLoanBalance < 0.005
    ensures IsCents(r.loanAmount) && IsCents(r.totalPaymentAmount) && IsCents(r.totalPrincipalAmount)
            && IsCents(r.totalInterestAmount) && IsCents(r.residualLoanBalance) && IsCents(r.repaymentToPrincipal)
    ensures var s := PaymentSchedule(loan, ext, reg);
            && (SumTotalPrincipal(s) == 0.0 ==> r.repaymentToPrincipal == 0.0)
            && (SumTotalPrincipal(s) != 0.0 ==>
                  -0.005 <= SumPayment(s) / SumTotalPrincipal(s) - r.repaymentToPrincipal < 0.005)
  {
    SummarizeSchedule(loan.loanAmount, PaymentSchedule(loan, ext, reg))
  }

  /** The reported residual balance agrees with the schedule's final balance to within a
      cent per entry (plus half a cent for the summary's own rounding). */
  lemma ResidualMatchesFinalBalance(loan: Loan, ext: Externals, reg: Registry)
    requires loan.Valid()
    ensures var s := PaymentSchedule(loan, ext, reg);
            var bound := 0.01 * (|s| - 1) as real + 0.005;
            -bound <= GetLoanSummary(loan, ext, reg).residualLoanBalance - s[|s| - 1].loanBalanceAmount <= bound
  {
    PrincipalConservation(loan, ext, reg);
  }

  /** Each entry's payment is its total principal plus its interest to within a cent and
      a half, so the column totals agree to within that much per entry. */
  lemma {:induction false} PaymentsSplit(plan: Plan, s: seq<Payment>)
    requires |s| > 0
    requires s[0].paymentAmount == 0.0 && s[0].totalPrincipalAmount == 0.0 && s[0].interestAmount == 0.0
    requires forall k :: 1 <= k < |s| ==> EntryFacts(plan, s[k - 1], s[k])
    ensures -0.015 * (|s| - 1) as real <= SumPayment(s) - SumTotalPrincipal(s) - SumInterest(s)
            <= 0.015 * (|s| - 1) as real
    decreases |s|
  {
    if |s| > 1 {
      var front := s[..|s| - 1];
      assert forall k :: 0 <= k < |front| ==> front[k] == s[k];
      PaymentsSplit(plan, front);
      assert EntryFacts(plan, s[|s| - 2], s[|s| - 1]);
    } else {
      assert s[..0] == [];
    }
  }

  /** In the summary, total payments equal total principal plus total interest, to within
      a cent and a half per schedule entry and the summary's own rounding. */
  lemma SummaryPaymentsSplit(loan: Loan, ext: Externals, reg: Registry)
    requires loan.Valid()
    ensures var s := PaymentSchedule(loan, ext, reg);
            var r := GetLoanSummary(loan, ext, reg);
            var bound := 0.015 * (|s| - 1) as real + 0.015;
            -bound <= r.totalPaymentAmount - r.totalPrincipalAmount - r.totalInterestAmount <= bound
  {
    ScheduleEntryFacts(loan, ext, reg);
    PaymentsSplit(PlanOf(loan, ext, reg), PaymentSchedule(loan, ext, reg));
  }
}
