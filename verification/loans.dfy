/** Construction of a loan: input validation in the library's order, then the derived
    attributes (term in years, number of payments, payment override). */
module Loans {

  import opened Wrappers
  import opened Money
  import opened Calendar
  import opened Enums
  import opened Models
  import opened Validators

  /** The constructor's arguments, with date strings already split into day triples. */
  datatype LoanInputs = LoanInputs(
    loanAmount: real,
    interestRate: real,
    loanTerm: int,
    startDate: Date,
    loanTermPeriod: string,
    paymentAmount: Option<real>,
    firstPaymentDate: Option<Date>,
    paymentEndOfMonth: bool,
    annualPayments: int,
    interestOnlyPeriod: int,
    compoundingMethod: string,
    loanType: string)

  /** A constructed loan. `loanTerm` is in years; `interestRate` is a percentage. */
  datatype Loan = Loan(
    loanAmount: real,
    interestRate: real,
    loanTerm: real,
    paymentAmount: Option<real>,
    startDate: Date,
    firstPaymentDate: Option<Date>,
    paymentEndOfMonth: bool,
    annualPayments: int,
    noOfPayments: int,
    interestOnlyPeriod: int,
    compoundingMethod: CompoundingMethod,
    loanType: LoanType)
  {
    /** What every constructed loan satisfies. */
    predicate Valid() {
      && loanAmount >= 0.0
      && interestRate >= 0.0
      && loanTerm > 0.0
      && (paymentAmount.Some? ==> paymentAmount.value > 0.0)
      && IsDatetimeDate(startDate)
      && (firstPaymentDate.Some? ==>
            IsDatetimeDate(firstPaymentDate.value) && NotAfter(startDate, firstPaymentDate.value))
      && annualPayments in {12, 4, 2, 1}
      && 0 <= interestOnlyPeriod <= noOfPayments
    }
  }

  /** `int(term_in_years * annual_payments)`. */
  function NoOfPayments(loanTerm: int, loanTermPeriod: string, annualPayments: int): (n: int)
    ensures var payments := TermInYears(loanTerm, loanTermPeriod) * annualPayments as real;
            payments >= 0.0 ==> 0 <= n && n as real <= payments < n as real + 1.0
  {
    Trunc(TermInYears(loanTerm, loanTermPeriod) * annualPayments as real)
  }

  /** The inputs the constructor accepts. */
  predicate WellFormed(inp: LoanInputs) {
    && inp.loanAmount >= 0.0
    && inp.interestRate >= 0.0
    && inp.loanTerm >= 1
    && (inp.paymentAmount.Some? ==> inp.paymentAmount.value >= 0.0)
    && IsDatetimeDate(inp.startDate)
    && (inp.firstPaymentDate.Some? ==>
          IsDatetimeDate(inp.firstPaymentDate.value) && NotAfter(inp.startDate, inp.firstPaymentDate.value))
    && inp.annualPayments in {12, 4, 2, 1}
    && 0 <= inp.interestOnlyPeriod <= NoOfPayments(inp.loanTerm, inp.loanTermPeriod, inp.annualPayments)
    && ParseCompoundingMethod(inp.compoundingMethod).Some?
    && ParseLoanType(inp.loanType).Some?
  }

  /** The first-payment date may not precede the start date. */
  function ValidateDateOrder(startDate: Date, firstPaymentDate: Option<Date>): (r: Outcome<ValidationError>)
    ensures r.Pass? <==> firstPaymentDate.None? || NotAfter(startDate, firstPaymentDate.value)
  {
    if firstPaymentDate.Some? && Before(firstPaymentDate.value, startDate) then
      Fail(ValueError("FIRST_PAYMENT_DATE"))
    else
      assert firstPaymentDate.Some? ==> !Before(firstPaymentDate.value, startDate);
      Pass
  }

  /** Validation passes exactly on well-formed inputs; the checks run in the
      constructor's order and the first failure is raised. */
  function ValidateInputs(inp: LoanInputs): (r: Outcome<ValidationError>)
    ensures r.Pass? <==> WellFormed(inp)
    ensures r.Fail? ==> r.error.ValueError?
  {
    var noOfPayments := NoOfPayments(inp.loanTerm, inp.loanTermPeriod, inp.annualPayments);
    var byRange :=
      AndThen(ValidatePositiveNumeric(inp.loanAmount, "LOAN_AMOUNT"),
      AndThen(ValidatePositiveNumeric(inp.interestRate, "INTEREST_RATE"),
      AndThen(ValidatePositiveInteger(inp.loanTerm, "LOAN_TERM"),
              if inp.paymentAmount.Some? then ValidatePositiveNumeric(inp.paymentAmount.value, "PAYMENT_AMOUNT")
              else Pass)));
    var byDate :=
      AndThen(ValidateDateString(Some(inp.startDate), "START_DATE"),
      AndThen(ValidateOptionalDateString(inp.firstPaymentDate, "FIRST_PAYMENT_DATE"),
              ValidateDateOrder(inp.startDate, inp.firstPaymentDate)));
    var bySchedule :=
      AndThen(ValidateAnnualPayments(inp.annualPayments, "ANNUAL_PAYMENTS"),
      AndThen(ValidateInterestOnlyPeriod(inp.interestOnlyPeriod, "INTEREST_ONLY_PERIOD", noOfPayments),
      AndThen(ValidateCompoundingMethod(inp.compoundingMethod, "COMPOUNDING_METHOD"),
              ValidateLoanType(inp.loanType, "LOAN_TYPE"))));
    assert ValidateCompoundingMethod(inp.compoundingMethod, "COMPOUNDING_METHOD").Pass?
      <==> ParseCompoundingMethod(inp.compoundingMethod).Some?;
    assert ValidateLoanType(inp.loanType, "LOAN_TYPE").Pass? <==> ParseLoanType(inp.loanType).Some?;
    AndThen(byRange, AndThen(byDate, bySchedule))
  }

  /** `Loan(...)`: validates, then derives the stored attributes. A zero payment
      override is stored as absent. */
  function NewLoan(inp: LoanInputs): (r: Result<Loan, ValidationError>)
    ensures r.Ok? <==> WellFormed(inp)
    ensures r.Ok? ==> r.value.Valid()
    ensures r.Ok? ==> (r.value.paymentAmount.Some? <==> inp.paymentAmount.Some? && inp.paymentAmount.value != 0.0)
    ensures r.Ok? && r.value.paymentAmount.Some? ==> r.value.paymentAmount == inp.paymentAmount
    ensures r.Ok? ==> r.value.noOfPayments == NoOfPayments(inp.loanTerm, inp.loanTermPeriod, inp.annualPayments)
    ensures r.Ok? ==>
              && r.value.loanAmount == inp.loanAmount
              && r.value.interestRate == inp.interestRate
              && r.value.loanTerm == TermInYears(inp.loanTerm, inp.loanTermPeriod)
              && r.value.startDate == inp.startDate
              && r.value.firstPaymentDate == inp.firstPaymentDate
              && r.value.paymentEndOfMonth == inp.paymentEndOfMonth
              && r.value.annualPayments == inp.annualPayments
              && r.value.interestOnlyPeriod == inp.interestOnlyPeriod
    ensures r.Ok? ==> CompoundingMethodName(r.value.compoundingMethod) == inp.compoundingMethod
    ensures r.Ok? ==> LoanTypeName(r.value.loanType) == inp.loanType
  {
    var v := ValidateInputs(inp);
    if v.Fail? then Err(v.error)
    else
      var override := if inp.paymentAmount.Some? && inp.paymentAmount.value != 0.0 then inp.paymentAmount else None;
      Ok(Loan(
        inp.loanAmount,
        inp.interestRate,
        TermInYears(inp.loanTerm, inp.loanTermPeriod),
        override,
        inp.startDate,
        inp.firstPaymentDate,
        inp.paymentEndOfMonth,
        inp.annualPayments,
        NoOfPayments(inp.loanTerm, inp.loanTermPeriod, inp.annualPayments),
        inp.interestOnlyPeriod,
        ParseCompoundingMethod(inp.compoundingMethod).value,
        ParseLoanType(inp.loanType).value))
  }

  /** The number of payments is exact integer arithmetic: `term * annual_payments`, or
      `(term * annual_payments) / 12` rounded down for a term in months. */
  lemma NoOfPaymentsIsIntegerArithmetic(loanTerm: int, loanTermPeriod: string, annualPayments: int)
    requires loanTerm >= 1 && annualPayments >= 1
    ensures !IsMonthUnit(loanTermPeriod) ==> NoOfPayments(loanTerm, loanTermPeriod, annualPayments) == loanTerm * annualPayments
    ensures IsMonthUnit(loanTermPeriod) ==> NoOfPayments(loanTerm, loanTermPeriod, annualPayments) == (loanTerm * annualPayments) / 12
  {
    var p := loanTerm * annualPayments;
    assert p >= 1;
    if IsMonthUnit(loanTermPeriod) {
      assert TermInYears(loanTerm, loanTermPeriod) * annualPayments as real == p as real / 12.0;
      TruncOfQuotient(p, 12);
    } else {
      assert TermInYears(loanTerm, loanTermPeriod) * annualPayments as real == p as real;
      assert Trunc(p as real / 1.0) == p by { TruncOfQuotient(p, 1); }
    }
  }
}
