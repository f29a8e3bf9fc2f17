/** Value-range checks applied to the loan's inputs before any computation. Each check
    passes or reports the error the library raises, naming the offending field. */
module Validators {

  import opened Wrappers
  import opened Calendar
  import opened Enums

  datatype ValidationError = ValueError(field: string) | TypeError(field: string)

  /** A date `datetime.strptime` can produce: a calendar day within years 1 to 9999. */
  predicate IsDatetimeDate(d: Date) {
    IsCalendarDate(d) && 1 <= d.year <= 9999
  }

  /** Despite its name, rejects only negative values: zero passes. */
  function ValidatePositiveNumeric(value: real, name: string): (r: Outcome<ValidationError>)
    ensures r.Pass? <==> value >= 0.0
    ensures r.Fail? ==> r.error == ValueError(name)
  {
    if value < 0.0 then Fail(ValueError(name)) else Pass
  }

  /** Rejects every integer below one. */
  function ValidatePositiveInteger(value: int, name: string): (r: Outcome<ValidationError>)
    ensures r.Pass? <==> value >= 1
    ensures r.Fail? ==> r.error == ValueError(name)
  {
    if value < 1 then Fail(ValueError(name)) else Pass
  }

  /** A date is required; it must be a real calendar day. */
  function ValidateDateString(value: Option<Date>, name: string): (r: Outcome<ValidationError>)
    ensures r.Pass? <==> value.Some? && IsDatetimeDate(value.value)
    ensures value.None? ==> r == Fail(TypeError(name))
    ensures value.Some? && r.Fail? ==> r.error == ValueError(name)
  {
    match value
    case None => Fail(TypeError(name))
    case Some(d) => if IsDatetimeDate(d) then Pass else Fail(ValueError(name))
  }

  /** An absent date passes; a present one must be a real calendar day. */
  function ValidateOptionalDateString(value: Option<Date>, name: string): (r: Outcome<ValidationError>)
    ensures r.Pass? <==> value.None? || IsDatetimeDate(value.value)
    ensures r.Fail? ==> r.error == ValueError(name)
  {
    if value.Some? then ValidateDateString(value, name) else Pass
  }

  /** Payment frequencies: monthly, quarterly, half-yearly or yearly. */
  function ValidateAnnualPayments(value: int, name: string): (r: Outcome<ValidationError>)
    ensures r.Pass? <==> value == 12 || value == 4 || value == 2 || value == 1
    ensures r.Fail? ==> r.error == ValueError(name)
  {
    if value !in [12, 4, 2, 1] then Fail(ValueError(name)) else Pass
  }

  /** The interest-only period cannot be negative nor exceed the number of payments. */
  function ValidateInterestOnlyPeriod(value: int, name: string, noOfPayments: int): (r: Outcome<ValidationError>)
    ensures r.Pass? <==> 0 <= value <= noOfPayments
    ensures r.Fail? ==> r.error == ValueError(name)
  {
    if value < 0 then Fail(ValueError(name))
    else if noOfPayments - value < 0 then Fail(ValueError(name))
    else Pass
  }

  /** Only the identifiers of the day-count conventions pass. */
  function ValidateCompoundingMethod(value: string, name: string): (r: Outcome<ValidationError>)
    ensures r.Pass? <==> exists m: CompoundingMethod :: CompoundingMethodName(m) == value
    ensures r.Fail? ==> r.error == ValueError(name)
  {
    var parsed := ParseCompoundingMethod(value);
    if parsed.None? then Fail(ValueError(name))
    else
      assert CompoundingMethodName(parsed.value) == value;
      Pass
  }

  /** Only the identifiers of the loan types pass. */
  function ValidateLoanType(value: string, name: string): (r: Outcome<ValidationError>)
    ensures r.Pass? <==> exists t: LoanType :: LoanTypeName(t) == value
    ensures r.Fail? ==> r.error == ValueError(name)
  {
    var parsed := ParseLoanType(value);
    if parsed.None? then Fail(ValueError(name))
    else
      assert LoanTypeName(parsed.value) == value;
      Pass
  }
}
