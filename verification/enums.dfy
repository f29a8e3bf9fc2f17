/** The library's enumerated identifiers: day-count conventions and loan types. */
module Enums {

  import opened Wrappers

  /** Day-count conventions, keyed by their string identifiers. */
  datatype CompoundingMethod =
    | Thirty360A | Thirty360U | Thirty360E | Thirty360EIsda
    | Actual365Fixed | Actual360 | ActualActualIsda | ActualActualAfb

  /** Repayment conventions. */
  datatype LoanType = Annuity | Linear | InterestOnly

  function CompoundingMethodName(m: CompoundingMethod): string {
    match m
    case Thirty360A => "30A/360"
    case Thirty360U => "30U/360"
    case Thirty360E => "30E/360"
    case Thirty360EIsda => "30E/360 ISDA"
    case Actual365Fixed => "A/365F"
    case Actual360 => "A/360"
    case ActualActualIsda => "A/A ISDA"
    case ActualActualAfb => "A/A AFB"
  }

  function LoanTypeName(t: LoanType): string {
    match t
    case Annuity => "annuity"
    case Linear => "linear"
    case InterestOnly => "interest_only"
  }

  /** `CompoundingMethod(value)`: the member whose identifier is `value`, if any. */
  function ParseCompoundingMethod(value: string): (r: Option<CompoundingMethod>)
    ensures r.Some? ==> CompoundingMethodName(r.value) == value
    ensures r.None? ==> forall m: CompoundingMethod :: CompoundingMethodName(m) != value
  {
    if value == "30A/360" then Some(Thirty360A)
    else if value == "30U/360" then Some(Thirty360U)
    else if value == "30E/360" then Some(Thirty360E)
    else if value == "30E/360 ISDA" then Some(Thirty360EIsda)
    else if value == "A/365F" then Some(Actual365Fixed)
    else if value == "A/360" then Some(Actual360)
    else if value == "A/A ISDA" then Some(ActualActualIsda)
    else if value == "A/A AFB" then Some(ActualActualAfb)
    else None
  }

  /** `LoanType(value)`: the member whose identifier is `value`, if any. */
  function ParseLoanType(value: string): (r: Option<LoanType>)
    ensures r.Some? ==> LoanTypeName(r.value) == value
    ensures r.None? ==> forall t: LoanType :: LoanTypeName(t) != value
  {
    if value == "annuity" then Some(Annuity)
    else if value == "linear" then Some(Linear)
    else if value == "interest_only" then Some(InterestOnly)
    else None
  }

  /** Every member is recovered from its own identifier. */
  lemma CompoundingMethodRoundTrip(m: CompoundingMethod)
    ensures ParseCompoundingMethod(CompoundingMethodName(m)) == Some(m)
  {
  }

  lemma LoanTypeRoundTrip(t: LoanType)
    ensures ParseLoanType(LoanTypeName(t)) == Some(t)
  {
  }

}
