# pyloan schedule engine in Dafny

This project models the schedule engine of **pyloan**, a loan amortization library, and the
value-range validators that guard its inputs. A `Loan` is built from validated parameters:
amount, nominal annual rate, term in years or months, start date, an optional payment
override, an optional first payment date, the end-of-month flag, payments per year, an
interest-only period, a day-count convention and a loan type.

Recurring special payments are registered on the loan. Each one is expanded into dated
amounts, and the expansions are consolidated into one map from date to amount. The payment
schedule is a single pass over a timeline. The timeline is the sorted, duplicate-free union
of the regular payment dates and the consolidated special dates. The pass carries the
outstanding balance and the interest-only counter. It does the following:

- It accrues interest on regular dates only.
- It caps regular and special principal at the balance.
- It sweeps a sub-cent residual into the last payment.
- It stops adding entries once the balance reaches zero.

The loan summary totals the schedule's columns.

Money is exact `real`, and `Money.Round2` stands for Python's `round(x, 2)`, rounding half a
cent up. Python rounds exact binary ties to even instead: `round(0.125, 2)` is 0.12, where
`Round2` gives 0.13 (see "Floating point" under Left out).
Python's `int()` on a float is `Money.Trunc`. Dates are `Calendar.Date(year, month, day)`.
`relativedelta(months=k)` is `Calendar.AddMonths`, which moves the month index and clamps
the day to the target month's length.

Two collaborators are parameters (`Schedule.Externals`):

- the day-count convention, which returns the days of a period and a positive year length;
- numpy-financial's `pmt`.

Raised exceptions are values:

- `Outcome` / `ValidationError` for the validators;
- `Result` for the `Loan` constructor;
- `SpecialPayments.AddOutcome` for `add_special_payment`, which can leave a partial update.

Modules, one per file: `Wrappers`, `Money`, `Calendar`, `Enums`, `Models`, `Validators`,
`Loans`, `SpecialPayments`, `Timeline`, `Schedule`, `Summary`.

### Where the model follows the code rather than the documented intent

- A loan amount or rate of 0 is accepted. `validate_positive_numeric` rejects only negatives.
- A payment override of 0 is stored as "no override" (pyloan.py:77), so the loan type decides the amount.
- The interest-only counter starts at `interest_only_period` and counts down on regular dates only.
- With an explicit first payment date and zero payments, the regular dates still hold that one date (pyloan.py:223-225).
- `add_special_payment` with `annual_payments == 0` stores the definition (line 356) and then raises `ZeroDivisionError` while expanding it (line 144), so no expansion is stored.
- The schedule ends with the first zero balance. Later timeline dates are skipped (pyloan.py:279-280).

### Reference and glue definitions

These definitions have no row of their own. The rows of the members that use them cover them.

- `Models.SumPayment`, `Models.SumInterest` and `Models.SumTotalPrincipal` (pyloan.py:432-435) are the reference column sums. `Summary.SummarizeSchedule`, `Schedule.Telescope` and `Summary.PaymentsSplit` are stated against them.
- `SpecialPayments.Flatten` (pyloan.py:201-202) concatenates the stored expansions in registration order.
- `SpecialPayments.AmountAt` is the reference per-date sum.
- `SpecialPayments.SpecialEntry` (pyloan.py:149-157) is the dated entry of one occurrence. Its fields are stated by `SpecialPayments.SpecialPaymentSchedule`.
- `Summary.RoundedRatio` (pyloan.py:440) is the rounded quotient inside `Summary.SummarizeSchedule`.
- `Schedule.PlanOf` and `Schedule.LoanTimeline` (pyloan.py:257, 266-273) collect what the pass reads: the regular dates, the consolidated special payments, the regular amount and the timeline. `Schedule.PaymentSchedule` is stated against them.

## Model

| member | source | states |
|---|---|---|
| Validators.ValidatePositiveNumeric | src/pyloan/_validators.py:7-12 | passes iff the value is non-negative, so 0 passes; otherwise a ValueError for the named field |
| Validators.ValidatePositiveInteger | src/pyloan/_validators.py:14-19 | passes iff the value is at least 1; otherwise a ValueError |
| Validators.ValidateDateString | src/pyloan/_validators.py:21-28 | an absent value is a TypeError; a present one passes iff it is a real Gregorian date in years 1..9999, otherwise a ValueError |
| Validators.ValidateOptionalDateString | src/pyloan/_validators.py:30-33 | absent passes; present is checked exactly as a required date |
| Validators.ValidateAnnualPayments | src/pyloan/_validators.py:40-45 | passes iff the value is one of 12, 4, 2, 1 |
| Validators.ValidateInterestOnlyPeriod | src/pyloan/_validators.py:47-54 | passes iff 0 <= value <= number of payments |
| Validators.ValidateCompoundingMethod | src/pyloan/_validators.py:58-66 | passes iff some day-count convention has that identifier |
| Validators.ValidateLoanType | src/pyloan/_validators.py:68-76 | passes iff some loan type has that identifier |
| Enums.ParseCompoundingMethod | src/pyloan/pyloan.py:90 | a found convention has exactly that identifier; not found means no convention has it |
| Enums.ParseLoanType | src/pyloan/pyloan.py:91 | a found loan type has exactly that identifier; not found means no loan type has it |
| Wrappers.AndThen | src/pyloan/pyloan.py:111-128 | a validation sequence passes iff both parts pass; a failing first part is reported as is, and after a passing first part the second part's outcome is reported |
| Loans.ValidateDateOrder | src/pyloan/pyloan.py:120-122 | fails iff a first payment date is given and lies before the start date |
| Loans.ValidateInputs | src/pyloan/pyloan.py:96-128 | the constructor's checks pass iff the inputs are well formed, and every failure is a ValueError |
| Loans.NewLoan | src/pyloan/pyloan.py:53-94 | a loan is built iff the inputs are well formed; the built loan satisfies the loan invariant; the override is kept iff it is non-zero; the payment count is the truncated term-in-years times payments per year; amount, rate, start date, first payment date, end-of-month flag, payments per year and interest-only period are stored as given, the term is stored in years, and the stored convention and loan type are the ones named by the input identifiers |
| Models.TermInYears | src/pyloan/pyloan.py:71-74 | a month term is a twelfth of the count in years (the years times 12 give the count back); any other unit is the count itself; a positive count gives a positive term |
| Loans.NoOfPayments | src/pyloan/pyloan.py:87 | the payment count is the whole part of the term in years times the payments per year: at most that product and within one of it |
| Loans.NoOfPaymentsIsIntegerArithmetic | src/pyloan/pyloan.py:87 | the truncated float count equals the integer count: term times payments per year, or that product divided by 12 for a month term |
| Money.Round2 | src/pyloan/pyloan.py:319-324 | the rounded value is a whole number of cents within half a cent of the input, and non-negative for a non-negative input |
| Money.Round2OfCents | src/pyloan/pyloan.py:319-324 | rounding a cent-exact amount leaves it unchanged |
| Money.Round2Monotone | src/pyloan/pyloan.py:319-324 | rounding preserves order |
| Money.Trunc | src/pyloan/pyloan.py:87 | truncation toward zero: the integer lies within one of the input on the side of zero |
| Money.TruncOfQuotient | src/pyloan/pyloan.py:148 | truncating a non-negative quotient is integer division |
| Calendar.DaysInMonth | src/pyloan/pyloan.py:239 | a month has 28 to 31 days: 28 iff February of a common year, 29 iff February of a leap year, 30 iff April, June, September or November, so 31 otherwise |
| Calendar.BeforeIsStrictTotalOrder | src/pyloan/pyloan.py:257 | date order is irreflexive, transitive, asymmetric and total |
| Calendar.MonthIndexOrder | src/pyloan/pyloan.py:257 | an earlier month means an earlier date; the same month index means the same year and month |
| Calendar.EndOfMonth | src/pyloan/pyloan.py:245 | the snapped date is a valid last day of the same month, not before the input, and equals the input iff it was already the last day |
| Calendar.AddMonths | src/pyloan/pyloan.py:227 | the result is a valid date exactly k months later whose day is the input's day, or the last day of a shorter month |
| Calendar.AddMonthsForward | src/pyloan/pyloan.py:227 | adding a positive number of months gives a strictly later date |
| SpecialPayments.SpecialPaymentSchedule | src/pyloan/pyloan.py:130-160 | the expansion has the truncated term-in-years times payments-per-year entries (none if that is not positive); entry i is dated int(i*12/ap) months after the first date; every entry carries the rounded amount as special principal and 0 elsewhere |
| SpecialPayments.SpecialPaymentCount | src/pyloan/pyloan.py:141 | the occurrence count is the whole part of the term in years times the payments per year, and at most 0 when that product is negative |
| SpecialPayments.MonthOffset | src/pyloan/pyloan.py:144-148 | occurrence i lies the integer quotient of 12i by the payments per year months after the first date |
| SpecialPayments.ExpansionDatesIncrease | src/pyloan/pyloan.py:144-148 | for 1 to 12 payments a year the expanded dates are strictly increasing |
| SpecialPayments.AddSpecialPayment | src/pyloan/pyloan.py:330-357 | a negative amount or an invalid date changes nothing; otherwise exactly one definition is appended, plus exactly one expansion unless the payments per year are 0 (ZeroDivisionError); nothing else changes; non-negative stored amounts stay non-negative |
| SpecialPayments.Accumulate | src/pyloan/pyloan.py:201-203 | the accumulated map's keys are exactly the dates present, each mapped to the sum of the amounts at that date |
| SpecialPayments.ConsolidateSpecialPayments | src/pyloan/pyloan.py:193-208 | the keys are exactly the dates in the stored expansions, each value is the rounded sum of the amounts at that date, and every value is cent-exact |
| SpecialPayments.ConsolidatedDatesAreExpansionDates | src/pyloan/pyloan.py:201-203 | a date is consolidated iff some stored expansion has an entry on it |
| SpecialPayments.ConsolidateAfterAppend | src/pyloan/pyloan.py:356-357 | after one more expansion the keys grow by exactly its dates, and each total gains exactly its amounts before rounding |
| SpecialPayments.ConsolidatedAmountsNonNegative | src/pyloan/pyloan.py:193-208 | with non-negative registered amounts every consolidated amount is non-negative |
| Timeline.SortDates | src/pyloan/pyloan.py:257 | sorting a set of dates yields a strictly increasing sequence with exactly the same elements |
| Timeline.SortedIsUnique | src/pyloan/pyloan.py:257 | two strictly increasing sequences with the same elements are equal |
| Timeline.PaymentTimeline | src/pyloan/pyloan.py:257 | the timeline is strictly increasing and holds a date iff it is a regular date or a consolidated special date, so a shared date appears once |
| Timeline.LeastOf | src/pyloan/pyloan.py:257 | a non-empty set of dates has an element that is not after any other |
| Timeline.SortDatesStartsWithLeast | src/pyloan/pyloan.py:257 | the sorted list of a set of dates starts with its least date, so that least date is unique and is the first date of the timeline |
| Timeline.TimelineWithoutSpecialPayments | src/pyloan/pyloan.py:257 | with no special dates the timeline is exactly the (increasing) regular dates |
| Timeline.MonthsBetweenPayments | src/pyloan/pyloan.py:219 | the spacing in months times the payments per year is 12 |
| Timeline.NextRegularDate | src/pyloan/pyloan.py:227-229 | the next date is the given number of months later, on the last day of its month when end-of-month is set, otherwise with the day clamped |
| Timeline.FirstRegularDate | src/pyloan/pyloan.py:223-247 | an explicit first payment date is used unsnapped; otherwise with end-of-month the end of the start month, or of the month one spacing later when the start is already a month end; otherwise the start plus one spacing; never before the start |
| Timeline.FirstMonthEnd | src/pyloan/pyloan.py:237-245 | the derived end-of-month first date is the last day of the start month, or of the month one spacing later when the start is already a month end, and it is after the start |
| Timeline.FirstPlain | src/pyloan/pyloan.py:246-247 | the derived first date without end-of-month lies one spacing after the start, with the day clamped to the month, and after the start |
| Timeline.DateChain | src/pyloan/pyloan.py:226-254 | each chained date is the previous one advanced by the spacing, snapped when end-of-month is set |
| Timeline.RegularDates | src/pyloan/pyloan.py:221-254 | there are exactly the number of payments, except for one date when a first payment date is given and that number is 0 |
| Timeline.RegularDatesMonthIndex | src/pyloan/pyloan.py:226-254 | regular date i lies i spacings after the first one |
| Timeline.RegularDatesIncrease | src/pyloan/pyloan.py:221-254 | the regular dates are strictly increasing and never before the start; strictly after it without a first payment date |
| Timeline.RegularDatesAtMonthEnd | src/pyloan/pyloan.py:228-229 | with end-of-month set, every date after the first (and the first, when derived) is a month end |
| Timeline.RegularDaysNeverIncrease | src/pyloan/pyloan.py:250 | without end-of-month, the day of the month never increases along the chain, so clamping drifts |
| Schedule.RegularPaymentAmount | src/pyloan/pyloan.py:162-191 | a non-zero override is returned as is; an interest-only loan, or no principal payments left after the interest-only period, gives 0; a linear loan, or an annuity at zero rate, splits the loan evenly over the remaining payments; otherwise the annuity payment; never negative except possibly for an annuity |
| Schedule.InterestForPeriod | src/pyloan/pyloan.py:210-213 | interest is 0 for a zero balance, rate or day count, and non-negative when all three are |
| Schedule.LastRegularBeforeIsLatest | src/pyloan/pyloan.py:290 | the latest regular date strictly before the given date, or the start date when none is earlier |
| Schedule.BalanceAtIsLatest | src/pyloan/pyloan.py:292-293 | the balance of the latest entry on that date, or the loan amount when no entry has it |
| Schedule.LastRegularBefore | src/pyloan/pyloan.py:290 | the found date is either the fallback or a regular date strictly before the given date |
| Schedule.BalanceAt | src/pyloan/pyloan.py:292-293 | the found balance is either the fallback or the balance of some entry dated on the given date |
| Schedule.Accrue | src/pyloan/pyloan.py:282-315 | interest and regular principal arise only on regular dates; interest is the previous regular period's accrual on the balance recorded then; no regular principal while the counter is positive; once it is not, the regular principal is the smaller of the instalment due (the regular amount, less the interest for an annuity) and the opening balance; special principal arises only on consolidated dates, at most the consolidated amount and capped by what is left; total principal plus closing balance is the opening balance; payment is total principal plus interest; the closing balance is 0 or at least one cent |
| Schedule.Rounded | src/pyloan/pyloan.py:317-325 | the entry keeps the date, and each amount is a whole number of cents within half a cent of the exact accrual |
| Schedule.NextCounter | src/pyloan/pyloan.py:303 | the interest-only counter drops by exactly one on a regular date and is unchanged on any other date |
| Schedule.InitialEntry | src/pyloan/pyloan.py:270 | the opening entry is dated at the start, carries no payment, interest or principal, and has the whole loan outstanding |
| Schedule.Fold | src/pyloan/pyloan.py:275-326 | earlier entries are kept; appended entries follow the timeline in order; balances stay non-negative; only the last entry can have a zero balance; a schedule shorter than the timeline ends at zero; a paid-off schedule is left as is |
| Schedule.Step | src/pyloan/pyloan.py:317-326 | the rounded entry is dated on the timeline date being walked and its balance is non-negative |
| Schedule.FoldUnfold | src/pyloan/pyloan.py:275-303 | one pass step appends exactly one entry and continues over the rest of the timeline, keeping the earlier entries and the open balances; the appended entry is the step's rounded accrual for the first date, and while the counter is positive it pays no regular principal |
| Schedule.Run | src/pyloan/pyloan.py:270-328 | the pass from the opening entry over a given timeline keeps the shape above |
| Schedule.PaymentSchedule | src/pyloan/pyloan.py:261-328 | entry 0 is the start date with no cash flow and the whole loan outstanding; entry k is timeline date k-1; balances are non-negative and positive until the last entry; the schedule stops short of the timeline only at a zero balance |
| Schedule.ScheduleDatesIncrease | src/pyloan/pyloan.py:257-326 | the entries after the first are dated strictly increasing |
| Schedule.AccrueEntryFacts | src/pyloan/pyloan.py:305-326 | each appended entry has a non-negative cent balance, a balance drop that matches its total principal within a cent, and a payment that matches principal plus interest within 1.5 cents; interest and regular principal only on regular dates; special principal only on special dates and at most the consolidated amount; no balance increase when all flows are non-negative |
| Schedule.ScheduleEntryFacts | src/pyloan/pyloan.py:275-326 | the per-entry facts above hold for every consecutive pair of entries of the schedule |
| Schedule.BalancesNonIncreasing | src/pyloan/pyloan.py:299-310 | for a non-annuity loan with non-negative special payments, balances never increase after the opening entry, and the first one is at most the rounded loan amount |
| Schedule.PrincipalConservation | src/pyloan/pyloan.py:308-324 | the loan amount equals the summed total principal plus the final balance, to within one cent per entry |
| Schedule.InterestOnlyLoanPaysNoPrincipal | src/pyloan/pyloan.py:173-174 | an interest-only loan without an override pays no regular principal in any entry |
| Schedule.RegularPrincipalAtMostInstalment | src/pyloan/pyloan.py:297-301 | for a non-annuity loan no entry's regular principal exceeds the regular instalment rounded to cents |
| Schedule.FoldInterestOnly | src/pyloan/pyloan.py:297-303 | an entry reached while fewer regular dates than the counter have passed pays no regular principal |
| Schedule.InterestOnlyPeriodPaysNoPrincipal | src/pyloan/pyloan.py:272-303 | an entry reached before `interest_only_period` regular dates have passed pays no regular principal |
| Schedule.ScheduleWithoutSpecialPayments | src/pyloan/pyloan.py:266-306 | with no special payments registered the schedule walks the regular dates alone and no entry carries special principal |
| Schedule.Telescope | src/pyloan/pyloan.py:308-310 | per-entry principal identities add up over a schedule to within one cent per entry |
| Summary.SummarizeSchedule | src/pyloan/pyloan.py:420-451 | every reported figure is in cents and within half a cent of its exact total; the residual is the loan less total principal; the ratio is 0 when no principal was repaid, otherwise payments over principal rounded |
| Summary.GetLoanSummary | src/pyloan/pyloan.py:420-451 | every reported figure is a whole number of cents; the loan amount and the schedule's payment, principal and interest column totals are reported to within half a cent; the residual is the loan amount less the total principal, to within half a cent; the payment-to-principal ratio is 0 when no principal was repaid and otherwise the ratio of the totals to within half a cent |
| Summary.ResidualMatchesFinalBalance | src/pyloan/pyloan.py:445-449 | the reported residual balance matches the schedule's final balance to within a cent per entry and half a cent |
| Summary.SummaryPaymentsSplit | src/pyloan/pyloan.py:430-449 | reported total payments equal total principal plus total interest to within 1.5 cents per entry plus rounding |
| Summary.PaymentsSplit | src/pyloan/pyloan.py:309-324 | summed payments equal summed principal plus summed interest to within 1.5 cents per entry |

## Left out

- The day-count conventions (`_day_count`, imported at pyloan.py:26) are not part of this model. Each one is a parameter returning the days of a period and a positive year length. The conventions correspond to section 4.16 of the ISDA 2006 Definitions.
- `npf.pmt` (pyloan.py:190) is a foreign numpy-financial call and is a parameter. Only the zero-rate branch is computed.
- The internal rate of return (`_calculate_xirr`, `get_internal_rate_of_return`, pyloan.py:359-418) is left out. It is a floating-point Newton iteration with fractional exponents.
- Floating point: amounts are exact reals and `Money.Round2` rounds half a cent up. Python's `round(x, 2)` works on binary floats: an exact binary tie goes to the even cent (`round(0.125, 2) == 0.12`, `round(100.125, 2) == 100.12`, where `Round2` gives 0.13 and 100.13), and a decimal tie that is not exact in binary goes whichever way its binary value lies.
- Schedule.PaymentSchedule: not proved to end at a zero balance. The rounding of each entry's balance can drift further than the one-cent sweep. For example, a linear loan of 1000 over 12 monthly payments leaves 0.04 after the last one (worked by hand with exact rounding, not executed). Schedule.PrincipalConservation states the bound that does hold.
- Schedule.BalancesNonIncreasing: stated only for non-annuity loans. For an annuity, `regular - interest` can be negative when the override is below the interest, and then the balance grows.
- Loans.NewLoan: `int(float)` truncation of the term times the payments per year (pyloan.py:87, 125, 141) is modelled as exact integer arithmetic. A binary float product just below an integer would truncate one lower.
- SpecialPayments.SpecialPaymentSchedule: the special-payment offsets `int(i * (12 / ap))` (pyloan.py:144, 148) are modelled as exact quotients. These are exact for 12, 4, 2 and 1 payments per year.
- String parsing is left out, because the parsed dates are the model's inputs:
  - `strptime` parsing of `YYYY-MM-DD`;
  - the `isinstance` type checks (the TypeError paths other than a missing date);
  - `validate_boolean`.
- The `ValueError` ("year 10000 is out of range") that `datetime` raises when a date moves past year 9999 (pyloan.py:148, 227, 229, 241-252) is left out. The engine's dates are unbounded; the date validator enforces years 1..9999 on the inputs only.
- Logging is left out. So is the `delta_dt` attribute (pyloan.py:88), which nothing in the core reads.
- `validate_loan_term_period` (imported at pyloan.py:23) is not part of this model, and neither is the `_enums` module. A term unit upper-casing to "M" counts in months and anything else in years. The convention identifiers are "30A/360", "30U/360", "30E/360", "30E/360 ISDA", "A/365F", "A/360", "A/A ISDA" and "A/A AFB". The loan types are "annuity", "linear" and "interest_only".
- `_models.SpecialPayment` declares no `special_payment_term_period` field, although pyloan.py:354 passes one and pyloan.py:138 reads it. The model gives the record that field, as pyloan.py uses it.
- Determinism needs no lemma. The consolidated map and the schedule are pure functions of the stored expansions, so two calls with no addition in between agree by construction.
- `_calculate_regular_principal_payment`'s optional `current_balance`/`payments_left` arguments (pyloan.py:162) are never passed by the core. Only the default call is modelled.
