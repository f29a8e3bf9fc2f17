/** The special-payment registry: recurring extra principal payments, their expansion into
    dated amounts, and the per-date consolidation the schedule consumes. */
module SpecialPayments {

  import opened Wrappers
  import opened Money
  import opened Calendar
  import opened Models
  import opened Validators

  /** The loan's stored special payments and, in parallel, their expansions. */
  datatype Registry = Registry(
    specialPayments: seq<SpecialPayment>,
    specialPaymentsSchedule: seq<seq<Payment>>)

  const EmptyRegistry: Registry := Registry([], [])

  datatype AddError = Invalid(cause: ValidationError) | ZeroDivisionError

  /** The registry after an add, and the error the add raised, if any. */
  datatype AddOutcome = AddOutcome(registry: Registry, raised: Option<AddError>)

  /** Every stored expansion carries non-negative amounts. */
  predicate RegistryInvariant(reg: Registry) {
    forall i, j :: 0 <= i < |reg.specialPaymentsSchedule| && 0 <= j < |reg.specialPaymentsSchedule[i]| ==>
      reg.specialPaymentsSchedule[i][j].specialPrincipalAmount >= 0.0
  }

  /** `int(term_in_years * annual_payments)`; zero or negative means no occurrence. */
  function SpecialPaymentCount(sp: SpecialPayment): (n: int)
    ensures var occurrences := TermInYears(sp.specialPaymentTerm, sp.specialPaymentTermPeriod) * sp.annualPayments as real;
            && (occurrences >= 0.0 ==> 0 <= n && n as real <= occurrences < n as real + 1.0)
            && (occurrences < 0.0 ==> n <= 0)
  {
    Trunc(TermInYears(sp.specialPaymentTerm, sp.specialPaymentTermPeriod) * sp.annualPayments as real)
  }

  /** `int(i * 12 / annual_payments)`: whole months from the first occurrence to occurrence `i`. */
  function MonthOffset(i: int, annualPayments: int): (m: int)
    requires annualPayments != 0
    ensures i >= 0 && annualPayments > 0 ==> m == (i * 12) / annualPayments
  {
    if i >= 0 && annualPayments > 0 then
      TruncOfQuotient(i * 12, annualPayments);
      Trunc((i * 12) as real / annualPayments as real)
    else
      Trunc((i * 12) as real / annualPayments as real)
  }

  /** A dated special amount, with every other amount zero. */
  function SpecialEntry(date: Date, amount: real): Payment {
    Payment(date, 0.0, 0.0, 0.0, amount, 0.0, 0.0)
  }

  /** Expands one definition into its occurrences: occurrence `i` falls `MonthOffset(i)`
      months after the first date, day clamped to the month, and carries the amount
      rounded to cents. */
  function SpecialPaymentSchedule(sp: SpecialPayment): (r: seq<Payment>)
    requires sp.annualPayments != 0 && IsCalendarDate(sp.firstPaymentDate)
    ensures |r| == if SpecialPaymentCount(sp) > 0 then SpecialPaymentCount(sp) else 0
    ensures forall i :: 0 <= i < |r| ==>
      && IsCalendarDate(r[i].date)
      && MonthIndex(r[i].date) == MonthIndex(sp.firstPaymentDate) + MonthOffset(i, sp.annualPayments)
      && r[i].date.day <= sp.firstPaymentDate.day
      && (r[i].date.day == sp.firstPaymentDate.day || IsLastDayOfMonth(r[i].date))
    ensures forall i :: 0 <= i < |r| ==>
      && r[i].specialPrincipalAmount == Round2(sp.paymentAmount)
      && r[i].paymentAmount == 0.0 && r[i].interestAmount == 0.0 && r[i].principalAmount == 0.0
      && r[i].totalPrincipalAmount == 0.0 && r[i].loanBalanceAmount == 0.0
  {
    var n := SpecialPaymentCount(sp);
    var amount := Round2(sp.paymentAmount);
    seq(if n > 0 then n else 0, i requires 0 <= i =>
      SpecialEntry(AddMonths(sp.firstPaymentDate, MonthOffset(i, sp.annualPayments)), amount))
  }

  /** `add_special_payment`: validates the amount and the first date; on success appends the
      definition, then expands it and appends the expansion. A zero frequency raises while
      expanding, after the definition was already appended. */
  function AddSpecialPayment(reg: Registry, paymentAmount: real, firstPaymentDate: Date,
                             specialPaymentTerm: int, annualPayments: int,
                             specialPaymentTermPeriod: string): (r: AddOutcome)
    ensures paymentAmount < 0.0 ==>
      r == AddOutcome(reg, Some(Invalid(ValueError("SPECIAL_PAYMENT_AMOUNT"))))
    ensures paymentAmount >= 0.0 && !IsDatetimeDate(firstPaymentDate) ==>
      r == AddOutcome(reg, Some(Invalid(ValueError("SPECIAL_PAYMENT_FIRST_PAYMENT_DATE"))))
    ensures r.raised.None? <==> paymentAmount >= 0.0 && IsDatetimeDate(firstPaymentDate) && annualPayments != 0
    ensures r.raised != Some(ZeroDivisionError) ==>
      |r.registry.specialPayments| - |reg.specialPayments|
        == |r.registry.specialPaymentsSchedule| - |reg.specialPaymentsSchedule|
    ensures r.raised.None? ==>
      var sp := SpecialPayment(paymentAmount, firstPaymentDate, specialPaymentTerm, annualPayments,
                               specialPaymentTermPeriod);
      && r.registry.specialPayments == reg.specialPayments + [sp]
      && r.registry.specialPaymentsSchedule == reg.specialPaymentsSchedule + [SpecialPaymentSchedule(sp)]
    ensures r.raised == Some(ZeroDivisionError) ==>
      && r.registry.specialPayments
           == reg.specialPayments + [SpecialPayment(paymentAmount, firstPaymentDate, specialPaymentTerm,
                                                    annualPayments, specialPaymentTermPeriod)]
      && r.registry.specialPaymentsSchedule == reg.specialPaymentsSchedule
    ensures RegistryInvariant(reg) ==> RegistryInvariant(r.registry)
  {
    var amountCheck := ValidatePositiveNumeric(paymentAmount, "SPECIAL_PAYMENT_AMOUNT");
    var dateCheck := ValidateDateString(Some(firstPaymentDate), "SPECIAL_PAYMENT_FIRST_PAYMENT_DATE");
    if amountCheck.Fail? then AddOutcome(reg, Some(Invalid(amountCheck.error)))
    else if dateCheck.Fail? then AddOutcome(reg, Some(Invalid(dateCheck.error)))
    else
      var sp := SpecialPayment(paymentAmount, firstPaymentDate, specialPaymentTerm, annualPayments,
                               specialPaymentTermPeriod);
      var defined := reg.(specialPayments := reg.specialPayments + [sp]);
      if annualPayments == 0 then AddOutcome(defined, Some(ZeroDivisionError))
      else
        var expansion := SpecialPaymentSchedule(sp);
        var after := defined.(specialPaymentsSchedule := reg.specialPaymentsSchedule + [expansion]);
        assert forall i :: 0 <= i < |reg.specialPaymentsSchedule| ==>
          after.specialPaymentsSchedule[i] == reg.specialPaymentsSchedule[i];
        AddOutcome(after, None)
  }

  /** All stored expansions, concatenated in registration order. */
  function Flatten(schedules: seq<seq<Payment>>): seq<Payment>
    decreases |schedules|
  {
    if schedules == [] then [] else Flatten(schedules[..|schedules| - 1]) + schedules[|schedules| - 1]
  }

  /** The dates occurring in a list of entries. */
  function DatesOf(entries: seq<Payment>): set<Date> {
    set p | p in entries :: p.date
  }

  /** The total special amount dated `d`: the reference definition of a per-date sum. */
  function AmountAt(entries: seq<Payment>, d: Date): real
    decreases |entries|
  {
    if entries == [] then 0.0
    else (if entries[0].date == d then entries[0].specialPrincipalAmount else 0.0) + AmountAt(entries[1..], d)
  }

  lemma {:induction false} AmountAtConcat(a: seq<Payment>, b: seq<Payment>, d: Date)
    ensures AmountAt(a + b, d) == AmountAt(a, d) + AmountAt(b, d)
    decreases |a|
  {
    if a == [] {
      assert a + b == b;
    } else {
      assert (a + b)[1..] == a[1..] + b;
      AmountAtConcat(a[1..], b, d);
    }
  }

  lemma {:induction false} AmountAtAbsent(entries: seq<Payment>, d: Date)
    requires d !in DatesOf(entries)
    ensures AmountAt(entries, d) == 0.0
    decreases |entries|
  {
    if entries != [] {
      assert entries[0] in entries;
      assert DatesOf(entries[1..]) <= DatesOf(entries);
      AmountAtAbsent(entries[1..], d);
    }
  }

  /** The `defaultdict` loop: adds each entry's amount to its date's running total, in order. */
  function Accumulate(entries: seq<Payment>): (r: map<Date, real>)
    ensures r.Keys == DatesOf(entries)
    ensures forall d :: d in r ==> r[d] == AmountAt(entries, d)
    decreases |entries|
  {
    if entries == [] then map[]
    else
      var init := entries[..|entries| - 1];
      var p := entries[|entries| - 1];
      var totals := Accumulate(init);
      assert entries == init + [p];
      assert DatesOf(entries) == DatesOf(init) + {p.date};
      var r := totals[p.date := (if p.date in totals then totals[p.date] else 0.0) + p.specialPrincipalAmount];
      assert forall d :: d in r ==> r[d] == AmountAt(entries, d) by {
        forall d | d in r
          ensures r[d] == AmountAt(entries, d)
        {
          AmountAtConcat(init, [p], d);
          assert AmountAt([p], d) == (if p.date == d then p.specialPrincipalAmount else 0.0);
          if d == p.date && p.date !in totals {
            assert p.date !in DatesOf(init);
            AmountAtAbsent(init, d);
          }
        }
      }
      r
  }

  /** `_consolidate_special_payments`: one entry per date occurring in any stored expansion,
      holding that date's total rounded to cents. */
  function ConsolidateSpecialPayments(schedules: seq<seq<Payment>>): (r: map<Date, real>)
    ensures forall d :: d in r <==> d in DatesOf(Flatten(schedules))
    ensures forall d :: d in r ==> r[d] == Round2(AmountAt(Flatten(schedules), d))
    ensures forall d :: d in r ==> IsCents(r[d])
  {
    var totals := Accumulate(Flatten(schedules));
    map d | d in totals :: Round2(totals[d])
  }

  /** A date is consolidated iff some stored expansion has an entry on it. */
  lemma {:induction false} ConsolidatedDatesAreExpansionDates(schedules: seq<seq<Payment>>, d: Date)
    ensures d in ConsolidateSpecialPayments(schedules) <==>
      exists i, j :: 0 <= i < |schedules| && 0 <= j < |schedules[i]| && schedules[i][j].date == d
    decreases |schedules|
  {
    if schedules != [] {
      var init := schedules[..|schedules| - 1];
      var last := schedules[|schedules| - 1];
      ConsolidatedDatesAreExpansionDates(init, d);
      assert Flatten(schedules) == Flatten(init) + last;
      assert DatesOf(Flatten(schedules)) == DatesOf(Flatten(init)) + DatesOf(last);
      if d in DatesOf(last) {
        var j :| 0 <= j < |last| && last[j].date == d;
        assert schedules[|schedules| - 1][j].date == d;
      }
      if exists i, j :: 0 <= i < |schedules| && 0 <= j < |schedules[i]| && schedules[i][j].date == d {
        var i, j :| 0 <= i < |schedules| && 0 <= j < |schedules[i]| && schedules[i][j].date == d;
        if i < |init| {
          assert init[i][j].date == d;
        } else {
          assert last[j] in last;
        }
      }
    }
  }

  /** Appending an expansion adds its dates to the consolidated map and its amounts to
      the per-date totals; nothing else changes. */
  lemma ConsolidateAfterAppend(schedules: seq<seq<Payment>>, expansion: seq<Payment>)
    ensures var before := ConsolidateSpecialPayments(schedules);
            var after := ConsolidateSpecialPayments(schedules + [expansion]);
            && after.Keys == before.Keys + DatesOf(expansion)
            && forall d :: d in after ==>
                 after[d] == Round2(AmountAt(Flatten(schedules + [expansion]), d))
                 && AmountAt(Flatten(schedules + [expansion]), d) == AmountAt(Flatten(schedules), d) + AmountAt(expansion, d)
  {
    FlattenAppend(schedules, expansion);
    ConsolidatedKeysAfterAppend(schedules, expansion);
    forall d
      ensures AmountAt(Flatten(schedules + [expansion]), d) == AmountAt(Flatten(schedules), d) + AmountAt(expansion, d)
    {
      AmountAtConcat(Flatten(schedules), expansion, d);
    }
  }

  lemma FlattenAppend(schedules: seq<seq<Payment>>, expansion: seq<Payment>)
    ensures Flatten(schedules + [expansion]) == Flatten(schedules) + expansion
  {
    var s := schedules + [expansion];
    assert s[..|s| - 1] == schedules;
  }

  lemma ConsolidatedKeysAfterAppend(schedules: seq<seq<Payment>>, expansion: seq<Payment>)
    ensures ConsolidateSpecialPayments(schedules + [expansion]).Keys
            == ConsolidateSpecialPayments(schedules).Keys + DatesOf(expansion)
  {
    var before := ConsolidateSpecialPayments(schedules);
    var after := ConsolidateSpecialPayments(schedules + [expansion]);
    FlattenAppend(schedules, expansion);
    DatesOfConcat(Flatten(schedules), expansion);
    forall d
      ensures d in after.Keys <==> d in before.Keys + DatesOf(expansion)
    {
      assert d in after.Keys <==> d in DatesOf(Flatten(schedules + [expansion]));
      assert d in before.Keys <==> d in DatesOf(Flatten(schedules));
    }
  }

  lemma DatesOfConcat(a: seq<Payment>, b: seq<Payment>)
    ensures DatesOf(a + b) == DatesOf(a) + DatesOf(b)
  {
    forall d | d in DatesOf(a + b)
      ensures d in DatesOf(a) + DatesOf(b)
    {
      var p :| p in a + b && p.date == d;
      assert p in a || p in b;
    }
    forall d | d in DatesOf(a) + DatesOf(b)
      ensures d in DatesOf(a + b)
    {
      if d in DatesOf(a) {
        var p :| p in a && p.date == d;
        assert p in a + b;
      } else {
        var p :| p in b && p.date == d;
        assert p in a + b;
      }
    }
  }

  lemma {:induction false} AmountAtNonNegative(entries: seq<Payment>, d: Date)
    requires forall j :: 0 <= j < |entries| ==> entries[j].specialPrincipalAmount >= 0.0
    ensures AmountAt(entries, d) >= 0.0
    decreases |entries|
  {
    if entries != [] {
      AmountAtNonNegative(entries[1..], d);
    }
  }

  lemma {:induction false} FlattenNonNegative(schedules: seq<seq<Payment>>)
    requires forall i, j :: 0 <= i < |schedules| && 0 <= j < |schedules[i]| ==>
      schedules[i][j].specialPrincipalAmount >= 0.0
    ensures forall k :: 0 <= k < |Flatten(schedules)| ==> Flatten(schedules)[k].specialPrincipalAmount >= 0.0
    decreases |schedules|
  {
    if schedules != [] {
      var init := schedules[..|schedules| - 1];
      FlattenNonNegative(init);
    }
  }

  /** With only non-negative amounts registered (as the add validation ensures), every
      consolidated amount is non-negative. */
  lemma ConsolidatedAmountsNonNegative(reg: Registry)
    requires RegistryInvariant(reg)
    ensures forall d :: d in ConsolidateSpecialPayments(reg.specialPaymentsSchedule) ==>
      ConsolidateSpecialPayments(reg.specialPaymentsSchedule)[d] >= 0.0
  {
    var flat := Flatten(reg.specialPaymentsSchedule);
    FlattenNonNegative(reg.specialPaymentsSchedule);
    forall d | d in ConsolidateSpecialPayments(reg.specialPaymentsSchedule) {
      AmountAtNonNegative(flat, d);
    }
  }

  /** For a positive integer divisor, adding at least one divisor to the dividend raises
      the quotient by at least one. */
  lemma QuotientStep(a: int, b: int, n: int)
    requires 0 <= a && 0 < n && a + n <= b
    ensures a / n + 1 <= b / n
  {
    var q, qb := a / n, b / n;
    assert a == q * n + a % n && a % n < n;
    assert b == qb * n + b % n && 0 <= b % n;
  }

  /** At most twelve occurrences a year fall in strictly later months, so one definition
      never dates two occurrences alike. */
  lemma ExpansionDatesIncrease(sp: SpecialPayment)
    requires 0 < sp.annualPayments <= 12 && IsCalendarDate(sp.firstPaymentDate)
    ensures var r := SpecialPaymentSchedule(sp);
            forall i, j :: 0 <= i < j < |r| ==> Before(r[i].date, r[j].date)
  {
    var r := SpecialPaymentSchedule(sp);
    var ap := sp.annualPayments;
    forall i, j | 0 <= i < j < |r|
      ensures Before(r[i].date, r[j].date)
    {
      TruncOfQuotient(i * 12, ap);
      TruncOfQuotient(j * 12, ap);
      QuotientStep(i * 12, j * 12, ap);
      MonthIndexOrder(r[i].date, r[j].date);
    }
  }
}
