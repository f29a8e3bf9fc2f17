/** The amortization engine: the regular payment amount, interest accrual, and the single
    pass over the timeline that produces the payment schedule. */
module Schedule {

  import opened Money
  import opened Calendar
  import opened Enums
  import opened Models
  import opened Loans
  import opened SpecialPayments
  import opened Timeline

  type PositiveReal = r: real | r > 0.0 witness 1.0

  /** What a day-count convention yields for a period: the days counted and the length of
      the year they are a fraction of. */
  datatype DayCount = DayCount(days: real, yearLength: PositiveReal)

  /** Collaborators the engine calls but this model does not define: the day-count
      convention library, and numpy-financial's `pmt(rate, nper, pv)`. */
  datatype Externals = Externals(
    dayCount: (CompoundingMethod, Date, Date) -> DayCount,
    pmt: (real, int, real) -> real)

  /** `_calculate_regular_principal_payment()`: the override if set; nothing for an
      interest-only loan or when no principal payments remain after the interest-only
      period; otherwise the loan split evenly (linear, or annuity at a zero rate) or the
      annuity payment. */
  function RegularPaymentAmount(loan: Loan, ext: Externals): (r: real)
    requires loan.Valid()
    ensures loan.paymentAmount.Some? ==> r == loan.paymentAmount.value
    ensures loan.paymentAmount.None? && loan.loanType == InterestOnly ==> r == 0.0
    ensures loan.paymentAmount.None? && loan.noOfPayments - loan.interestOnlyPeriod <= 0 ==> r == 0.0
    ensures loan.paymentAmount.None? && loan.noOfPayments - loan.interestOnlyPeriod > 0
            && (loan.loanType == Linear || (loan.loanType == Annuity && loan.interestRate == 0.0)) ==>
              r * (loan.noOfPayments - loan.interestOnlyPeriod) as real == loan.loanAmount
    ensures loan.paymentAmount.None? && loan.noOfPayments - loan.interestOnlyPeriod > 0
            && loan.loanType == Annuity && loan.interestRate != 0.0 ==>
              r == ext.pmt(loan.interestRate / 100.0 / loan.annualPayments as real,
                           loan.noOfPayments - loan.interestOnlyPeriod, -loan.loanAmount)
    ensures loan.loanType != Annuity ==> r >= 0.0
  {
    if loan.paymentAmount.Some? then loan.paymentAmount.value
    else if loan.loanType == InterestOnly then 0.0
    else
      var n := loan.noOfPayments - loan.interestOnlyPeriod;
      if n <= 0 then 0.0
      else if loan.loanType == Linear then loan.loanAmount / n as real
      else
        var periodicRate := loan.interestRate / 100.0 / loan.annualPayments as real;
        if periodicRate == 0.0 then loan.loanAmount / n as real
        else
          assert loan.interestRate != 0.0 && loan.loanType == Annuity;
          ext.pmt(periodicRate, n, -loan.loanAmount)
  }

  /** `_calculate_interest_for_period`: the balance at the annual rate over the day-count
      fraction of a year. */
  function InterestForPeriod(loan: Loan, ext: Externals, balance: real, from: Date, to: Date): (r: real)
    ensures balance == 0.0 || loan.interestRate == 0.0 ==> r == 0.0
    ensures ext.dayCount(loan.compoundingMethod, from, to).days == 0.0 ==> r == 0.0
    ensures balance >= 0.0 && loan.interestRate >= 0.0 && ext.dayCount(loan.compoundingMethod, from, to).days >= 0.0
            ==> r >= 0.0
  {
    var count := ext.dayCount(loan.compoundingMethod, from, to);
    var fraction := count.days / count.yearLength;
    assert count.days >= 0.0 ==> fraction >= 0.0;
    var rate := loan.interestRate / 100.0;
    assert balance >= 0.0 && rate >= 0.0 ==> balance * rate >= 0.0;
    balance * rate * fraction
  }

  /** The greatest regular date strictly before `date`, or `fallback` when there is none
      (searching the regular dates from the end). */
  function LastRegularBefore(regular: seq<Date>, date: Date, fallback: Date): (r: Date)
    ensures r == fallback || (r in regular && Before(r, date))
    decreases |regular|
  {
    if regular == [] then fallback
    else if Before(regular[|regular| - 1], date) then regular[|regular| - 1]
    else LastRegularBefore(regular[..|regular| - 1], date, fallback)
  }

  /** The search finds the last regular date before `date`, or the fallback when no
      regular date is before it. */
  lemma {:induction false} LastRegularBeforeIsLatest(regular: seq<Date>, date: Date, fallback: Date)
    ensures var r := LastRegularBefore(regular, date, fallback);
            ((exists i :: 0 <= i < |regular| && regular[i] == r && Before(r, date)
                && forall j :: i < j < |regular| ==> !Before(regular[j], date))
             || (r == fallback && forall j :: 0 <= j < |regular| ==> !Before(regular[j], date)))
    decreases |regular|
  {
    if regular == [] {
    } else if Before(regular[|regular| - 1], date) {
      assert LastRegularBefore(regular, date, fallback) == regular[|regular| - 1];
    } else {
      var front := regular[..|regular| - 1];
      var r := LastRegularBefore(front, date, fallback);
      assert LastRegularBefore(regular, date, fallback) == r;
      LastRegularBeforeIsLatest(front, date, fallback);
      assert forall j :: 0 <= j < |front| ==> front[j] == regular[j];
      if i :| 0 <= i < |front| && front[i] == r && Before(r, date)
               && forall j :: i < j < |front| ==> !Before(front[j], date) {
        assert regular[i] == r;
        assert forall j :: i < j < |regular| ==> !Before(regular[j], date);
      } else {
        assert forall j :: 0 <= j < |regular| ==> !Before(regular[j], date);
      }
    }
  }

  /** The balance recorded by the latest schedule entry dated `date`, or `fallback` when
      no entry has that date. */
  function BalanceAt(schedule: seq<Payment>, date: Date, fallback: real): (r: real)
    ensures r == fallback || exists p :: p in schedule && p.date == date && p.loanBalanceAmount == r
    decreases |schedule|
  {
    if schedule == [] then fallback
    else if schedule[|schedule| - 1].date == date then schedule[|schedule| - 1].loanBalanceAmount
    else BalanceAt(schedule[..|schedule| - 1], date, fallback)
  }

  /** The lookup returns the balance of the latest entry on `date`, or the fallback when
      no entry has that date. */
  lemma {:induction false} BalanceAtIsLatest(schedule: seq<Payment>, date: Date, fallback: real)
    ensures var r := BalanceAt(schedule, date, fallback);
            ((exists i :: 0 <= i < |schedule| && schedule[i].date == date && r == schedule[i].loanBalanceAmount
                && forall j :: i < j < |schedule| ==> schedule[j].date != date)
             || (r == fallback && forall j :: 0 <= j < |schedule| ==> schedule[j].date != date))
    decreases |schedule|
  {
    if schedule == [] {
    } else if schedule[|schedule| - 1].date == date {
      assert BalanceAt(schedule, date, fallback) == schedule[|schedule| - 1].loanBalanceAmount;
    } else {
      var front := schedule[..|schedule| - 1];
      assert BalanceAt(schedule, date, fallback) == BalanceAt(front, date, fallback);
      BalanceAtIsLatest(front, date, fallback);
      assert forall j :: 0 <= j < |front| ==> front[j] == schedule[j];
    }
  }

  /** Everything the pass over the timeline reads and does not change. */
  datatype Plan = Plan(
    loan: Loan,
    ext: Externals,
    regular: seq<Date>,
    specials: map<Date, real>,
    regularAmount: real)

  /** The plan of a loan with its registered special payments. */
  function PlanOf(loan: Loan, ext: Externals, reg: Registry): Plan
    requires loan.Valid()
  {
    Plan(loan, ext, RegularDates(loan), ConsolidateSpecialPayments(reg.specialPaymentsSchedule),
         RegularPaymentAmount(loan, ext))
  }

  /** The amounts of one schedule entry before rounding. */
  datatype Accrual = Accrual(
    interest: real,
    principal: real,
    special: real,
    totalPrincipal: real,
    payment: real,
    balance: real)

  function LastBalance(schedule: seq<Payment>): real
    requires |schedule| > 0
  {
    schedule[|schedule| - 1].loanBalanceAmount
  }

  /** The unrounded amounts at one timeline date, given the schedule so far (whose last
      balance is positive) and the interest-only counter. Interest and regular principal
      arise only on regular dates; special principal only on consolidated dates, capped by
      what the regular principal left of the balance; a residual under one cent is swept
      into the principal. */
  function Accrue(plan: Plan, schedule: seq<Payment>, counter: int, date: Date): (a: Accrual)
    requires plan.loan.Valid()
    requires |schedule| > 0 && LastBalance(schedule) > 0.0
    ensures a.balance >= 0.0
    ensures a.balance == 0.0 || a.balance >= 0.01
    ensures a.totalPrincipal + a.balance == LastBalance(schedule)
    ensures a.payment == a.totalPrincipal + a.interest
    ensures a.principal + a.special <= LastBalance(schedule)
    ensures a.totalPrincipal == a.principal + a.special
            || (a.balance == 0.0 && 0.0 < LastBalance(schedule) - a.principal - a.special < 0.01)
    ensures date !in plan.regular ==> a.interest == 0.0 && a.principal == 0.0
    ensures date in plan.regular ==>
      var previous := LastRegularBefore(plan.regular, date, plan.loan.startDate);
      a.interest == InterestForPeriod(plan.loan, plan.ext, BalanceAt(schedule, previous, plan.loan.loanAmount), previous, date)
    ensures date in plan.regular && counter > 0 ==> a.principal == 0.0
    ensures date in plan.regular && counter <= 0 ==>
      var due := if plan.loan.loanType == Annuity then plan.regularAmount - a.interest else plan.regularAmount;
      && a.principal <= due
      && a.principal <= LastBalance(schedule)
      && (a.principal == due || a.principal == LastBalance(schedule))
    ensures date !in plan.specials ==> a.special == 0.0
    ensures date in plan.specials ==>
      a.special <= plan.specials[date]
      && (a.special == plan.specials[date] || a.principal + a.special == LastBalance(schedule))
  {
    var bop := LastBalance(schedule);
    var regularDay := date in plan.regular;
    var interest :=
      if regularDay then
        var lastRegular := LastRegularBefore(plan.regular, date, plan.loan.startDate);
        var opening := BalanceAt(schedule, lastRegular, plan.loan.loanAmount);
        InterestForPeriod(plan.loan, plan.ext, opening, lastRegular, date)
      else 0.0;
    var principal :=
      if regularDay && counter <= 0 then
        if plan.loan.loanType == Annuity then Min(plan.regularAmount - interest, bop)
        else Min(plan.regularAmount, bop)
      else 0.0;
    var special := if date in plan.specials then Min(bop - principal, plan.specials[date]) else 0.0;
    var total := principal + special;
    var eop := bop - total;
    if 0.0 < eop < 0.01 then Accrual(interest, principal, special, total + eop, total + interest + eop, 0.0)
    else Accrual(interest, principal, special, total, total + interest, eop)
  }

  /** The schedule entry for an accrual: every amount rounded to cents. */
  function Rounded(date: Date, a: Accrual): (p: Payment)
    ensures p.date == date
    ensures IsCents(p.paymentAmount) && IsCents(p.interestAmount) && IsCents(p.principalAmount)
            && IsCents(p.specialPrincipalAmount) && IsCents(p.totalPrincipalAmount) && IsCents(p.loanBalanceAmount)
    ensures -0.005 <= a.payment - p.paymentAmount < 0.005 && -0.005 <= a.interest - p.interestAmount < 0.005
    ensures -0.005 <= a.principal - p.principalAmount < 0.005 && -0.005 <= a.special - p.specialPrincipalAmount < 0.005
    ensures -0.005 <= a.totalPrincipal - p.totalPrincipalAmount < 0.005 && -0.005 <= a.balance - p.loanBalanceAmount < 0.005
  {
    Payment(date, Round2(a.payment), Round2(a.interest), Round2(a.principal), Round2(a.special),
            Round2(a.totalPrincipal), Round2(a.balance))
  }

  /** The entry appended for one timeline date. */
  function Step(plan: Plan, schedule: seq<Payment>, counter: int, date: Date): (p: Payment)
    requires plan.loan.Valid()
    requires |schedule| > 0 && LastBalance(schedule) > 0.0
    ensures p.date == date && p.loanBalanceAmount >= 0.0
  {
    Rounded(date, Accrue(plan, schedule, counter, date))
  }

  /** The interest-only counter counts down on regular dates only. */
  function NextCounter(plan: Plan, counter: int, date: Date): (r: int)
    ensures counter - 1 <= r <= counter
    ensures r < counter <==> date in plan.regular
  {
    if date in plan.regular then counter - 1 else counter
  }

  /** No balance is negative, and only the last entry may have reached zero: the pass
      stops as soon as a balance is paid off. */
  predicate BalancesOpen(schedule: seq<Payment>)
  {
    && (forall k :: 0 <= k < |schedule| ==> schedule[k].loanBalanceAmount >= 0.0)
    && (forall k :: 0 <= k < |schedule| - 1 ==> schedule[k].loanBalanceAmount > 0.0)
  }

  /** The loop of `get_payment_schedule` from a given point: each timeline date appends one
      entry while the last balance is positive; once it is not, the rest of the timeline
      is passed over. */
  function Fold(plan: Plan, timeline: seq<Date>, schedule: seq<Payment>, counter: int): (r: seq<Payment>)
    requires plan.loan.Valid()
    requires |schedule| > 0
    requires BalancesOpen(schedule)
    ensures |schedule| <= |r| <= |schedule| + |timeline|
    ensures forall k :: 0 <= k < |schedule| ==> r[k] == schedule[k]
    ensures forall k :: |schedule| <= k < |r| ==> r[k].date == timeline[k - |schedule|]
    ensures BalancesOpen(r)
    ensures |r| < |schedule| + |timeline| ==> LastBalance(r) == 0.0
    ensures LastBalance(schedule) <= 0.0 ==> r == schedule
    decreases |timeline|
  {
    if timeline == [] then schedule
    else if LastBalance(schedule) <= 0.0 then Fold(plan, timeline[1..], schedule, counter)
    else
      var date := timeline[0];
      var entry := Step(plan, schedule, counter, date);
      var next := schedule + [entry];
      assert forall k :: 0 <= k < |schedule| ==> next[k] == schedule[k];
      assert next[|schedule|] == entry;
      var r := Fold(plan, timeline[1..], next, NextCounter(plan, counter, date));
      assert forall k :: |next| <= k < |r| ==> r[k].date == timeline[k - |schedule|];
      r
  }

  /** The opening entry: dated at the start, no cash flow, the whole loan outstanding. */
  function InitialEntry(loan: Loan): (p: Payment)
    ensures p.date == loan.startDate && p.loanBalanceAmount == loan.loanAmount
    ensures p.paymentAmount == p.interestAmount == p.principalAmount == 0.0
    ensures p.specialPrincipalAmount == p.totalPrincipalAmount == 0.0
  {
    Payment(loan.startDate, 0.0, 0.0, 0.0, 0.0, 0.0, loan.loanAmount)
  }

  /** The dates the schedule walks: regular and consolidated special dates, ascending. */
  function LoanTimeline(loan: Loan, reg: Registry): seq<Date>
    requires loan.Valid()
  {
    PaymentTimeline(RegularDates(loan), ConsolidateSpecialPayments(reg.specialPaymentsSchedule))
  }

  /** The pass over a given timeline from the opening entry, with the counter starting at
      the interest-only period. */
  function Run(plan: Plan, timeline: seq<Date>): (r: seq<Payment>)
    requires plan.loan.Valid()
    ensures 1 <= |r| <= |timeline| + 1
    ensures r[0] == InitialEntry(plan.loan)
    ensures forall k :: 1 <= k < |r| ==> r[k].date == timeline[k - 1]
    ensures forall k :: 0 <= k < |r| ==> r[k].loanBalanceAmount >= 0.0
    ensures forall k :: 0 <= k < |r| - 1 ==> r[k].loanBalanceAmount > 0.0
    ensures |r| <= |timeline| ==> r[|r| - 1].loanBalanceAmount == 0.0
  {
    var init := InitialEntry(plan.loan);
    assert init.loanBalanceAmount >= 0.0;
    var r := Fold(plan, timeline, [init], plan.loan.interestOnlyPeriod);
    assert r[..1] == [init];
    r
  }

  /** `get_payment_schedule()`: the opening entry, then one entry per timeline date, in
      order, until the loan is paid off. Balances never go negative, and the schedule
      stops short of the timeline only at a zero balance. */
  function PaymentSchedule(loan: Loan, ext: Externals, reg: Registry): (r: seq<Payment>)
    requires loan.Valid()
    ensures 1 <= |r| <= |LoanTimeline(loan, reg)| + 1
    ensures r[0] == InitialEntry(loan)
    ensures forall k :: 1 <= k < |r| ==> r[k].date == LoanTimeline(loan, reg)[k - 1]
    ensures forall k :: 0 <= k < |r| ==> r[k].loanBalanceAmount >= 0.0
    ensures forall k :: 0 <= k < |r| - 1 ==> r[k].loanBalanceAmount > 0.0
    ensures |r| <= |LoanTimeline(loan, reg)| ==> r[|r| - 1].loanBalanceAmount == 0.0
  {
    Run(PlanOf(loan, ext, reg), LoanTimeline(loan, reg))
  }

  /** The entries after the opening one are dated strictly ascending. */
  lemma ScheduleDatesIncrease(loan: Loan, ext: Externals, reg: Registry, i: int, j: int)
    requires loan.Valid()
    requires 1 <= i < j < |PaymentSchedule(loan, ext, reg)|
    ensures Before(PaymentSchedule(loan, ext, reg)[i].date, PaymentSchedule(loan, ext, reg)[j].date)
  {
    var timeline := LoanTimeline(loan, reg);
    assert StrictlyIncreasing(timeline);
    assert Before(timeline[i - 1], timeline[j - 1]);
  }

  /** Every amount of the plan moves the balance down: a non-annuity loan (whose principal
      does not depend on interest), a non-negative regular amount, non-negative specials. */
  predicate NonNegativeFlows(plan: Plan) {
    && plan.loan.loanType != Annuity
    && plan.regularAmount >= 0.0
    && forall d :: d in plan.specials ==> plan.specials[d] >= 0.0
  }

  /** What holds between two consecutive schedule entries. */
  predicate EntryFacts(plan: Plan, previous: Payment, p: Payment) {
    && p.loanBalanceAmount >= 0.0
    && IsCents(p.loanBalanceAmount)
    && -0.01 <= previous.loanBalanceAmount - p.loanBalanceAmount - p.totalPrincipalAmount <= 0.01
    && -0.015 <= p.paymentAmount - p.totalPrincipalAmount - p.interestAmount <= 0.015
    && (p.date !in plan.regular ==> p.interestAmount == 0.0 && p.principalAmount == 0.0)
    && (p.date !in plan.specials ==> p.specialPrincipalAmount == 0.0)
    && (p.date in plan.specials && IsCents(plan.specials[p.date]) ==>
          p.specialPrincipalAmount <= plan.specials[p.date])
    && (NonNegativeFlows(plan) ==> p.loanBalanceAmount <= Round2(previous.loanBalanceAmount))
    && (plan.loan.loanType != Annuity && plan.regularAmount == 0.0 ==> p.principalAmount == 0.0)
    && (plan.loan.loanType != Annuity && plan.regularAmount >= 0.0 ==>
          p.principalAmount <= Round2(plan.regularAmount))
  }

  /** One step of the fold establishes the entry facts for the entry it appends. */
  lemma AccrueEntryFacts(plan: Plan, schedule: seq<Payment>, counter: int, date: Date)
    requires plan.loan.Valid()
    requires |schedule| > 0 && LastBalance(schedule) > 0.0
    ensures EntryFacts(plan, schedule[|schedule| - 1], Rounded(date, Accrue(plan, schedule, counter, date)))
  {
    var a := Accrue(plan, schedule, counter, date);
    var bop := LastBalance(schedule);
    Round2Zero();
    if date in plan.specials && IsCents(plan.specials[date]) {
      Round2Monotone(a.special, plan.specials[date]);
      Round2OfCents(plan.specials[date]);
    }
    if NonNegativeFlows(plan) {
      assert a.principal >= 0.0;
      assert a.special >= 0.0;
      Round2Monotone(a.balance, bop);
    }
    if plan.loan.loanType != Annuity && plan.regularAmount >= 0.0 {
      Round2Monotone(a.principal, plan.regularAmount);
    }
  }

  /** The entry facts for every pair of consecutive entries of `s`, stated recursively so
      that appending one entry adds one obligation. */
  predicate AllEntryFacts(plan: Plan, s: seq<Payment>)
    decreases |s|
  {
    |s| <= 1 || (AllEntryFacts(plan, s[..|s| - 1]) && EntryFacts(plan, s[|s| - 2], s[|s| - 1]))
  }

  lemma {:induction false} AllEntryFactsPairs(plan: Plan, s: seq<Payment>)
    requires AllEntryFacts(plan, s)
    ensures forall k :: 1 <= k < |s| ==> EntryFacts(plan, s[k - 1], s[k])
    decreases |s|
  {
    if |s| > 1 {
      var front := s[..|s| - 1];
      AllEntryFactsPairs(plan, front);
      assert forall k :: 0 <= k < |front| ==> front[k] == s[k];
    }
  }

  /** The fold keeps the entry facts for every pair of consecutive entries. */
  lemma {:induction false} FoldEntryFacts(plan: Plan, timeline: seq<Date>, schedule: seq<Payment>, counter: int)
    requires plan.loan.Valid()
    requires |schedule| > 0
    requires BalancesOpen(schedule)
    requires AllEntryFacts(plan, schedule)
    ensures AllEntryFacts(plan, Fold(plan, timeline, schedule, counter))
    decreases |timeline|
  {
    if timeline == [] {
    } else if LastBalance(schedule) <= 0.0 {
      FoldEntryFacts(plan, timeline[1..], schedule, counter);
    } else {
      var date := timeline[0];
      var entry := Step(plan, schedule, counter, date);
      AccrueEntryFacts(plan, schedule, counter, date);
      var next := schedule + [entry];
      assert next[..|next| - 1] == schedule;
      assert AllEntryFacts(plan, next);
      FoldEntryFacts(plan, timeline[1..], next, NextCounter(plan, counter, date));
    }
  }

  /** The entry facts hold across a run over any timeline. */
  lemma RunEntryFacts(plan: Plan, timeline: seq<Date>)
    requires plan.loan.Valid()
    ensures var r := Run(plan, timeline);
            forall k :: 1 <= k < |r| ==> EntryFacts(plan, r[k - 1], r[k])
  {
    var init := InitialEntry(plan.loan);
    assert Run(plan, timeline) == Fold(plan, timeline, [init], plan.loan.interestOnlyPeriod);
    FoldEntryFacts(plan, timeline, [init], plan.loan.interestOnlyPeriod);
    AllEntryFactsPairs(plan, Run(plan, timeline));
  }

  /** The entry facts hold across the whole payment schedule. */
  lemma ScheduleEntryFacts(loan: Loan, ext: Externals, reg: Registry)
    requires loan.Valid()
    ensures var r := PaymentSchedule(loan, ext, reg);
            forall k :: 1 <= k < |r| ==> EntryFacts(PlanOf(loan, ext, reg), r[k - 1], r[k])
  {
    RunEntryFacts(PlanOf(loan, ext, reg), LoanTimeline(loan, reg));
  }

  /** For a non-annuity loan with non-negative registered amounts, no entry after the first
      raises the balance, and the first does not exceed the loan amount rounded to cents. */
  lemma BalancesNonIncreasing(loan: Loan, ext: Externals, reg: Registry)
    requires loan.Valid() && loan.loanType != Annuity && RegistryInvariant(reg)
    ensures var r := PaymentSchedule(loan, ext, reg);
            (|r| > 1 ==> r[1].loanBalanceAmount <= Round2(loan.loanAmount))
            && forall i, j :: 1 <= i <= j < |r| ==> r[j].loanBalanceAmount <= r[i].loanBalanceAmount
  {
    BalanceStepsNonIncreasing(loan, ext, reg);
    ChainAfterFirst(PaymentSchedule(loan, ext, reg));
  }

  /** The chain argument applied to the entries after the opening one. */
  lemma ChainAfterFirst(r: seq<Payment>)
    requires forall k :: 2 <= k < |r| ==> r[k].loanBalanceAmount <= r[k - 1].loanBalanceAmount
    ensures forall i, j :: 1 <= i <= j < |r| ==> r[j].loanBalanceAmount <= r[i].loanBalanceAmount
  {
    if |r| > 1 {
      var tail := r[1..];
      assert forall i :: 1 <= i < |r| ==> tail[i - 1] == r[i];
      ChainNonIncreasing(tail);
    }
  }

  lemma BalanceStepsNonIncreasing(loan: Loan, ext: Externals, reg: Registry)
    requires loan.Valid() && loan.loanType != Annuity && RegistryInvariant(reg)
    ensures var r := PaymentSchedule(loan, ext, reg);
            (|r| > 1 ==> r[1].loanBalanceAmount <= Round2(loan.loanAmount))
            && forall k :: 2 <= k < |r| ==> r[k].loanBalanceAmount <= r[k - 1].loanBalanceAmount
  {
    var plan := PlanOf(loan, ext, reg);
    var r := PaymentSchedule(loan, ext, reg);
    ConsolidatedAmountsNonNegative(reg);
    assert NonNegativeFlows(plan);
    ScheduleEntryFacts(loan, ext, reg);
    forall k | 2 <= k < |r|
      ensures r[k].loanBalanceAmount <= r[k - 1].loanBalanceAmount
    {
      assert EntryFacts(plan, r[k - 2], r[k - 1]);
      Round2OfCents(r[k - 1].loanBalanceAmount);
      assert EntryFacts(plan, r[k - 1], r[k]);
    }
    if |r| > 1 {
      assert EntryFacts(plan, r[0], r[1]);
    }
  }

  /** Consecutive non-increase gives non-increase between any two entries. */
  lemma {:induction false} ChainNonIncreasing(s: seq<Payment>)
    requires forall k :: 1 <= k < |s| ==> s[k].loanBalanceAmount <= s[k - 1].loanBalanceAmount
    ensures forall i, j :: 0 <= i <= j < |s| ==> s[j].loanBalanceAmount <= s[i].loanBalanceAmount
    decreases |s|
  {
    if |s| > 1 {
      var front := s[..|s| - 1];
      assert forall k :: 0 <= k < |front| ==> front[k] == s[k];
      ChainNonIncreasing(front);
      forall i | 0 <= i < |s| - 1
        ensures s[|s| - 1].loanBalanceAmount <= s[i].loanBalanceAmount
      {
        assert front[i].loanBalanceAmount >= front[|front| - 1].loanBalanceAmount;
      }
    }
  }

  /** When each entry's balance drop matches its total principal to within a cent, the
      drops add up: the first balance less the last one is the summed total principal to
      within a cent per entry. */
  lemma {:induction false} Telescope(s: seq<Payment>)
    requires |s| > 0 && s[0].totalPrincipalAmount == 0.0
    requires forall k :: 1 <= k < |s| ==>
      -0.01 <= s[k - 1].loanBalanceAmount - s[k].loanBalanceAmount - s[k].totalPrincipalAmount <= 0.01
    ensures -0.01 * (|s| - 1) as real
            <= s[0].loanBalanceAmount - s[|s| - 1].loanBalanceAmount - SumTotalPrincipal(s)
            <= 0.01 * (|s| - 1) as real
    decreases |s|
  {
    if |s| > 1 {
      var front := s[..|s| - 1];
      assert forall k :: 0 <= k < |front| ==> front[k] == s[k];
      Telescope(front);
    } else {
      assert SumTotalPrincipal(s) == SumTotalPrincipal(s[..0]) + s[0].totalPrincipalAmount;
    }
  }

  /** Principal is conserved up to rounding: the loan amount equals the total principal
      repaid plus the final balance, to within one cent per emitted entry. */
  lemma PrincipalConservation(loan: Loan, ext: Externals, reg: Registry)
    requires loan.Valid()
    ensures var r := PaymentSchedule(loan, ext, reg);
            -0.01 * (|r| - 1) as real
            <= loan.loanAmount - r[|r| - 1].loanBalanceAmount - SumTotalPrincipal(r)
            <= 0.01 * (|r| - 1) as real
  {
    ScheduleEntryFacts(loan, ext, reg);
    Telescope(PaymentSchedule(loan, ext, reg));
  }

  /** For a non-annuity loan the regular principal of an entry never exceeds the regular
      instalment rounded to cents: it is the smaller of the instalment and what is left. */
  lemma RegularPrincipalAtMostInstalment(loan: Loan, ext: Externals, reg: Registry)
    requires loan.Valid() && loan.loanType != Annuity
    ensures var r := PaymentSchedule(loan, ext, reg);
            forall k :: 1 <= k < |r| ==> r[k].principalAmount <= Round2(RegularPaymentAmount(loan, ext))
  {
    var plan := PlanOf(loan, ext, reg);
    var r := PaymentSchedule(loan, ext, reg);
    ScheduleEntryFacts(loan, ext, reg);
    assert plan.regularAmount == RegularPaymentAmount(loan, ext) >= 0.0;
    forall k | 1 <= k < |r|
      ensures r[k].principalAmount <= Round2(RegularPaymentAmount(loan, ext))
    {
      assert EntryFacts(plan, r[k - 1], r[k]);
    }
  }

  /** An interest-only loan without an override never pays regular principal. */
  lemma InterestOnlyLoanPaysNoPrincipal(loan: Loan, ext: Externals, reg: Registry)
    requires loan.Valid() && loan.loanType == InterestOnly && loan.paymentAmount.None?
    ensures var r := PaymentSchedule(loan, ext, reg);
            forall k :: 0 <= k < |r| ==> r[k].principalAmount == 0.0
  {
    var plan := PlanOf(loan, ext, reg);
    var r := PaymentSchedule(loan, ext, reg);
    ScheduleEntryFacts(loan, ext, reg);
    forall k | 1 <= k < |r|
      ensures r[k].principalAmount == 0.0
    {
      assert EntryFacts(plan, r[k - 1], r[k]);
    }
  }

  /** How many of `dates` are regular payment dates. */
  function RegularCount(plan: Plan, dates: seq<Date>): (n: nat)
    ensures n <= |dates|
    decreases |dates|
  {
    if dates == [] then 0
    else (if dates[0] in plan.regular then 1 else 0) + RegularCount(plan, dates[1..])
  }

  /** While the counter is positive a step pays no regular principal. */
  lemma StepInInterestOnly(plan: Plan, schedule: seq<Payment>, counter: int, date: Date)
    requires plan.loan.Valid()
    requires |schedule| > 0 && LastBalance(schedule) > 0.0
    requires counter > 0
    ensures Step(plan, schedule, counter, date).principalAmount == 0.0
  {
    Round2Zero();
  }

  /** Counting the regular dates of a non-empty prefix: its head, then the rest. */
  lemma RegularCountPrefix(plan: Plan, timeline: seq<Date>, t: int)
    requires 1 <= t <= |timeline|
    ensures RegularCount(plan, timeline[..t])
         == (if timeline[0] in plan.regular then 1 else 0) + RegularCount(plan, timeline[1..][..t - 1])
  {
    assert timeline[..t][1..] == timeline[1..][..t - 1];
  }

  /** The counter at a timeline position is its start less the regular dates already
      passed, and while it is positive the entry pays no regular principal. */
  lemma {:induction false} FoldInterestOnly(plan: Plan, timeline: seq<Date>, schedule: seq<Payment>, counter: int)
    requires plan.loan.Valid()
    requires |schedule| > 0
    requires BalancesOpen(schedule)
    ensures var r := Fold(plan, timeline, schedule, counter);
            forall k :: |schedule| <= k < |r| && RegularCount(plan, timeline[..k - |schedule|]) < counter ==>
              r[k].principalAmount == 0.0
    decreases |timeline|
  {
    var r := Fold(plan, timeline, schedule, counter);
    if timeline == [] {
    } else if LastBalance(schedule) <= 0.0 {
      FoldInterestOnly(plan, timeline[1..], schedule, counter);
    } else {
      var next, nextCounter := FoldUnfold(plan, timeline, schedule, counter);
      FoldInterestOnly(plan, timeline[1..], next, nextCounter);
      forall k | |schedule| <= k < |r| && RegularCount(plan, timeline[..k - |schedule|]) < counter
        ensures r[k].principalAmount == 0.0
      {
        if k != |schedule| {
          RegularCountPrefix(plan, timeline, k - |schedule|);
        }
      }
    }
  }

  /** One step of the pass: the entry for the first date is appended and the rest of the
      timeline is folded over the longer schedule; during the interest-only period that
      entry pays no principal. */
  lemma FoldUnfold(plan: Plan, timeline: seq<Date>, schedule: seq<Payment>, counter: int)
    returns (next: seq<Payment>, nextCounter: int)
    requires plan.loan.Valid()
    requires |schedule| > 0
    requires BalancesOpen(schedule)
    requires timeline != [] && LastBalance(schedule) > 0.0
    ensures |next| == |schedule| + 1
    ensures forall k :: 0 <= k < |next| - 1 ==> next[k] == schedule[k]
    ensures BalancesOpen(next)
    ensures nextCounter == NextCounter(plan, counter, timeline[0])
    ensures Fold(plan, timeline, schedule, counter) == Fold(plan, timeline[1..], next, nextCounter)
    ensures next[|schedule|] == Step(plan, schedule, counter, timeline[0])
    ensures counter > 0 ==> next[|schedule|].principalAmount == 0.0
  {
    var entry := Step(plan, schedule, counter, timeline[0]);
    next := schedule + [entry];
    nextCounter := NextCounter(plan, counter, timeline[0]);
    assert next[|schedule|] == entry;
    if counter > 0 {
      StepInInterestOnly(plan, schedule, counter, timeline[0]);
    }
  }

  /** During the interest-only period, entries pay no regular principal: an entry reached
      before `interestOnlyPeriod` regular dates have passed has principal 0. */
  lemma InterestOnlyPeriodPaysNoPrincipal(loan: Loan, ext: Externals, reg: Registry, k: int)
    requires loan.Valid()
    requires 1 <= k < |PaymentSchedule(loan, ext, reg)|
    requires RegularCount(PlanOf(loan, ext, reg), LoanTimeline(loan, reg)[..k - 1]) < loan.interestOnlyPeriod
    ensures PaymentSchedule(loan, ext, reg)[k].principalAmount == 0.0
  {
    var init := InitialEntry(loan);
    assert PaymentSchedule(loan, ext, reg) == Fold(PlanOf(loan, ext, reg), LoanTimeline(loan, reg), [init], loan.interestOnlyPeriod);
    FoldInterestOnly(PlanOf(loan, ext, reg), LoanTimeline(loan, reg), [init], loan.interestOnlyPeriod);
  }

  /** With no special payments registered, the schedule walks the regular dates alone and
      no entry carries special principal. */
  lemma ScheduleWithoutSpecialPayments(loan: Loan, ext: Externals)
    requires loan.Valid()
    ensures |PaymentSchedule(loan, ext, EmptyRegistry)| <= |RegularDates(loan)| + 1
    ensures forall k :: 1 <= k < |PaymentSchedule(loan, ext, EmptyRegistry)| ==>
              PaymentSchedule(loan, ext, EmptyRegistry)[k].date == RegularDates(loan)[k - 1]
    ensures forall k :: 0 <= k < |PaymentSchedule(loan, ext, EmptyRegistry)| ==>
              PaymentSchedule(loan, ext, EmptyRegistry)[k].specialPrincipalAmount == 0.0
  {
    NoSpecialPaymentsTimeline(loan);
    var plan := PlanOf(loan, ext, EmptyRegistry);
    var r := PaymentSchedule(loan, ext, EmptyRegistry);
    ScheduleEntryFacts(loan, ext, EmptyRegistry);
    assert plan.specials == map[];
    forall k | 1 <= k < |r|
      ensures r[k].specialPrincipalAmount == 0.0
    {
      assert EntryFacts(plan, r[k - 1], r[k]);
    }
  }

  lemma NoSpecialPaymentsTimeline(loan: Loan)
    requires loan.Valid()
    ensures ConsolidateSpecialPayments(EmptyRegistry.specialPaymentsSchedule) == map[]
    ensures LoanTimeline(loan, EmptyRegistry) == RegularDates(loan)
  {
    assert Flatten(EmptyRegistry.specialPaymentsSchedule) == [];
    RegularDatesIncrease(loan);
    TimelineWithoutSpecialPayments(RegularDates(loan));
  }
}
