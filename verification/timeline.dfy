/** The payment timeline: the regular payment dates implied by the loan's frequency and
    end-of-month setting, merged with the special-payment dates into one sorted list. */
module Timeline {

  import opened Calendar
  import opened Loans

  predicate StrictlyIncreasing(s: seq<Date>) {
    forall i, j :: 0 <= i < j < |s| ==> Before(s[i], s[j])
  }

  /** A least element of a non-empty set of dates, found by removing one element at a time. */
  lemma {:induction false} LeastOf(s: set<Date>) returns (m: Date)
    requires s != {}
    ensures m in s && forall x :: x in s ==> NotAfter(m, x)
    decreases |s|
  {
    var y :| y in s;
    var rest := s - {y};
    if rest == {} {
      assert s <= {y};
      m := y;
    } else {
      var least := LeastOf(rest);
      MinimumOfAdded(rest, y, least);
      assert s == rest + {y};
      m := if Before(y, least) then y else least;
    }
  }

  lemma EarliestExists(s: set<Date>)
    requires s != {}
    ensures exists m :: m in s && forall x :: x in s ==> NotAfter(m, x)
  {
    var m := LeastOf(s);
  }

  /** Adding `y` to a set whose least element is `m`: the smaller of the two is least. */
  lemma MinimumOfAdded(rest: set<Date>, y: Date, m: Date)
    requires m in rest && forall x :: x in rest ==> NotAfter(m, x)
    ensures var least := if Before(y, m) then y else m;
            forall x :: x in rest + {y} ==> NotAfter(least, x)
  {
    var least := if Before(y, m) then y else m;
    forall x | x in rest + {y}
      ensures NotAfter(least, x)
    {
      BeforeIsStrictTotalOrder(y, m, x);
      BeforeIsStrictTotalOrder(m, y, x);
    }
  }

  /** The earliest date of a non-empty set. */
  function Earliest(s: set<Date>): (m: Date)
    requires s != {}
    ensures m in s
    ensures forall x :: x in s ==> NotAfter(m, x)
  {
    EarliestExists(s);
    var m :| m in s && forall x :: x in s ==> NotAfter(m, x);
    m
  }

  /** `sorted(s)` for a set of dates. */
  function SortDates(s: set<Date>): (r: seq<Date>)
    ensures StrictlyIncreasing(r)
    ensures forall d :: d in r <==> d in s
    ensures |r| == |s|
    decreases |s|
  {
    if s == {} then []
    else
      var m := Earliest(s);
      var rest := SortDates(s - {m});
      assert forall j :: 0 <= j < |rest| ==> Before(m, rest[j]) by {
        forall j | 0 <= j < |rest|
          ensures Before(m, rest[j])
        {
          assert rest[j] in s - {m};
        }
      }
      [m] + rest
  }

  /** The sorted list of a non-empty set starts with the set's least date, and that least
      date is unique. */
  lemma SortDatesStartsWithLeast(s: set<Date>, m: Date)
    requires m in s && forall x :: x in s ==> NotAfter(m, x)
    ensures |SortDates(s)| > 0 && SortDates(s)[0] == m
  {
    var e := Earliest(s);
    assert SortDates(s)[0] == e;
    if m != e {
      assert Before(m, e) && Before(e, m);
      BeforeIsStrictTotalOrder(m, e, m);
      assert false;
    }
  }

  lemma FirstElementIn(s: seq<Date>)
    requires s != []
    ensures s[0] in s
  {
  }

  /** A strictly increasing list is determined by its elements. */
  lemma {:induction false} SortedIsUnique(a: seq<Date>, b: seq<Date>)
    requires StrictlyIncreasing(a) && StrictlyIncreasing(b)
    requires forall d :: d in a <==> d in b
    ensures a == b
    decreases |a|
  {
    if a == [] && b != [] {
      FirstElementIn(b);
      assert false;
    } else if a != [] {
      assert a[0] in b;
      assert b[0] in a;
      if a[0] != b[0] {
        var k :| 0 <= k < |a| && a[k] == b[0];
        var m :| 0 <= m < |b| && b[m] == a[0];
        assert Before(a[0], a[k]);
        assert Before(b[0], b[m]);
        BeforeIsStrictTotalOrder(a[0], b[0], a[0]);
        assert false;
      }
      forall d
        ensures d in a[1..] <==> d in b[1..]
      {
        if d in a[1..] {
          var i :| 1 <= i < |a| && a[i] == d;
          assert Before(a[0], d);
          BeforeIsStrictTotalOrder(d, d, d);
          assert d in b && d != b[0];
          var j :| 0 <= j < |b| && b[j] == d;
          assert j != 0;
        }
        if d in b[1..] {
          var j :| 1 <= j < |b| && b[j] == d;
          assert Before(b[0], d);
          BeforeIsStrictTotalOrder(d, d, d);
          assert d in a && d != a[0];
          var i :| 0 <= i < |a| && a[i] == d;
          assert i != 0;
        }
      }
      SortedIsUnique(a[1..], b[1..]);
    }
  }

  /** `sorted(set(regular_dates).union(special_payments.keys()))`: every event date once,
      in chronological order. */
  function PaymentTimeline(regular: seq<Date>, specials: map<Date, real>): (r: seq<Date>)
    ensures StrictlyIncreasing(r)
    ensures forall d :: d in r <==> d in regular || d in specials
  {
    SortDates((set d | d in regular) + specials.Keys)
  }

  /** Without special payments the timeline is the list of regular dates itself. */
  lemma TimelineWithoutSpecialPayments(regular: seq<Date>)
    requires StrictlyIncreasing(regular)
    ensures PaymentTimeline(regular, map[]) == regular
  {
    SortedIsUnique(PaymentTimeline(regular, map[]), regular);
  }

  /** `int(12 / annual_payments)`: whole months between regular payments. */
  function MonthsBetweenPayments(annualPayments: int): (months: int)
    requires annualPayments in {12, 4, 2, 1}
    ensures months * annualPayments == 12
    ensures months >= 1
  {
    12 / annualPayments
  }

  /** The regular date after `d`: some months later, snapped to the month's end when
      payments are end-of-month. */
  function NextRegularDate(d: Date, months: int, endOfMonth: bool): (r: Date)
    requires IsCalendarDate(d)
    ensures IsCalendarDate(r)
    ensures MonthIndex(r) == MonthIndex(d) + months
    ensures endOfMonth ==> IsLastDayOfMonth(r)
    ensures !endOfMonth ==> r.day <= d.day && (r.day == d.day || IsLastDayOfMonth(r))
  {
    var moved := AddMonths(d, months);
    if endOfMonth then EndOfMonth(moved) else moved
  }

  /** The first regular date derived for end-of-month payments: the end of the start
      month, or of the month one period later when the start already is a month end. */
  function FirstMonthEnd(start: Date, months: int): (r: Date)
    requires IsCalendarDate(start) && months >= 1
    ensures IsCalendarDate(r) && IsLastDayOfMonth(r)
    ensures MonthIndex(r) == MonthIndex(start) + (if IsLastDayOfMonth(start) then months else 0)
    ensures Before(start, r)
  {
    if IsLastDayOfMonth(start) then
      var r := EndOfMonth(AddMonths(start, months));
      MonthIndexOrder(start, r);
      r
    else
      EndOfMonth(start)
  }

  /** The first regular date derived without end-of-month payments: one period after
      the start, with the day clamped. */
  function FirstPlain(start: Date, months: int): (r: Date)
    requires IsCalendarDate(start) && months >= 1
    ensures IsCalendarDate(r)
    ensures MonthIndex(r) == MonthIndex(start) + months
    ensures r.day <= start.day && (r.day == start.day || IsLastDayOfMonth(r))
    ensures Before(start, r)
  {
    var r := AddMonths(start, months);
    MonthIndexOrder(start, r);
    r
  }

  /** The first regular date: the explicit first payment date unchanged; otherwise the
      end of the start month (or of the following period's month when the start already
      is a month end) for end-of-month payments, and one period after the start if not. */
  function FirstRegularDate(loan: Loan): (r: Date)
    requires loan.Valid()
    ensures IsCalendarDate(r)
    ensures NotAfter(loan.startDate, r)
    ensures loan.firstPaymentDate.Some? ==> r == loan.firstPaymentDate.value
    ensures loan.firstPaymentDate.None? ==> Before(loan.startDate, r)
    ensures loan.firstPaymentDate.None? && loan.paymentEndOfMonth ==>
      && IsLastDayOfMonth(r)
      && MonthIndex(r) == MonthIndex(loan.startDate)
           + (if IsLastDayOfMonth(loan.startDate) then MonthsBetweenPayments(loan.annualPayments) else 0)
    ensures loan.firstPaymentDate.None? && !loan.paymentEndOfMonth ==>
      && MonthIndex(r) == MonthIndex(loan.startDate) + MonthsBetweenPayments(loan.annualPayments)
      && r.day <= loan.startDate.day
      && (r.day == loan.startDate.day || IsLastDayOfMonth(r))
  {
    var months := MonthsBetweenPayments(loan.annualPayments);
    if loan.firstPaymentDate.Some? then loan.firstPaymentDate.value
    else if loan.paymentEndOfMonth then FirstMonthEnd(loan.startDate, months)
    else FirstPlain(loan.startDate, months)
  }

  /** `count` dates from `first`, each the regular successor of the one before. */
  function DateChain(first: Date, count: nat, months: int, endOfMonth: bool): (r: seq<Date>)
    requires IsCalendarDate(first)
    ensures |r| == count
    ensures count > 0 ==> r[0] == first
    ensures forall i :: 0 <= i < count ==> IsCalendarDate(r[i])
    ensures forall i :: 0 < i < count ==> r[i] == NextRegularDate(r[i - 1], months, endOfMonth)
    decreases count
  {
    if count == 0 then []
    else [first] + DateChain(NextRegularDate(first, months, endOfMonth), count - 1, months, endOfMonth)
  }

  /** The regular payment dates. With an explicit first payment date the first one is
      always produced, even when the loan has no payments. */
  function RegularDates(loan: Loan): (r: seq<Date>)
    requires loan.Valid()
    ensures |r| == if loan.firstPaymentDate.Some? && loan.noOfPayments == 0 then 1 else loan.noOfPayments
  {
    var count := if loan.firstPaymentDate.Some? && loan.noOfPayments == 0 then 1 else loan.noOfPayments;
    DateChain(FirstRegularDate(loan), count, MonthsBetweenPayments(loan.annualPayments), loan.paymentEndOfMonth)
  }

  /** Date `i` of a chain lies exactly `i` steps, in months, after the first. */
  lemma {:induction false} ChainMonthIndex(first: Date, count: nat, months: int, endOfMonth: bool, i: int)
    requires IsCalendarDate(first)
    requires 0 <= i < count
    ensures MonthIndex(DateChain(first, count, months, endOfMonth)[i]) == MonthIndex(first) + i * months
  {
    if i > 0 {
      ChainMonthIndex(first, count, months, endOfMonth, i - 1);
      assert (i - 1) * months + months == i * months;
    }
  }

  /** A chain advancing by at least one month is strictly increasing. */
  lemma ChainIncreases(first: Date, count: nat, months: int, endOfMonth: bool)
    requires IsCalendarDate(first) && months >= 1
    ensures StrictlyIncreasing(DateChain(first, count, months, endOfMonth))
  {
    forall i, j | 0 <= i < j < count
      ensures Before(DateChain(first, count, months, endOfMonth)[i], DateChain(first, count, months, endOfMonth)[j])
    {
      ChainPairOrdered(first, count, months, endOfMonth, i, j);
    }
  }

  lemma ChainPairOrdered(first: Date, count: nat, months: int, endOfMonth: bool, i: int, j: int)
    requires IsCalendarDate(first) && months >= 1
    requires 0 <= i < j < count
    ensures Before(DateChain(first, count, months, endOfMonth)[i], DateChain(first, count, months, endOfMonth)[j])
  {
    var r := DateChain(first, count, months, endOfMonth);
    ChainMonthIndex(first, count, months, endOfMonth, i);
    ChainMonthIndex(first, count, months, endOfMonth, j);
    ScaleStrict(i, j, months);
    MonthIndexOrder(r[i], r[j]);
  }

  lemma ScaleStrict(i: int, j: int, m: int)
    requires i < j && m >= 1
    ensures i * m < j * m
  {
    assert j * m - i * m == (j - i) * m;
  }

  /** Regular date `i` lies exactly `i` periods, in months, after the first. */
  lemma RegularDatesMonthIndex(loan: Loan, i: int)
    requires loan.Valid()
    requires 0 <= i < |RegularDates(loan)|
    ensures var r := RegularDates(loan);
            MonthIndex(r[i]) == MonthIndex(r[0]) + i * MonthsBetweenPayments(loan.annualPayments)
  {
    var count := if loan.firstPaymentDate.Some? && loan.noOfPayments == 0 then 1 else loan.noOfPayments;
    ChainMonthIndex(FirstRegularDate(loan), count, MonthsBetweenPayments(loan.annualPayments),
                    loan.paymentEndOfMonth, i);
  }

  /** Regular dates are strictly increasing and none precedes the start date (none
      coincides with it either unless it is the explicit first payment date). */
  lemma RegularDatesIncrease(loan: Loan)
    requires loan.Valid()
    ensures StrictlyIncreasing(RegularDates(loan))
    ensures forall i :: 0 <= i < |RegularDates(loan)| ==> NotAfter(loan.startDate, RegularDates(loan)[i])
    ensures loan.firstPaymentDate.None? ==>
      forall i :: 0 <= i < |RegularDates(loan)| ==> Before(loan.startDate, RegularDates(loan)[i])
  {
    var r := RegularDates(loan);
    var count := if loan.firstPaymentDate.Some? && loan.noOfPayments == 0 then 1 else loan.noOfPayments;
    ChainIncreases(FirstRegularDate(loan), count, MonthsBetweenPayments(loan.annualPayments),
                   loan.paymentEndOfMonth);
    forall i | 0 < i < |r|
      ensures Before(loan.startDate, r[i])
    {
      BeforeIsStrictTotalOrder(loan.startDate, r[0], r[i]);
    }
  }

  /** With end-of-month payments every regular date is a month end, except an explicit
      first payment date, which is taken as given. */
  lemma RegularDatesAtMonthEnd(loan: Loan)
    requires loan.Valid() && loan.paymentEndOfMonth
    ensures var r := RegularDates(loan);
            forall i :: 0 <= i < |r| && (i > 0 || loan.firstPaymentDate.None?) ==> IsLastDayOfMonth(r[i])
  {
    var r := RegularDates(loan);
    var months := MonthsBetweenPayments(loan.annualPayments);
    forall i | 0 <= i < |r| && (i > 0 || loan.firstPaymentDate.None?)
      ensures IsLastDayOfMonth(r[i])
    {
      if i > 0 {
        assert r[i] == NextRegularDate(r[i - 1], months, true);
      }
    }
  }

  /** Without end-of-month snapping each date is chained from the previous one, so a day
      clamped in a short month stays clamped: days never increase along the schedule. */
  lemma {:induction false} RegularDaysNeverIncrease(loan: Loan, i: int, j: int)
    requires loan.Valid() && !loan.paymentEndOfMonth
    requires 0 <= i <= j < |RegularDates(loan)|
    ensures RegularDates(loan)[j].day <= RegularDates(loan)[i].day
    decreases j - i
  {
    if i < j {
      RegularDaysNeverIncrease(loan, i, j - 1);
    }
  }
}
