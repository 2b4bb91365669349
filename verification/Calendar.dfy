/**
 The calendar arithmetic of `advanceDueOn`: day steps and month steps with the
 end-of-month clamp, compared through a single day count.
 */
module Calendar {
  import opened Outcomes

  datatype IntervalUnit = DAY | WEEK | MONTH | QUARTER | YEAR

  /** `month` counts months from January of year 0; `day` starts at 1. */
  datatype Date = Date(month: nat, day: nat) {
    predicate Valid() {
      1 <= day <= MonthLength(month)
    }
  }

  predicate IsLeap(year: nat) {
    year % 4 == 0 && (year % 100 != 0 || year % 400 == 0)
  }

  function MonthLength(month: nat): (days: nat)
    ensures 28 <= days <= 31
  {
    var m := month % 12;
    if m == 1 then (if IsLeap(month / 12) then 29 else 28)
    else if m == 3 || m == 5 || m == 8 || m == 10 then 30
    else 31
  }

  /** Days before the first of `month`. */
  function MonthStart(month: nat): nat {
    if month == 0 then 0 else MonthStart(month - 1) + MonthLength(month - 1)
  }

  function DayNumber(d: Date): nat
    requires d.Valid()
  {
    MonthStart(d.month) + d.day - 1
  }

  /** The date `rest` days after the first of `month`. */
  function DateFrom(month: nat, rest: nat): (d: Date)
    ensures d.Valid() && DayNumber(d) == MonthStart(month) + rest
    decreases rest
  {
    if rest < MonthLength(month) then Date(month, rest + 1)
    else DateFrom(month + 1, rest - MonthLength(month))
  }

  function DateOf(n: nat): (d: Date)
    ensures d.Valid() && DayNumber(d) == n
  {
    DateFrom(0, n)
  }

  function Min(a: nat, b: nat): nat {
    if a <= b then a else b
  }

  function AddDays(d: Date, n: nat): Date
    requires d.Valid()
  {
    DateOf(DayNumber(d) + n)
  }

  /** Month addition clamps the day to the length of the month it lands on. */
  function AddMonths(d: Date, n: nat): Date {
    Date(d.month + n, Min(d.day, MonthLength(d.month + n)))
  }

  function AdvanceDueOn(current: Date, unit: IntervalUnit, value: int): (r: Result<Date>)
    requires current.Valid()
    ensures r.Success? <==> value > 0
    ensures r.Success? ==> r.value.Valid() && DayNumber(current) < DayNumber(r.value)
  {
    if value <= 0 then Failure("interval_value must be > 0")
    else
      var next := match unit {
        case DAY => AddDays(current, value)
        case WEEK => AddDays(current, 7 * value)
        case MONTH => AddMonths(current, value)
        case QUARTER => AddMonths(current, 3 * value)
        case YEAR => AddMonths(current, 12 * value)
      };
      assert DayNumber(current) < DayNumber(next) by {
        if unit.MONTH? || unit.QUARTER? || unit.YEAR? {
          MonthDecidesOrder(current, next);
        }
      }
      Success(next)
  }

  // ---------------------------------------------------------------------------
  // One day count orders all dates
  // ---------------------------------------------------------------------------

  lemma {:induction false} MonthStartMonotone(m: nat, n: nat)
    requires m < n
    ensures MonthStart(m) + MonthLength(m) <= MonthStart(n)
  {
    if m + 1 < n {
      MonthStartMonotone(m, n - 1);
    }
  }

  lemma MonthDecidesOrder(a: Date, b: Date)
    requires a.Valid() && b.Valid()
    ensures a.month < b.month ==> DayNumber(a) < DayNumber(b)
    ensures DayNumber(a) <= DayNumber(b) <==>
            a.month < b.month || (a.month == b.month && a.day <= b.day)
  {
    if a.month < b.month {
      MonthStartMonotone(a.month, b.month);
    } else if b.month < a.month {
      MonthStartMonotone(b.month, a.month);
    }
  }

  /** Dates and day numbers are in one-to-one correspondence. */
  lemma DayNumberRoundTrip(d: Date, n: nat)
    requires d.Valid()
    ensures DateOf(DayNumber(d)) == d
    ensures DayNumber(DateOf(n)) == n
  {
    var e := DateOf(DayNumber(d));
    MonthDecidesOrder(d, e);
    MonthDecidesOrder(e, d);
  }

  /** How many of the years before `years` are leap years: every fourth, not every hundredth, but every 400th. */
  function LeapYears(years: nat): int {
    (years + 3) / 4 - (years + 99) / 100 + (years + 399) / 400
  }

  /** The recursive month table follows the Gregorian leap-year rule for every year. */
  lemma {:induction false} YearStartClosedForm(year: nat)
    ensures MonthStart(12 * year) == 365 * year + LeapYears(year)
  {
    if year > 0 {
      YearStartClosedForm(year - 1);
      OneYear(year - 1);
      LeapCount(year - 1);
    }
  }

  lemma Fours(y: nat)
    ensures (y + 4) / 4 == (y + 3) / 4 + (if y % 4 == 0 then 1 else 0)
  {
  }

  lemma Hundreds(y: nat)
    ensures (y + 100) / 100 == (y + 99) / 100 + (if y % 100 == 0 then 1 else 0)
  {
  }

  lemma FourHundreds(y: nat)
    ensures (y + 400) / 400 == (y + 399) / 400 + (if y % 400 == 0 then 1 else 0)
  {
  }

  lemma LeapCount(y: nat)
    ensures LeapYears(y + 1) == LeapYears(y) + (if IsLeap(y) then 1 else 0)
  {
    Fours(y);
    Hundreds(y);
    FourHundreds(y);
    Divisors(y);
  }

  lemma Divisors(y: nat)
    ensures y % 100 == 0 ==> y % 4 == 0
    ensures y % 400 == 0 ==> y % 100 == 0
  {
    assert y % 100 == 0 ==> y == 100 * (y / 100) == 4 * (25 * (y / 100));
    assert y % 400 == 0 ==> y == 400 * (y / 400) == 100 * (4 * (y / 400));
  }

  lemma LengthInYear(y: nat, k: nat)
    requires k < 12
    ensures MonthLength(12 * y + k) == if k == 1 then (if IsLeap(y) then 29 else 28)
                                       else if k == 3 || k == 5 || k == 8 || k == 10 then 30 else 31
  {
    assert (12 * y + k) % 12 == k && (12 * y + k) / 12 == y;
  }

  lemma HalfYear(m: nat)
    ensures MonthStart(m + 6) == MonthStart(m) + MonthLength(m) + MonthLength(m + 1) + MonthLength(m + 2)
                                 + MonthLength(m + 3) + MonthLength(m + 4) + MonthLength(m + 5)
  {
    assert MonthStart(m + 2) == MonthStart(m) + MonthLength(m) + MonthLength(m + 1);
    assert MonthStart(m + 4) == MonthStart(m + 2) + MonthLength(m + 2) + MonthLength(m + 3);
  }

  lemma FirstHalf(y: nat)
    ensures MonthStart(12 * y + 6) == MonthStart(12 * y) + 181 + (if IsLeap(y) then 1 else 0)
  {
    HalfYear(12 * y);
    LengthInYear(y, 0); LengthInYear(y, 1); LengthInYear(y, 2);
    LengthInYear(y, 3); LengthInYear(y, 4); LengthInYear(y, 5);
  }

  lemma SecondHalf(y: nat)
    ensures MonthStart(12 * y + 12) == MonthStart(12 * y + 6) + 184
  {
    HalfYear(12 * y + 6);
    LengthInYear(y, 6); LengthInYear(y, 7); LengthInYear(y, 8);
    LengthInYear(y, 9); LengthInYear(y, 10); LengthInYear(y, 11);
  }

  lemma OneYear(y: nat)
    ensures MonthStart(12 * (y + 1)) == MonthStart(12 * y) + 365 + (if IsLeap(y) then 1 else 0)
  {
    FirstHalf(y);
    SecondHalf(y);
    assert 12 * (y + 1) == 12 * y + 12;
  }

  // ---------------------------------------------------------------------------
  // Order preservation and repeated steps
  // ---------------------------------------------------------------------------

  /** Advancing two dates by the same interval never swaps them; day-based units keep them apart. */
  lemma AdvancePreservesOrder(a: Date, b: Date, unit: IntervalUnit, value: int)
    requires a.Valid() && b.Valid() && value > 0
    requires DayNumber(a) <= DayNumber(b)
    ensures DayNumber(AdvanceDueOn(a, unit, value).value) <= DayNumber(AdvanceDueOn(b, unit, value).value)
    ensures (unit.DAY? || unit.WEEK?) && a != b ==>
            DayNumber(AdvanceDueOn(a, unit, value).value) < DayNumber(AdvanceDueOn(b, unit, value).value)
  {
    match unit
    case DAY => AddDaysPreservesOrder(a, b, value);
    case WEEK => AddDaysPreservesOrder(a, b, 7 * value);
    case MONTH => AddMonthsPreservesOrder(a, b, value);
    case QUARTER => AddMonthsPreservesOrder(a, b, 3 * value);
    case YEAR => AddMonthsPreservesOrder(a, b, 12 * value);
  }

  lemma AddDaysPreservesOrder(a: Date, b: Date, n: nat)
    requires a.Valid() && b.Valid() && DayNumber(a) <= DayNumber(b)
    ensures DayNumber(AddDays(a, n)) <= DayNumber(AddDays(b, n))
    ensures a != b ==> DayNumber(AddDays(a, n)) < DayNumber(AddDays(b, n))
  {
    MonthDecidesOrder(a, b);
    MonthDecidesOrder(b, a);
    assert DayNumber(AddDays(a, n)) == DayNumber(a) + n && DayNumber(AddDays(b, n)) == DayNumber(b) + n;
  }

  lemma AddMonthsPreservesOrder(a: Date, b: Date, n: nat)
    requires a.Valid() && b.Valid() && DayNumber(a) <= DayNumber(b)
    ensures AddMonths(a, n).Valid() && AddMonths(b, n).Valid()
    ensures DayNumber(AddMonths(a, n)) <= DayNumber(AddMonths(b, n))
  {
    MonthDecidesOrder(a, b);
    MonthDecidesOrder(AddMonths(a, n), AddMonths(b, n));
  }

  /** Months between occurrences of a month-based unit. */
  function MonthsPerStep(unit: IntervalUnit, value: nat): nat
    requires unit.MONTH? || unit.QUARTER? || unit.YEAR?
  {
    match unit
    case MONTH => value
    case QUARTER => 3 * value
    case YEAR => 12 * value
    case _ => value
  }

  /** The date after `k` successive advances. */
  function Iterate(start: Date, unit: IntervalUnit, value: nat, k: nat): (d: Date)
    requires start.Valid() && value > 0
    ensures d.Valid()
  {
    if k == 0 then start else AdvanceDueOn(Iterate(start, unit, value, k - 1), unit, value).value
  }

  /** k day-based steps are exactly k times their length in days; a week has seven. */
  lemma {:induction false} DayStepsClosedForm(start: Date, unit: IntervalUnit, value: nat, k: nat)
    requires start.Valid() && value > 0 && (unit.DAY? || unit.WEEK?)
    ensures DayNumber(Iterate(start, unit, value, k)) == DayNumber(start) + k * (if unit.DAY? then value else 7 * value)
  {
    if k > 0 {
      DayStepsClosedForm(start, unit, value, k - 1);
      var n := if unit.DAY? then value else 7 * value;
      var p := Iterate(start, unit, value, k - 1);
      assert AdvanceDueOn(p, unit, value).value == AddDays(p, n);
      assert k * n == (k - 1) * n + n;
    }
  }

  /** The month reached by the j-th step of `n` months. */
  function Visited(start: Date, n: nat, j: nat): nat {
    if j == 0 then start.month else Visited(start, n, j - 1) + n
  }

  lemma {:induction false} VisitedClosedForm(start: Date, n: nat, j: nat)
    ensures Visited(start, n, j) == start.month + j * n
  {
    if j > 0 {
      VisitedClosedForm(start, n, j - 1);
      assert j * n == (j - 1) * n + n;
    }
  }

  /** `day` is the minimum of the start day and of the lengths of the months visited in k steps. */
  ghost predicate ClampedBy(start: Date, n: nat, k: nat, day: nat) {
    && day <= start.day
    && (forall j :: 1 <= j <= k ==> day <= MonthLength(Visited(start, n, j)))
    && (day == start.day || exists j :: 1 <= j <= k && day == MonthLength(Visited(start, n, j)))
  }

  lemma AdvanceByMonths(d: Date, unit: IntervalUnit, value: nat)
    requires d.Valid() && value > 0 && (unit.MONTH? || unit.QUARTER? || unit.YEAR?)
    ensures AdvanceDueOn(d, unit, value).value == AddMonths(d, MonthsPerStep(unit, value))
  {
  }

  lemma {:induction false} MonthStepsClamp(start: Date, unit: IntervalUnit, value: nat, k: nat)
    requires start.Valid() && value > 0 && (unit.MONTH? || unit.QUARTER? || unit.YEAR?)
    ensures Iterate(start, unit, value, k).month == Visited(start, MonthsPerStep(unit, value), k)
    ensures ClampedBy(start, MonthsPerStep(unit, value), k, Iterate(start, unit, value, k).day)
  {
    if k > 0 {
      MonthStepsClamp(start, unit, value, k - 1);
      var n, p := MonthsPerStep(unit, value), Iterate(start, unit, value, k - 1);
      AdvanceByMonths(p, unit, value);
      ClampAdvance(start, n, k, p);
    }
  }

  lemma ClampAdvance(start: Date, n: nat, k: nat, p: Date)
    requires k > 0 && p.month == Visited(start, n, k - 1) && ClampedBy(start, n, k - 1, p.day)
    ensures AddMonths(p, n).month == Visited(start, n, k) && ClampedBy(start, n, k, AddMonths(p, n).day)
  {
    ClampStep(start, n, k, p.day);
  }

  lemma ClampStep(start: Date, n: nat, k: nat, day: nat)
    requires k > 0 && ClampedBy(start, n, k - 1, day)
    ensures ClampedBy(start, n, k, Min(day, MonthLength(Visited(start, n, k))))
  {
    var m := MonthLength(Visited(start, n, k));
    if day != start.day && day <= m {
      var j :| 1 <= j <= k - 1 && day == MonthLength(Visited(start, n, j));
    }
  }

  /**
   After k month-based steps the month is exactly the start month plus k steps; the day is
   the minimum of the start day and of the lengths of all months visited on the way, so a
   short month shortens every later date too, though never below the 28th.
   */
  lemma MonthStepsClosedForm(start: Date, unit: IntervalUnit, value: nat, k: nat)
    requires start.Valid() && value > 0 && (unit.MONTH? || unit.QUARTER? || unit.YEAR?)
    ensures
      var d, n := Iterate(start, unit, value, k), MonthsPerStep(unit, value);
      && d.month == start.month + k * n
      && ClampedBy(start, n, k, d.day)
      && Min(start.day, 28) <= d.day
  {
    MonthStepsClamp(start, unit, value, k);
    VisitedClosedForm(start, MonthsPerStep(unit, value), k);
  }
}
