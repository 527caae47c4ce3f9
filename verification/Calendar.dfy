/** Calendar months (app/modules/recruitment_retention.py): the same day some months earlier, clamped to
    the end of a shorter month, over the years 1 to 9999 that Python's dates know. */
module Calendar {
  import opened Wrappers

  datatype Date = Date(year: int, month: int, day: int)

  const MAX_YEAR := 9999

  predicate Divides(k: int, n: int)
    requires k > 0
  {
    n % k == 0
  }

  /** How many multiples of `k` there are up to `n`. */
  function Multiples(k: int, n: int): int
    requires k > 0
  {
    n / k
  }

  predicate Leap(year: int) { Divides(4, year) && (!Divides(100, year) || Divides(400, year)) }

  function LastDay(year: int, month: int): (n: int)
    ensures 28 <= n <= 31
  {
    if month == 2 then (if Leap(year) then 29 else 28)
    else if month in {4, 6, 9, 11} then 30
    else 31
  }

  predicate Valid(d: Date) {
    1 <= d.year <= MAX_YEAR && 1 <= d.month <= 12 && 1 <= d.day <= LastDay(d.year, d.month)
  }

  predicate Le(a: Date, b: Date) {
    a.year < b.year || (a.year == b.year && (a.month < b.month || (a.month == b.month && a.day <= b.day)))
  }

  // ---- Day numbers ----

  function DaysBeforeYear(year: int): int {
    (year - 1) * 365 + Multiples(4, year - 1) - Multiples(100, year - 1) + Multiples(400, year - 1)
  }

  function DaysBeforeMonth(year: int, month: int): int
    requires 1 <= month <= 12
    decreases month
  {
    if month == 1 then 0 else DaysBeforeMonth(year, month - 1) + LastDay(year, month - 1)
  }

  /** The number of a day, counted from the first day of year 1. */
  function Ordinal(d: Date): int
    requires 1 <= d.month <= 12
  {
    DaysBeforeYear(d.year) + DaysBeforeMonth(d.year, d.month) + d.day
  }

  // ---- Months before ----

  function Min(x: int, y: int): int { if x < y then x else y }

  /** Months since year 0. */
  function MonthIndex(d: Date): int { d.year * 12 + d.month - 1 }

  function YearOf(index: int): int { index / 12 }

  function MonthOf(index: int): (month: int)
    ensures 1 <= month <= 12
  {
    index % 12 + 1
  }

  /** None when a date outside Python's years has to be built. */
  function MonthsBefore(d: Date, months: int): Option<Date> {
    var index := MonthIndex(d) - months;
    var year, month := YearOf(index), MonthOf(index);
    var nextYear := if month == 12 then year + 1 else year;
    if year < 1 || year > MAX_YEAR || nextYear > MAX_YEAR then None
    else
      var last := Ordinal(Date(nextYear, if month == 12 then 1 else month + 1, 1)) - Ordinal(Date(year, month, 1));
      Some(Date(year, month, Min(d.day, last)))
  }

  lemma OneMoreMultiple(k: int, n: int)
    requires k in {4, 100, 400}
    ensures Multiples(k, n) - Multiples(k, n - 1) == if Divides(k, n) then 1 else 0
  {
  }

  lemma CenturiesAreMultiples(n: int)
    ensures Divides(100, n) ==> Divides(4, n)
    ensures Divides(400, n) ==> Divides(100, n)
  {
  }

  lemma YearStep(year: int)
    ensures DaysBeforeYear(year + 1) == DaysBeforeYear(year) + if Leap(year) then 366 else 365
  {
    hide Multiples, Divides;
    OneMoreMultiple(4, year);
    OneMoreMultiple(100, year);
    OneMoreMultiple(400, year);
    CenturiesAreMultiples(year);
  }

  lemma MonthSteps(year: int)
    ensures DaysBeforeMonth(year, 2) == 31
    ensures DaysBeforeMonth(year, 4) == 62 + LastDay(year, 2)
    ensures DaysBeforeMonth(year, 6) == 123 + LastDay(year, 2)
    ensures DaysBeforeMonth(year, 8) == 184 + LastDay(year, 2)
    ensures DaysBeforeMonth(year, 10) == 245 + LastDay(year, 2)
    ensures DaysBeforeMonth(year, 12) == 306 + LastDay(year, 2)
  {
  }

  lemma MonthLength(year: int, month: int)
    requires 1 <= month <= 12
    ensures Ordinal(Date(if month == 12 then year + 1 else year, if month == 12 then 1 else month + 1, 1))
         - Ordinal(Date(year, month, 1))
         == LastDay(year, month)
  {
    if month == 12 {
      YearStep(year);
      MonthSteps(year);
    }
  }

  lemma SplitIndex(index: int)
    ensures YearOf(index) * 12 + MonthOf(index) - 1 == index
  {
  }

  /** The result is a date, on the last day of its month when the day does not exist there. */
  lemma MonthsBeforeIs(d: Date, months: int)
    requires Valid(d)
    ensures var index := MonthIndex(d) - months;
            var r := MonthsBefore(d, months);
            && (r.Some? <==> 12 <= index < 12 * MAX_YEAR + 11)
            && (r.Some? ==> Valid(r.value) && MonthIndex(r.value) == index
                            && r.value.day == Min(d.day, LastDay(r.value.year, r.value.month)))
  {
    var index := MonthIndex(d) - months;
    MonthLength(YearOf(index), MonthOf(index));
    SplitIndex(index);
    hide Ordinal, LastDay, YearOf, MonthOf;
  }

  lemma IndexOrders(a: Date, b: Date)
    requires Valid(a) && Valid(b)
    ensures Le(a, b) <==> MonthIndex(a) < MonthIndex(b) || (MonthIndex(a) == MonthIndex(b) && a.day <= b.day)
  {
  }

  /** An earlier day never gives a later one. */
  lemma MonthsBeforeMonotone(a: Date, b: Date, months: int)
    requires Valid(a) && Valid(b) && Le(a, b)
    requires MonthsBefore(a, months).Some? && MonthsBefore(b, months).Some?
    ensures Le(MonthsBefore(a, months).value, MonthsBefore(b, months).value)
  {
    MonthsBeforeIs(a, months);
    MonthsBeforeIs(b, months);
    IndexOrders(a, b);
    var x, y := MonthsBefore(a, months).value, MonthsBefore(b, months).value;
    IndexOrders(x, y);
    hide MonthsBefore, LastDay;
    if MonthIndex(x) == MonthIndex(y) { SameMonth(x, y); }
  }

  lemma SameMonth(x: Date, y: Date)
    requires 1 <= x.month <= 12 && 1 <= y.month <= 12 && MonthIndex(x) == MonthIndex(y)
    ensures x.year == y.year && x.month == y.month
  {
  }

  /** Going back and forth returns to the day unless it was clamped. */
  lemma MonthsBackAndForth(d: Date, months: int)
    requires Valid(d) && MonthsBefore(d, months).Some? && MonthIndex(d) < 12 * MAX_YEAR + 11
    ensures var r := MonthsBefore(d, months).value;
            && MonthsBefore(r, -months).Some?
            && (MonthsBefore(r, -months).value == d <==> d.day <= LastDay(r.year, r.month))
  {
    MonthsBeforeIs(d, months);
    var r := MonthsBefore(d, months).value;
    MonthsBeforeIs(r, -months);
    hide MonthsBefore, LastDay;
    SameMonth(d, MonthsBefore(r, -months).value);
  }

  // ---- The order of dates is the order of days ----

  lemma {:induction false} YearsGrow(a: int, b: int)
    requires a <= b
    ensures DaysBeforeYear(b) >= DaysBeforeYear(a) + 365 * (b - a)
    decreases b - a
  {
    if a == b {
    } else {
      YearsGrow(a, b - 1);
      YearStep(b - 1);
    }
  }

  lemma {:induction false} MonthsGrow(year: int, a: int, b: int)
    requires 1 <= a < b <= 12
    ensures DaysBeforeMonth(year, b) >= DaysBeforeMonth(year, a) + LastDay(year, a)
    decreases b
  {
    if a + 1 == b {
    } else {
      MonthsGrow(year, a, b - 1);
    }
  }

  lemma DayInYear(d: Date)
    requires Valid(d)
    ensures DaysBeforeYear(d.year) < Ordinal(d) <= DaysBeforeYear(d.year + 1)
  {
    YearStep(d.year);
    MonthSteps(d.year);
    if d.month < 12 { MonthsGrow(d.year, d.month, 12); }
    if d.month > 1 { MonthsGrow(d.year, 1, d.month); }
  }

  lemma OrdinalGrows(a: Date, b: Date)
    requires Valid(a) && Valid(b) && Le(a, b) && a != b
    ensures Ordinal(a) < Ordinal(b)
  {
    if a.year < b.year {
      DayInYear(a);
      DayInYear(b);
      YearsGrow(a.year + 1, b.year);
    } else if a.month < b.month {
      MonthsGrow(a.year, a.month, b.month);
    }
  }

  /** Comparing dates is comparing day numbers. */
  lemma OrdinalOrders(a: Date, b: Date)
    requires Valid(a) && Valid(b)
    ensures Le(a, b) <==> Ordinal(a) <= Ordinal(b)
  {
    if a != b {
      if Le(a, b) { OrdinalGrows(a, b); } else { OrdinalGrows(b, a); }
    }
  }
}
