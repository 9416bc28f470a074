/** The Gregorian calendar, days numbered from 1 January of year 1 as Python's `date.toordinal` does. */
module Calendar {
  datatype Month = Month(year: int, month: int)

  datatype Date = Date(month: Month, day: int)

  predicate Leap(year: int) {
    year % 4 == 0 && (year % 100 != 0 || year % 400 == 0)
  }

  /** `days_in_month`. */
  function DaysIn(m: Month): (n: int)
    ensures 28 <= n <= 31
  {
    if m.month == 2 then (if Leap(m.year) then 29 else 28)
    else if m.month in {4, 6, 9, 11} then 30
    else 31
  }

  function NextMonth(m: Month): Month {
    if m.month == 12 then Month(m.year + 1, 1) else Month(m.year, m.month + 1)
  }

  predicate ValidMonth(m: Month) {
    1 <= m.month <= 12
  }

  predicate Valid(d: Date) {
    ValidMonth(d.month) && 1 <= d.day <= DaysIn(d.month)
  }

  function Tomorrow(d: Date): Date {
    if d.day < DaysIn(d.month) then Date(d.month, d.day + 1) else Date(NextMonth(d.month), 1)
  }

  /** The date of day number `n`. */
  function DateOf(n: nat): (d: Date)
    requires n >= 1
    ensures Valid(d)
  {
    if n == 1 then Date(Month(1, 1), 1) else Tomorrow(DateOf(n - 1))
  }

  function MonthOf(n: nat): Month
    requires n >= 1
  {
    DateOf(n).month
  }

  predicate MonthBefore(a: Month, b: Month) {
    a.year < b.year || (a.year == b.year && a.month < b.month)
  }

  predicate Before(a: Date, b: Date) {
    MonthBefore(a.month, b.month) || (a.month == b.month && a.day < b.day)
  }

  lemma {:induction false} DatesRise(n: nat, k: nat)
    requires 1 <= n < k
    ensures Before(DateOf(n), DateOf(k))
    decreases k
  {
    if n < k - 1 { DatesRise(n, k - 1); }
  }

  lemma {:induction false} DaysOfMonth(first: nat, i: nat)
    requires first >= 1 && DateOf(first).day == 1 && i < DaysIn(MonthOf(first))
    ensures DateOf(first + i) == Date(MonthOf(first), 1 + i)
  {
    if i > 0 { DaysOfMonth(first, i - 1); }
  }

  /** The days of a month are its first day and the ones after it, as many as the month has, and no others. */
  lemma {:induction false} MonthIsRange(first: nat, n: nat)
    requires first >= 1 && n >= 1 && DateOf(first).day == 1
    ensures MonthOf(n) == MonthOf(first) <==> first <= n < first + DaysIn(MonthOf(first))
  {
    var days := DaysIn(MonthOf(first));
    if n < first {
      DatesRise(n, first);
    } else if n < first + days {
      DaysOfMonth(first, n - first);
    } else {
      DaysOfMonth(first, days - 1);
      assert DateOf(first + days) == Date(NextMonth(MonthOf(first)), 1);
      if n > first + days { DatesRise(first + days, n); }
    }
  }

  lemma NextStarts(first: nat, m: Month)
    requires first >= 1 && DateOf(first) == Date(m, 1)
    ensures DateOf(first + DaysIn(m)) == Date(NextMonth(m), 1)
  {
    DaysOfMonth(first, DaysIn(m) - 1);
  }

  /** The first days of the months of a year, `k` months on. */
  function MonthStart(first: nat, year: int, k: nat): nat {
    if k == 0 then first else MonthStart(first, year, k - 1) + DaysIn(Month(year, k))
  }

  lemma {:induction false} MonthStarts(first: nat, year: int, k: nat)
    requires first >= 1 && DateOf(first) == Date(Month(year, 1), 1) && k <= 12
    ensures DateOf(MonthStart(first, year, k)) == Date(if k == 12 then Month(year + 1, 1) else Month(year, k + 1), 1)
    ensures MonthStart(first, year, k) >= first
  {
    hide DateOf, DaysIn;
    if k > 0 {
      MonthStarts(first, year, k - 1);
      NextStarts(MonthStart(first, year, k - 1), Month(year, k));
    }
  }

  /** From New Year to New Year is 365 days, or 366 in every fourth year but the centuries that 400 does not divide. */
  lemma YearLength(first: nat, year: int)
    requires first >= 1 && DateOf(first) == Date(Month(year, 1), 1)
    ensures
      var days := if year % 400 == 0 || (year % 4 == 0 && year % 100 != 0) then 366 else 365;
      DateOf(first + days) == Date(Month(year + 1, 1), 1)
  {
    MonthStarts(first, year, 12);
    hide DateOf, MonthStart;
    Quarter(first, year, 0);
    Quarter(first, year, 3);
    Quarter(first, year, 6);
    Quarter(first, year, 9);
    StartsAt(first, year);
  }

  lemma {:induction false} StartsAt(first: nat, year: int)
    ensures MonthStart(first, year, 0) == first
  {}

  lemma Quarter(first: nat, year: int, k: nat)
    ensures MonthStart(first, year, k + 3)
            == MonthStart(first, year, k) + DaysIn(Month(year, k + 1)) + DaysIn(Month(year, k + 2)) + DaysIn(Month(year, k + 3))
  {
    hide DaysIn;
    assert MonthStart(first, year, k + 2) == MonthStart(first, year, k + 1) + DaysIn(Month(year, k + 2));
  }
}
