/** The proleptic Gregorian calendar that Python's `datetime` uses, with the day numbering of
    `date.toordinal()` (0001-01-01 is day 1). Day numbers are unbounded here; Python confines
    them to the years 1 to 9999. */
module Calendar {

  datatype Date = Date(year: int, month: int, day: int)

  predicate IsLeap(y: int) {
    y % 4 == 0 && (y % 100 != 0 || y % 400 == 0)
  }

  function DaysInYear(y: int): int {
    if IsLeap(y) then 366 else 365
  }

  function DaysInMonth(y: int, m: int): (n: int)
    requires 1 <= m <= 12
    ensures 28 <= n <= 31
  {
    if m == 2 then (if IsLeap(y) then 29 else 28)
    else if m == 4 || m == 6 || m == 9 || m == 11 then 30
    else 31
  }

  /** Days of year `y` before the first of month `m`; month 13 stands for the next January. */
  function DaysBeforeMonth(y: int, m: int): int
    requires 1 <= m <= 13
  {
    if m == 1 then 0 else DaysBeforeMonth(y, m - 1) + DaysInMonth(y, m - 1)
  }

  predicate ValidDate(d: Date) {
    1 <= d.month <= 12 && 1 <= d.day <= DaysInMonth(d.year, d.month)
  }

  /** Days before January 1 of year `y`, counted from 0001-01-01: the lengths of the years in
      between, added up (or taken away, for years before 1). */
  function DaysBeforeYear(y: int): int
    decreases if y < 1 then 1 - y else y - 1
  {
    if y == 1 then 0
    else if y > 1 then DaysBeforeYear(y - 1) + DaysInYear(y - 1)
    else DaysBeforeYear(y + 1) - DaysInYear(y)
  }

  /** The day number of a date (Python's `date.toordinal()`). */
  function ToOrdinal(d: Date): int
    requires ValidDate(d)
  {
    DaysBeforeYear(d.year) + DaysBeforeMonth(d.year, d.month) + d.day
  }

  lemma MonthStep(y: int, m: int)
    requires 1 <= m <= 12
    ensures DaysBeforeMonth(y, m + 1) == DaysBeforeMonth(y, m) + DaysInMonth(y, m)
    ensures DaysBeforeMonth(y, 1) == 0 && DaysBeforeMonth(y, 13) == DaysInYear(y)
  {
    assert DaysBeforeMonth(y, 13) == DaysBeforeMonth(y, 12) + 31;
    assert DaysBeforeMonth(y, 12) == DaysBeforeMonth(y, 11) + 30;
    assert DaysBeforeMonth(y, 11) == DaysBeforeMonth(y, 10) + 31;
    assert DaysBeforeMonth(y, 10) == DaysBeforeMonth(y, 9) + 30;
    assert DaysBeforeMonth(y, 9) == DaysBeforeMonth(y, 8) + 31;
    assert DaysBeforeMonth(y, 8) == DaysBeforeMonth(y, 7) + 31;
    assert DaysBeforeMonth(y, 7) == DaysBeforeMonth(y, 6) + 30;
    assert DaysBeforeMonth(y, 6) == DaysBeforeMonth(y, 5) + 31;
    assert DaysBeforeMonth(y, 5) == DaysBeforeMonth(y, 4) + 30;
    assert DaysBeforeMonth(y, 4) == DaysBeforeMonth(y, 3) + 31;
    assert DaysBeforeMonth(y, 3) == DaysBeforeMonth(y, 2) + DaysInMonth(y, 2);
    assert DaysBeforeMonth(y, 2) == 31;
  }

  /** One year further on adds the length of that year. */
  lemma YearStep(y: int)
    ensures DaysBeforeYear(y + 1) == DaysBeforeYear(y) + DaysInYear(y)
  {
  }

  lemma FloorStep4(y: int)
    ensures y / 4 - (y - 1) / 4 == if y % 4 == 0 then 1 else 0
  {
  }

  lemma FloorStep100(y: int)
    ensures y / 100 - (y - 1) / 100 == if y % 100 == 0 then 1 else 0
  {
  }

  lemma FloorStep400(y: int)
    ensures y / 400 - (y - 1) / 400 == if y % 400 == 0 then 1 else 0
  {
  }

  /** Python's closed form `_days_before_year`: 365 days a year plus one for every fourth year,
      less one for every hundredth, plus one for every four-hundredth. */
  function ClosedDaysBeforeYear(y: int): int {
    365 * (y - 1) + (y - 1) / 4 - (y - 1) / 100 + (y - 1) / 400
  }

  lemma DivisorsOfLeap(y: int)
    ensures y % 400 == 0 ==> y % 100 == 0
    ensures y % 100 == 0 ==> y % 4 == 0
  {
    var q, h := y / 400, y / 100;
    assert y == 400 * q + y % 400 && y == 100 * h + y % 100;
    if y % 400 == 0 {
      ModHundred(4 * q, 0);
    }
    if y % 100 == 0 {
      ModFour(25 * h, 0);
    }
  }

  lemma ModFour(q: int, r: int)
    requires 0 <= r < 4
    ensures (4 * q + r) % 4 == r
  {
  }

  /** The closed form grows by the length of each year. */
  lemma ClosedStep(y: int)
    ensures ClosedDaysBeforeYear(y + 1) == ClosedDaysBeforeYear(y) + DaysInYear(y)
  {
    FloorStep4(y);
    FloorStep100(y);
    FloorStep400(y);
    DivisorsOfLeap(y);
  }

  lemma {:induction false} DaysBeforeYearClosed(y: int)
    ensures DaysBeforeYear(y) == ClosedDaysBeforeYear(y)
    decreases if y < 1 then 1 - y else y - 1
  {
    if y > 1 {
      DaysBeforeYearClosed(y - 1);
      ClosedStep(y - 1);
    } else if y < 1 {
      DaysBeforeYearClosed(y + 1);
      ClosedStep(y);
    }
  }

  lemma {:induction false} DaysBeforeYearMonotonic(a: int, b: int)
    requires a <= b
    ensures DaysBeforeYear(a) + 365 * (b - a) <= DaysBeforeYear(b)
    decreases b - a
  {
    if a < b {
      DaysBeforeYearMonotonic(a, b - 1);
      YearStep(b - 1);
    }
  }

  lemma {:induction false} DaysBeforeMonthMonotonic(y: int, a: int, b: int)
    requires 1 <= a <= b <= 13
    ensures DaysBeforeMonth(y, a) + 28 * (b - a) <= DaysBeforeMonth(y, b)
    decreases b - a
  {
    if a < b {
      DaysBeforeMonthMonotonic(y, a, b - 1);
      MonthStep(y, b - 1);
    }
  }

  /** The year holding day `n`: the 400-, 100-, 4- and 1-year cycles of Python's `_ord2ymd`. */
  function YearOf(n: int): int {
    var n0 := n - 1;
    var r400 := n0 % 146097;
    var n100 := r400 / 36524;
    var r100 := r400 % 36524;
    var n4 := r100 / 1461;
    var n1 := (r100 % 1461) / 365;
    var y := 400 * (n0 / 146097) + 100 * n100 + 4 * n4 + n1 + 1;
    if n1 == 4 || n100 == 4 then y - 1 else y
  }

  /** The days before a year given by its 400-, 100-, 4- and 1-year cycles. */
  lemma DaysBeforeCycles(a: int, b: int, c: int, e: int)
    requires 0 <= b <= 3 && 0 <= c <= 24 && 0 <= e <= 3
    ensures DaysBeforeYear(400 * a + 100 * b + 4 * c + e + 1)
         == 146097 * a + 36524 * b + 1461 * c + 365 * e
  {
    var z := 400 * a + 100 * b + 4 * c + e;
    DaysBeforeYearClosed(z + 1);
    assert z / 4 == 100 * a + 25 * b + c;
    assert z / 100 == 4 * a + b;
    assert z / 400 == a;
  }

  lemma ModHundred(q: int, r: int)
    requires 0 <= r < 100
    ensures (100 * q + r) % 100 == r
  {
  }

  lemma LeapAtQuadEnd(a: int, b: int, c: int)
    requires 0 <= b <= 3 && 0 <= c <= 23
    ensures IsLeap(400 * a + 100 * b + 4 * c + 4)
  {
    var y := 400 * a + 100 * b + 4 * c + 4;
    assert y == 4 * (100 * a + 25 * b + c + 1) + 0;
    ModHundred(4 * a + b, 4 * c + 4);
    assert y == 100 * (4 * a + b) + (4 * c + 4);
  }

  lemma LeapAtCycleEnd(k: int)
    ensures IsLeap(400 * k)
  {
    var y := 400 * k;
    assert y == 4 * (100 * k) + 0;
    assert y == 400 * k + 0;
  }

  /** The year bounds of day `n`, given its position in the 400-, 100-, 4- and 1-year cycles. */
  lemma CycleBounds(n: int, a: int, b: int, c: int, e: int, d: int)
    requires n - 1 == 146097 * a + 36524 * b + 1461 * c + 365 * e + d
    requires 0 <= b <= 4 && 0 <= c <= 24 && 0 <= e <= 4 && 0 <= d < 365
    requires b == 4 ==> c == 0 && e == 0 && d == 0
    requires e == 4 ==> d == 0 && (c <= 23 || b == 4)
    requires c == 24 ==> e <= 3 || b == 4
    ensures var y := 400 * a + 100 * b + 4 * c + e + 1;
            var y' := if e == 4 || b == 4 then y - 1 else y;
            DaysBeforeYear(y') < n <= DaysBeforeYear(y' + 1)
  {
    var y := 400 * a + 100 * b + 4 * c + e + 1;
    if e == 4 && b < 4 {
      // The last day of a leap year that closes a four-year cycle.
      DaysBeforeCycles(a, b, c, 3);
      LeapAtQuadEnd(a, b, c);
      YearStep(y - 1);
    } else if b == 4 {
      // The last day of a leap year that closes a four-hundred-year cycle.
      DaysBeforeCycles(a, 3, 24, 3);
      LeapAtCycleEnd(a + 1);
      YearStep(y - 1);
    } else {
      DaysBeforeCycles(a, b, c, e);
      YearStep(y);
    }
  }

  lemma YearOfBounds(n: int)
    ensures DaysBeforeYear(YearOf(n)) < n <= DaysBeforeYear(YearOf(n) + 1)
  {
    var n0 := n - 1;
    var r400 := n0 % 146097;
    var r100 := r400 % 36524;
    var r4 := r100 % 1461;
    var a, b, c, e, d := n0 / 146097, r400 / 36524, r100 / 1461, r4 / 365, r4 % 365;
    assert n0 == 146097 * a + r400;
    assert r400 == 36524 * b + r100;
    assert r100 == 1461 * c + r4;
    assert r4 == 365 * e + d;
    CycleBounds(n, a, b, c, e, d);
  }

  /** At most one year holds a given day. */
  lemma YearUnique(y1: int, y2: int, n: int)
    requires DaysBeforeYear(y1) < n <= DaysBeforeYear(y1 + 1)
    requires DaysBeforeYear(y2) < n <= DaysBeforeYear(y2 + 1)
    ensures y1 == y2
  {
    if y1 < y2 {
      DaysBeforeYearMonotonic(y1 + 1, y2);
    } else if y2 < y1 {
      DaysBeforeYearMonotonic(y2 + 1, y1);
    }
  }

  /** The month of year `y` holding its day `doy`, searched from month `m` on. */
  function MonthOf(y: int, doy: int, m: int): (r: int)
    requires 1 <= m <= 12 && DaysBeforeMonth(y, m) < doy <= DaysInYear(y)
    ensures m <= r <= 12 && DaysBeforeMonth(y, r) < doy <= DaysBeforeMonth(y, r + 1)
    decreases 12 - m
  {
    MonthStep(y, m);
    if doy <= DaysBeforeMonth(y, m + 1) then m else MonthOf(y, doy, m + 1)
  }

  lemma MonthUnique(y: int, m1: int, m2: int, doy: int)
    requires 1 <= m1 <= 12 && 1 <= m2 <= 12
    requires DaysBeforeMonth(y, m1) < doy <= DaysBeforeMonth(y, m1 + 1)
    requires DaysBeforeMonth(y, m2) < doy <= DaysBeforeMonth(y, m2 + 1)
    ensures m1 == m2
  {
    if m1 < m2 {
      DaysBeforeMonthMonotonic(y, m1 + 1, m2);
    } else if m2 < m1 {
      DaysBeforeMonthMonotonic(y, m2 + 1, m1);
    }
  }

  /** Every day number is the number of some date: the one Python's `_ord2ymd` computes. */
  lemma OrdinalHasDate(n: int)
    ensures exists d :: ValidDate(d) && ToOrdinal(d) == n
  {
    YearOfBounds(n);
    var y := YearOf(n);
    YearStep(y);
    var doy := n - DaysBeforeYear(y);
    MonthStep(y, 1);
    var m := MonthOf(y, doy, 1);
    MonthStep(y, m);
    var d := Date(y, m, doy - DaysBeforeMonth(y, m));
    assert ValidDate(d) && ToOrdinal(d) == n;
  }

  /** A valid date's number falls inside its own year. */
  lemma OrdinalInYear(d: Date)
    requires ValidDate(d)
    ensures DaysBeforeYear(d.year) < ToOrdinal(d) <= DaysBeforeYear(d.year + 1)
  {
    MonthStep(d.year, d.month);
    DaysBeforeMonthMonotonic(d.year, 1, d.month);
    DaysBeforeMonthMonotonic(d.year, d.month + 1, 13);
    MonthStep(d.year, 12);
    YearStep(d.year);
  }

  /** Two valid dates with the same number are the same date. */
  lemma OrdinalInjective(a: Date, b: Date)
    requires ValidDate(a) && ValidDate(b) && ToOrdinal(a) == ToOrdinal(b)
    ensures a == b
  {
    var n := ToOrdinal(a);
    OrdinalInYear(a);
    OrdinalInYear(b);
    YearUnique(a.year, b.year, n);
    MonthUnique(a.year, a.month, b.month, n - DaysBeforeYear(a.year));
  }

  /** The date of day number `n` (Python's `date.fromordinal(n)`): the one valid date so numbered. */
  function FromOrdinal(n: int): (d: Date)
    ensures ValidDate(d)
    ensures ToOrdinal(d) == n
  {
    OrdinalHasDate(n);
    forall a: Date, b: Date | ValidDate(a) && ValidDate(b) && ToOrdinal(a) == n && ToOrdinal(b) == n
      ensures a == b
    {
      OrdinalInjective(a, b);
    }
    var d :| ValidDate(d) && ToOrdinal(d) == n;
    d
  }

  /** Numbering a valid date and converting back gives the date itself. */
  lemma FromToOrdinal(d: Date)
    requires ValidDate(d)
    ensures FromOrdinal(ToOrdinal(d)) == d
  {
    OrdinalInjective(FromOrdinal(ToOrdinal(d)), d);
  }

  /** The calendar's own rule for the following day, independent of day numbers. */
  function NextDay(d: Date): (r: Date)
    requires ValidDate(d)
    ensures ValidDate(r)
  {
    if d.day < DaysInMonth(d.year, d.month) then Date(d.year, d.month, d.day + 1)
    else if d.month < 12 then Date(d.year, d.month + 1, 1)
    else Date(d.year + 1, 1, 1)
  }

  /** The calendar's own rule for the preceding day: across the first of a month, of March after
      a leap February, and of January. */
  function PrevDay(d: Date): (r: Date)
    requires ValidDate(d)
    ensures ValidDate(r)
  {
    if d.day > 1 then Date(d.year, d.month, d.day - 1)
    else if d.month > 1 then Date(d.year, d.month - 1, DaysInMonth(d.year, d.month - 1))
    else Date(d.year - 1, 12, 31)
  }

  lemma NextDayOrdinal(d: Date)
    requires ValidDate(d)
    ensures ToOrdinal(NextDay(d)) == ToOrdinal(d) + 1
  {
    MonthStep(d.year, d.month);
    if d.day == DaysInMonth(d.year, d.month) && d.month == 12 {
      YearStep(d.year);
    }
  }

  lemma PrevDayOrdinal(d: Date)
    requires ValidDate(d)
    ensures ToOrdinal(PrevDay(d)) == ToOrdinal(d) - 1
  {
    if d.day == 1 {
      if d.month > 1 {
        MonthStep(d.year, d.month - 1);
      } else {
        YearStep(d.year - 1);
        MonthStep(d.year - 1, 12);
      }
    }
  }

  /** Stepping one day number back is the calendar's preceding day. */
  lemma FromOrdinalPred(n: int)
    ensures FromOrdinal(n - 1) == PrevDay(FromOrdinal(n))
  {
    var p := PrevDay(FromOrdinal(n));
    PrevDayOrdinal(FromOrdinal(n));
    FromToOrdinal(p);
  }

  /** Stepping one day number forward is the calendar's following day. */
  lemma FromOrdinalSucc(n: int)
    ensures FromOrdinal(n + 1) == NextDay(FromOrdinal(n))
  {
    var s := NextDay(FromOrdinal(n));
    NextDayOrdinal(FromOrdinal(n));
    FromToOrdinal(s);
  }

  /** Moving `k` days by repeating the calendar's day-by-day rules. */
  function AddDays(d: Date, k: int): (r: Date)
    requires ValidDate(d)
    ensures ValidDate(r)
    decreases if k < 0 then -k else k
  {
    if k == 0 then d
    else if k > 0 then AddDays(NextDay(d), k - 1)
    else AddDays(PrevDay(d), k + 1)
  }

  lemma SameDayNumber(n: int, m: int, x: Date)
    requires n == m && FromOrdinal(m) == x
    ensures FromOrdinal(n) == x
  {
  }

  lemma AddForwardStep(d: Date, k: int)
    requires ValidDate(d) && k > 0
    requires FromOrdinal(ToOrdinal(NextDay(d)) + (k - 1)) == AddDays(NextDay(d), k - 1)
    ensures FromOrdinal(ToOrdinal(d) + k) == AddDays(d, k)
  {
    NextDayOrdinal(d);
    SameDayNumber(ToOrdinal(d) + k, ToOrdinal(NextDay(d)) + (k - 1), AddDays(NextDay(d), k - 1));
  }

  lemma AddBackwardStep(d: Date, k: int)
    requires ValidDate(d) && k < 0
    requires FromOrdinal(ToOrdinal(PrevDay(d)) + (k + 1)) == AddDays(PrevDay(d), k + 1)
    ensures FromOrdinal(ToOrdinal(d) + k) == AddDays(d, k)
  {
    PrevDayOrdinal(d);
    SameDayNumber(ToOrdinal(d) + k, ToOrdinal(PrevDay(d)) + (k + 1), AddDays(PrevDay(d), k + 1));
  }

  /** Adding `k` to a day number moves its date by `k` calendar days. */
  lemma {:induction false} FromOrdinalAdd(d: Date, k: int)
    requires ValidDate(d)
    ensures FromOrdinal(ToOrdinal(d) + k) == AddDays(d, k)
    decreases if k < 0 then -k else k
  {
    if k == 0 {
      FromToOrdinal(d);
    } else if k > 0 {
      FromOrdinalAdd(NextDay(d), k - 1);
      AddForwardStep(d, k);
    } else {
      FromOrdinalAdd(PrevDay(d), k + 1);
      AddBackwardStep(d, k);
    }
  }
}
