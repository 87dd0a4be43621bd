/** JavaScript dates: milliseconds since 1970, and the proleptic Gregorian
    calendar of ECMA-262, section 21.4.1. Months count from zero, days from one. */
module Calendar {

  const MS_PER_DAY := 86_400_000

  predicate IsLeap(y: int) { y % 4 == 0 && (y % 100 != 0 || y % 400 == 0) }

  function DaysInYear(y: int): int { if IsLeap(y) then 366 else 365 }

  /** The number of the first day of a year (section 21.4.1.3). */
  function DayFromYear(y: int): int {
    365 * (y - 1970) + (y - 1969) / 4 - (y - 1901) / 100 + (y - 1601) / 400
  }

  function MonthLength(y: int, m: nat): int
    requires m < 12
  {
    if m == 1 then (if IsLeap(y) then 29 else 28)
    else if m == 3 || m == 5 || m == 8 || m == 10 then 30
    else 31
  }

  function DaysBefore(y: int, m: nat): int
    requires m <= 12
  {
    if m == 0 then 0 else DaysBefore(y, m - 1) + MonthLength(y, m - 1)
  }

  /** MakeDay (section 21.4.1.12): the month and the day may overflow. */
  function MakeDay(y: int, m: int, d: int): int {
    DayFromYear(y + m / 12) + DaysBefore(y + m / 12, m % 12) + d - 1
  }

  datatype Date = Date(year: int, month: nat, day: int)

  function DayOf(c: Date): int
    requires c.month < 12
  {
    DayFromYear(c.year) + DaysBefore(c.year, c.month) + c.day - 1
  }

  predicate IsDate(c: Date) { c.month < 12 && 1 <= c.day <= MonthLength(c.year, c.month) }

  lemma FourthYears(y: int)
    ensures (y - 1968) / 4 == (y - 1969) / 4 + (if y % 4 == 0 then 1 else 0)
  {
  }

  lemma Centuries(y: int)
    ensures (y - 1900) / 100 == (y - 1901) / 100 + (if y % 100 == 0 then 1 else 0)
    ensures y % 100 == 0 ==> y % 4 == 0
  {
  }

  lemma FourthCenturies(y: int)
    ensures (y - 1600) / 400 == (y - 1601) / 400 + (if y % 400 == 0 then 1 else 0)
    ensures y % 400 == 0 ==> y % 100 == 0
  {
  }

  lemma YearLength(y: int)
    ensures DayFromYear(y + 1) == DayFromYear(y) + DaysInYear(y)
    ensures DaysBefore(y, 12) == DaysInYear(y)
  {
    FourthYears(y);
    Centuries(y);
    FourthCenturies(y);
    YearIsMonths(y);
  }

  lemma YearIsMonths(y: int)
    ensures DaysBefore(y, 12) == DaysInYear(y)
  {
    assert DaysBefore(y, 1) == 31;
    assert DaysBefore(y, 2) == 31 + MonthLength(y, 1);
    assert DaysBefore(y, 3) == DaysBefore(y, 2) + 31;
    assert DaysBefore(y, 4) == DaysBefore(y, 3) + 30;
    assert DaysBefore(y, 5) == DaysBefore(y, 4) + 31;
    assert DaysBefore(y, 6) == DaysBefore(y, 5) + 30;
    assert DaysBefore(y, 7) == DaysBefore(y, 6) + 31;
    assert DaysBefore(y, 8) == DaysBefore(y, 7) + 31;
    assert DaysBefore(y, 9) == DaysBefore(y, 8) + 30;
    assert DaysBefore(y, 10) == DaysBefore(y, 9) + 31;
    assert DaysBefore(y, 11) == DaysBefore(y, 10) + 30;
  }

  /** The largest year that does not start after the day, counting up. */
  function YearFrom(day: int, guess: int): (y: int)
    requires DayFromYear(guess) <= day
    ensures DayFromYear(y) <= day < DayFromYear(y + 1)
    decreases day - DayFromYear(guess)
  {
    YearLength(guess);
    if day < DayFromYear(guess + 1) then guess else YearFrom(day, guess + 1)
  }

  function MonthFrom(y: int, offset: int, m: nat): (r: nat)
    requires m < 12 && DaysBefore(y, m) <= offset < DaysBefore(y, 12)
    ensures r < 12 && DaysBefore(y, r) <= offset < DaysBefore(y, r + 1)
    decreases 12 - m
  {
    if offset < DaysBefore(y, m + 1) then m else MonthFrom(y, offset, m + 1)
  }

  /** A year no later than the day's. */
  function FirstGuess(day: int): (y: int)
    ensures DayFromYear(y) <= day
  {
    if day >= 0 then 1970 else 1970 + day
  }

  function DateOf(day: int): (c: Date)
    ensures IsDate(c)
    ensures DayOf(c) == day
  {
    var y := YearFrom(day, FirstGuess(day));
    YearLength(y);
    var offset := day - DayFromYear(y);
    var m := MonthFrom(y, offset, 0);
    Date(y, m, offset - DaysBefore(y, m) + 1)
  }

  lemma {:induction false} MonthsIncrease(y: int, a: nat, b: nat)
    requires a < b <= 12
    ensures DaysBefore(y, a) + MonthLength(y, a) <= DaysBefore(y, b)
    decreases b
  {
    if a + 1 < b {
      MonthsIncrease(y, a, b - 1);
    }
  }

  lemma {:induction false} YearsIncrease(a: int, b: int)
    requires a < b
    ensures DayFromYear(a) + DaysInYear(a) <= DayFromYear(b)
    decreases b - a
  {
    YearLength(b - 1);
    if a + 1 < b {
      YearsIncrease(a, b - 1);
    }
  }

  lemma DayWithinYear(c: Date)
    requires IsDate(c)
    ensures DayFromYear(c.year) <= DayOf(c) < DayFromYear(c.year) + DaysInYear(c.year)
  {
    YearLength(c.year);
    if c.month > 0 { MonthsIncrease(c.year, 0, c.month); }
    MonthsIncrease(c.year, c.month, 12);
  }

  /** Two dates of one day are the same date. */
  lemma DatesDiffer(a: Date, b: Date)
    requires IsDate(a) && IsDate(b) && DayOf(a) == DayOf(b)
    ensures a == b
  {
    DayWithinYear(a);
    DayWithinYear(b);
    if a.year < b.year { YearsIncrease(a.year, b.year); }
    if b.year < a.year { YearsIncrease(b.year, a.year); }
    if a.month < b.month { MonthsIncrease(a.year, a.month, b.month); }
    if b.month < a.month { MonthsIncrease(a.year, b.month, a.month); }
  }

  /** Every day has exactly one date, and numbering it gives the day back. */
  lemma DateOfMakeDay(c: Date)
    requires IsDate(c)
    ensures DateOf(MakeDay(c.year, c.month, c.day)) == c
  {
    MakeDayOfDate(c.year, c.month, c.day);
    DatesDiffer(DateOf(DayOf(c)), c);
  }

  lemma MakeDayOfDate(y: int, m: nat, d: int)
    requires m < 12
    ensures MakeDay(y, m, d) == DayOf(Date(y, m, d))
  {
    assert m / 12 == 0 && m % 12 == m;
  }

  // ----- addOneMonth -----

  function DateAt(t: int, offset: int): Date { DateOf((t + offset) / MS_PER_DAY) }

  /** setMonth(getMonth() + 1) in a time zone with a fixed offset, keeping the time
      of day; a day the next month does not have overflows into the one after. */
  function AddOneMonth(t: int, offset: int): int {
    var c := DateAt(t, offset);
    MakeDay(c.year, c.month + 1, c.day) * MS_PER_DAY + (t + offset) % MS_PER_DAY - offset
  }

  lemma NextMonthStarts(y: int, m: nat, d: int)
    requires m < 12
    ensures MakeDay(y, m + 1, d) == DayOf(Date(y, m, d)) + MonthLength(y, m)
  {
    if m == 11 {
      YearLength(y);
      assert (m + 1) / 12 == 1 && (m + 1) % 12 == 0;
    } else {
      MakeDayOfDate(y, m + 1, d);
    }
  }

  /** A month more is exactly the length of the month it starts in: 28 to 31 days. */
  lemma OneMonthForward(t: int, offset: int)
    ensures var c := DateAt(t, offset);
            && AddOneMonth(t, offset) == t + MonthLength(c.year, c.month) * MS_PER_DAY
            && 28 <= MonthLength(c.year, c.month) <= 31
  {
    var c := DateAt(t, offset);
    NextMonthStarts(c.year, c.month, c.day);
    var local := t + offset;
    assert local == local / MS_PER_DAY * MS_PER_DAY + local % MS_PER_DAY;
  }

  function NextMonth(c: Date): Date {
    if c.month == 11 then Date(c.year + 1, 0, c.day) else Date(c.year, c.month + 1, c.day)
  }

  /** The same day of the next month, when that month has it. */
  lemma SameDayNextMonth(t: int, offset: int)
    requires IsDate(NextMonth(DateAt(t, offset)))
    ensures DateAt(AddOneMonth(t, offset), offset) == NextMonth(DateAt(t, offset))
  {
    var c := DateAt(t, offset);
    OneMonthForward(t, offset);
    MonthLater(t, offset, MonthLength(c.year, c.month));
    NextMonthDay(c);
    DatesDiffer(DateAt(AddOneMonth(t, offset), offset), NextMonth(c));
  }

  lemma NextMonthDay(c: Date)
    requires IsDate(c)
    ensures DayOf(NextMonth(c)) == DayOf(c) + MonthLength(c.year, c.month)
  {
    YearLength(c.year);
  }

  lemma MonthLater(t: int, offset: int, days: int)
    requires AddOneMonth(t, offset) == t + days * MS_PER_DAY
    ensures DayOf(DateAt(AddOneMonth(t, offset), offset)) == DayOf(DateAt(t, offset)) + days
  {
    ShiftDays(t + offset, days);
    assert AddOneMonth(t, offset) + offset == t + offset + days * MS_PER_DAY;
  }

  lemma ShiftDays(t: int, k: int)
    ensures (t + k * MS_PER_DAY) / MS_PER_DAY == t / MS_PER_DAY + k
  {
    assert t + k * MS_PER_DAY == (t / MS_PER_DAY + k) * MS_PER_DAY + t % MS_PER_DAY;
  }
}
