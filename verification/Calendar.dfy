/** Calendar days and their ISO text, as app/bezrealitky_url.py uses them through the datetime library. */
module Calendar {
  import opened Seqs
  import opened Decimals

  datatype Date = Date(year: int, month: int, day: int)

  const EPOCH_YEAR := 1970
  const SECONDS_PER_DAY := 86400

  predicate IsLeap(y: int) { y % 4 == 0 && (y % 100 != 0 || y % 400 == 0) }

  function YearDays(y: int): int { if IsLeap(y) then 366 else 365 }

  function MonthDays(y: int, m: int): int {
    if m == 2 then (if IsLeap(y) then 29 else 28) else if m == 4 || m == 6 || m == 9 || m == 11 then 30 else 31
  }

  predicate IsDate(d: Date) {
    1 <= d.year <= 9999 && 1 <= d.month <= 12 && 1 <= d.day <= MonthDays(d.year, d.month)
  }

  /** Days from the first of January 1970 to the first of January of a year. */
  function YearStart(y: int): int
    decreases if y >= EPOCH_YEAR then y - EPOCH_YEAR else EPOCH_YEAR - y
  {
    if y == EPOCH_YEAR then 0
    else if y > EPOCH_YEAR then YearStart(y - 1) + YearDays(y - 1)
    else YearStart(y + 1) - YearDays(y)
  }

  /** Days of a year before the first of a month. */
  function MonthStart(y: int, m: int): int
    requires 1 <= m <= 13
  {
    if m == 1 then 0 else MonthStart(y, m - 1) + MonthDays(y, m - 1)
  }

  function DayNumber(d: Date): int
    requires IsDate(d)
  {
    YearStart(d.year) + MonthStart(d.year, d.month) + d.day - 1
  }

  /** The day `n` days after the first of the given month, within the year. */
  function InMonth(y: int, m: int, n: nat): Date
    requires 1 <= m <= 12
    decreases 12 - m
  {
    if n < MonthDays(y, m) || m == 12 then Date(y, m, n + 1) else InMonth(y, m + 1, n - MonthDays(y, m))
  }

  /** The day `n` days after the first of January of the given year. */
  function InYear(y: int, n: nat): Date
    decreases n
  {
    if n < YearDays(y) then InMonth(y, 1, n) else InYear(y + 1, n - YearDays(y))
  }

  lemma MonthsFillYear(y: int)
    ensures MonthStart(y, 13) == YearDays(y)
  {
    assert MonthStart(y, 13) == MonthStart(y, 12) + 31 && MonthStart(y, 12) == MonthStart(y, 11) + 30;
    assert MonthStart(y, 11) == MonthStart(y, 10) + 31 && MonthStart(y, 10) == MonthStart(y, 9) + 30;
    assert MonthStart(y, 9) == MonthStart(y, 8) + 31 && MonthStart(y, 8) == MonthStart(y, 7) + 31;
    assert MonthStart(y, 7) == MonthStart(y, 6) + 30 && MonthStart(y, 6) == MonthStart(y, 5) + 31;
    assert MonthStart(y, 5) == MonthStart(y, 4) + 30 && MonthStart(y, 4) == MonthStart(y, 3) + 31;
    assert MonthStart(y, 3) == MonthStart(y, 2) + MonthDays(y, 2) && MonthStart(y, 2) == 31;
  }

  lemma {:induction false} InMonthIs(y: int, m: int, n: nat)
    requires 1 <= m <= 12 && n < YearDays(y) - MonthStart(y, m)
    ensures var d := InMonth(y, m, n);
            d.year == y && m <= d.month <= 12 && 1 <= d.day <= MonthDays(y, d.month)
            && MonthStart(y, d.month) + d.day - 1 == MonthStart(y, m) + n
    decreases 12 - m
  {
    MonthsFillYear(y);
    if n >= MonthDays(y, m) && m < 12 {
      InMonthIs(y, m + 1, n - MonthDays(y, m));
    }
  }

  lemma {:induction false} InYearIs(y: int, n: nat)
    requires y >= EPOCH_YEAR
    ensures var d := InYear(y, n);
            d.year >= y && 1 <= d.month <= 12 && 1 <= d.day <= MonthDays(d.year, d.month)
            && YearStart(d.year) + MonthStart(d.year, d.month) + d.day - 1 == YearStart(y) + n
    decreases n
  {
    if n < YearDays(y) {
      InMonthIs(y, 1, n);
    } else {
      InYearIs(y + 1, n - YearDays(y));
    }
  }

  /** Every day from 1970 on has one date, until the year 9999. */
  function DateOfDay(n: nat): (d: Option<Date>)
    ensures d.Some? ==> IsDate(d.value)
  {
    InYearIs(EPOCH_YEAR, n);
    var d := InYear(EPOCH_YEAR, n);
    if d.year <= 9999 then Some(d) else None
  }

  lemma DayOfDate(n: nat)
    requires DateOfDay(n).Some?
    ensures DayNumber(DateOfDay(n).value) == n
  {
    InYearIs(EPOCH_YEAR, n);
  }

  lemma {:induction false} InMonthOf(d: Date, m: int)
    requires IsDate(d) && 1 <= m <= d.month
    ensures MonthStart(d.year, d.month) >= MonthStart(d.year, m)
    ensures InMonth(d.year, m, MonthStart(d.year, d.month) - MonthStart(d.year, m) + d.day - 1) == d
    decreases d.month - m
  {
    if m < d.month {
      InMonthOf(d, m + 1);
    }
  }

  lemma {:induction false} InYearOf(d: Date, y: int)
    requires IsDate(d) && EPOCH_YEAR <= y <= d.year
    ensures DayNumber(d) >= YearStart(y)
    ensures InYear(y, DayNumber(d) - YearStart(y)) == d
    decreases d.year - y
  {
    InMonthOf(d, 1);
    MonthStartGrows(d.year, d.month);
    MonthsFillYear(d.year);
    if y < d.year {
      InYearOf(d, y + 1);
    }
  }

  lemma {:induction false} MonthStartGrows(y: int, m: int)
    requires 1 <= m <= 12
    ensures MonthStart(y, m) + MonthDays(y, m) <= MonthStart(y, 13)
    decreases 12 - m
  {
    if m < 12 {
      MonthStartGrows(y, m + 1);
    }
  }

  /** A date from 1970 on is found again from its day number. */
  lemma DateOfItsDay(d: Date)
    requires IsDate(d) && d.year >= EPOCH_YEAR
    ensures DayNumber(d) >= 0 && DateOfDay(DayNumber(d)) == Some(d)
  {
    InYearOf(d, EPOCH_YEAR);
  }

  // The calendar that this is

  ghost predicate LeapYear(y: int) { y % 400 == 0 || (y % 4 == 0 && y % 100 != 0) }

  ghost function DaysIn(y: int, m: int): int {
    if m in {1, 3, 5, 7, 8, 10, 12} then 31 else if m != 2 then 30 else if LeapYear(y) then 29 else 28
  }

  /** The day after. */
  ghost function Morrow(d: Date): Date {
    if d.day < DaysIn(d.year, d.month) then Date(d.year, d.month, d.day + 1)
    else if d.month < 12 then Date(d.year, d.month + 1, 1) else Date(d.year + 1, 1, 1)
  }

  /** Days are counted from the first of January 1970, and each one is one more than the day before, in the Gregorian
      calendar. */
  lemma DaysAreCounted(d: Date)
    ensures IsDate(d) <==> 1 <= d.year <= 9999 && 1 <= d.month <= 12 && 1 <= d.day <= DaysIn(d.year, d.month)
    ensures DayNumber(Date(1970, 1, 1)) == 0
    ensures IsDate(d) && IsDate(Morrow(d)) ==> DayNumber(Morrow(d)) == DayNumber(d) + 1
  {
    if IsDate(d) && d.day == DaysIn(d.year, d.month) && d.month == 12 {
      MonthsFillYear(d.year);
    }
  }

  // ISO text

  function Two(n: nat): (s: string)
    requires n < 100
    ensures |s| == 2
  {
    [DIGITS[n / 10], DIGITS[n % 10]]
  }

  function Iso(d: Date): (s: string)
    requires IsDate(d)
    ensures |s| == 10
  {
    Two(d.year / 100) + Two(d.year % 100) + "-" + Two(d.month) + "-" + Two(d.day)
  }

  predicate IsIso(s: string) {
    |s| == 10 && s[4] == '-' && s[7] == '-'
    && forall i :: 0 <= i < 10 && i != 4 && i != 7 ==> IsDigit(s[i])
  }

  /** `fromisoformat` for the form YYYY-MM-DD. */
  function ParseIso(s: string): (d: Option<Date>)
    ensures d.Some? ==> IsDate(d.value)
  {
    if !IsIso(s) then None else
      var d := Date(Value(s[..4]), Value(s[5..7]), Value(s[8..10]));
      if IsDate(d) then Some(d) else None
  }

  lemma ValueOfTwo(n: nat)
    requires n < 100
    ensures Value(Two(n)) == n && IsDigit(Two(n)[0]) && IsDigit(Two(n)[1])
  {
    DigitValue(n / 10);
    DigitValue(n % 10);
    var tens := [DIGITS[n / 10]];
    assert tens[..0] == "" && Value(tens) == n / 10;
    assert Two(n)[..1] == tens;
  }

  lemma ValueOfFour(a: nat, b: nat)
    requires a < 100 && b < 100
    ensures Value(Two(a) + Two(b)) == 100 * a + b
  {
    ValueOfTwo(a);
    DigitValue(b / 10);
    DigitValue(b % 10);
    var s := Two(a) + Two(b);
    assert s[..3] == Two(a) + [DIGITS[b / 10]] && s[..3][..2] == Two(a);
  }

  lemma IsoParts(d: Date)
    requires IsDate(d)
    ensures var s := Iso(d);
            s[..4] == Two(d.year / 100) + Two(d.year % 100) && s[5..7] == Two(d.month) && s[8..10] == Two(d.day)
  {
  }

  lemma IsoDigits(d: Date)
    requires IsDate(d)
    ensures IsIso(Iso(d))
  {
    var s := Iso(d);
    ValueOfTwo(d.year / 100);
    ValueOfTwo(d.year % 100);
    ValueOfTwo(d.month);
    ValueOfTwo(d.day);
    assert s[0] == Two(d.year / 100)[0] && s[1] == Two(d.year / 100)[1] && s[2] == Two(d.year % 100)[0]
        && s[3] == Two(d.year % 100)[1] && s[5] == Two(d.month)[0] && s[6] == Two(d.month)[1]
        && s[8] == Two(d.day)[0] && s[9] == Two(d.day)[1];
  }

  /** A date survives being printed and read. */
  lemma IsoIsInverse(d: Date)
    requires IsDate(d)
    ensures ParseIso(Iso(d)) == Some(d)
  {
    IsoParts(d);
    IsoDigits(d);
    ValueOfFour(d.year / 100, d.year % 100);
    ValueOfTwo(d.month);
    ValueOfTwo(d.day);
  }
}
