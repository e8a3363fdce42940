/** The proleptic Gregorian calendar as `java.time.LocalDate` sees it: valid
    dates, the day count from 1970-01-01 (`toEpochDay`) and its inverse
    (`ofEpochDay`), and `LocalDate.toString`. */
module Calendar {
  import opened JavaText
  import opened JavaNum

  datatype Date = Date(year: int, month: int, day: int)

  predicate IsLeap(y: int) {
    y % 4 == 0 && (y % 100 != 0 || y % 400 == 0)
  }

  function DaysInMonth(y: int, m: int): nat {
    if m == 2 then (if IsLeap(y) then 29 else 28)
    else if m == 4 || m == 6 || m == 9 || m == 11 then 30
    else 31
  }

  /** A date `LocalDate.of` accepts: a month of the year and a day of that month. */
  predicate ValidDate(d: Date) {
    1 <= d.month <= 12 && 1 <= d.day <= DaysInMonth(d.year, d.month)
  }

  function YearLength(y: int): nat {
    if IsLeap(y) then 366 else 365
  }

  /** Days from 1970-01-01 to the first of January of `y` (negative before 1970). */
  function DaysBeforeYear(y: int): int
    decreases if y >= 1970 then y - 1970 else 1970 - y
  {
    if y == 1970 then 0
    else if y > 1970 then DaysBeforeYear(y - 1) + YearLength(y - 1)
    else DaysBeforeYear(y + 1) - YearLength(y)
  }

  /** Days from the first of January to the first of month `m`. */
  function DaysBeforeMonth(y: int, m: int): nat
    requires 1 <= m <= 12
  {
    [0, 31, 59, 90, 120, 151, 181, 212, 243, 273, 304, 334][m - 1]
      + (if m > 2 && IsLeap(y) then 1 else 0)
  }

  lemma NextYear(y: int)
    ensures DaysBeforeYear(y + 1) == DaysBeforeYear(y) + YearLength(y)
  {
  }

  lemma NextMonth(y: int, m: int)
    requires 1 <= m <= 12
    ensures DaysBeforeMonth(y, m) + DaysInMonth(y, m) == (if m == 12 then YearLength(y) else DaysBeforeMonth(y, m + 1))
  {
  }

  lemma {:induction false} DaysBeforeYearMonotone(a: int, b: int)
    requires a <= b
    ensures DaysBeforeYear(a) <= DaysBeforeYear(b)
    decreases b - a
  {
    if a < b {
      NextYear(a);
      DaysBeforeYearMonotone(a + 1, b);
    }
  }

  /** The date's place in its year, as `getDayOfYear() - 1`. */
  function DayOfYear(d: Date): nat
    requires ValidDate(d)
  {
    DaysBeforeMonth(d.year, d.month) + d.day - 1
  }

  lemma DayOfYearBound(d: Date)
    requires ValidDate(d)
    ensures DayOfYear(d) < YearLength(d.year)
  {
    NextMonth(d.year, d.month);
    if d.month < 12 {
      MonthsBeforeYearEnd(d.year, d.month + 1);
    }
  }

  lemma MonthsBeforeYearEnd(y: int, m: int)
    requires 1 <= m <= 12
    ensures DaysBeforeMonth(y, m) + DaysInMonth(y, 12) <= YearLength(y)
  {
  }

  /** `LocalDate.toEpochDay`: days since 1970-01-01. */
  function EpochDay(d: Date): int
    requires ValidDate(d)
  {
    DaysBeforeYear(d.year) + DayOfYear(d)
  }

  // ------------------------------------------------------------ the inverse

  /** The year holding day `r` of year `y`, counting forward, and the day in it. */
  function YearForward(y: int, r: nat): (res: (int, nat))
    ensures res.1 < YearLength(res.0)
    ensures DaysBeforeYear(res.0) + res.1 == DaysBeforeYear(y) + r
    decreases r
  {
    NextYear(y);
    if r < YearLength(y) then (y, r) else YearForward(y + 1, r - YearLength(y))
  }

  /** The year holding the day `-r` days before the first of January of `y`. */
  function YearBackward(y: int, r: int): (res: (int, nat))
    requires r < 0
    ensures res.1 < YearLength(res.0)
    ensures DaysBeforeYear(res.0) + res.1 == DaysBeforeYear(y) + r
    decreases -r
  {
    NextYear(y - 1);
    var r' := r + YearLength(y - 1);
    if r' >= 0 then (y - 1, r') else YearBackward(y - 1, r')
  }

  /** The month holding day `r` of the year, counting from month `m`. */
  function MonthOf(y: int, m: int, r: nat): (res: (int, nat))
    requires 1 <= m <= 12 && DaysBeforeMonth(y, m) + r < YearLength(y)
    ensures 1 <= res.0 <= 12 && res.1 < DaysInMonth(y, res.0)
    ensures DaysBeforeMonth(y, res.0) + res.1 == DaysBeforeMonth(y, m) + r
    decreases 12 - m
  {
    NextMonth(y, m);
    if m == 12 || r < DaysInMonth(y, m) then (m, r) else MonthOf(y, m + 1, r - DaysInMonth(y, m))
  }

  /** `LocalDate.ofEpochDay`: the date `n` days after 1970-01-01. */
  function CivilFromDays(n: int): (d: Date)
    ensures ValidDate(d)
  {
    var yr := if n >= 0 then YearForward(1970, n) else YearBackward(1970, n);
    var md := MonthOf(yr.0, 1, yr.1);
    Date(yr.0, md.0, md.1 + 1)
  }

  /** Counting the days of the date of day `n` gives back `n`. */
  lemma EpochDayOfCivil(n: int)
    ensures EpochDay(CivilFromDays(n)) == n
  {
  }

  lemma {:induction false} YearForwardFinds(z: int, y: int, off: nat)
    requires z <= y && off < YearLength(y)
    ensures var r := DaysBeforeYear(y) - DaysBeforeYear(z) + off;
      r >= 0 && YearForward(z, r) == (y, off)
    decreases y - z
  {
    DaysBeforeYearMonotone(z, y);
    if z < y {
      NextYear(z);
      DaysBeforeYearMonotone(z + 1, y);
      YearForwardFinds(z + 1, y, off);
    }
  }

  lemma {:induction false} YearBackwardFinds(z: int, y: int, off: nat)
    requires y < z && off < YearLength(y)
    ensures var r := DaysBeforeYear(y) - DaysBeforeYear(z) + off;
      r < 0 && YearBackward(z, r) == (y, off)
    decreases z - y
  {
    NextYear(y);
    DaysBeforeYearMonotone(y + 1, z);
    NextYear(z - 1);
    if y < z - 1 {
      DaysBeforeYearMonotone(y + 1, z - 1);
      YearBackwardFinds(z - 1, y, off);
    }
  }

  lemma {:induction false} MonthOfFinds(y: int, k: int, m: int, dd: nat)
    requires 1 <= k <= m <= 12 && dd < DaysInMonth(y, m)
    ensures var r := DaysBeforeMonth(y, m) - DaysBeforeMonth(y, k) + dd;
      r >= 0 && DaysBeforeMonth(y, k) + r < YearLength(y) && MonthOf(y, k, r) == (m, dd)
    decreases m - k
  {
    NextMonth(y, m);
    MonthsBeforeYearEnd(y, m);
    if k < m {
      NextMonth(y, k);
      MonthOfFinds(y, k + 1, m, dd);
    }
  }

  /** The date of a valid date's day count is that date: with
      `EpochDayOfCivil`, `EpochDay` and `CivilFromDays` are inverse bijections
      between valid dates and integers. */
  lemma CivilOfEpochDay(d: Date)
    requires ValidDate(d)
    ensures CivilFromDays(EpochDay(d)) == d
  {
    DayOfYearBound(d);
    var off := DayOfYear(d);
    if d.year >= 1970 {
      YearForwardFinds(1970, d.year, off);
    } else {
      YearBackwardFinds(1970, d.year, off);
    }
    MonthOfFinds(d.year, 1, d.month, d.day - 1);
  }

  // ------------------------------------------------------------ formatting

  function Pow10(n: nat): (p: nat)
    ensures p >= 1
  {
    if n == 0 then 1 else 10 * Pow10(n - 1)
  }

  /** `n` written with exactly `width` digits, zero-padded on the left. */
  function PadDigits(n: nat, width: nat): (r: string)
    requires n < Pow10(width)
    ensures |r| == width && AllDigits(r) && DigitsValue(r) == n
  {
    if width == 0 then []
    else
      var prefix := PadDigits(n / 10, width - 1);
      assert (prefix + [DigitChar(n % 10)])[..width - 1] == prefix;
      prefix + [DigitChar(n % 10)]
  }

  /** The year as `LocalDate.toString` writes it: at least four digits, a
      `-` before negative years and a `+` before years after 9999. (Java pads
      years below 1000 and prints the others in full; between -9999 and 9999
      both come to four digits.) */
  function FormatYear(y: int): string {
    if 0 <= y <= 9999 then PadDigits(y, 4)
    else if -9999 <= y < 0 then "-" + PadDigits(-y, 4)
    else if y > 9999 then "+" + NatToString(y)
    else "-" + NatToString(-y)
  }

  /** `LocalDate.toString`: year, two-digit month and two-digit day, joined by `-`. */
  function FormatDate(d: Date): string
    requires ValidDate(d)
  {
    FormatYear(d.year) + "-" + PadDigits(d.month, 2) + "-" + PadDigits(d.day, 2)
  }
}
