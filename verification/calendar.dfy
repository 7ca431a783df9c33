/** Proleptic Gregorian dates as Python's `datetime.date` holds them, their
    day ordinals (`toordinal`), and the `%Y%m%d` text `strftime` makes of them. */
module Calendar {

  datatype CalendarDate = CalendarDate(year: int, month: int, day: int)

  predicate IsLeapYear(y: int)
  {
    y % 4 == 0 && (y % 100 != 0 || y % 400 == 0)
  }

  function DaysInMonth(y: int, m: int): int
    requires 1 <= m <= 12
  {
    if m == 2 then (if IsLeapYear(y) then 29 else 28)
    else if m == 4 || m == 6 || m == 9 || m == 11 then 30
    else 31
  }

  /** The dates `datetime.date` can hold: years 1 to 9999. */
  predicate ValidDate(d: CalendarDate)
  {
    1 <= d.year <= 9999 && 1 <= d.month <= 12 && 1 <= d.day <= DaysInMonth(d.year, d.month)
  }

  type Date = d: CalendarDate | ValidDate(d) witness CalendarDate(1, 1, 1)

  function DaysBeforeYear(y: int): int
  {
    var p := y - 1;
    p * 365 + p / 4 - p / 100 + p / 400
  }

  /** Days in the months of year `y` before month `m`, from the same table as CPython's. */
  function DaysBeforeMonth(y: int, m: int): int
    requires 1 <= m <= 12
  {
    [0, 31, 59, 90, 120, 151, 181, 212, 243, 273, 304, 334][m - 1]
      + (if m > 2 && IsLeapYear(y) then 1 else 0)
  }

  /** `date.toordinal()`: 1 for 0001-01-01, one more for each following day. */
  function Ordinal(d: Date): int
  {
    DaysBeforeYear(d.year) + DaysBeforeMonth(d.year, d.month) + d.day
  }

  /** The last date `datetime.date` can hold. */
  const LastDate: Date := CalendarDate(9999, 12, 31)

  /** The day after `d`. */
  function NextDay(d: Date): Date
    requires d != LastDate
  {
    if d.day < DaysInMonth(d.year, d.month) then CalendarDate(d.year, d.month, d.day + 1)
    else if d.month < 12 then CalendarDate(d.year, d.month + 1, 1)
    else CalendarDate(d.year + 1, 1, 1)
  }

  /** A year holds 365 days, 366 in a leap year. */
  lemma YearLength(y: int)
    requires y >= 1
    ensures DaysBeforeYear(y + 1) == DaysBeforeYear(y) + (if IsLeapYear(y) then 366 else 365)
    ensures DaysBeforeMonth(y, 12) + DaysInMonth(y, 12) == (if IsLeapYear(y) then 366 else 365)
  {
    var p := y - 1;
    assert y / 4 == p / 4 + (if y % 4 == 0 then 1 else 0);
    assert y / 100 == p / 100 + (if y % 100 == 0 then 1 else 0);
    assert y / 400 == p / 400 + (if y % 400 == 0 then 1 else 0);
    assert y % 400 == 0 ==> y % 100 == 0;
    assert y % 100 == 0 ==> y % 4 == 0;
  }

  /** Adding one day to a date adds one to its ordinal, so `start + timedelta(days=k)`
      is ordinal arithmetic. */
  lemma OrdinalNextDay(d: Date)
    requires d != LastDate
    ensures Ordinal(NextDay(d)) == Ordinal(d) + 1
  {
    if d.day == DaysInMonth(d.year, d.month) && d.month == 12 {
      YearLength(d.year);
    }
  }

  /** `date + timedelta(days=k)`: the date `k` days later, or the `OverflowError`
      raised when that passes `LastDate`. */
  datatype Shift = Shifted(date: Date) | Overflow

  function DaysLater(d: Date, k: nat): Shift
    decreases k
  {
    if k == 0 then Shifted(d)
    else if d == LastDate then Overflow
    else DaysLater(NextDay(d), k - 1)
  }

  /** Moving `k` days forward adds `k` to the ordinal. */
  lemma {:induction false} DaysLaterOrdinal(d: Date, k: nat)
    ensures DaysLater(d, k).Shifted? ==> Ordinal(DaysLater(d, k).date) == Ordinal(d) + k
    decreases k
  {
    if k > 0 && d != LastDate {
      OrdinalNextDay(d);
      DaysLaterOrdinal(NextDay(d), k - 1);
    }
  }

  /** The character of a decimal digit. */
  function DigitChar(v: int): char
    requires 0 <= v <= 9
  {
    (48 + v) as char
  }

  predicate IsDigit(c: char)
  {
    '0' <= c <= '9'
  }

  predicate AllDigits(s: string)
  {
    forall i :: 0 <= i < |s| ==> IsDigit(s[i])
  }

  function Pow10(w: nat): nat
  {
    if w == 0 then 1 else 10 * Pow10(w - 1)
  }

  /** `n` in decimal, zero-padded on the left to `width` digits. */
  function Padded(n: nat, width: nat): string
  {
    if width == 0 then [] else Padded(n / 10, width - 1) + [DigitChar(n % 10)]
  }

  /** The number a string of decimal digits spells. */
  function DecimalValue(s: string): int
    requires AllDigits(s)
  {
    if s == [] then 0 else DecimalValue(s[..|s| - 1]) * 10 + (s[|s| - 1] as int - 48)
  }

  /** Padding a number that fits keeps every digit: reading the text back gives the number. */
  lemma {:induction false} PaddedRoundTrip(n: nat, width: nat)
    requires n < Pow10(width)
    ensures |Padded(n, width)| == width && AllDigits(Padded(n, width))
    ensures DecimalValue(Padded(n, width)) == n
  {
    if width > 0 {
      PaddedRoundTrip(n / 10, width - 1);
      var s := Padded(n, width);
      assert s[..|s| - 1] == Padded(n / 10, width - 1);
    }
  }

  /** `strftime("%Y%m%d")`. */
  function Stamp(d: Date): string
  {
    Padded(d.year, 4) + Padded(d.month, 2) + Padded(d.day, 2)
  }

  /** The date an eight-digit stamp names. */
  function ReadStamp(s: string): CalendarDate
    requires |s| == 8 && AllDigits(s)
  {
    CalendarDate(DecimalValue(s[..4]), DecimalValue(s[4..6]), DecimalValue(s[6..]))
  }

  /** The stamp is eight digits and names the date it was made from, so
      different dates get different stamps. */
  lemma StampRoundTrip(d: Date)
    ensures |Stamp(d)| == 8 && AllDigits(Stamp(d))
    ensures ReadStamp(Stamp(d)) == d
  {
    PaddedRoundTrip(d.year, 4);
    PaddedRoundTrip(d.month, 2);
    PaddedRoundTrip(d.day, 2);
    var s := Stamp(d);
    assert s[..4] == Padded(d.year, 4);
    assert s[4..6] == Padded(d.month, 2);
    assert s[6..] == Padded(d.day, 2);
  }
}
