/**
 * The proleptic Gregorian calendar: the civil date of a day number (days
 * since 1970-01-01) and its `YYYY-MM-DD` text, as SQLite's `DATE()` prints
 * it for the years 0000 to 9999.
 */
module Calendar {
  import opened Text

  predicate IsLeapYear(y: int) { y % 4 == 0 && (y % 100 != 0 || y % 400 == 0) }

  function DaysInYear(y: int): (n: int)
    ensures n == 365 || n == 366
  {
    if IsLeapYear(y) then 366 else 365
  }

  function DaysInMonth(y: int, m: int): (n: int)
    requires 1 <= m <= 12
    ensures 28 <= n <= 31
  {
    if m == 2 then (if IsLeapYear(y) then 29 else 28)
    else if m == 4 || m == 6 || m == 9 || m == 11 then 30
    else 31
  }

  /** The days of the months `m` to December of year `y`. */
  function DaysFrom(y: int, m: int): int
    requires 1 <= m <= 12
    decreases 12 - m
  {
    if m == 12 then DaysInMonth(y, 12) else DaysInMonth(y, m) + DaysFrom(y, m + 1)
  }

  /** The twelve months make up the year. */
  lemma MonthsMakeYear(y: int)
    ensures DaysFrom(y, 1) == DaysInYear(y)
  {
    assert DaysFrom(y, 10) == 92;
    assert DaysFrom(y, 7) == 92 + 92;
    assert DaysFrom(y, 4) == 91 + 92 + 92;
  }

  datatype Date = Date(year: int, month: int, day: int)

  predicate ValidDate(d: Date)
  {
    1 <= d.month <= 12 && 1 <= d.day <= DaysInMonth(d.year, d.month)
  }

  /**
   * The year holding day `d` counted from January 1 of year `y`, and the
   * day's zero-based position in that year.
   */
  function YearOf(y: int, d: int): (r: (int, int))
    ensures 0 <= r.1 < DaysInYear(r.0)
    decreases if d < 0 then 1 else 0, if d < 0 then -d else d
  {
    if d < 0 then YearOf(y - 1, d + DaysInYear(y - 1))
    else if d >= DaysInYear(y) then YearOf(y + 1, d - DaysInYear(y))
    else (y, d)
  }

  /** The date of the zero-based day `d` counted from the first of month `m`. */
  function MonthOf(y: int, m: int, d: int): (r: Date)
    requires 1 <= m <= 12 && 0 <= d < DaysFrom(y, m)
    ensures ValidDate(r) && r.year == y && r.month >= m
    decreases 12 - m
  {
    if d < DaysInMonth(y, m) then Date(y, m, d + 1)
    else MonthOf(y, m + 1, d - DaysInMonth(y, m))
  }

  /** The civil date of day number `n`, day 0 being 1970-01-01. */
  function CivilDate(n: int): (r: Date)
    ensures ValidDate(r)
  {
    var (y, d) := YearOf(1970, n);
    MonthsMakeYear(y);
    MonthOf(y, 1, d)
  }

  /** `DATE()` text of a date in the years 0000 to 9999: `YYYY-MM-DD`, every field zero-padded. */
  function IsoDate(d: Date): (s: string)
    requires ValidDate(d) && 0 <= d.year <= 9999
    ensures |s| == 10 && forall i :: 0 <= i < |s| ==> IsDigit(s[i]) || s[i] == '-'
  {
    var year, month, day := FourDigits(d.year), TwoDigits(d.month), TwoDigits(d.day);
    DateFields(year, month, day);
    year + "-" + month + "-" + day
  }

  /** The text reads back as the date: four digits of year, a dash, two of month, a dash, two of day. */
  lemma IsoDateFields(d: Date)
    requires ValidDate(d) && 0 <= d.year <= 9999
    ensures var s := IsoDate(d);
      && s[4] == '-' && s[7] == '-'
      && AllDigits(s[..4]) && DigitsValue(s[..4]) == d.year
      && AllDigits(s[5..7]) && DigitsValue(s[5..7]) == d.month
      && AllDigits(s[8..]) && DigitsValue(s[8..]) == d.day
  {
    DateFields(FourDigits(d.year), TwoDigits(d.month), TwoDigits(d.day));
  }

  lemma DateFields(year: string, month: string, day: string)
    requires |year| == 4 && |month| == 2 && |day| == 2
    requires AllDigits(year) && AllDigits(month) && AllDigits(day)
    ensures var s := year + "-" + month + "-" + day;
      && |s| == 10 && s[4] == '-' && s[7] == '-' && s[..4] == year && s[5..7] == month && s[8..] == day
      && forall i :: 0 <= i < |s| ==> IsDigit(s[i]) || s[i] == '-'
  {
    var s := year + "-" + month + "-" + day;
    forall i | 0 <= i < |s| ensures IsDigit(s[i]) || s[i] == '-' {
      if i < 4 {
        assert s[i] == year[i];
      } else if 4 < i < 7 {
        assert s[i] == month[i - 5];
      } else if 7 < i {
        assert s[i] == day[i - 8];
      }
    }
  }

  /** A year below 10000 printed on four digits. */
  function FourDigits(n: nat): (r: string)
    requires n < 10_000
    ensures |r| == 4 && AllDigits(r) && DigitsValue(r) == n
  {
    var s := NatToString(n);
    FourDigitYears(n);
    PaddedValue(s, 4);
    PadStart(s, 4)
  }

  /** Zero padding keeps the value of a digit string. */
  lemma {:induction false} PaddedValue(s: string, width: nat)
    requires AllDigits(s)
    ensures AllDigits(PadStart(s, width)) && DigitsValue(PadStart(s, width)) == DigitsValue(s)
  {
    if |s| < width {
      ZerosValue(width - |s|, s);
    }
  }

  /** Any number of leading zeros keeps the value of a digit string. */
  lemma {:induction false} ZerosValue(n: nat, s: string)
    requires AllDigits(s)
    ensures AllDigits(Zeros(n) + s) && DigitsValue(Zeros(n) + s) == DigitsValue(s)
  {
    if n == 0 {
      assert Zeros(n) + s == s;
    } else {
      assert Zeros(n) == ['0'] + Zeros(n - 1);
      assert Zeros(n) + s == ['0'] + (Zeros(n - 1) + s);
      ZerosValue(n - 1, s);
      LeadingZero(Zeros(n - 1) + s);
    }
  }

  lemma FourDigitYears(n: nat)
    requires n < 10_000
    ensures |NatToString(n)| <= 4
  {
    if n >= 10 {
      FourDigitYears(n / 10);
    }
  }

  /** Day 0 is the first of January 1970. */
  lemma EpochDate()
    ensures CivilDate(0) == Date(1970, 1, 1)
  {
  }

  /** Day 59 is the first of March 1970: January and February 1970 have 31 and 28 days. */
  lemma FirstOfMarch()
    ensures CivilDate(59) == Date(1970, 3, 1)
  {
    assert YearOf(1970, 59) == (1970, 59);
    assert MonthOf(1970, 1, 59) == MonthOf(1970, 2, 28);
    assert MonthOf(1970, 2, 28) == MonthOf(1970, 3, 0);
  }
}
