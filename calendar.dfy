/**
 * Dates as day numbers: the proleptic Gregorian ordinal of Python's datetime
 * (0001-01-01 is day 1, 9999-12-31 the last day datetime can hold), with the
 * conversions to and from year/month/day and the two textual forms the
 * pipeline writes and reads: "%m/%d/%Y" and ISO "%Y-%m-%d".
 */
module Calendar {
  import opened Wrappers
  import opened Digits

  predicate IsLeap(y: int) {
    y % 4 == 0 && (y % 100 != 0 || y % 400 == 0)
  }

  function DaysInYear(y: int): int {
    if IsLeap(y) then 366 else 365
  }

  /** Days in the years 1 .. y-1 (Python's _days_before_year). */
  function DaysBeforeYear(y: int): int
    requires y >= 1
  {
    var k := y - 1;
    365 * k + k / 4 - k / 100 + k / 400
  }

  /** Ordinal of 9999-12-31. */
  const MaxDay: int := 3652059

  type Day = n: int | 1 <= n <= MaxDay witness 1

  function DaysInMonth(y: int, m: int): int
    requires 1 <= m <= 12
  {
    if m == 2 then (if IsLeap(y) then 29 else 28)
    else if m == 4 || m == 6 || m == 9 || m == 11 then 30
    else 31
  }

  /** Days in year y before the first day of month m; month 13 stands for the next year. */
  function DaysBeforeMonth(y: int, m: int): int
    requires 1 <= m <= 13
  {
    var table := [0, 31, 59, 90, 120, 151, 181, 212, 243, 273, 304, 334, 365];
    table[m - 1] + (if m > 2 && IsLeap(y) then 1 else 0)
  }

  lemma MonthStep(y: int, m: int)
    requires 1 <= m <= 12
    ensures DaysBeforeMonth(y, m + 1) == DaysBeforeMonth(y, m) + DaysInMonth(y, m)
    ensures DaysBeforeMonth(y, 13) == DaysInYear(y)
  {
  }

  lemma YearStep(y: int)
    requires y >= 1
    ensures DaysBeforeYear(y + 1) == DaysBeforeYear(y) + DaysInYear(y)
  {
    var k := y - 1;
    DivSucc(k, 4);
    DivSucc(k, 100);
    DivSucc(k, 400);
    LeapCount(y);
  }

  /** The leap rule as Python's _days_before_year counts it: every 4th year, not every 100th, every 400th. */
  lemma LeapCount(y: int)
    ensures (if IsLeap(y) then 1 else 0)
            == (if y % 4 == 0 then 1 else 0) - (if y % 100 == 0 then 1 else 0) + (if y % 400 == 0 then 1 else 0)
  {
    MultipleOfMultiple(y, 100, 4);
    MultipleOfMultiple(y, 4, 25);
  }

  lemma MultipleOfMultiple(y: int, a: int, b: int)
    requires (a == 100 && b == 4) || (a == 4 && b == 25)
    ensures y % (a * b) == 0 ==> y % a == 0
  {
    if y % (a * b) == 0 {
      var q := y / (a * b);
      assert y == a * (b * q);
      var t := b * q - y / a;
      assert a * t == y % a;
    }
  }

  lemma DivSucc(k: int, d: int)
    requires d == 4 || d == 100 || d == 400
    ensures (k + 1) / d == k / d + (if (k + 1) % d == 0 then 1 else 0)
  {
  }

  lemma {:induction false} DaysBeforeYearMonotone(a: int, b: int)
    requires 1 <= a <= b
    ensures DaysBeforeYear(a) <= DaysBeforeYear(b)
    ensures a < b ==> DaysBeforeYear(a + 1) <= DaysBeforeYear(b)
  {
    if a < b {
      DaysBeforeYearMonotone(a, b - 1);
      YearStep(b - 1);
    }
  }

  datatype Civil = Civil(year: int, month: int, day: int)

  /** A calendar date datetime can represent. */
  predicate ValidCivil(c: Civil) {
    1 <= c.year <= 9999 && 1 <= c.month <= 12 && 1 <= c.day <= DaysInMonth(c.year, c.month)
  }

  /** The ordinal of a calendar date (Python's date.toordinal); it falls inside the date's year. */
  function FromCivil(c: Civil): (n: Day)
    requires ValidCivil(c)
    ensures DaysBeforeYear(c.year) < n <= DaysBeforeYear(c.year + 1)
  {
    DateInYear(c);
    DaysBeforeYear(c.year) + DaysBeforeMonth(c.year, c.month) + c.day
  }

  lemma DateInYear(c: Civil)
    requires ValidCivil(c)
    ensures var n := DaysBeforeYear(c.year) + DaysBeforeMonth(c.year, c.month) + c.day;
            DaysBeforeYear(c.year) < n <= DaysBeforeYear(c.year + 1) <= MaxDay
  {
    var y := c.year;
    MonthStep(y, c.month);
    DaysBeforeMonthMonotone(y, c.month + 1, 13);
    assert DaysBeforeMonth(y, c.month) + c.day <= DaysInYear(y);
    YearStep(y);
    DaysBeforeYearMonotone(y + 1, 10000);
    assert DaysBeforeYear(10000) == MaxDay;
  }

  /** The date on day k of year y, searching from month m on. */
  function MonthOf(y: int, k: int, m: int): (c: Civil)
    requires 1 <= y <= 9999 && 1 <= m <= 12
    requires DaysBeforeMonth(y, m) < k <= DaysInYear(y)
    ensures ValidCivil(c) && c.year == y && m <= c.month
    ensures DaysBeforeMonth(y, c.month) + c.day == k
    decreases 12 - m
  {
    MonthStep(y, m);
    if k <= DaysBeforeMonth(y, m + 1) then Civil(y, m, k - DaysBeforeMonth(y, m))
    else MonthOf(y, k, m + 1)
  }

  /** The date of ordinal n, searching from year y on. */
  function YearOf(n: Day, y: int): (c: Civil)
    requires 1 <= y <= 9999 && DaysBeforeYear(y) < n
    ensures ValidCivil(c) && FromCivil(c) == n
    decreases 10000 - y
  {
    YearStep(y);
    if n <= DaysBeforeYear(y + 1) then MonthOf(y, n - DaysBeforeYear(y), 1)
    else YearOf(n, y + 1)
  }

  /** Year, month and day of an ordinal (Python's date.fromordinal). */
  function ToCivil(n: Day): (c: Civil)
    ensures ValidCivil(c) && FromCivil(c) == n
  {
    YearOf(n, 1)
  }

  /** Two valid dates with the same ordinal are the same date. */
  lemma FromCivilInjective(a: Civil, b: Civil)
    requires ValidCivil(a) && ValidCivil(b) && FromCivil(a) == FromCivil(b)
    ensures a == b
  {
    if a.year < b.year {
      DaysBeforeYearMonotone(a.year, b.year);
      assert false;
    } else if b.year < a.year {
      DaysBeforeYearMonotone(b.year, a.year);
      assert false;
    } else {
      MonthStep(a.year, a.month);
      MonthStep(b.year, b.month);
      if a.month < b.month {
        DaysBeforeMonthMonotone(a.year, a.month + 1, b.month);
      } else if b.month < a.month {
        DaysBeforeMonthMonotone(a.year, b.month + 1, a.month);
      }
    }
  }

  lemma DaysBeforeMonthMonotone(y: int, m1: int, m2: int)
    requires 1 <= m1 <= m2 <= 13
    ensures DaysBeforeMonth(y, m1) <= DaysBeforeMonth(y, m2)
  {
  }

  /** Converting a valid date to its ordinal and back gives the date. */
  lemma ToCivilOfFromCivil(c: Civil)
    requires ValidCivil(c)
    ensures ToCivil(FromCivil(c)) == c
  {
    FromCivilInjective(ToCivil(FromCivil(c)), c);
  }

  /** strftime("%m/%d/%Y"): month, day and a four-digit year, separated by slashes. */
  function FormatUs(n: Day): (s: string)
    ensures |s| == 10 && s[2] == '/' && s[5] == '/'
  {
    var c := ToCivil(n);
    Pow10Widths();
    Pad(c.month, 2) + "/" + Pad(c.day, 2) + "/" + Pad(c.year, 4)
  }

  /** strftime("%Y-%m-%d"), the ISO form the cleaned data set is written in. */
  function FormatIso(n: Day): (s: string)
    ensures |s| == 10 && s[4] == '-' && s[7] == '-'
  {
    var c := ToCivil(n);
    Pow10Widths();
    Pad(c.year, 4) + "-" + Pad(c.month, 2) + "-" + Pad(c.day, 2)
  }

  function OrdinalOf(c: Civil): Option<Day> {
    if ValidCivil(c) then Some(FromCivil(c)) else None
  }

  /** Reads "MM/DD/YYYY" (month first); anything else, or a date that does not exist, is refused. */
  function ParseUs(s: string): (r: Option<Day>)
    ensures r.Some? ==> |s| == 10 && s[2] == '/' && s[5] == '/'
  {
    if |s| == 10 && s[2] == '/' && s[5] == '/'
       && AllDigits(s[0..2]) && AllDigits(s[3..5]) && AllDigits(s[6..10])
    then OrdinalOf(Civil(Value(s[6..10]), Value(s[0..2]), Value(s[3..5])))
    else None
  }

  /** Reads "YYYY-MM-DD"; anything else, or a date that does not exist, is refused. */
  function ParseIso(s: string): (r: Option<Day>)
    ensures r.Some? ==> |s| == 10 && s[4] == '-' && s[7] == '-'
  {
    if |s| == 10 && s[4] == '-' && s[7] == '-'
       && AllDigits(s[0..4]) && AllDigits(s[5..7]) && AllDigits(s[8..10])
    then OrdinalOf(Civil(Value(s[0..4]), Value(s[5..7]), Value(s[8..10])))
    else None
  }

  /** A date written as "%m/%d/%Y" and read back is the same date. */
  lemma ParseUsOfFormatUs(n: Day)
    ensures ParseUs(FormatUs(n)) == Some(n)
  {
    var c := ToCivil(n);
    var s := FormatUs(n);
    assert s[0..2] == Pad(c.month, 2);
    assert s[3..5] == Pad(c.day, 2);
    assert s[6..10] == Pad(c.year, 4);
    Pow10Widths();
    ValueOfPad(c.month, 2);
    ValueOfPad(c.day, 2);
    ValueOfPad(c.year, 4);
  }

  /** Every string ParseUs accepts is exactly how that date is written. */
  lemma FormatUsOfParseUs(s: string)
    requires ParseUs(s).Some?
    ensures FormatUs(ParseUs(s).value) == s
  {
    var c := Civil(Value(s[6..10]), Value(s[0..2]), Value(s[3..5]));
    assert ParseUs(s) == Some(FromCivil(c));
    ToCivilOfFromCivil(c);
    PadOfValue(s[0..2]);
    PadOfValue(s[3..5]);
    PadOfValue(s[6..10]);
    Fields(s, 2, 5, '/');
  }

  /** A ten-character string is its three fields and the two separators between them. */
  lemma Fields(s: string, i: nat, j: nat, sep: char)
    requires |s| == 10 && i + 1 < j < 9 && s[i] == sep && s[j] == sep
    ensures s == s[0..i] + [sep] + s[i + 1..j] + [sep] + s[j + 1..10]
  {
  }

  /** A date written in ISO form and read back is the same date. */
  lemma ParseIsoOfFormatIso(n: Day)
    ensures ParseIso(FormatIso(n)) == Some(n)
  {
    var c := ToCivil(n);
    var s := FormatIso(n);
    assert s[0..4] == Pad(c.year, 4);
    assert s[5..7] == Pad(c.month, 2);
    assert s[8..10] == Pad(c.day, 2);
    Pow10Widths();
    ValueOfPad(c.month, 2);
    ValueOfPad(c.day, 2);
    ValueOfPad(c.year, 4);
  }

  /** Every string ParseIso accepts is exactly how that date is written. */
  lemma FormatIsoOfParseIso(s: string)
    requires ParseIso(s).Some?
    ensures FormatIso(ParseIso(s).value) == s
  {
    var c := Civil(Value(s[0..4]), Value(s[5..7]), Value(s[8..10]));
    assert ParseIso(s) == Some(FromCivil(c));
    ToCivilOfFromCivil(c);
    PadOfValue(s[0..4]);
    PadOfValue(s[5..7]);
    PadOfValue(s[8..10]);
    Fields(s, 4, 7, '-');
  }

  /** No string is both a US-style and an ISO date. */
  lemma FormatsDisjoint(s: string)
    ensures !(ParseUs(s).Some? && ParseIso(s).Some?)
  {
  }
}
