/** Calendar dates as Python's `datetime.date` sees them.  A date is an ordinal
    day number (`date.toordinal()`: 0001-01-01 is day 1, a Monday); the civil
    form is (year, month, day) in the proleptic Gregorian calendar; text dates
    are ISO 8601 calendar dates in the extended format YYYY-MM-DD (section
    4.1.2.2 of ISO 8601:2004), which is what `date.isoformat()` writes.
    A pandas timestamp is an instant counted in seconds on the same day scale. */
module Calendar {
  import opened Wrappers
  import opened Text

  type Day = int

  /** `date.weekday()`: 0 is Monday, 6 is Sunday. */
  function Weekday(d: Day): (w: int)
    ensures 0 <= w < 7
    ensures w == 0 <==> (d - 1) % 7 == 0
  {
    (d - 1) % 7
  }

  /** Shifting a date by whole weeks keeps its weekday. */
  lemma WeekdayShift(d: Day, k: int)
    ensures Weekday(d + 7 * k) == Weekday(d)
  {
    assert d + 7 * k - 1 == (d - 1) + 7 * k;
  }

  /** Seconds in a day; a timestamp at midnight of day `d` is `d * SecondsPerDay`. */
  const SecondsPerDay: int := 86400

  /** `Timestamp.normalize()` followed by `.date()`: the day an instant falls on. */
  function DayOf(t: int): (d: Day)
    ensures d * SecondsPerDay <= t < (d + 1) * SecondsPerDay
  {
    t / SecondsPerDay
  }

  datatype Civil = Civil(year: int, month: int, day: int)

  predicate IsLeap(y: int) {
    y % 4 == 0 && (y % 100 != 0 || y % 400 == 0)
  }

  function DaysInMonth(y: int, m: int): int
    requires 1 <= m <= 12
  {
    if m == 2 then (if IsLeap(y) then 29 else 28)
    else if m == 4 || m == 6 || m == 9 || m == 11 then 30
    else 31
  }

  function DaysInYear(y: int): int {
    if IsLeap(y) then 366 else 365
  }

  /** The dates Python's `date` can represent. */
  predicate ValidCivil(c: Civil) {
    1 <= c.year <= 9999 && 1 <= c.month <= 12 && 1 <= c.day <= DaysInMonth(c.year, c.month)
  }

  function DaysBeforeYear(y: int): int
    requires y >= 1
  {
    if y == 1 then 0 else DaysBeforeYear(y - 1) + DaysInYear(y - 1)
  }

  function DaysBeforeMonth(y: int, m: int): int
    requires 1 <= m <= 12
  {
    if m == 1 then 0 else DaysBeforeMonth(y, m - 1) + DaysInMonth(y, m - 1)
  }

  /** `date.toordinal()`. */
  function ToOrdinal(c: Civil): Day
    requires ValidCivil(c)
  {
    DaysBeforeYear(c.year) + DaysBeforeMonth(c.year, c.month) + c.day
  }

  lemma DaysBeforeDecember(y: int)
    ensures DaysBeforeMonth(y, 12) + 31 == DaysInYear(y)
  {
    assert DaysBeforeMonth(y, 2) == 31;
    assert DaysBeforeMonth(y, 3) == DaysBeforeMonth(y, 2) + DaysInMonth(y, 2);
    assert DaysBeforeMonth(y, 4) == DaysBeforeMonth(y, 3) + 31;
    assert DaysBeforeMonth(y, 5) == DaysBeforeMonth(y, 4) + 30;
    assert DaysBeforeMonth(y, 6) == DaysBeforeMonth(y, 5) + 31;
    assert DaysBeforeMonth(y, 7) == DaysBeforeMonth(y, 6) + 30;
    assert DaysBeforeMonth(y, 8) == DaysBeforeMonth(y, 7) + 31;
    assert DaysBeforeMonth(y, 9) == DaysBeforeMonth(y, 8) + 31;
    assert DaysBeforeMonth(y, 10) == DaysBeforeMonth(y, 9) + 30;
    assert DaysBeforeMonth(y, 11) == DaysBeforeMonth(y, 10) + 31;
    assert DaysBeforeMonth(y, 12) == DaysBeforeMonth(y, 11) + 30;
  }

  /** `c - timedelta(days=1)` on civil dates: the result is the civil date of
      the previous ordinal day.  Python raises OverflowError before 0001-01-01,
      hence the precondition. */
  function PrevDay(c: Civil): (r: Civil)
    requires ValidCivil(c) && c != Civil(1, 1, 1)
    ensures ValidCivil(r) && ToOrdinal(r) == ToOrdinal(c) - 1
  {
    if c.day > 1 then Civil(c.year, c.month, c.day - 1)
    else if c.month > 1 then Civil(c.year, c.month - 1, DaysInMonth(c.year, c.month - 1))
    else
      DaysBeforeDecember(c.year - 1);
      Civil(c.year - 1, 12, 31)
  }

  /** The last date Python's `date` can represent. */
  const LastDate: Civil := Civil(9999, 12, 31)

  /** `c + timedelta(days=1)` on civil dates. */
  function NextDay(c: Civil): (r: Civil)
    requires ValidCivil(c) && c != LastDate
    ensures ValidCivil(r) && ToOrdinal(r) == ToOrdinal(c) + 1
  {
    if c.day < DaysInMonth(c.year, c.month) then Civil(c.year, c.month, c.day + 1)
    else if c.month < 12 then Civil(c.year, c.month + 1, 1)
    else
      DaysBeforeDecember(c.year);
      Civil(c.year + 1, 1, 1)
  }

  /** `date.fromordinal(d)`: counting days forward from 0001-01-01. */
  function FromOrdinal(d: Day): (c: Civil)
    requires 1 <= d <= ToOrdinal(LastDate)
    ensures ValidCivil(c) && ToOrdinal(c) == d
    decreases d
  {
    if d == 1 then Civil(1, 1, 1)
    else
      var prev := FromOrdinal(d - 1);
      NextDay(prev)
  }

  /** `date.isoformat()` of an ordinal day. */
  function IsoDay(d: Day): (s: string)
    requires 1 <= d <= ToOrdinal(LastDate)
    ensures IsIsoShaped(s) && ParseIsoDate(s) == Some(FromOrdinal(d))
  {
    IsoRoundTrip(FromOrdinal(d));
    IsoDate(FromOrdinal(d))
  }

  /** The character for digit value `n`. */
  function DigitChar(n: int): (ch: char)
    requires 0 <= n < 10
    ensures IsDigit(ch) && ch as int - '0' as int == n
  {
    ('0' as int + n) as char
  }

  /** `'%0{width}d' % n`: `n` written in exactly `width` decimal digits. */
  function Digits(n: nat, width: nat): (r: string)
    ensures |r| == width && AllDigits(r)
  {
    if width == 0 then [] else Digits(n / 10, width - 1) + [DigitChar(n % 10)]
  }

  /** The number a string of decimal digits denotes. */
  function DigitsValue(s: string): (v: nat)
    requires AllDigits(s)
    ensures v < Pow10(|s|)
  {
    if s == [] then 0
    else DigitsValue(s[..|s| - 1]) * 10 + (s[|s| - 1] as int - '0' as int)
  }

  lemma {:induction false} DigitsRoundTrip(n: nat, width: nat)
    requires n < Pow10(width)
    ensures DigitsValue(Digits(n, width)) == n
  {
    if width > 0 {
      var r := Digits(n, width);
      assert r[..|r| - 1] == Digits(n / 10, width - 1);
      DigitsRoundTrip(n / 10, width - 1);
    }
  }

  lemma DivMod10(a: nat, d: int)
    requires 0 <= d < 10
    ensures (a * 10 + d) / 10 == a && (a * 10 + d) % 10 == d
  {
  }

  lemma {:induction false} DigitsValueRoundTrip(s: string)
    requires AllDigits(s)
    ensures Digits(DigitsValue(s), |s|) == s
  {
    if s != [] {
      var p := s[..|s| - 1];
      var d := s[|s| - 1] as int - '0' as int;
      var v := DigitsValue(s);
      assert v == DigitsValue(p) * 10 + d;
      DivMod10(DigitsValue(p), d);
      DigitsValueRoundTrip(p);
      assert Digits(v, |s|) == Digits(DigitsValue(p), |p|) + [DigitChar(d)];
      assert DigitChar(d) == s[|s| - 1];
      assert s == p + [s[|s| - 1]];
    }
  }

  /** The shape `\d{4}-\d{2}-\d{2}`. */
  predicate IsIsoShaped(s: string) {
    |s| == 10 && AllDigits(s[..4]) && s[4] == '-' && AllDigits(s[5..7]) && s[7] == '-'
    && AllDigits(s[8..])
  }

  /** `date.isoformat()`. */
  function IsoDate(c: Civil): (r: string)
    requires ValidCivil(c)
    ensures IsIsoShaped(r)
  {
    var r := Digits(c.year, 4) + "-" + Digits(c.month, 2) + "-" + Digits(c.day, 2);
    assert r[..4] == Digits(c.year, 4) && r[5..7] == Digits(c.month, 2) && r[8..] == Digits(c.day, 2);
    r
  }

  /** `date.fromisoformat(s)` for the YYYY-MM-DD form: None where Python raises
      ValueError (wrong shape, or no such calendar date). */
  function ParseIsoDate(s: string): (r: Option<Civil>)
    ensures r.Some? ==> ValidCivil(r.value)
  {
    if !IsIsoShaped(s) then None
    else
      var c := Civil(DigitsValue(s[..4]), DigitsValue(s[5..7]), DigitsValue(s[8..]));
      if ValidCivil(c) then Some(c) else None
  }

  /** Writing a date and reading it back gives the date. */
  lemma IsoRoundTrip(c: Civil)
    requires ValidCivil(c)
    ensures ParseIsoDate(IsoDate(c)) == Some(c)
  {
    var r := IsoDate(c);
    assert r[..4] == Digits(c.year, 4) && r[5..7] == Digits(c.month, 2) && r[8..] == Digits(c.day, 2);
    assert Pow10(2) == 100;
    assert Pow10(4) == 100 * Pow10(2);
    DigitsRoundTrip(c.year, 4);
    DigitsRoundTrip(c.month, 2);
    DigitsRoundTrip(c.day, 2);
    assert DigitsValue(r[..4]) == c.year && DigitsValue(r[5..7]) == c.month && DigitsValue(r[8..]) == c.day;
  }

  /** Every accepted text is the canonical writing of the date read from it. */
  lemma ParseIsoCanonical(s: string)
    requires ParseIsoDate(s).Some?
    ensures IsoDate(ParseIsoDate(s).value) == s
  {
    DigitsValueRoundTrip(s[..4]);
    DigitsValueRoundTrip(s[5..7]);
    DigitsValueRoundTrip(s[8..]);
    assert s == s[..4] + "-" + s[5..7] + "-" + s[8..];
  }
}
