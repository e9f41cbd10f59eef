/** Monday-to-Sunday weeks: the week of a date, the last N weeks before a date,
    the last full week before today, the fixed reconciliation weeks of the
    transfer engine and the choice among them made by its command line. */
module Weeks {
  import opened Wrappers
  import opened Calendar
  import opened Rows

  /** A (Monday, Sunday) pair as the scripts pass it around. */
  datatype Week = Week(monday: Day, sunday: Day)

  /** A whole week: starts on a Monday and ends six days later, on a Sunday. */
  predicate IsWeek(w: Week) {
    Weekday(w.monday) == 0 && w.sunday == w.monday + 6
  }

  /** Two days with the same weekday less than a week apart are the same day. */
  lemma SameWeekdayWithinWeek(a: Day, b: Day)
    requires Weekday(a) == Weekday(b) && a <= b < a + 7
    ensures a == b
  {
    var qa, qb := (a - 1) / 7, (b - 1) / 7;
    assert a - 1 == 7 * qa + Weekday(a);
    assert b - 1 == 7 * qb + Weekday(b);
    assert 7 * (qb - qa) < 7;
  }

  lemma MondayOf(d: Day)
    ensures Weekday(d - Weekday(d)) == 0
  {
    var q := (d - 1) / 7;
    assert d - Weekday(d) - 1 == 7 * q;
  }

  lemma SundayBefore(d: Day)
    ensures Weekday(d - Weekday(d) - 1) == 6
  {
    var q := (d - 1) / 7;
    assert d - Weekday(d) - 1 - 1 == 7 * (q - 1) + 6;
  }

  /** `get_week_boundaries`: the Monday on or before `d` and the Sunday six
      days after it. */
  function WeekBoundaries(d: Day): (w: Week)
    ensures IsWeek(w) && w.monday <= d <= w.sunday
  {
    var monday := d - Weekday(d);
    MondayOf(d);
    Week(monday, monday + 6)
  }

  /** The week of `d` is the only whole week that contains it. */
  lemma OnlyWeekContaining(d: Day, w: Week)
    requires IsWeek(w) && w.monday <= d <= w.sunday
    ensures w == WeekBoundaries(d)
  {
    var v := WeekBoundaries(d);
    if w.monday <= v.monday {
      SameWeekdayWithinWeek(w.monday, v.monday);
    } else {
      SameWeekdayWithinWeek(v.monday, w.monday);
    }
  }

  /** `build_week_ranges(end_date, num_weeks)`: the week containing
      `end_date` and the weeks before it, most recent first. */
  function BuildWeekRanges(endDate: Day, numWeeks: int): (r: seq<Week>)
    ensures |r| == if numWeeks > 0 then numWeeks else 0
    ensures |r| > 0 ==> r[0] == WeekBoundaries(endDate)
  {
    var lastSunday := WeekBoundaries(endDate).sunday;
    var n := if numWeeks > 0 then numWeeks else 0;
    seq(n, i requires 0 <= i < n => Week(lastSunday - (6 + i * 7), lastSunday - i * 7))
  }

  /** Every generated range is a whole week, the i-th lies i weeks before the
      first, and each Monday is the day after the next older Sunday. */
  lemma BuildWeekRangesShape(endDate: Day, numWeeks: int)
    ensures forall i :: 0 <= i < |BuildWeekRanges(endDate, numWeeks)| ==>
      IsWeek(BuildWeekRanges(endDate, numWeeks)[i])
      && BuildWeekRanges(endDate, numWeeks)[i].monday == BuildWeekRanges(endDate, numWeeks)[0].monday - 7 * i
    ensures forall i :: 0 < i < |BuildWeekRanges(endDate, numWeeks)| ==>
      BuildWeekRanges(endDate, numWeeks)[i - 1].monday == BuildWeekRanges(endDate, numWeeks)[i].sunday + 1
  {
    var r := BuildWeekRanges(endDate, numWeeks);
    forall i | 0 <= i < |r| ensures IsWeek(r[i]) && r[i].monday == r[0].monday - 7 * i {
      WeekdayShift(r[0].monday, -i);
    }
  }

  /** `get_last_full_week` (the same in weekly_payments, weekly_payments_forecast
      and weekly_sales_report): Sunday is `today - (weekday + 1)` days, so
      strictly before today and at most a week before it. */
  function LastFullWeek(today: Day): (w: Week)
    ensures IsWeek(w) && w.sunday < today <= w.sunday + 7
  {
    var sunday := today - (Weekday(today) + 1);
    MondayOf(today);
    WeekdayShift(today - Weekday(today), -1);
    Week(sunday - 6, sunday)
  }

  /** No Sunday strictly before today is later than the last full week's. */
  lemma LastFullWeekIsLatest(today: Day, s: Day)
    requires Weekday(s) == 6 && s < today
    ensures s <= LastFullWeek(today).sunday
  {
    var w := LastFullWeek(today);
    SundayBefore(today);
    if s > w.sunday {
      SameWeekdayWithinWeek(w.sunday, s);
    }
  }

  /** `parse_target_date`: an ISO date when one is given (a ValueError when it
      is not one), else the Sunday of the last full week. */
  function ParseTargetDate(arg: Option<string>, today: Day): (r: Result<Day, string>)
    ensures (arg.None? || arg.value == "") ==> r == Success(LastFullWeek(today).sunday)
    ensures arg.Some? && arg.value != "" ==> (r.Failure? <==> ParseIsoDate(arg.value).None?)
  {
    if arg.Some? && arg.value != "" then
      match ParseIsoDate(arg.value)
      case None => Failure("Invalid --target-date '" + arg.value + "'. Use YYYY-MM-DD.")
      case Some(c) => Success(ToOrdinal(c))
    else Success(LastFullWeek(today).sunday)
  }

  /** A written date is read back as the same day. */
  lemma ParseTargetDateRoundTrip(c: Civil, today: Day)
    requires ValidCivil(c)
    ensures ParseTargetDate(Some(IsoDate(c)), today) == Success(ToOrdinal(c))
  {
    IsoRoundTrip(c);
  }

  // ------------------------------------------------- reconciliation weeks

  /** Days before January 1st of year `y`, in closed form. */
  lemma {:induction false} DaysBeforeYearClosed(y: int)
    requires y >= 1
    ensures DaysBeforeYear(y) == 365 * (y - 1) + (y - 1) / 4 - (y - 1) / 100 + (y - 1) / 400
  {
    if y > 1 {
      DaysBeforeYearClosed(y - 1);
      LeapStep(y - 1);
    }
  }

  /** The length of year `k` is what the closed form gains from `k - 1` to `k`. */
  lemma LeapStep(k: int)
    ensures DaysInYear(k) == 365 + (k / 4 - (k - 1) / 4) - (k / 100 - (k - 1) / 100) + (k / 400 - (k - 1) / 400)
  {
    DivStep(k);
    DivisorChain(k);
  }

  /** A multiple of 400 is one of 100, and a multiple of 100 one of 4. */
  lemma DivisorChain(k: int)
    ensures k % 400 == 0 ==> k % 100 == 0
    ensures k % 100 == 0 ==> k % 4 == 0
  {
    if k % 400 == 0 {
      Multiple400(k);
    }
    if k % 100 == 0 {
      Multiple100(k);
    }
  }

  lemma Multiple400(k: int)
    requires k % 400 == 0
    ensures k % 100 == 0
  {
    var q := k / 400;
    assert k == 100 * (4 * q);
  }

  lemma Multiple100(k: int)
    requires k % 100 == 0
    ensures k % 4 == 0
  {
    var q := k / 100;
    assert k == 4 * (25 * q);
  }

  /** Going from `k - 1` to `k` raises `k / m` by one exactly when `m` divides `k`. */
  lemma DivStep(k: int)
    ensures k / 4 - (k - 1) / 4 == if k % 4 == 0 then 1 else 0
    ensures k / 100 - (k - 1) / 100 == if k % 100 == 0 then 1 else 0
    ensures k / 400 - (k - 1) / 400 == if k % 400 == 0 then 1 else 0
  {
  }

  /** 2025-12-01, the first Monday of the fixed reconciliation weeks. */
  const FirstMonday: Day := 739586

  lemma FirstMondayIsDecember1st()
    ensures ToOrdinal(Civil(2025, 12, 1)) == FirstMonday && Weekday(FirstMonday) == 0
  {
    DaysBeforeYearClosed(2025);
    DaysBeforeDecember(2025);
  }

  /** The nine whole weeks from 2025-12-01 that open `WEEK_RANGES`. */
  const WholeWeeks: seq<Week> := [
    Week(FirstMonday, FirstMonday + 6), Week(FirstMonday + 7, FirstMonday + 13),
    Week(FirstMonday + 14, FirstMonday + 20), Week(FirstMonday + 21, FirstMonday + 27),
    Week(FirstMonday + 28, FirstMonday + 34), Week(FirstMonday + 35, FirstMonday + 41),
    Week(FirstMonday + 42, FirstMonday + 48), Week(FirstMonday + 49, FirstMonday + 55),
    Week(FirstMonday + 56, FirstMonday + 62)]

  /** `WEEK_RANGES`: the nine whole weeks and a tenth range running from
      Monday 2026-02-02 to Saturday 2026-02-07. */
  const WeekRanges: seq<Week> := WholeWeeks + [Week(FirstMonday + 63, FirstMonday + 68)]

  /** The `--last-week-feb-8` replacement of the tenth range: 2026-02-02 to 2026-02-08. */
  const WeekFeb8: Week := Week(FirstMonday + 63, FirstMonday + 69)

  /** The fixed ranges, with the last one replaced when `--last-week-feb-8` is set. */
  function FixedWeeks(lastWeekFeb8: bool): (r: seq<Week>)
    ensures |r| == 10 && r[..9] == WeekRanges[..9]
    ensures r[9] == if lastWeekFeb8 then WeekFeb8 else WeekRanges[9]
  {
    assert WeekRanges[..9] == WholeWeeks;
    if lastWeekFeb8 then WholeWeeks + [WeekFeb8] else WeekRanges
  }

  /** With the replacement every fixed range is a whole week. */
  lemma FixedWeeksAreWeeks()
    ensures forall i :: 0 <= i < 10 ==> IsWeek(FixedWeeks(true)[i])
    ensures !IsWeek(FixedWeeks(false)[9])
  {
    FirstMondayIsDecember1st();
    forall i | 0 <= i < 10 ensures IsWeek(FixedWeeks(true)[i]) {
      WeekdayShift(FirstMonday, i);
    }
  }

  predicate Within(w: Week, start: Day, end: Day) {
    w.monday >= start && w.sunday <= end
  }

  /** The ranges of `ws` lying inside [start, end], in order. */
  function WeeksWithin(ws: seq<Week>, start: Day, end: Day): (r: seq<Week>)
    ensures forall i :: 0 <= i < |r| ==> Within(r[i], start, end) && r[i] in ws
    ensures forall w :: w in ws && Within(w, start, end) ==> w in r
  {
    if ws == [] then []
    else
      var rest := WeeksWithin(ws[1..], start, end);
      assert forall w :: w in ws <==> w == ws[0] || w in ws[1..];
      if Within(ws[0], start, end) then [ws[0]] + rest else rest
  }

  /** The legacy filter: the fixed ranges lying inside [start, end], in order. */
  function FilterWeeks(start: Day, end: Day, lastWeekFeb8: bool): (r: seq<Week>)
    ensures forall i :: 0 <= i < |r| ==> Within(r[i], start, end) && r[i] in FixedWeeks(lastWeekFeb8)
    ensures forall w :: w in FixedWeeks(lastWeekFeb8) && Within(w, start, end) ==> w in r
  {
    WeeksWithin(FixedWeeks(lastWeekFeb8), start, end)
  }

  /** Why `main` gives up before fetching: status 1, or the ValueError that
      `date.fromisoformat` raises. */
  datatype SelectError = ExitStatus1 | InvalidDate

  /** The week selection of `main` in weekly_with_prices: `--weeks N` builds N
      weeks back from `--end` (today when `--end` is empty) and rejects
      N <= 0; without it the fixed ranges are filtered by `--start`/`--end`.
      An empty selection exits with status 1. */
  function SelectWeeks(weeks: Option<int>, start: string, end: string, lastWeekFeb8: bool, today: Day)
    : (r: Result<seq<Week>, SelectError>)
    ensures r.Success? ==> |r.value| > 0
    ensures weeks.Some? && weeks.value <= 0 ==> r == Failure(ExitStatus1)
    ensures weeks.Some? && weeks.value > 0 && end == "" ==>
      r == Success(BuildWeekRanges(today, weeks.value))
    ensures weeks.None? && r.Success? ==> r == LegacySelectWeeks(start, end, lastWeekFeb8)
  {
    if weeks.Some? then
      if weeks.value <= 0 then Failure(ExitStatus1)
      else if end == "" then Success(BuildWeekRanges(today, weeks.value))
      else
        match ParseIsoDate(end)
        case None => Failure(InvalidDate)
        case Some(e) => Success(BuildWeekRanges(ToOrdinal(e), weeks.value))
    else LegacySelectWeeks(start, end, lastWeekFeb8)
  }

  /** The week filter of the legacy `main` (and of `main` without `--weeks`). */
  function LegacySelectWeeks(start: string, end: string, lastWeekFeb8: bool): (r: Result<seq<Week>, SelectError>)
    ensures r.Failure? <==>
      (ParseIsoDate(start).None? || ParseIsoDate(end).None?
       || FilterWeeks(ToOrdinal(ParseIsoDate(start).value), ToOrdinal(ParseIsoDate(end).value), lastWeekFeb8) == [])
    ensures r.Success? ==> |r.value| > 0
  {
    match (ParseIsoDate(start), ParseIsoDate(end))
    case (Some(s), Some(e)) =>
      var ws := FilterWeeks(ToOrdinal(s), ToOrdinal(e), lastWeekFeb8);
      if ws == [] then Failure(ExitStatus1) else Success(ws)
    case _ => Failure(InvalidDate)
  }

  /** A selection that keeps every range keeps them all, in order. */
  lemma {:induction false} WeeksWithinAll(ws: seq<Week>, start: Day, end: Day)
    requires forall i :: 0 <= i < |ws| ==> Within(ws[i], start, end)
    ensures WeeksWithin(ws, start, end) == ws
  {
    if ws != [] {
      WeeksWithinAll(ws[1..], start, end);
    }
  }

  /** Selecting from ranges with one more at the end. */
  lemma {:induction false} WeeksWithinAppend(ws: seq<Week>, w: Week, start: Day, end: Day)
    ensures WeeksWithin(ws + [w], start, end)
         == WeeksWithin(ws, start, end) + if Within(w, start, end) then [w] else []
  {
    if ws != [] {
      assert (ws + [w])[1..] == ws[1..] + [w];
      WeeksWithinAppend(ws[1..], w, start, end);
    }
  }

  /** With the default `--start 2025-12-01 --end 2026-02-07` all ten fixed
      ranges are selected. */
  lemma DefaultSelection()
    ensures FilterWeeks(FirstMonday, FirstMonday + 68, false) == WeekRanges
  {
    var tenth := Week(FirstMonday + 63, FirstMonday + 68);
    assert FixedWeeks(false) == WholeWeeks + [tenth];
    WeeksWithinAll(WholeWeeks, FirstMonday, FirstMonday + 68);
    WeeksWithinAppend(WholeWeeks, tenth, FirstMonday, FirstMonday + 68);
  }

  /** With `--last-week-feb-8` and the default dates the tenth range is
      dropped, because it now ends after `--end`. */
  lemma DefaultSelectionFeb8()
    ensures FilterWeeks(FirstMonday, FirstMonday + 68, true) == WeekRanges[..9]
  {
    WeeksWithinAll(WholeWeeks, FirstMonday, FirstMonday + 68);
    WeeksWithinAppend(WholeWeeks, WeekFeb8, FirstMonday, FirstMonday + 68);
    assert WeekRanges[..9] == WholeWeeks;
  }
}
