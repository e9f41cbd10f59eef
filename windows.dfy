/** Date windows and file names of the reporting scripts: the previous
    calendar month and the monthly order-times report, the expected sales mart
    and forecast files, and the five-year sales download cut into 90-day
    chunks. */
module DateWindows {
  import opened Wrappers
  import opened Text
  import opened Calendar
  import opened Rows
  import opened Weeks
  import opened ProjectPaths

  // ------------------------------------------------------- previous month

  /** `get_last_month_range`: the first and the last day of the month before
      the month of `today`.  Python raises OverflowError in January of year 1,
      hence the precondition. */
  function LastMonthRange(today: Civil): (r: (Civil, Civil))
    requires ValidCivil(today) && !(today.year == 1 && today.month == 1)
    ensures ValidCivil(r.0) && ValidCivil(r.1)
    ensures r.0.year == r.1.year && r.0.month == r.1.month
    ensures r.0.day == 1 && r.1.day == DaysInMonth(r.1.year, r.1.month)
    ensures ToOrdinal(r.1) + 1 == ToOrdinal(Civil(today.year, today.month, 1))
  {
    var firstOfThisMonth := Civil(today.year, today.month, 1);
    var lastOfPrevious := PrevDay(firstOfThisMonth);
    (Civil(lastOfPrevious.year, lastOfPrevious.month, 1), lastOfPrevious)
  }

  /** The example of the docstring: on 2026-01-21 the range is December 2025. */
  lemma LastMonthOfJanuary()
    ensures LastMonthRange(Civil(2026, 1, 21)) == (Civil(2025, 12, 1), Civil(2025, 12, 31))
  {
  }

  /** The previous month is the month before, across the year boundary too. */
  lemma LastMonthIsPrevious(today: Civil)
    requires ValidCivil(today) && !(today.year == 1 && today.month == 1)
    ensures var r := LastMonthRange(today);
      if today.month == 1 then r.0.year == today.year - 1 && r.0.month == 12
      else r.0.year == today.year && r.0.month == today.month - 1
  {
  }

  /** `SPANISH_MONTHS`. */
  const SpanishMonths: seq<string> := ["Enero", "Febrero", "Marzo", "Abril", "Mayo", "Junio",
    "Julio", "Agosto", "Septiembre", "Octubre", "Noviembre", "Diciembre"]

  /** `str(n)` for a non-negative integer: its decimal digits with no
      leading zero. */
  function Decimal(n: nat): (r: string)
    ensures |r| > 0 && AllDigits(r)
    ensures r[0] == '0' ==> n == 0
  {
    if n < 10 then [DigitChar(n)] else Decimal(n / 10) + [DigitChar(n % 10)]
  }

  /** Reading the digits back gives the number. */
  lemma {:induction false} DecimalRoundTrip(n: nat)
    ensures DigitsValue(Decimal(n)) == n
  {
    if n >= 10 {
      DecimalRoundTrip(n / 10);
      var r := Decimal(n);
      assert r[..|r| - 1] == Decimal(n / 10);
    }
  }

  /** `copy_and_rename_excel`'s name: "Panem {sucursal} - Ventas {month} {year}.xlsx". */
  function ReportFileName(sucursal: string, monthDate: Civil): (r: string)
    requires 1 <= monthDate.month <= 12 && monthDate.year >= 0
    ensures StartsWith(r, "Panem " + sucursal + " - Ventas " + SpanishMonths[monthDate.month - 1] + " ")
  {
    "Panem " + sucursal + " - Ventas " + SpanishMonths[monthDate.month - 1] + " " + Decimal(monthDate.year) + ".xlsx"
  }

  /** The name the order-times download is expected under: spaces of the
      branch name become hyphens (`hyphenate`) or are kept (the fallback). */
  function OrderTimesName(sucursal: string, start: string, end: string, hyphenate: bool): (r: string)
    ensures |r| == |sucursal| + |start| + |end| + 18
    ensures hyphenate ==> ' ' !in r[11..11 + |sucursal|]
  {
    var branch := if hyphenate then ReplaceChar(sucursal, ' ', '-') else sucursal;
    "OrderTimes_" + branch + "_" + start + "_" + end + ".xlsx"
  }

  function BatchDir(dataRoot: string): string {
    JoinPath(JoinPath(JoinPath(dataRoot, "a_raw"), "order_times"), "batch")
  }

  /** `fetch_order_times_excel_path` after the download: the hyphenated name
      when that file exists, else the unhyphenated one, else FileNotFoundError
      (`existing` is the set of files on disk). */
  function OrderTimesPath(dataRoot: string, sucursal: string, start: string, end: string, existing: set<string>)
    : (r: Result<string, string>)
    ensures r.Success? ==> r.value in existing
    ensures r.Success? ==>
      (r.value == JoinPath(BatchDir(dataRoot), OrderTimesName(sucursal, start, end, true))
       || r.value == JoinPath(BatchDir(dataRoot), OrderTimesName(sucursal, start, end, false)))
    ensures JoinPath(BatchDir(dataRoot), OrderTimesName(sucursal, start, end, true)) in existing ==>
      r == Success(JoinPath(BatchDir(dataRoot), OrderTimesName(sucursal, start, end, true)))
    ensures r.Failure? <==>
      JoinPath(BatchDir(dataRoot), OrderTimesName(sucursal, start, end, true)) !in existing
      && JoinPath(BatchDir(dataRoot), OrderTimesName(sucursal, start, end, false)) !in existing
  {
    var expected := JoinPath(BatchDir(dataRoot), OrderTimesName(sucursal, start, end, true));
    var alt := JoinPath(BatchDir(dataRoot), OrderTimesName(sucursal, start, end, false));
    if expected in existing then Success(expected)
    else if alt in existing then Success(alt)
    else Failure("FileNotFoundError: " + expected)
  }

  /** Without spaces in the branch name both candidate names are the same. */
  lemma OrderTimesNameWithoutSpaces(sucursal: string, start: string, end: string)
    requires ' ' !in sucursal
    ensures OrderTimesName(sucursal, start, end, true) == OrderTimesName(sucursal, start, end, false)
  {
    assert ReplaceChar(sucursal, ' ', '-') == sucursal;
  }

  /** `generate_monthly_report`: the previous month's download, refused when
      it is empty (`empty` lists the zero-size files), copied to the output
      directory (by default `data_root/a_raw/order_times/temp`) under the
      Spanish month name and year of the month's first day. */
  function MonthlyReport(today: Civil, sucursal: string, dataRoot: string, outputDir: Option<string>,
                         existing: set<string>, empty: set<string>): (r: Result<string, string>)
    requires ValidCivil(today) && !(today.year == 1 && today.month == 1)
    ensures var range := LastMonthRange(today);
      var found := OrderTimesPath(dataRoot, sucursal, IsoDate(range.0), IsoDate(range.1), existing);
      (r.Failure? <==> found.Failure? || found.value in empty)
      && (r.Success? ==> r.value == JoinPath(
            outputDir.GetOr(JoinPath(JoinPath(JoinPath(dataRoot, "a_raw"), "order_times"), "temp")),
            ReportFileName(sucursal, range.0)))
  {
    var range := LastMonthRange(today);
    var found := OrderTimesPath(dataRoot, sucursal, IsoDate(range.0), IsoDate(range.1), existing);
    if found.Failure? then Failure(found.error)
    else if found.value in empty then Failure("ValueError: Downloaded Excel file is empty")
    else
      var dir := outputDir.GetOr(JoinPath(JoinPath(JoinPath(dataRoot, "a_raw"), "order_times"), "temp"));
      Success(JoinPath(dir, ReportFileName(sucursal, range.0)))
  }

  /** `main` of the monthly report: 0 on success, 1 on any exception. */
  function MonthlyMain(today: Civil, sucursal: string, dataRoot: string, outputDir: Option<string>,
                       existing: set<string>, empty: set<string>): (code: int)
    requires ValidCivil(today) && !(today.year == 1 && today.month == 1)
    ensures code == 0 <==> MonthlyReport(today, sucursal, dataRoot, outputDir, existing, empty).Success?
    ensures code == 0 || code == 1
  {
    if MonthlyReport(today, sucursal, dataRoot, outputDir, existing, empty).Success? then 0 else 1
  }

  // ---------------------------------------------- weekly sales and forecast

  /** `run_sales_group_mart`'s expected CSV:
      `data_root/c_processed/sales/mart_sales_by_group_{start}_{end}.csv`;
      FileNotFoundError when the mart did not write it. */
  function SalesMartCsv(dataRoot: string, start: string, end: string, existing: set<string>)
    : (r: Result<string, string>)
    ensures r.Success? ==> r.value in existing
    ensures r.Failure? <==> JoinPath(JoinPath(JoinPath(dataRoot, "c_processed"), "sales"),
      "mart_sales_by_group_" + start + "_" + end + ".csv") !in existing
  {
    var path := JoinPath(JoinPath(JoinPath(dataRoot, "c_processed"), "sales"),
      "mart_sales_by_group_" + start + "_" + end + ".csv");
    if path in existing then Success(path) else Failure("FileNotFoundError: Expected CSV not found: " + path)
  }

  /** The forecast script's history: from 365 days before the last full
      week's Monday to its Sunday. */
  function ForecastHistory(today: Day): (r: (Day, Day))
    ensures r.1 - r.0 == 365 + 6 && today - 7 <= r.1 < today && Weekday(r.1) == 6
  {
    var w := LastFullWeek(today);
    WeekdayShift(w.monday, 0);
    (w.monday - 365, w.sunday)
  }

  /** The two forecast outputs under `output_dir/c_processed/payments`. */
  function ForecastOutputs(outputDir: string, forecastDate: string): (r: (string, string))
    ensures r.0 != r.1
  {
    var dir := JoinPath(JoinPath(outputDir, "c_processed"), "payments");
    var f := "forecast_" + forecastDate + ".csv";
    var d := "deposit_schedule_" + forecastDate + ".csv";
    assert f[0] != d[0];
    assert JoinPath(dir, f)[|dir| + 1..] == f && JoinPath(dir, d)[|dir| + 1..] == d;
    (JoinPath(dir, f), JoinPath(dir, d))
  }

  // ------------------------------------------------------ five-year sales

  /** `CHUNK_DAYS`. */
  const ChunkDays: int := 90

  /** An inclusive run of days. */
  datatype Span = Span(first: Day, last: Day)

  /** The download range: `end = today`, `start = end - 7` in test mode and
      `end - 5 * 365` otherwise. */
  function SalesRange(today: Day, test: bool): (r: Span)
    ensures r.last == today && r.first == today - (if test then 7 else 1825)
  {
    Span(today - (if test then 7 else 5 * 365), today)
  }

  /** The chunks tile [start, end]: the first starts at `start`, each begins
      the day after the previous one ends, the last ends at `end`, and none is
      longer than `ChunkDays` days. */
  predicate Tiles(chunks: seq<Span>, start: Day, end: Day) {
    |chunks| > 0 && chunks[0].first == start && chunks[|chunks| - 1].last == end
    && (forall i :: 0 <= i < |chunks| ==> chunks[i].first <= chunks[i].last < chunks[i].first + ChunkDays)
    && (forall i :: 0 < i < |chunks| ==> chunks[i].first == chunks[i - 1].last + 1)
  }

  /** The chunk loop of `main`: `[cur, min(cur + 89, end)]`, then
      `cur = chunk_end + 1`, while `cur <= end`.  Every chunk but the last is
      a full 90 days. */
  method SalesChunks(start: Day, end: Day) returns (chunks: seq<Span>)
    ensures start > end ==> chunks == []
    ensures start <= end ==> Tiles(chunks, start, end)
    ensures forall i :: 0 <= i < |chunks| - 1 ==> chunks[i].last == chunks[i].first + ChunkDays - 1
  {
    chunks := [];
    var cur := start;
    while cur <= end
      invariant chunks == [] ==> cur == start
      invariant chunks != [] ==> start <= end && cur <= end + 1 && Tiles(chunks, start, cur - 1)
      invariant forall i :: 0 <= i < |chunks| - 1 ==> chunks[i].last == chunks[i].first + ChunkDays - 1
      invariant chunks != [] && chunks[|chunks| - 1].last < end ==>
        chunks[|chunks| - 1].last == chunks[|chunks| - 1].first + ChunkDays - 1
      decreases end - cur + 1
    {
      var chunkEnd := if cur + (ChunkDays - 1) < end then cur + (ChunkDays - 1) else end;
      chunks := chunks + [Span(cur, chunkEnd)];
      cur := chunkEnd + 1;
    }
  }

  /** Tiling chunks cover every day of the range, each in exactly one chunk. */
  lemma {:induction false} TilesCover(chunks: seq<Span>, start: Day, end: Day, d: Day)
    requires Tiles(chunks, start, end) && start <= d <= end
    ensures exists i :: 0 <= i < |chunks| && chunks[i].first <= d <= chunks[i].last
    ensures forall i, j :: 0 <= i < j < |chunks| ==> chunks[i].last < chunks[j].first
    decreases |chunks|
  {
    var n := |chunks|;
    TilesOrdered(chunks, start, end);
    if n > 1 {
      var init := chunks[..n - 1];
      if d <= chunks[n - 2].last {
        assert Tiles(init, start, chunks[n - 2].last);
        TilesCover(init, start, chunks[n - 2].last, d);
        var i :| 0 <= i < |init| && init[i].first <= d <= init[i].last;
        assert chunks[i] == init[i];
      } else {
        assert chunks[n - 1].first <= d;
      }
    }
  }

  lemma {:induction false} TilesOrdered(chunks: seq<Span>, start: Day, end: Day)
    requires Tiles(chunks, start, end)
    ensures forall i, j :: 0 <= i < j < |chunks| ==> chunks[i].last < chunks[j].first
    decreases |chunks|
  {
    var n := |chunks|;
    if n > 1 {
      var init := chunks[..n - 1];
      assert Tiles(init, start, chunks[n - 2].last);
      TilesOrdered(init, start, chunks[n - 2].last);
      forall i | 0 <= i < n - 1 ensures chunks[i].last < chunks[n - 1].first {
        assert chunks[i] == init[i];
        assert chunks[i].last <= chunks[n - 2].last;
      }
    }
  }

  /** What `main` of the five-year download does before saving. Export-only
      mode fetches nothing and loads the clean CSVs of the range: with no CSV
      the FileNotFoundError escapes and the exit status is 1. Downloading
      without WS_BASE exits with status 1 before any chunk; otherwise the
      chunks of the range are fetched. `files` are the clean CSVs' lines. */
  method SalesDownload(today: Day, test: bool, exportOnly: bool, hasWsBase: bool,
                       files: seq<seq<SalesLine>>, hasDateColumn: bool)
    returns (status: int, chunks: seq<Span>, exported: Option<seq<SalesLine>>)
    ensures !exportOnly && !hasWsBase ==> status == 1 && chunks == [] && exported.None?
    ensures exportOnly ==> chunks == [] && (status == 0 <==> files != []) && (status == 0 || status == 1)
    ensures exportOnly && status == 0 ==>
              exported == Some(LoadFromCleanCsvs(files, hasDateColumn, SalesRange(today, test).first, today).value)
    ensures exportOnly && status != 0 ==> exported.None?
    ensures !exportOnly && hasWsBase ==> status == 0 && Tiles(chunks, SalesRange(today, test).first, today)
  {
    var range := SalesRange(today, test);
    if exportOnly {
      var loaded := LoadFromCleanCsvs(files, hasDateColumn, range.first, today);
      if loaded.Failure? {
        return 1, [], None;
      }
      return 0, [], Some(loaded.value);
    }
    if !hasWsBase {
      return 1, [], None;
    }
    chunks := SalesChunks(range.first, range.last);
    status := 0;
    exported := None;
  }

  /** One sales line of the clean CSVs, with its "operating_date". */
  datatype SalesLine = SalesLine(operatingDate: Day, fields: seq<string>)

  predicate InRange(l: SalesLine, start: Day, end: Day) {
    start <= l.operatingDate <= end
  }

  /** `_load_from_clean_csvs`: FileNotFoundError when there is no CSV;
      otherwise the files concatenated and, when the "operating_date" column
      exists, only the lines dated within [start, end], in order. */
  function LoadFromCleanCsvs(files: seq<seq<SalesLine>>, hasDateColumn: bool, start: Day, end: Day)
    : (r: Result<seq<SalesLine>, string>)
    ensures r.Failure? <==> files == []
    ensures r.Success? && !hasDateColumn ==> r.value == Concat(files)
    ensures r.Success? && hasDateColumn ==>
      (forall i :: 0 <= i < |r.value| ==> InRange(r.value[i], start, end) && r.value[i] in Concat(files))
      && (forall l :: l in Concat(files) && InRange(l, start, end) ==> l in r.value)
  {
    if files == [] then Failure("FileNotFoundError: No CSV files")
    else if hasDateColumn then Success(Filter(Concat(files), l => InRange(l, start, end)))
    else Success(Concat(files))
  }
}
