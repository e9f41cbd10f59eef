# pos-pipeline-front-end, modelled in Dafny

This project models the deterministic core of the point-of-sale reporting front end. It covers:

- **Inter-branch transfer price correction.** Product names become a matching key: stripped, lower-cased, with a canonical trailing `" *"` and a typo alias table. The PT (PRECIOS) and AG (AG_PRECIOS) price lists are loaded with pack-size division for PZ items. Transfer lines are re-priced by the warehouse they leave from, keeping the cost before correction. The module is `Pricing`, with `ProductNames`. The legacy copy of the engine, `testing/get_weekly_transfers_with_prices.py`, is modelled where it differs.
- **Monday-to-Sunday weeks and week selection** (`Weeks`, `Calendar`). A date is a `date.toordinal()` day number with a civil (year, month, day) view and ISO 8601 text form.
- **The reports of a re-pricing run** (`Reports`):
  - changed lines;
  - price-change alerts;
  - AG/PT origin totals;
  - totals by destination branch and by week, with CEDIS optionally excluded;
  - the weekly breakdown.
- **The golden reference workbook** (`Gold`, `PtCheck`). This covers header detection and column resolution, and the sheet-name rules. It also covers the fixed date window, the (Orden, Producto) lookup and matching, and the PT-W/PT-R/PRECIOS comparison flags.
- **Price-list reconciliation** (`Reconcile`, `Rebuild`, `UnitPriceColumn`):
  - per-product reference prices;
  - the outer join with our lists;
  - the reasonableness filter, the 3x ratio flag and the `Use_Gold` decision;
  - the rebuilt lists (update, then append);
  - the transfer-missing fill;
  - the PRECIO UNITARIO column.
- **Report inputs** (`WeekFiles`, `CorrectionReport`, `Pivots`). Week file names are parsed back to their dates, and the per-item aggregate of price differences is computed. So are the overall percentage and the pivot-mart run over a directory.
- **Payments validation** (`Payments`):
  - required columns, and dates normalised to days;
  - missing payments as 0, and the derived `ingreso_total`;
  - the raise/first/sum strategies for duplicate keys;
  - the as-of check and the seven-day coverage check.
- **Date windows and names** (`DateWindows`). These are the previous calendar month, the monthly order-times report names and checks, the sales mart and forecast file names, and the five-year download cut into 90-day chunks. `reporting/monthly_punto_valle_sales.py` repeats the logic of `src/pos_frontend/reporting/monthly_pv_sales.py` and is modelled once, and so is `get_last_full_week`, which three scripts share.
- **Configuration** (`ProjectPaths`). This covers the project-root resolution precedence, the bounded walk up from the package directory, and the secrets-file line parser with `setdefault` semantics.

The following conventions hold throughout:

- A pandas frame is a sequence of records.
- A cell that pandas would hold as NaN, including a value coerced away, is `None`. So is a division by zero that pandas would give as inf or NaN.
- A spreadsheet sheet is a rectangle of `Cell`s.
- Whatever depends on the machine is a parameter: today's date, the environment, which files exist and what they contain.

Generic helpers support the model:

- `Text`: Python `str` operations;
- `Sorting`: the orders behind `sort_values` and `groupby`;
- `Rows`: column sums, first-per-key dedupe and the cross join;
- `Cells`: sheets and header search;
- `Wrappers`: Option and Result.

In four places the code behaves differently from what its names and docstrings suggest, and the model does what the code does:

- The alias table is applied to every matching key, not only as a fallback after a miss.
- Normalisation does not collapse inner whitespace.
- A transfer line with no applicable price still has its cost recomputed as quantity times its unchanged unit cost.
- An origin naming both warehouses receives the PT price and then the AG price, so the AG price wins.

Eight places where the code does not do what it evidently means are listed under Findings. Each has an as-written model beside the corrected one, and the rest of the model uses the corrected one.

## Model

| member | source | states |
|---|---|---|
| Cells.ToInstant | src/pos_frontend/transfers/gold_investigation.py:71 | coercion keeps a timestamp, reads an ISO date text as midnight of that day, and turns a blank or a number into a missing value |
| Cells.FindColumn | src/pos_frontend/transfers/weekly_with_prices.py:84-85 | the first column whose header the rule accepts, or nothing exactly when no header matches |
| Cells.ColumnIndex | src/pos_frontend/transfers/weekly_with_prices.py:80 | the position of a column with that exact name, or nothing exactly when there is none |
| ProjectPaths.JoinPath | src/pos_frontend/reporting/weekly_payments.py:43-45 | an absolute name is kept as it is; otherwise the path is the directory, a slash and the name |
| ProjectPaths.WalkUp | src/pos_frontend/config/paths.py:19-29 | a directory the walk returns holds at least one sentinel file |
| ProjectPaths.WalkUpNearest | src/pos_frontend/config/paths.py:19-29 | a directory found is the nearest ancestor, among the first ten tried, that holds a sentinel; every directory tried before it holds none |
| ProjectPaths.WalkUpMisses | src/pos_frontend/config/paths.py:19-29 | the walk finds nothing exactly when none of the first ten directories up to the filesystem root holds a sentinel |
| ProjectPaths.FindRootFromFile | src/pos_frontend/config/paths.py:19-29 | the bounded loop (ten steps, early stop at the root) returns what the walk specifies |
| ProjectPaths.ProjectRoot | src/pos_frontend/config/paths.py:32-54 | the root is the working directory when it holds a sentinel, else POS_PIPELINE_ROOT when set and holding one, else the walk's result, else the working directory; the result is the working directory or a directory with a sentinel |
| ProjectPaths.GetProjectRoot | src/pos_frontend/config/paths.py:32-54 | the method follows that precedence |
| ProjectPaths.ParseLine | src/pos_frontend/config/paths.py:70-76 | a line is skipped exactly when, stripped, it is blank, a comment, has no `=` or starts with "export"; the key holds no `=` |
| ProjectPaths.ParseAssignment | src/pos_frontend/config/paths.py:74-76 | `KEY=value` is read back as that key and value (split at the first `=`, so a value may hold `=`) |
| ProjectPaths.SetDefaultIn | src/pos_frontend/config/paths.py:77 | setdefault adds the key only when it is absent and never changes an existing variable |
| ProjectPaths.Environ.SetDefault | src/pos_frontend/config/paths.py:77 | the variables after the call are those setdefault gives |
| ProjectPaths.NeverOverwrites | src/pos_frontend/config/paths.py:66-77 | loading never changes a variable that was already set, so secrets.env wins over utils/secrets.env |
| ProjectPaths.FirstLineWins | src/pos_frontend/config/paths.py:70-77 | of several lines setting an unset variable, the first one decides its value |
| ProjectPaths.LoadLines | src/pos_frontend/config/paths.py:70-77 | the line loop leaves the variables the lines specify |
| ProjectPaths.LoadSecretsEnv | src/pos_frontend/config/paths.py:63-77 | secrets.env then utils/secrets.env are applied, each only when it exists |
| Calendar.Weekday | src/pos_frontend/transfers/weekly_with_prices.py:52 | `date.weekday()` lies in 0..6 and is 0 exactly on Mondays (0001-01-01 being a Monday) |
| Calendar.WeekdayShift | src/pos_frontend/transfers/weekly_with_prices.py:52-54 | moving a date by whole weeks keeps its weekday |
| Calendar.DayOf | src/pos_frontend/reporting/weekly_payments.py:80-89 | normalising a timestamp gives the day whose midnight is at or before it and whose next midnight is after it |
| Calendar.PrevDay | src/pos_frontend/reporting/monthly_pv_sales.py:39-41 | subtracting one day gives a valid date whose ordinal is one less, across month and year ends |
| Calendar.IsoDate | src/pos_frontend/transfers/weekly_with_prices.py:584-585 | `isoformat()` writes YYYY-MM-DD |
| Calendar.ParseIsoDate | src/pos_frontend/reporting/weekly_payments.py:292-297 | a date that `fromisoformat` accepts is a valid calendar date |
| Calendar.IsoRoundTrip | src/pos_frontend/reporting/weekly_payments.py:292-297 | writing a date in ISO form and reading it back gives the same date |
| Calendar.ParseIsoCanonical | src/pos_frontend/reporting/weekly_payments.py:292-297 | every accepted text is the ISO writing of the date read from it |
| Weeks.WeekBoundaries | src/pos_frontend/transfers/weekly_with_prices.py:50-55 | the result is a whole Monday-to-Sunday week containing the date |
| Weeks.OnlyWeekContaining | src/pos_frontend/transfers/weekly_with_prices.py:50-55 | it is the only whole week containing the date |
| Weeks.BuildWeekRanges | src/pos_frontend/transfers/weekly_with_prices.py:58-64 | exactly `num_weeks` ranges (none when it is not positive), the first being the week of `end_date` |
| Weeks.BuildWeekRangesShape | src/pos_frontend/transfers/weekly_with_prices.py:58-64 | every range is a whole week, the i-th lies i weeks before the first, and each Monday is the day after the next older Sunday |
| Weeks.LastFullWeek | src/pos_frontend/reporting/weekly_payments.py:30-40 | a whole week whose Sunday is strictly before today and at most seven days before it (the same function in reporting/weekly_payments_forecast.py:16-25 and reporting/weekly_sales_report.py:12-21) |
| Weeks.LastFullWeekIsLatest | src/pos_frontend/reporting/weekly_payments.py:31-33 | no Sunday strictly before today is later than the last full week's Sunday |
| Weeks.ParseTargetDate | src/pos_frontend/reporting/weekly_payments.py:292-300 | no argument gives the last full week's Sunday; a given one fails exactly when it is not an ISO date |
| Weeks.ParseTargetDateRoundTrip | src/pos_frontend/reporting/weekly_payments.py:292-297 | a written date is read back as the same day |
| Weeks.DaysBeforeYearClosed | src/pos_frontend/transfers/weekly_with_prices.py:37 | the ordinal count of days before 1 January in closed Gregorian form |
| Weeks.FirstMondayIsDecember1st | src/pos_frontend/transfers/weekly_with_prices.py:37 | 2025-12-01, where the fixed ranges start, is a Monday |
| Weeks.FixedWeeks | testing/get_weekly_transfers_with_prices.py:318-321 | ten ranges, the first nine those of `WEEK_RANGES`, the last replaced by 2 to 8 February 2026 exactly when `--last-week-feb-8` is set |
| Weeks.FixedWeeksAreWeeks | testing/get_weekly_transfers_with_prices.py:39-50 | with the replacement every range is a whole week; the tenth range of `WEEK_RANGES` ends on a Saturday |
| Weeks.WeeksWithin | testing/get_weekly_transfers_with_prices.py:322 | the ranges kept are the ranges inside [start, end], nothing else |
| Weeks.FilterWeeks | testing/get_weekly_transfers_with_prices.py:322 | the same for the fixed ranges |
| Weeks.WeeksWithinAll | testing/get_weekly_transfers_with_prices.py:322 | a filter that keeps every range keeps the list as it is |
| Weeks.WeeksWithinAppend | testing/get_weekly_transfers_with_prices.py:322 | filtering a list with one more range filters the list, then that range |
| Weeks.LegacySelectWeeks | testing/get_weekly_transfers_with_prices.py:315-325 | the selection fails exactly when a date does not parse or no range lies in [start, end]; a success is never empty |
| Weeks.SelectWeeks | src/pos_frontend/transfers/weekly_with_prices.py:552-572 | `--weeks N` with N <= 0 exits 1, with an empty `--end` builds N weeks back from today; without `--weeks` it is the legacy filter; a success is never empty |
| Weeks.DefaultSelection | src/pos_frontend/transfers/weekly_with_prices.py:521-522 | the default dates select all ten fixed ranges |
| Weeks.DefaultSelectionFeb8 | testing/get_weekly_transfers_with_prices.py:318-322 | with `--last-week-feb-8` and the default dates the tenth range is dropped, because it now ends after `--end` |
| Weeks.MondayOf | src/pos_frontend/transfers/weekly_with_prices.py:52 | stepping back by the weekday lands on a Monday |
| Weeks.SundayBefore | src/pos_frontend/transfers/weekly_with_prices.py:53 | the day before that Monday is a Sunday |
| DateWindows.LastMonthRange | src/pos_frontend/reporting/monthly_pv_sales.py:33-42 | the first and the last day of one month, the last being the day before the first of the current month |
| DateWindows.LastMonthOfJanuary | src/pos_frontend/reporting/monthly_pv_sales.py:34-36 | on 21 January 2026 the range is 1 to 31 December 2025 (the same function in reporting/monthly_punto_valle_sales.py:33-42) |
| DateWindows.LastMonthIsPrevious | src/pos_frontend/reporting/monthly_pv_sales.py:39-42 | the month is the one before the current month, December of the previous year in January |
| DateWindows.Decimal | src/pos_frontend/reporting/monthly_pv_sales.py:100 | `str(year)`: decimal digits without a leading zero |
| DateWindows.DecimalRoundTrip | src/pos_frontend/reporting/monthly_pv_sales.py:100 | reading the digits back gives the number |
| DateWindows.ReportFileName | src/pos_frontend/reporting/monthly_pv_sales.py:96-101 | the name is "Panem {sucursal} - Ventas " followed by the Spanish name of the month (and the year) |
| DateWindows.OrderTimesName | src/pos_frontend/reporting/monthly_pv_sales.py:61-66 | the expected name replaces the spaces of the branch name with hyphens; the fallback keeps them |
| DateWindows.OrderTimesNameWithoutSpaces | src/pos_frontend/reporting/monthly_pv_sales.py:61-66 | for a branch name without spaces both candidate names coincide |
| DateWindows.OrderTimesPath | src/pos_frontend/reporting/monthly_pv_sales.py:61-85 | the hyphenated file when it exists, else the unhyphenated one, else FileNotFoundError exactly when neither exists (also reporting/monthly_punto_valle_sales.py:76-101) |
| DateWindows.MonthlyReport | src/pos_frontend/reporting/monthly_pv_sales.py:110-151 | fails exactly when the previous month's download is missing or empty; otherwise the report is written to the output directory (by default data_root/a_raw/order_times/temp) under the Spanish month name and year (also reporting/monthly_punto_valle_sales.py:144-194) |
| DateWindows.MonthlyMain | src/pos_frontend/reporting/monthly_pv_sales.py:184-198 | status 0 exactly when the report succeeds, otherwise 1 (also reporting/monthly_punto_valle_sales.py:243-258) |
| DateWindows.SalesMartCsv | reporting/weekly_sales_report.py:41-51 | the path data_root/c_processed/sales/mart_sales_by_group_{start}_{end}.csv, FileNotFoundError exactly when it does not exist |
| DateWindows.ForecastHistory | reporting/weekly_payments_forecast.py:145-151 | the history ends on a Sunday within the seven days before today, which is the last full week's Sunday, and starts 371 days earlier, 365 days before that week's Monday |
| DateWindows.ForecastOutputs | reporting/weekly_payments_forecast.py:124-135 | the forecast and the deposit schedule are written to two different files |
| DateWindows.SalesRange | scripts/download_5yr_sales.py:70-71 | the range ends today and starts 7 days earlier in test mode, 1825 days earlier otherwise |
| DateWindows.SalesChunks | scripts/download_5yr_sales.py:87-94 | the chunks tile [start, end]: the first starts at start, each starts the day after the previous ends, the last ends at end, none is longer than 90 days and all but the last are exactly 90 days; no chunks when start > end |
| DateWindows.TilesCover | scripts/download_5yr_sales.py:87-94 | every day of the range lies in a chunk, and chunks do not overlap |
| DateWindows.SalesDownload | scripts/download_5yr_sales.py:56-99 | downloading without WS_BASE exits with status 1 before any chunk; otherwise the chunks tile the range. Export-only mode fetches nothing: with no clean CSV the uncaught FileNotFoundError gives status 1, else the export is the loaded lines of the range |
| DateWindows.LoadFromCleanCsvs | scripts/download_5yr_sales.py:42-54 | FileNotFoundError exactly when there is no CSV; otherwise all lines, or only those dated within [start, end] when the date column exists |
| DateWindows.TilesOrdered | scripts/download_5yr_sales.py:87-94 | the chunks come in order, each ending before the next begins |
| ProductNames.MatchKeyShape | src/pos_frontend/transfers/weekly_with_prices.py:137-142 | a matching key is lower case, and a key ending in `*` ends in exactly one space and the star |
| ProductNames.StarSpacingIrrelevant | src/pos_frontend/transfers/weekly_with_prices.py:140-141 | "X*" and "X *" get the same key (tests/test_weekly_transfers.py:57-62) |
| ProductNames.SopaAliasUnreachable | src/pos_frontend/transfers/weekly_with_prices.py:30-33 | no name normalises to "sopa de tomate*", so that alias entry never applies |
| Pricing.ProductColumn | src/pos_frontend/transfers/weekly_with_prices.py:76 | the name column is "NOMBRE WANSOFT" when present, else "Producto"; missing exactly when neither exists |
| Pricing.UnidadColumn | src/pos_frontend/transfers/weekly_with_prices.py:84 | a UNIDAD column found is a column of the sheet |
| Pricing.PresentColumn | src/pos_frontend/transfers/weekly_with_prices.py:85 | a PRESENTACION column found is a column of the sheet |
| Pricing.PiecePriceTimesPack | src/pos_frontend/transfers/weekly_with_prices.py:86-94 | a "PZ" price with positive PRESENTACION is divided, so times the pack size it is the pack price; any other price passes unchanged, and a missing price stays missing |
| Pricing.ResolvePriceColumns | src/pos_frontend/transfers/weekly_with_prices.py:79-96 | the price columns found lie within the sheet; PRECIO UNITARIO and PRECIO DRIVE are found exactly when they exist |
| Pricing.Entries | src/pos_frontend/transfers/weekly_with_prices.py:97-98 | one price entry per row |
| Pricing.SheetEntries | src/pos_frontend/transfers/weekly_with_prices.py:76-96 | one entry per sheet row |
| Pricing.UnitPrices | src/pos_frontend/transfers/weekly_with_prices.py:78-96 | the unit-price column built step by step equals the column the rules specify |
| Pricing.NumericColumn | src/pos_frontend/transfers/weekly_with_prices.py:83 | the coerced column holds each cell's number, missing where the cell is not one |
| Pricing.DividePieces | src/pos_frontend/transfers/weekly_with_prices.py:91-94 | after the masked division each row holds the price the pack-size rule gives it |
| Pricing.PriceColumn | src/pos_frontend/transfers/weekly_with_prices.py:78-96 | one unit price per row |
| Pricing.LoadPrecios | src/pos_frontend/transfers/weekly_with_prices.py:67-98 | fails exactly when there is no name column; otherwise the first row per stripped name, with the unit price the rules give it |
| Pricing.LoadAgPrecios | src/pos_frontend/transfers/weekly_with_prices.py:101-115 | no list exactly when the path is empty, the file is missing or a required column is absent; otherwise the names are unique, there are no more entries than rows, and each entry is some row's stripped name and numeric price (also testing/get_weekly_transfers_with_prices.py:76-90) |
| Pricing.LoadAgPreciosKeepsFirsts | src/pos_frontend/transfers/weekly_with_prices.py:114 | the first row of every name is kept |
| Pricing.LegacyPriceColumns | testing/get_weekly_transfers_with_prices.py:67-68 | NOMBRE WANSOFT and PRECIO DRIVE are used only when both exist, else Producto and Precio unitario; nothing exactly when neither pair exists |
| Pricing.LegacyLoadPrecios | testing/get_weekly_transfers_with_prices.py:61-73 | fails exactly when the columns are missing; otherwise the names are unique, there are no more entries than rows, and each entry is some row's stripped name with that row's numeric price, not divided by a pack size (also src/pos_frontend/pricing/compare_unit_prices.py:59-66) |
| Pricing.LegacyLoadPreciosKeepsFirsts | testing/get_weekly_transfers_with_prices.py:70-71 | the first row of every stripped name is kept, with its own price |
| Pricing.DedupedFromRows | testing/get_weekly_transfers_with_prices.py:69-73 | every entry left after dropping duplicates is the entry of a row of the sheet, and there are no more of them than rows |
| Pricing.Normalised | src/pos_frontend/transfers/weekly_with_prices.py:172-173 | one keyed row per price entry |
| Pricing.FindKey | src/pos_frontend/transfers/weekly_with_prices.py:174-180 | the position of the first row with the key, or nothing exactly when no row has it |
| Pricing.Recosted | src/pos_frontend/transfers/weekly_with_prices.py:199-213 | Costo_before is the input Costo; Costo and Costo_after are quantity times the new unit cost; nothing else changes |
| Pricing.RepriceAll | src/pos_frontend/transfers/weekly_with_prices.py:145-223 | one priced line per input line |
| Pricing.ApplyPrices | src/pos_frontend/transfers/weekly_with_prices.py:145-223 | the masked in-place updates (PT mask, then AG mask, then the cost) give each line its specified re-pricing (also testing/get_weekly_transfers_with_prices.py:120-198) |
| Pricing.MaskedIsNewUnitCost | src/pos_frontend/transfers/weekly_with_prices.py:202-210 | the unit cost left by the two masks is the AG price on an ALMACEN GENERAL origin with a price, else the PT price on a PRODUCTO TERMINADO origin with a price, else the original |
| Pricing.PtMask | src/pos_frontend/transfers/weekly_with_prices.py:203-205 | the PT mask overwrites exactly the PT-origin lines that have a PT price |
| Pricing.AgMask | src/pos_frontend/transfers/weekly_with_prices.py:208-210 | the AG mask, applied second, overwrites exactly the AG-origin lines that have an AG price |
| Pricing.RepricingIsIdempotent | src/pos_frontend/transfers/weekly_with_prices.py:145-213 | re-pricing a corrected line changes nothing and leaves before equal to after |
| Pricing.RepricedWithIdempotent | src/pos_frontend/transfers/weekly_with_prices.py:199-213 | with fixed prices a second pass leaves the line as it is |
| Pricing.AliasUsesCanonicalPrice | src/pos_frontend/transfers/weekly_with_prices.py:164-168 | a name whose key is an alias is priced as the canonical product, whether or not the alias has a price of its own (tests/test_weekly_transfers.py:19-34) |
| Pricing.StarSpellingsSharePrice | src/pos_frontend/transfers/weekly_with_prices.py:137-142 | "X*" and "X *" find the same price (tests/test_weekly_transfers.py:37-54) |
| Pricing.AllMatches | src/pos_frontend/transfers/weekly_with_prices.py:174-180 | the left merge finds no row exactly when the key is absent |
| Pricing.MergeSide | src/pos_frontend/transfers/weekly_with_prices.py:174-180 | a left merge keeps every line at least once |
| Pricing.MergeLineAsWritten | src/pos_frontend/transfers/weekly_with_prices.py:174-194 | as written, one line becomes one output line per (PT match, AG match) pair |
| Pricing.ApplyPricesAsWritten | src/pos_frontend/transfers/weekly_with_prices.py:145-223 | as written, the output has at least as many lines as the input |
| Pricing.LoaderKeepsBothSpellings | src/pos_frontend/transfers/weekly_with_prices.py:67-98 | the loader keeps both "X*" and "X *", because their stripped names differ |
| Pricing.MergeDuplicatesLine | src/pos_frontend/transfers/weekly_with_prices.py:173-180 | as written, one matching transfer line becomes two; the corrected ApplyPrices keeps it one |
| ProductNames.CanonicalStars | src/pos_frontend/transfers/weekly_with_prices.py:137-142 | a name ending in "*" and the same name ending in " *" get the same matching key |
| ProductNames.StripStars | src/pos_frontend/transfers/weekly_with_prices.py:139-141 | stripping a name with text before its star keeps "*" and " *" distinct |
| ProductNames.BlankStars | src/pos_frontend/transfers/weekly_with_prices.py:139 | a star preceded only by blanks strips to the same text either way |
| Pricing.PieceRowPrice | src/pos_frontend/transfers/weekly_with_prices.py:83-94 | without PRECIO UNITARIO, a row's price is PRECIO DRIVE divided by a positive PRESENTACION on a PZ row, and PRECIO DRIVE otherwise |
| Reports.SumByDelta | src/pos_frontend/transfers/weekly_with_prices.py:324 | the cost difference of a group is the after total minus the before total |
| Reports.UnchangedSumToZero | src/pos_frontend/transfers/weekly_with_prices.py:248 | lines whose cost did not change contribute no difference |
| Reports.DivOrMissing | src/pos_frontend/transfers/weekly_with_prices.py:256-258 | division by a zero quantity gives a missing value; otherwise the quotient times the divisor is the dividend |
| Reports.PctChange | src/pos_frontend/transfers/weekly_with_prices.py:440 | the percentage change is missing exactly when the before total is 0; otherwise it times the before total is 100 times the difference |
| Reports.ChangedLines | src/pos_frontend/transfers/weekly_with_prices.py:248-259 | one output row per changed line, with unit cost before = cost before / quantity and unit cost after = the new unit cost |
| Reports.WeeklyPriceChanges | src/pos_frontend/transfers/weekly_with_prices.py:226-277 | the changed lines as a permutation sorted by (Producto, Almacen_origen) |
| Reports.WeeklyPriceChangesRows | src/pos_frontend/transfers/weekly_with_prices.py:245-250 | a row is reported exactly when it comes from a line whose cost changed; a week with no change gives the empty result |
| Reports.WeeklyPriceChangesDiffer | src/pos_frontend/transfers/weekly_with_prices.py:248 | every reported row shows different before and after costs |
| Reports.LevelOf | src/pos_frontend/transfers/weekly_with_prices.py:326-329 | HIGH exactly when the absolute percentage exceeds the high threshold, MEDIUM exactly when it exceeds the medium one and not the high one, none otherwise or when it is missing |
| Reports.UnitPctChange | src/pos_frontend/transfers/weekly_with_prices.py:316-323 | missing exactly when the average is missing or 0; otherwise times the average it is 100 times (unit after - average) |
| Reports.AlertOf | src/pos_frontend/transfers/weekly_with_prices.py:307-324 | a group's cost difference is the sum of its lines' differences |
| Reports.AlertsOver | src/pos_frontend/transfers/weekly_with_prices.py:307-324 | one aggregate per key, in key order, their cost differences adding up to those of the groups |
| Reports.AlertKeys | src/pos_frontend/transfers/weekly_with_prices.py:308 | every key has at least one changed line |
| Reports.PriceChangeAlerts | src/pos_frontend/transfers/weekly_with_prices.py:280-346 | one aggregate per (product, origin) key of the changed lines, as a permutation sorted by absolute unit-price change (missing last) |
| Reports.AlertsCostDiffTotal | src/pos_frontend/transfers/weekly_with_prices.py:292-324 | the alerts' cost differences add up to the total difference of every line, changed or not |
| Reports.ChangedRowsCovered | src/pos_frontend/transfers/weekly_with_prices.py:308 | the keys are distinct and every changed line's key is among them |
| Reports.ChangedCarryTheDifference | src/pos_frontend/transfers/weekly_with_prices.py:292 | the changed lines carry the whole cost difference |
| Reports.AlertHasKey | src/pos_frontend/transfers/weekly_with_prices.py:307-346 | an alert exists for a key exactly when the key is a group key |
| Reports.ChangedKey | src/pos_frontend/transfers/weekly_with_prices.py:292-308 | a key is a group key exactly when some changed line has it |
| Reports.AlertsPerGroup | src/pos_frontend/transfers/weekly_with_prices.py:280-346 | there is an alert for a (product, origin) pair exactly when some line of that pair changed |
| Reports.CedisExclusionSplits | src/pos_frontend/transfers/weekly_with_prices.py:455-456 | excluding CEDIS drops exactly the lines sent to "Panem - CEDIS": the total is the kept total plus the CEDIS total (also testing/get_weekly_transfers_with_prices.py:225-226) |
| Reports.CedisExclusionLowers | src/pos_frontend/transfers/weekly_with_prices.py:455-456 | with non-negative costs, excluding CEDIS never raises a total (tests/test_weekly_transfers.py:89-103) |
| Reports.KindOf | src/pos_frontend/transfers/weekly_with_prices.py:368-374 | PT exactly when the origin contains "PRODUCTO TERMINADO" (set last, so it wins), AG exactly when it contains "ALMACEN GENERAL" and not that |
| Reports.Totals | src/pos_frontend/transfers/weekly_with_prices.py:399-406 | each difference is after minus before and each percentage is the change over before, missing when before is 0 |
| Reports.OriginWeeks | src/pos_frontend/transfers/weekly_with_prices.py:376-398 | one merged row per week, in week order |
| Reports.OriginWeekKeys | src/pos_frontend/transfers/weekly_with_prices.py:376-398 | the weeks of the outer merge are every week with an AG or a PT line, once each, sorted |
| Reports.OriginTotals | src/pos_frontend/transfers/weekly_with_prices.py:349-428 | an empty frame gives nothing; otherwise the "All" row followed by one row per week |
| Reports.OriginWeeksSum | src/pos_frontend/transfers/weekly_with_prices.py:398-411 | the merged rows' column sums are the AG and PT totals of the weeks |
| Reports.OriginWeekKeysCover | src/pos_frontend/transfers/weekly_with_prices.py:398 | the outer merge loses no week of an AG or PT line |
| Reports.AllRowTotals | src/pos_frontend/transfers/weekly_with_prices.py:408-426 | the "All" row holds the before and after totals of every AG line and of every PT line kept after the CEDIS exclusion |
| Reports.KeysOf | src/pos_frontend/transfers/weekly_with_prices.py:435 | the key column of the grouped frame |
| Reports.TotalsOver | src/pos_frontend/transfers/weekly_with_prices.py:435-440 | one row per key with difference = after - before and the percentage change; totals are those of the groups |
| Reports.TotalsBy | src/pos_frontend/transfers/weekly_with_prices.py:435-440 | one row per distinct key, sorted, and the grand totals are preserved |
| Reports.CostByDestBranch | src/pos_frontend/transfers/weekly_with_prices.py:431-441 | one row per destination branch, sorted, whose totals add up to the frame's (also testing/get_weekly_transfers_with_prices.py:201-211) |
| Reports.WeeklyCostComparison | src/pos_frontend/transfers/weekly_with_prices.py:444-463 | one row per week of the kept lines, sorted, whose totals add up to the kept lines' totals; with the exclusion CEDIS lines are left out (also testing/get_weekly_transfers_with_prices.py:214-233) |
| Reports.BreakdownOf | src/pos_frontend/transfers/weekly_with_prices.py:477-497 | Total_After is the week's cost-after total rounded to cents; the gold columns are present exactly when the week has a reference |
| Reports.WeekLabels | src/pos_frontend/transfers/weekly_with_prices.py:476 | each week label once, every label of the frame |
| Rows.DistinctFirstSeenOrder | src/pos_frontend/transfers/weekly_with_prices.py:476 | `unique()` lists its values in order of first appearance: every occurrence of a later value comes after some occurrence of an earlier one |
| Reports.WeeklyBreakdown | src/pos_frontend/transfers/weekly_with_prices.py:466-498 | the loop writes one row per week label in first-seen order, each the row specified for that week (also testing/get_weekly_transfers_with_prices.py:236-272) |
| Reports.BreakdownCoversAll | src/pos_frontend/transfers/weekly_with_prices.py:476-478 | the week totals add up to the frame's total cost after correction |
| Reports.BreakdownSplits | src/pos_frontend/transfers/weekly_with_prices.py:478-480 | within a week, the CEDIS and the non-CEDIS lines add up to the week's total, so To_Branches_Only is the non-CEDIS total before rounding |
| Reports.ExactOriginsWithinTotal | src/pos_frontend/transfers/weekly_with_prices.py:481-482 | with non-negative costs, APT_Only plus AG_Only never exceeds the week's total |
| Reports.ExactOriginsSplit | src/pos_frontend/transfers/weekly_with_prices.py:481-482 | the two exact-name totals add up to the total of lines with either name |
| Reports.ChangedKeyHasRow | src/pos_frontend/transfers/weekly_with_prices.py:280-300 | every alert key is the (product, origin) of some changed line |
| Reports.RowGivesChangedKey | src/pos_frontend/transfers/weekly_with_prices.py:280-300 | every changed line's (product, origin) is an alert key |
| Gold.HeaderRowFrom | src/pos_frontend/transfers/gold_investigation.py:40-44 | the scan from row i returns the first row holding "Orden" below row 15, or -1 exactly when there is none |
| Gold.HeaderRow | src/pos_frontend/transfers/gold_investigation.py:38-44 | the header is the smallest i < min(15, rows) whose row has a cell containing "Orden"; -1 exactly when no such row exists |
| Gold.DetectHeaderRow | src/pos_frontend/transfers/gold_investigation.py:38-44 | the early-return loop returns the header row so specified |
| Gold.ColumnOrResolved | src/pos_frontend/transfers/gold_investigation.py:57-64 | each column is the first header accepted by its test, or the fallback position when none is |
| Gold.ResolveGoldColumns | src/pos_frontend/transfers/gold_investigation.py:64-66 | the Costo position is clamped inside the sheet |
| Gold.ResolveGoldColumnsSpec | src/pos_frontend/transfers/gold_investigation.py:57-66 | the fallbacks are Orden 1, origin 2, destination 3, Fecha 5, Cantidad 6, Departamento 7, Producto 8 and Costo 10, each used only when no header contains its text; Costo is clamped to the last column |
| Gold.ReadRow | src/pos_frontend/transfers/gold_investigation.py:68-78 | a row is kept exactly when its stripped product name is longer than two characters and cost and quantity are numbers |
| Gold.ReadRows | src/pos_frontend/transfers/gold_investigation.py:67-79 | the kept rows name a product longer than two characters, carry their sheet and, when the sheet has a branch, that branch as destination |
| Gold.HeaderNames | src/pos_frontend/transfers/gold_investigation.py:54 | one name per header cell |
| Gold.ParseSheet | src/pos_frontend/transfers/gold_investigation.py:47-79 | no header row gives an empty result; every kept row names a product longer than two characters and carries the sheet's branch |
| Gold.SucursalOf | src/pos_frontend/transfers/gold_investigation.py:97-101 | the branch is the mapping of the first `-` token, else "Panem - " followed by the token |
| Gold.SheetPart | src/pos_frontend/transfers/gold_investigation.py:92-119 | skipped sheets give nothing; an "-AG" sheet adds its ALMACEN GENERAL rows to both outputs; a "-PT-R" sheet adds its ALMACEN PRODUCTO TERMINADO rows to the first only |
| Gold.GoldParts | src/pos_frontend/transfers/gold_investigation.py:92-119 | every AG reference row is also among all rows, and every row comes from an AG or a PT origin |
| Gold.GoldWindowDates | src/pos_frontend/transfers/gold_investigation.py:124 | the window runs from midnight of 2026-02-02 to midnight of 2026-02-08 |
| Gold.Windowed | src/pos_frontend/transfers/gold_investigation.py:120-134 | both outputs keep exactly the rows inside the window; no rows gives two empty outputs |
| Gold.GoldWorkbookShape | src/pos_frontend/transfers/gold_investigation.py:82-134 | the AG rows are among all rows, every row lies in the window, and every row comes from an AG or a PT origin |
| Gold.WindowedAsWrittenFailsWithoutAg | src/pos_frontend/transfers/gold_investigation.py:126-133 | as written, a workbook whose rows all come from "-PT-R" sheets fails on the empty AG frame; the corrected step returns an empty AG side, and the two agree otherwise |
| Gold.ParseGoldExcel | src/pos_frontend/transfers/gold_investigation.py:82-134 | the sheet loop returns what the workbook specification gives |
| Gold.PrependAssoc | src/pos_frontend/transfers/gold_investigation.py:112-119 | appending sheet by sheet is the same as appending the rest at once |
| Gold.BuildGoldLookup | src/pos_frontend/transfers/gold_investigation.py:137-143 | the keys are exactly the (stripped Orden, stripped Producto) pairs of the rows, and each key holds the values of its last row |
| Gold.CompareLine | src/pos_frontend/transfers/gold_investigation.py:158-195 | matched exactly when the stripped key is in the lookup; then the cost difference is ours minus gold; unmatched lines carry missing gold values and differences |
| Gold.MatchAndCompare | src/pos_frontend/transfers/gold_investigation.py:155-196 | one report row per line of ours, in input order |
| Gold.PresentUnitCosts | src/pos_frontend/transfers/gold_investigation.py:204 | the present unit costs of a group (median skips missing values) |
| Gold.MedianUnitCost | src/pos_frontend/transfers/gold_investigation.py:204 | missing exactly when the group has no unit cost; otherwise it lies between two of the group's unit costs |
| Gold.MedianUnitCostIsMedian | src/pos_frontend/transfers/gold_investigation.py:204 | a present price is the median of the group's present unit costs, as order statistics define it |
| Gold.MedianBetweenRows | src/pos_frontend/transfers/gold_investigation.py:204 | two rows of the group carry unit costs at or below and at or above the median |
| Rows.MedianIsMedian | src/pos_frontend/pricing/compare_unit_prices.py:47 | `Series.median()`: for an odd count the middle value by rank; for an even count the mean of the two middle values by rank |
| Rows.MedianUnique | src/pos_frontend/pricing/compare_unit_prices.py:47 | a list has only one median, so the computed one is the median |
| Rows.RankUnique | src/pos_frontend/pricing/compare_unit_prices.py:47 | the value of a given rank is unique |
| Rows.RankPermutation | src/pos_frontend/pricing/compare_unit_prices.py:47 | the rank of a value does not depend on the order of the list |
| Rows.SortedRank | src/pos_frontend/pricing/compare_unit_prices.py:47 | in a sorted list the value at position k has rank k |
| Rows.FilterCountPermutation | src/pos_frontend/pricing/compare_unit_prices.py:47 | a mask keeps as many rows of any reordering of a frame |
| Rows.MiddlePairUnique | src/pos_frontend/pricing/compare_unit_prices.py:47 | for an even count, the two middle values fix the median |
| Gold.PricesOver | src/pos_frontend/transfers/gold_investigation.py:203-208 | one entry per listed product longer than two characters, with its median unit cost |
| Gold.PricesOverNames | src/pos_frontend/transfers/gold_investigation.py:203-208 | the entry names are the listed names longer than two characters, in the listed order, so distinct sorted names stay distinct and sorted |
| Gold.DeriveAgPrecios | src/pos_frontend/transfers/gold_investigation.py:199-209 | one entry per product of the AG rows whose name is longer than two characters, and no other, each with the median of its unit costs; each name appears once, and the names are in sorted order as `groupby` gives them |
| Gold.DerivedPriceWithinObserved | src/pos_frontend/transfers/gold_investigation.py:203-206 | a derived price lies between two unit costs observed for that product |
| Reconcile.Norm | src/pos_frontend/pricing/compare_unit_prices.py:28-30 | the matching key is no longer than the name it comes from |
| Reconcile.PresentCountBound | src/pos_frontend/pricing/compare_unit_prices.py:48-50 | the "Count" of a product is at most its number of rows |
| Reconcile.CanonicalPrices | src/pos_frontend/pricing/compare_unit_prices.py:43-54 | one row per product of the input and no other, names sorted and unique; each row's price is the median of its product's present unit costs, its Count the number of those costs and its CV the given coefficient of variation of those costs; Count bounded by the product's rows; the median missing exactly when Count is 0 |
| Reconcile.GoldCanonicalPrices | src/pos_frontend/pricing/compare_unit_prices.py:33-56 | the first table names exactly the products of "ALMACEN PRODUCTO TERMINADO" rows, the second exactly those of "ALMACEN GENERAL" rows; each row's price is the median over that origin's rows of its product, and its Count the number of their unit costs; a workbook that yields no row gets two empty tables, the corrected behaviour of the Findings row for compare_unit_prices.py:38-41 |
| Reconcile.LoadOurList | src/pos_frontend/pricing/compare_unit_prices.py:157 | no list without the file; otherwise the legacy loader: KeyError exactly when neither pair of columns exists, else unique names, each from a row |
| Reconcile.LoadAgList | src/pos_frontend/pricing/compare_unit_prices.py:69-76 | empty without the file or either column; otherwise unique names, each the stripped name and numeric price of a row (called at line 158) |
| Reconcile.NoOriginNoPrices | src/pos_frontend/pricing/compare_unit_prices.py:40-42 | rows of neither origin yield two empty tables; for no rows at all this is the corrected behaviour of the Findings row for compare_unit_prices.py:38-41 |
| Reconcile.GoldCanonicalPricesAsWritten | src/pos_frontend/pricing/compare_unit_prices.py:38-41 | as written, the reference tables fail with KeyError exactly when no sheet of the workbook yielded a row (the first frame of `parse_gold_excel` is then column-less, src/pos_frontend/transfers/gold_investigation.py:120-121); otherwise they are the tables of the windowed rows |
| Reconcile.RowlessWorkbookFails | src/pos_frontend/pricing/compare_unit_prices.py:38-41 | a workbook from which no sheet yields a row fails as written, while the corrected tables are both empty; any other workbook gets the same tables either way |
| Reconcile.Reasonable | src/pos_frontend/pricing/compare_unit_prices.py:79-87 | reasonable exactly when the price is present, between the minimum and 100000, and its CV is missing or at most 0.5 |
| Reconcile.PriceDiff | src/pos_frontend/pricing/compare_unit_prices.py:113 | present exactly when both prices are; the reference plus the difference is ours |
| Rows.PercentOf | src/pos_frontend/pricing/compare_unit_prices.py:114 | "Pct_Diff" (and "Pct_Change_Unit" of the correction report): present exactly when the difference is and the base is present and nonzero; times the base it is 100 times the difference |
| Reconcile.FlagReview | src/pos_frontend/pricing/compare_unit_prices.py:116-118 | raised only when both prices are present and ours is nonzero; for a positive price of ours, exactly when the reference exceeds three times ours or is below a third of it; a negative price of ours with a positive reference is always flagged |
| Reconcile.RatioBounds | src/pos_frontend/pricing/compare_unit_prices.py:116-118 | comparing the ratio with 3 and 1/3 is comparing the cross products |
| Reconcile.UseGold | src/pos_frontend/pricing/compare_unit_prices.py:119-124 | take the reference exactly when it is reasonable, present, more than 0.01 away from ours, and not flagged |
| Reconcile.CompareRow | src/pos_frontend/pricing/compare_unit_prices.py:108-112 | the row carries our price and the reference median; the name is ours when present, else the reference's |
| Reconcile.UsedGoldIsClose | src/pos_frontend/pricing/compare_unit_prices.py:115-124 | a row that takes the reference has both prices, a reference within the sane bounds, and ours either 0 or positive and within a factor of three |
| Reconcile.JoinKeys | src/pos_frontend/pricing/compare_unit_prices.py:98-103 | the keys of the outer merge are exactly the keys of either side |
| Reconcile.Paired | src/pos_frontend/pricing/compare_unit_prices.py:98-103 | the merged rows of one key come from the two sides, each row of either side appears, and a side is missing only where it has no row for the key |
| Reconcile.OuterJoinFrom | src/pos_frontend/pricing/compare_unit_prices.py:98-103 | every merged pair belongs to one key; a side is missing only when it has no row with that key |
| Reconcile.OuterJoinKeepsOurs | src/pos_frontend/pricing/compare_unit_prices.py:98-103 | every row of our list is in the outer merge |
| Reconcile.OuterJoinKeepsGold | src/pos_frontend/pricing/compare_unit_prices.py:98-103 | every reference row is in the outer merge |
| Reconcile.MergeAndCompare | src/pos_frontend/pricing/compare_unit_prices.py:90-126 | one report row per pair of the outer merge, in order |
| Reconcile.EveryProductCompared | src/pos_frontend/pricing/compare_unit_prices.py:90-126 | every product of either side has a report row carrying its price |
| Reconcile.OneSidedRowsKeepOurs | src/pos_frontend/pricing/compare_unit_prices.py:115-124 | a row lacking either price is never flagged and never takes the reference |
| Reconcile.CompareAsWritten | src/pos_frontend/pricing/compare_unit_prices.py:96-101 | as written the comparison fails exactly when the reference table has no rows (and so no columns); otherwise it is the comparison |
| Reconcile.OneOriginWorkbookFails | src/pos_frontend/pricing/compare_unit_prices.py:33-56 | a workbook with only "ALMACEN GENERAL" rows leaves an empty finished-goods table, and comparing our list against it fails as written |
| Reconcile.CompareWithoutReference | src/pos_frontend/pricing/compare_unit_prices.py:90-126 | against no reference rows every row of our list is reported, unmatched, and never takes the reference |
| Rebuild.Updates | src/pos_frontend/pricing/compare_unit_prices.py:245-251 | every update comes from a row marked to take the reference, as its stripped name and reference price |
| Rebuild.LastMatch | src/pos_frontend/pricing/compare_unit_prices.py:246-251 | the last update whose name matches the entry case-insensitively, or none when no update matches |
| Rebuild.UpdatedBy | src/pos_frontend/pricing/compare_unit_prices.py:246-251 | the name never changes |
| Rebuild.UpdatedByLastMatch | src/pos_frontend/pricing/compare_unit_prices.py:246-251 | an entry keeps its price when no update matches it, and otherwise takes the last matching reference price rounded to cents |
| Rebuild.ApplyUpdates | src/pos_frontend/pricing/compare_unit_prices.py:245-251 | the update loop leaves one entry per entry, each updated by the last matching update |
| Rebuild.GoldOnly | src/pos_frontend/pricing/compare_unit_prices.py:254-255 | every candidate is a stripped name coming from a row with a reasonable reference price and no price of ours |
| Rebuild.AppendNew | src/pos_frontend/pricing/compare_unit_prices.py:256-263 | every appended entry is a candidate at its rounded price, and its lower-cased name was not already present |
| Rebuild.AppendNewOnce | src/pos_frontend/pricing/compare_unit_prices.py:256-263 | no two appended entries share a lower-cased name |
| Rebuild.AppendNewCovers | src/pos_frontend/pricing/compare_unit_prices.py:256-263 | every candidate is either already present or appended |
| Rebuild.AddGoldOnly | src/pos_frontend/pricing/compare_unit_prices.py:253-263 | the append loop adds to the list exactly the specified new entries |
| Rebuild.Updated | src/pos_frontend/pricing/compare_unit_prices.py:245-251 | one entry per entry of our list, each keeping its name |
| Rebuild.BuildNew | src/pos_frontend/pricing/compare_unit_prices.py:239-265 | the rebuilt list is our updated list plus the appended entries, keeping the first of each name, so it names each product once |
| Rebuild.RebuiltKeepsOurs | src/pos_frontend/pricing/compare_unit_prices.py:239-265 | the first entry of each of our names survives, with its updated price |
| Rebuild.AppendedNameIsNew | src/pos_frontend/pricing/compare_unit_prices.py:256-263 | no appended entry has the name of one of ours |
| Rebuild.AppendedNamesDiffer | src/pos_frontend/pricing/compare_unit_prices.py:256-263 | appended entries have distinct names |
| Rebuild.AppendedIsFirst | src/pos_frontend/pricing/compare_unit_prices.py:256-265 | each appended entry is the first of its name in the rebuilt list |
| Rebuild.RebuiltKeepsAppended | src/pos_frontend/pricing/compare_unit_prices.py:256-265 | every appended entry survives the final de-duplication |
| Rebuild.GoldList | src/pos_frontend/pricing/compare_unit_prices.py:267-268 | a list built from the reference table has one entry per reference row with its median |
| Rebuild.NewList | src/pos_frontend/pricing/compare_unit_prices.py:267-268 | an empty list of ours is replaced by the reference table, which is empty when there are no reference rows; otherwise the rebuilt list, which names each product once |
| Rebuild.NewListAsWritten | src/pos_frontend/pricing/compare_unit_prices.py:267-268 | as written, KeyError exactly when both our list and the reference table are empty; otherwise the same list as the corrected one |
| Rebuild.NewListAsWrittenFailsWhenEmpty | src/pos_frontend/pricing/compare_unit_prices.py:267-268 | with no list of ours and no reference rows the code raises, where the intended list is empty |
| Rebuild.AnyAg | src/pos_frontend/pricing/compare_unit_prices.py:274-279 | a product is general-warehouse exactly when one of its transfer lines leaves "ALMACEN GENERAL" |
| Rebuild.ProductOf | src/pos_frontend/pricing/compare_unit_prices.py:276-279 | the grouped product carries its key |
| Rebuild.TransferProducts | src/pos_frontend/pricing/compare_unit_prices.py:274-279 | one product per matching key of the transfers and no other, each key once |
| Rebuild.TransferProductSpec | src/pos_frontend/pricing/compare_unit_prices.py:274-279 | a grouped product's name normalises to its key, and it is general-warehouse exactly when one of its lines is |
| Rebuild.NormPrices | src/pos_frontend/pricing/compare_unit_prices.py:283-284 | the lookup is keyed by exactly the normalised reference names |
| Rebuild.Choice | src/pos_frontend/pricing/compare_unit_prices.py:288-308 | no choice exactly when neither reference gives a sane price; otherwise the product goes to the list of its own origin, at its own origin's price when that one is sane and at the other's otherwise, always within the sane bounds |
| Rebuild.Added | src/pos_frontend/pricing/compare_unit_prices.py:286-308 | at most one entry per missing product |
| Rebuild.AddedFrom | src/pos_frontend/pricing/compare_unit_prices.py:286-308 | each added entry is a missing product of the list's origin |
| Rebuild.AddedOnce | src/pos_frontend/pricing/compare_unit_prices.py:286-308 | added entries have distinct keys when the missing products do |
| Rebuild.Missing | src/pos_frontend/pricing/compare_unit_prices.py:282 | exactly the transferred products whose key is in neither list |
| Rebuild.FillMissing | src/pos_frontend/pricing/compare_unit_prices.py:286-308 | the fill loop appends exactly the specified entries to each list and counts them |
| Rebuild.FillFromTransfers | src/pos_frontend/pricing/compare_unit_prices.py:271-311 | the lists are unchanged when nothing was added; otherwise each is its fill de-duplicated by name |
| Rebuild.FilledOnce | src/pos_frontend/pricing/compare_unit_prices.py:282-308 | the fill adds each product at most once to a list |
| Rebuild.FilledProductIsNew | src/pos_frontend/pricing/compare_unit_prices.py:282-308 | a filled product is in neither list beforehand, and goes to the general-warehouse list exactly when one of its transfer lines leaves the general warehouse |
| Rebuild.MissingNoDup | src/pos_frontend/pricing/compare_unit_prices.py:282 | filtering keeps keys distinct |
| PtCheck.Lines | src/pos_frontend/transfers/pt_w_vs_pt_r_comparison.py:48-49 | one line per row, each tagged with the sheet's branch code |
| PtCheck.PtSheetPart | src/pos_frontend/transfers/pt_w_vs_pt_r_comparison.py:31-50 | a sheet not named with the suffix, named "NUMEROS" or without a hyphen contributes nothing |
| PtCheck.PtParts | src/pos_frontend/transfers/pt_w_vs_pt_r_comparison.py:31-53 | a workbook without sheets gives no rows |
| PtCheck.PtSheetPartShape | src/pos_frontend/transfers/pt_w_vs_pt_r_comparison.py:31-50 | each line of a sheet is a finished-goods row of that sheet, tagged with the first token of the sheet name |
| PtCheck.PtPartsShape | src/pos_frontend/transfers/pt_w_vs_pt_r_comparison.py:31-53 | each collected line is a finished-goods row of a sheet read for the suffix, tagged with that sheet's branch code |
| PtCheck.ParsePtSheets | src/pos_frontend/transfers/pt_w_vs_pt_r_comparison.py:27-55 | every line kept is a finished-goods row of a sheet read for the suffix, dated inside the reference window, tagged with its sheet's branch code |
| PtCheck.KeptLinesShape | src/pos_frontend/transfers/pt_w_vs_pt_r_comparison.py:51-54 | the window filter keeps the shape of the collected lines |
| PtCheck.SheetPartHas | src/pos_frontend/transfers/pt_w_vs_pt_r_comparison.py:39-50 | every finished-goods row of a sheet read is among that sheet's lines |
| PtCheck.PtPartsHas | src/pos_frontend/transfers/pt_w_vs_pt_r_comparison.py:31-53 | every line of every sheet is collected |
| PtCheck.ParsePtSheetsHas | src/pos_frontend/transfers/pt_w_vs_pt_r_comparison.py:27-55 | every finished-goods row of a sheet read that lies in the window is kept |
| PtCheck.LoadPtPrecios | src/pos_frontend/transfers/pt_w_vs_pt_r_comparison.py:58-64 | no list without the file; otherwise the weekly loader's list keeping the first row of each normalised name, so each name appears once; a list without a product column is an error |
| PtCheck.ListPrice | src/pos_frontend/transfers/pt_w_vs_pt_r_comparison.py:107-113 | a list price found comes from a list row with the same normalised name |
| PtCheck.ListPriceOfRow | src/pos_frontend/transfers/pt_w_vs_pt_r_comparison.py:107-113 | with one row per name, a row's product looks up that row's own price |
| PtCheck.InnerJoin | src/pos_frontend/transfers/pt_w_vs_pt_r_comparison.py:98-102 | every joined pair has a corrected and a recorded line with the same (branch, order, product) |
| PtCheck.InnerJoinHas | src/pos_frontend/transfers/pt_w_vs_pt_r_comparison.py:98-102 | every corrected line and recorded line sharing a key are joined |
| PtCheck.EqPrecios | src/pos_frontend/transfers/pt_w_vs_pt_r_comparison.py:119-122 | true exactly when a list price is present and the corrected cost lies within 0.001 of it |
| PtCheck.EqPreciosAsWritten | src/pos_frontend/transfers/pt_w_vs_pt_r_comparison.py:119-122 | as written the flag is false exactly when both values are present and differ at all |
| PtCheck.EqPreciosAsWrittenDiffers | src/pos_frontend/transfers/pt_w_vs_pt_r_comparison.py:119-122 | as written a missing list price counts as equal and a difference of 0.0005 as unequal, the reverse of the intended flag |
| PtCheck.EqPreciosAgreement | src/pos_frontend/transfers/pt_w_vs_pt_r_comparison.py:119-122 | with both values present, the two flags agree exactly when the values are equal or at least 0.001 apart |
| PtCheck.DiffPrecios | src/pos_frontend/transfers/pt_w_vs_pt_r_comparison.py:124-127 | present exactly when both values are; the list price plus it is the corrected cost |
| PtCheck.CompareLine | src/pos_frontend/transfers/pt_w_vs_pt_r_comparison.py:118-127 | "PT_R_eq_PT_W" is a difference below 0.001, "Correction_Applied" is its negation, "PT_R_eq_PRECIOS" is the intended flag against the looked-up list price |
| PtCheck.PtComparisonReport | src/pos_frontend/transfers/pt_w_vs_pt_r_comparison.py:89-127 | no rows when either kind of sheet is empty, else the row at each position compares the joined pair at that position against the list; without a list every list price is missing and never equal |
| PtCheck.PtComparisonReportAsWritten | src/pos_frontend/transfers/pt_w_vs_pt_r_comparison.py:105-113 | as written the run fails exactly when both kinds of sheet have rows and the list file is missing |
| PtCheck.ReportCoversMatchedRows | src/pos_frontend/transfers/pt_w_vs_pt_r_comparison.py:98-127 | every corrected line with a recorded partner under the same key has a report row |
| PtCheck.ReportRowsAreMatched | src/pos_frontend/transfers/pt_w_vs_pt_r_comparison.py:98-127 | every report row compares a corrected line with a recorded line of the same branch, order and product |
| PtCheck.PtPartsCons | src/pos_frontend/transfers/pt_w_vs_pt_r_comparison.py:31-53 | a successful run is the first sheet's lines followed by the other sheets' lines |
| UnitPriceColumn.FindPresentColumn | testing/update_precios_with_unit_prices.py:42-49 | the search loop finds the first column whose lower-cased name contains "present", and nothing exactly when none does |
| UnitPriceColumn.DriveColumn | testing/update_precios_with_unit_prices.py:51-57 | "PRECIO DRIVE" when present; otherwise a column whose lower-cased name contains "precio" and "drive"; none exactly when neither exists |
| UnitPriceColumn.FirstDriveLike | testing/update_precios_with_unit_prices.py:54-57 | the first column naming "precio" and "drive", none exactly when no column does |
| UnitPriceColumn.FindDriveColumn | testing/update_precios_with_unit_prices.py:51-57 | the search returns the specified column |
| UnitPriceColumn.UnitPriceOf | testing/update_precios_with_unit_prices.py:62-72 | with a positive PRESENTACION and a price, the unit price times PRESENTACION is the pack price; otherwise the pack price itself; missing exactly when the pack price is |
| UnitPriceColumn.UnitPriceIsPiecePrice | testing/update_precios_with_unit_prices.py:65-72 | the unit price written is the price the weekly loader derives for a piece row |
| UnitPriceColumn.Round6 | testing/update_precios_with_unit_prices.py:78-79 | rounding to six places keeps missing values missing and moves a value by at most half a millionth |
| UnitPriceColumn.UnitPrices | testing/update_precios_with_unit_prices.py:62-79 | one rounded unit price per row |
| UnitPriceColumn.ComputeUnitPrices | testing/update_precios_with_unit_prices.py:62-79 | the fresh array holds exactly the rounded unit prices, row by row |
| UnitPriceColumn.SetColumn | testing/update_precios_with_unit_prices.py:68 | setting a column keeps every row; an existing column keeps its place, a new one goes last |
| UnitPriceColumn.KeepCells | testing/update_precios_with_unit_prices.py:75 | the kept cells are those of the columns not dropped |
| UnitPriceColumn.DropColumns | testing/update_precios_with_unit_prices.py:75 | dropping columns keeps every row |
| UnitPriceColumn.KeepCellsSplit | testing/update_precios_with_unit_prices.py:75 | dropping works column by column |
| UnitPriceColumn.KeepCellsFrom | testing/update_precios_with_unit_prices.py:75 | a kept column name was a column and is not dropped |
| UnitPriceColumn.KeepCellsAt | testing/update_precios_with_unit_prices.py:75 | a kept cell lands at the kept position of its column |
| UnitPriceColumn.FirstOfNameKept | testing/update_precios_with_unit_prices.py:75 | a column kept and first of its name is found by name at its kept position |
| UnitPriceColumn.UpdatedSheet | testing/update_precios_with_unit_prices.py:62-79 | the updated sheet keeps every row |
| UnitPriceColumn.UpdatedKeepsCells | testing/update_precios_with_unit_prices.py:62-79 | every cell of a column other than PRECIO UNITARIO and the helpers keeps its value under the same column name |
| UnitPriceColumn.UpdatedHasUnitPrices | testing/update_precios_with_unit_prices.py:62-79 | PRECIO UNITARIO is a column of the result and holds each row's rounded unit price |
| UnitPriceColumn.UpdatePrecios | testing/update_precios_with_unit_prices.py:24-94 | status 1 and nothing written without the file or either column, status 0 otherwise; a dry run writes nothing; otherwise the updated sheet is written to the output path under the project root, or over the input when `--output` is absent or empty |
| Payments.ResolveBranchesFile | src/pos_frontend/reporting/weekly_payments.py:43-45 | an absolute path is kept; a relative one is placed under the data root |
| Payments.ResolveIsJoin | src/pos_frontend/reporting/weekly_payments.py:43-45 | resolving is joining onto the data root |
| Payments.MissingOf | src/pos_frontend/reporting/weekly_payments.py:98-101 | exactly the required columns absent from the table, in order; empty exactly when every required column is there |
| Payments.FechaOf | src/pos_frontend/reporting/weekly_payments.py:80-89 | a blank cell is a missing date; any other cell that is not a date is an error; a date or timestamp becomes its calendar day (normalised to midnight) |
| Payments.CoerceFecha | src/pos_frontend/reporting/weekly_payments.py:80-89 | no fecha column is an error; otherwise one day per row, or the error of a cell that is not a date |
| Payments.AmountColumn | src/pos_frontend/reporting/weekly_payments.py:107-109 | fails exactly when some cell is not a number, naming the column; otherwise one amount per row, a missing number filled with 0 |
| Payments.Totals | src/pos_frontend/reporting/weekly_payments.py:111-115 | an existing ingreso_total column is read like the amounts; otherwise each row's total is the sum of its three payments |
| Payments.Assemble | src/pos_frontend/reporting/weekly_payments.py:98-115 | one payment per row, carrying the row's branch, day and amounts |
| Payments.Converted | src/pos_frontend/reporting/weekly_payments.py:98-115 | missing base columns fail with exactly those names; otherwise one payment per row |
| Payments.ConvertedBalanced | src/pos_frontend/reporting/weekly_payments.py:111-113 | without an ingreso_total column every converted row's total is the sum of its payments |
| Payments.ConvertedRows | src/pos_frontend/reporting/weekly_payments.py:98-115 | each converted row carries its row's coerced date and branch |
| Payments.KeyLeIsTotalPreorder | src/pos_frontend/reporting/weekly_payments.py:131 | the (sucursal, fecha) order is total and transitive |
| Payments.PaymentLeIsTotalPreorder | src/pos_frontend/reporting/weekly_payments.py:165 | the sort order of rows is a total preorder |
| Payments.KeyLeAntisym | src/pos_frontend/reporting/weekly_payments.py:165 | keys that sort both ways are equal |
| Payments.SharedCountZero | src/pos_frontend/reporting/weekly_payments.py:123-125 | no row shares its key exactly when the count of rows with a shared key is zero |
| Payments.DuplicateCount | src/pos_frontend/reporting/weekly_payments.py:123-125 | zero exactly when every key is unique |
| Payments.NoSharedKeys | src/pos_frontend/reporting/weekly_payments.py:123 | no key occurs twice exactly when the keys are distinct |
| Payments.SumGroup | src/pos_frontend/reporting/weekly_payments.py:137-141 | the summed row carries its key |
| Payments.Summed | src/pos_frontend/reporting/weekly_payments.py:137-141 | one summed row per key, in key order |
| Payments.SummedKeys | src/pos_frontend/reporting/weekly_payments.py:137-141 | the summed rows have distinct keys, are sorted, and have exactly the keys of the rows with a date |
| Payments.Deduplicated | src/pos_frontend/reporting/weekly_payments.py:121-141 | fails exactly under "raise" with duplicate keys, reporting their positive count; unique keys leave the rows unchanged; any result has distinct keys |
| Payments.MaxFecha | src/pos_frontend/reporting/weekly_payments.py:145 | missing exactly when no row has a date; otherwise the date of some row and no row is later |
| Payments.MaxFechaOfSameRows | src/pos_frontend/reporting/weekly_payments.py:145 | the latest date depends only on which rows there are |
| Payments.GapsAmong | src/pos_frontend/reporting/weekly_payments.py:154-155 | exactly the listed branches with fewer than seven distinct dates in the seven days ending on the as-of date, with their counts |
| Payments.CoverageGaps | src/pos_frontend/reporting/weekly_payments.py:150-163 | every branch of the table with fewer than seven dates in the window is reported with its count, and only such branches |
| Payments.CoverageAsWrittenSkipsSilentBranches | src/pos_frontend/reporting/weekly_payments.py:150-163 | as written the coverage check reports exactly the gaps with a positive count; a branch with no row in the window is never reported |
| Payments.SilentBranchExample | src/pos_frontend/reporting/weekly_payments.py:150-163 | a table ending on the as-of date, with a branch whose last row is 30 days earlier, passes the coverage check as written although that branch has no day in the window |
| Payments.PaymentAmounts | src/pos_frontend/reporting/weekly_payments.py:107-109 | the three payment columns read, or the first failure, which is the conversion's error |
| Payments.ConvertColumns | src/pos_frontend/reporting/weekly_payments.py:98-115 | the conversion steps return the specified conversion |
| Payments.ConvertedFailsAt | src/pos_frontend/reporting/weekly_payments.py:107-109 | the first payment column that is not numeric is the error |
| Payments.ConvertedFrom | src/pos_frontend/reporting/weekly_payments.py:98-115 | with the columns read, conversion assembles them with the totals |
| Payments.ValidateAndPreparePayments | src/pos_frontend/reporting/weekly_payments.py:92-166 | the preparation returns the specified prepared rows or error |
| Payments.SortKeepsRows | src/pos_frontend/reporting/weekly_payments.py:165 | sorting keeps exactly the same rows |
| Payments.TwiceIn | src/pos_frontend/reporting/weekly_payments.py:123 | a value counted twice sits at two positions |
| Payments.DistinctRowsDistinctKeys | src/pos_frontend/reporting/weekly_payments.py:165 | distinct rows of a table with unique keys have different keys |
| Payments.PermutationKeepsDistinctKeys | src/pos_frontend/reporting/weekly_payments.py:165 | reordering keeps keys distinct |
| Payments.PreparedFrom | src/pos_frontend/reporting/weekly_payments.py:92-166 | a successful preparation is the sorted de-duplicated table, which ends on the as-of date and, when strict, has no coverage gap |
| Payments.PreparedSortedAndUnique | src/pos_frontend/reporting/weekly_payments.py:121-165 | the prepared table is sorted by (sucursal, fecha) with one row per key |
| Payments.PreparedEndsOnAsOf | src/pos_frontend/reporting/weekly_payments.py:144-147 | with an as-of date the prepared table's latest date is that date |
| Payments.PreparedCoversLastWeek | src/pos_frontend/reporting/weekly_payments.py:150-163 | with strict coverage every branch of the prepared table has all seven days ending on the as-of date |
| Payments.FullWeeks | src/pos_frontend/reporting/weekly_payments.py:150-163 | without gaps every branch has seven dates in the window, whatever the row order |
| Payments.SameRowsSameDays | src/pos_frontend/reporting/weekly_payments.py:154 | the days counted depend only on which rows there are |
| Payments.WindowHasAtMostSeven | src/pos_frontend/reporting/weekly_payments.py:151-154 | a branch has at most seven dates in the window |
| Payments.SumsBalanced | src/pos_frontend/reporting/weekly_payments.py:137-141 | summing balanced rows gives a balanced sum |
| Payments.PreparedBalanced | src/pos_frontend/reporting/weekly_payments.py:111-141 | without an ingreso_total column every prepared row is balanced, whatever the duplicate strategy |
| Payments.SumOfSumGroups | src/pos_frontend/reporting/weekly_payments.py:137-141 | summing the per-key sums of a column is summing over the groups |
| Payments.SummedColumn | src/pos_frontend/reporting/weekly_payments.py:137-141 | a column summed per key keeps its total |
| Payments.SummedConserves | src/pos_frontend/reporting/weekly_payments.py:137-141 | the "sum" strategy keeps the totals of the three payments and of ingreso_total over the rows with a date |
| Payments.FirstWithKey | src/pos_frontend/reporting/weekly_payments.py:131 | the first position holding a key |
| Payments.FirstKeepsEveryKey | src/pos_frontend/reporting/weekly_payments.py:131 | the "first" strategy keeps only existing rows and keeps one row of every key |
| Payments.MartColumns | reporting/weekly_payments_forecast.py:55-75 | an existing ingreso_total keeps the columns; otherwise the missing payment columns fail, or ingreso_total is appended; a success has all six required columns |
| Payments.MartFailsLikePrepare | reporting/weekly_payments_forecast.py:55-75 | the forecast script's column checks fail exactly when a base column of the preparation is missing |
| Payments.MartTotal | reporting/weekly_payments_forecast.py:63-65 | the row total is present exactly when all three payments are |
| Payments.MartTotalAgrees | reporting/weekly_payments_forecast.py:63-65 | with three numbers both scripts compute the same total |
| CorrectionReport.WeekOfFile | scripts/generate_transfer_correction_report.py:42-46 | a file gives a week only when its name parses and it has lines, and the week holds exactly those lines |
| CorrectionReport.WeeksOf | scripts/generate_transfer_correction_report.py:41-46 | at most one week per file |
| CorrectionReport.WeeksOfMember | scripts/generate_transfer_correction_report.py:41-46 | a week is loaded exactly when some file yields it |
| CorrectionReport.LoadPriceChanges | scripts/generate_transfer_correction_report.py:40-48 | the loop loads the weeks of the sorted "price_changes_" files |
| CorrectionReport.LoadWeeks | scripts/generate_transfer_correction_report.py:41-46 | the loop over the files returns the specified weeks, in file order |
| CorrectionReport.LoadedWeeks | scripts/generate_transfer_correction_report.py:40-48 | the weeks loaded are exactly those of the non-empty files that match the glob and the week pattern, each with the dates of its name |
| CorrectionReport.SumByChangeDelta | scripts/generate_transfer_correction_report.py:75-83 | the difference of the summed costs is the sum of the per-line differences |
| CorrectionReport.FilterEmpty | scripts/generate_transfer_correction_report.py:79 | a filter is empty exactly when no element passes |
| CorrectionReport.CountUnitBefore | scripts/generate_transfer_correction_report.py:77 | the count of lines with a unit cost before is at most the lines, and zero exactly when none has one |
| CorrectionReport.MeanUnitBefore | scripts/generate_transfer_correction_report.py:77 | the mean is missing exactly when no line has a unit cost before; otherwise times their count it is their sum |
| CorrectionReport.DivTimes | scripts/generate_transfer_correction_report.py:77 | dividing then multiplying by a nonzero number gives back the value |
| CorrectionReport.FirstUnitAfter | scripts/generate_transfer_correction_report.py:78 | the first present corrected unit cost, missing exactly when no line has one |
| CorrectionReport.ItemOf | scripts/generate_transfer_correction_report.py:71-87 | the item carries its (product, origin) key; its total quantity and its before and after totals are the group's column sums, with missing values as 0; its cost difference is after minus before; its mean unit cost before and first unit cost after are those of the group; its line count is the number of lines with a quantity, at most the group size and zero exactly when no line has one; its unit difference is present exactly when the mean before and the first after are, and is after minus mean; its percentage is the unit percentage change |
| CorrectionReport.ItemsOver | scripts/generate_transfer_correction_report.py:71-83 | one item per key; their cost differences add up to the per-group sums |
| CorrectionReport.ItemsOverAt | scripts/generate_transfer_correction_report.py:71-87 | the i-th item is the item of the i-th key's group |
| CorrectionReport.ItemLeIsTotalPreorder | scripts/generate_transfer_correction_report.py:88 | ordering by descending absolute cost difference is a total preorder |
| CorrectionReport.ItemKeys | scripts/generate_transfer_correction_report.py:72 | exactly the (product, origin) keys of the lines, each once |
| CorrectionReport.ItemDiffs | scripts/generate_transfer_correction_report.py:71-88 | a permutation of the per-key items, sorted by descending absolute cost difference |
| CorrectionReport.AggregateItemPriceDifferences | scripts/generate_transfer_correction_report.py:51-89 | no weeks give no items; otherwise the sorted per-key items of all weeks' lines |
| CorrectionReport.ItemDiffsCostTotal | scripts/generate_transfer_correction_report.py:71-88 | the items' cost differences add up to the total difference over all lines |
| CorrectionReport.ItemDiffsPerGroup | scripts/generate_transfer_correction_report.py:71-88 | each item is the item of its key's group, and that key occurs among the lines |
| CorrectionReport.ItemPosition | scripts/generate_transfer_correction_report.py:71-88 | each sorted item is one of the per-key items |
| CorrectionReport.ItemDiffsCover | scripts/generate_transfer_correction_report.py:71-88 | every line's (product, origin) key has an item |
| CorrectionReport.OverallPct | scripts/generate_transfer_correction_report.py:126-127 | 0 when the total before is 0; otherwise times the total before it is 100 times the change |
| CorrectionReport.OverallTotals | scripts/generate_transfer_correction_report.py:124-127 | the percentage satisfies the same relation with the summed totals |
| CorrectionReport.OverallOfRun | scripts/generate_transfer_correction_report.py:124-125 | read from the weekly comparison, the overall totals are the before and after sums of the lines it covers |
| Pivots.OutputDir | testing/build_weekly_transfer_pivots.py:49 | the output directory when given, else the weekly directory |
| Pivots.PivotNameRoundTrip | testing/build_weekly_transfer_pivots.py:71 | a pivot's file name reads back as the week it was built for |
| Pivots.PivotsOf | testing/build_weekly_transfer_pivots.py:52-80 | at most one path per file |
| Pivots.FailureSticks | testing/build_weekly_transfer_pivots.py:76-78 | once a prefix of the files fails, the whole run fails the same way |
| Pivots.PivotsStep | testing/build_weekly_transfer_pivots.py:55-78 | a non-week file is skipped, a week file the builder succeeds on adds its pivot path, and one it fails on fails the run |
| Pivots.BuildWeeklyPivots | testing/build_weekly_transfer_pivots.py:34-80 | the run processes the sorted "transfers_" files into the output directory |
| Pivots.BuildPivots | testing/build_weekly_transfer_pivots.py:55-80 | the loop returns the specified paths or the first failure |
| Pivots.PivotsSucceed | testing/build_weekly_transfer_pivots.py:55-80 | the run succeeds exactly when the builder succeeds on every week file |
| Pivots.PivotsWritten | testing/build_weekly_transfer_pivots.py:55-80 | on success the paths written are exactly the pivots of the week files |
| Pivots.PivotPathsReadBack | testing/build_weekly_transfer_pivots.py:55-80 | every week file's pivot is written and its name reads back as that week |
| WeekFiles.WeekFromName | scripts/generate_transfer_correction_report.py:29-31 | a name is read as a week only when it begins with the prefix, two date-shaped texts joined by "_" and ".csv"; the dates read are date-shaped |
| WeekFiles.WeekNameRoundTrip | testing/build_weekly_transfer_pivots.py:26-31 | every name built from the prefix, two date-shaped texts and ".csv", whatever follows, reads back as those texts |
| WeekFiles.WeekNameOfDates | scripts/generate_transfer_correction_report.py:29-31 | the name of a week of valid dates reads back as their ISO texts |
| WeekFiles.WeekNameAcceptsNonDates | testing/build_weekly_transfer_pivots.py:28 | only the digit shape is checked: a month 13 is read as a week |
| WeekFiles.NoMonthThirteen | testing/build_weekly_transfer_pivots.py:28 | that text is not a calendar date |
| WeekFiles.Globbed | testing/build_weekly_transfer_pivots.py:52 | exactly the entries of the listing whose name begins with the prefix and ends with ".csv" |
| WeekFiles.NameLeIsTotalPreorder | testing/build_weekly_transfer_pivots.py:52 | ordering entries by name is a total preorder |
| WeekFiles.SortedGlob | testing/build_weekly_transfer_pivots.py:52 | exactly the matching entries, sorted by name |

## Left out

- File and spreadsheet input and output are not modelled: `read_excel`/`ExcelFile`, `read_csv`, `to_csv`/`to_excel` (including the UTF-8-BOM encoding), `mkdir`, `shutil.copy2` and the temp-file-then-rename writers. Sheets, tables and directory listings are in-memory values, and the files that exist are a set given as a parameter.
- `collect_branch_csv_paths`, `read_and_concat_transfers` and `save_weekly_csv` (src/pos_frontend/transfers/weekly_with_prices.py) are not modelled, because they only find, read and write files. Their results enter the model as values.
- `resolve_path` (src/pos_frontend/config/paths.py:57-60) is not modelled, because it only resolves a name against the real filesystem.
- The pipeline library's fetch, marts, forecasting and pivot builder (`core.fetch`, `payments_marts.fetch_daily`, `_run_payments_forecast`, `build_table`), and the weekly-sales report builder, are not part of this model. Where a script depends on their outcome, that outcome is a parameter, for example whether the pivot builder succeeds on a file.
- testing/gold_week_investigation.py imports `filter_orders_for_gold_alignment`, `parse_numeros`, `extract_kavia_total` and `compute_ours_ag_pt_by_branch` from src/pos_frontend/transfers/gold_investigation.py, which defines none of them, so the script stops at its import. It is not modelled.
- The NUMEROS summary sheet is skipped by `parse_gold_excel` (src/pos_frontend/transfers/gold_investigation.py:93), and that skip is modelled. Its parser `parse_numeros` is one of the undefined names above.
- The Telegram and Google Drive clients, with their retries and the clean-up of temporary files, are left out, because they are network I/O.
- Command-line parsing, the shims and bootstrapping, logging and printing are left out.
- The HTML and markdown rendering of the reports is left out; only the numbers behind them are modelled.
- Money is `real`. Binary floating point and its rounding error are not modelled.
- Python's `round` is exact round-half-even on reals. A NaN, an infinity from a division by zero, and a value coerced away are all `None`.
- The coefficient of variation of a product's reference prices is taken as an input, because computing it needs a square root. Everything derived from it is modelled.
- Text cells that `to_numeric` would parse as numbers are treated as missing. Parsing numeric text is not modelled.
- `to_datetime` is modelled for timestamps and `YYYY-MM-DD` text, which becomes midnight of that day. Other text is missing.
- Cells.ToInstant: a numeric cell is missing, whereas `to_datetime` reads it as an offset from the epoch. Payments.FechaOf therefore reports such a cell as unparseable.
- `date.fromisoformat` is modelled for the `YYYY-MM-DD` form only.
- `date.today()`, `os.environ`, `WS_BASE` and file existence or size are parameters.
- The constant tables are parameters: SHEET_TO_SUCURSAL is a mapping, and the weekly gold totals and excluded-order sets of src/pos_frontend/config/weekly_transfers.py are not used. The excluded-order filter itself is not part of this model.
- Warnings that are only logged are not modelled, such as negative payment values or unmatched products. The strict-coverage failure is modelled.
- pandas' single-column `sort_values` is not stable. Contracts on results sorted that way state sortedness and the permutation, and leave the order of ties open.
- Directory contents are a sequence of names, in the order the listing gives them. Callers that sort the names are modelled with the sort. For the callers that do not sort, the order of the listing is a parameter: scripts/download_5yr_sales.py:42, src/pos_frontend/transfers/weekly_with_prices.py:125 and testing/get_weekly_transfers_with_prices.py:100.
- The quantity, cost and unit cost of a transfer line are `real`, never missing. A transfer CSV whose cells in those columns are empty or not numeric is not modelled.
- `groupby` drops rows whose key is NaN. Keys are strings in the model and are never missing, so that drop is not modelled.
- ProjectPaths.ParseLine: a line such as `=value`, whose key strips to the empty string, yields the key "". Python's `os.environ.setdefault("", value)` raises ValueError instead, and that failure is not modelled.
- ProjectPaths.JoinPath joins the text as given. `pathlib` also drops `.` components and repeated slashes; it does not resolve `..` either.
- Text.LowerChar and Text.UpperChar map letters of Latin-1 only. Python's `str.lower` and `str.upper` cover all of Unicode.
- WeekFiles.WeekFromName accepts ASCII digits only. The regular expression `\d` in the week-file name patterns also matches non-ASCII decimal digits.
- Pricing.LegacyLoadPrecios: a sheet holding NOMBRE WANSOFT, PRECIO DRIVE and a "Producto" column of its own gets two "Producto" columns after the rename. That case is not modelled.
- Payments.Payment holds the six columns the validation requires. Any other column of the payments table is not modelled: under "raise" and "first" the source keeps such columns, and under "sum" it sums the other numeric columns and drops the non-numeric ones (src/pos_frontend/reporting/weekly_payments.py:133-141).
- When neither of our lists is loaded, `compare_unit_prices` raises KeyError earlier, at src/pos_frontend/pricing/compare_unit_prices.py:228, because the report has no columns. That failure is not modelled: the model has no function for the whole script run, and Rebuild.NewList is modelled list by list.

## Findings

| source | as written | input that shows it | evidently intended | confidence | as-written member | corrected member |
|---|---|---|---|---|---|---|
| src/pos_frontend/transfers/pt_w_vs_pt_r_comparison.py:119-122 | without parentheses, `notna & absdiff < 0.001` is evaluated as `(notna & absdiff) < 0.001`; the difference is cast to bool, so the flag is true when PRECIOS has no price and false for any nonzero difference | PT-R unit cost r with no list price gives True; r against a list price r + 0.0005 gives False | true exactly when a list price is present and differs from the PT-R cost by less than 0.001 | not executed | PtCheck.EqPreciosAsWrittenDiffers | PtCheck.EqPreciosAgreement |
| src/pos_frontend/transfers/weekly_with_prices.py:67-223 | the loaders keep the first row per stripped name, but the merge joins on the normalised key; "X*" and "X *" both survive loading and share one key, so the left merge doubles a matching transfer line | price list ["X*", "X *"] and one transfer line whose key is "x *" give two output lines | one output line per transfer line, priced from the first listed spelling | not executed | Pricing.MergeDuplicatesLine | Pricing.ApplyPrices |
| src/pos_frontend/transfers/gold_investigation.py:120-133 | when only -PT-R sheets yield rows, the AG frame is `pd.DataFrame()` with no columns, and filtering it on "Fecha" raises KeyError | a workbook whose only non-skipped sheet is a -PT-R sheet with rows | an empty AG table beside the windowed PT rows | not executed | Gold.WindowedAsWrittenFailsWithoutAg | Gold.Windowed |
| src/pos_frontend/pricing/compare_unit_prices.py:33-103 | a reference side with no rows is `pd.DataFrame()`, and the merge on "Producto" raises KeyError | a reference workbook whose rows all come from ALMACEN GENERAL, compared against the PT list | every product of our list reported as unmatched, with no reference price used | not executed | Reconcile.OneOriginWorkbookFails | Reconcile.CompareWithoutReference |
| src/pos_frontend/transfers/pt_w_vs_pt_r_comparison.py:58-113 | a missing price-list file gives `pd.DataFrame()`, and selecting its "_norm" and "Precio unitario" columns raises KeyError once both PT-W and PT-R rows exist | matching PT-W and PT-R rows and no PRECIOS file | the comparison with every price-list column missing | not executed | PtCheck.PtComparisonReportAsWritten | PtCheck.PtComparisonReport |
| src/pos_frontend/pricing/compare_unit_prices.py:38-41 | when no sheet of the reference workbook yields a row, `parse_gold_excel` returns `pd.DataFrame()` without columns (src/pos_frontend/transfers/gold_investigation.py:120-121), and reading its "Almacen_origen" column raises KeyError before the empty-table return at line 41 | a workbook whose only sheet is NUMEROS, or whose sheets have no row of either origin | two empty reference tables, as line 41 returns for a frame with no rows of either origin | not executed | Reconcile.RowlessWorkbookFails | Reconcile.NoOriginNoPrices |
| src/pos_frontend/pricing/compare_unit_prices.py:267-268 | with no list of ours, the new list selects `gold_pt[["Producto", "Precio_unitario"]]`; a reference side with no rows is `pd.DataFrame()` without columns, so the selection raises KeyError | PRECIOS missing or empty, AG_PRECIOS non-empty, and a reference workbook with "ALMACEN GENERAL" rows but no "ALMACEN PRODUCTO TERMINADO" rows | an empty new PT list | not executed | Rebuild.NewListAsWritten | Rebuild.NewList |
| src/pos_frontend/reporting/weekly_payments.py:150-163 | distinct days are counted per branch over the window rows only, so a branch with no row in the last seven days is never reported, even under strict coverage | rows for branch A dated the as-of day and for branch B dated 30 days earlier: B is not reported | every branch of the table with fewer than seven days in the window is reported, one with no day in it with count 0 | not executed | Payments.SilentBranchExample | Payments.CoverageGaps |
