/** The reports written after the weekly re-pricing run
    (`src/pos_frontend/transfers/weekly_with_prices.py`): the changed lines of
    one week, the price-change alerts, the AG/PT origin totals, the totals by
    destination branch and by week, and the weekly breakdown used to reconcile
    against reference totals.

    A row of the combined frame is a re-priced line together with its week
    label `"<monday>_<sunday>"`. Every record carries every column, so the
    guards that return an empty frame when a column is missing are modelled by
    their empty-input case. */
module Reports {
  import opened Wrappers
  import opened Text
  import opened Sorting
  import opened Rows
  import opened Pricing

  /** One row of the frame built by concatenating the weeks: `df_updated` plus
      its `Week` column. */
  datatype WeekRow = WeekRow(week: string, p: Priced)

  function WeekOf(r: WeekRow): string { r.week }
  function DestinoOf(r: WeekRow): string { r.p.line.destino }
  function Before(r: WeekRow): real { r.p.before }
  function After(r: WeekRow): real { r.p.after }
  function CantidadOf(r: WeekRow): real { r.p.line.cantidad }
  function Delta(r: WeekRow): real { r.p.after - r.p.before }

  /** `Costo_before != Costo_after`. */
  predicate RowChanged(r: WeekRow) { r.p.before != r.p.after }
  predicate RowUnchanged(r: WeekRow) { r.p.before == r.p.after }

  lemma {:induction false} SumByDelta(rows: seq<WeekRow>)
    ensures SumBy(rows, After) - SumBy(rows, Before) == SumBy(rows, Delta)
  {
    if rows != [] {
      SumByDelta(rows[1..]);
    }
  }

  /** Unchanged lines contribute nothing to a column of differences. */
  lemma {:induction false} UnchangedSumToZero(rows: seq<WeekRow>)
    requires forall i :: 0 <= i < |rows| ==> RowUnchanged(rows[i])
    ensures SumBy(rows, Delta) == 0.0
  {
    if rows != [] {
      UnchangedSumToZero(rows[1..]);
    }
  }

  /** `x / y.replace(0, nan)`: a zero divisor gives a missing value. */
  function DivOrMissing(x: real, y: real): (r: Option<real>)
    ensures r.None? <==> y == 0.0
    ensures r.Some? ==> r.value * y == x
  {
    if y == 0.0 then None else Some(x / y)
  }

  /** `diff / before.replace(0, nan) * 100` with `diff = after - before`. */
  function PctChange(before: real, after: real): (r: Option<real>)
    ensures r.None? <==> before == 0.0
    ensures r.Some? ==> r.value * before == (after - before) * 100.0
  {
    if before == 0.0 then None else Some((after - before) / before * 100.0)
  }

  function Abs(x: real): real { if x < 0.0 then -x else x }

  // ---------------------------------------------------------------------------
  // compute_weekly_price_changes

  /** One row of `price_changes_<start>_<end>.csv`. */
  datatype PriceChange = PriceChange(
    producto: string, origen: string, cantidad: real,
    unitBefore: Option<real>, unitAfter: real, before: real, after: real,
    destino: string, orden: string)

  /** The output columns of one changed line: the unit cost before is the
      saved cost over the quantity, the unit cost after is the new unit cost. */
  function ToChange(p: Priced): PriceChange {
    PriceChange(p.line.producto, p.line.origen, p.line.cantidad,
                DivOrMissing(p.before, p.line.cantidad), p.line.unitCost,
                p.before, p.after, p.line.destino, p.line.orden)
  }

  predicate LineChanged(p: Priced) { p.before != p.after }

  function ChangeKey(c: PriceChange): (string, string) { (c.producto, c.origen) }

  /** `sort_values(by=["Producto", "Almacen_origen"])`. */
  predicate ChangeLe(a: PriceChange, b: PriceChange) { PairLe(ChangeKey(a), ChangeKey(b)) }

  lemma ChangeLeIsTotalPreorder()
    ensures TotalPreorder(ChangeLe)
  {
    PairLeIsTotalPreorder();
    forall a: PriceChange, b: PriceChange ensures ChangeLe(a, b) || ChangeLe(b, a) {
      assert PairLe(ChangeKey(a), ChangeKey(b)) || PairLe(ChangeKey(b), ChangeKey(a));
    }
    forall a: PriceChange, b: PriceChange, c: PriceChange | ChangeLe(a, b) && ChangeLe(b, c)
      ensures ChangeLe(a, c)
    {
      assert PairLe(ChangeKey(a), ChangeKey(b)) && PairLe(ChangeKey(b), ChangeKey(c));
    }
  }

  function ChangedLines(df: seq<Priced>): (r: seq<PriceChange>)
    ensures |r| == |Filter(df, LineChanged)|
    ensures forall i :: 0 <= i < |r| ==> r[i] == ToChange(Filter(df, LineChanged)[i])
  {
    var changed := Filter(df, LineChanged);
    seq(|changed|, i requires 0 <= i < |changed| => ToChange(changed[i]))
  }

  /** `compute_weekly_price_changes`: the changed lines of one week, as a
      permutation sorted by product and origin. */
  function WeeklyPriceChanges(df: seq<Priced>): (r: seq<PriceChange>)
    ensures multiset(r) == multiset(ChangedLines(df))
    ensures SortedBy(r, ChangeLe)
  {
    ChangeLeIsTotalPreorder();
    SortBy(ChangedLines(df), ChangeLe)
  }

  /** A row is reported exactly when it comes from a line whose cost changed;
      in particular a week where nothing changed gives the empty frame. */
  lemma WeeklyPriceChangesRows(df: seq<Priced>, c: PriceChange)
    ensures c in WeeklyPriceChanges(df)
        <==> exists i :: 0 <= i < |df| && LineChanged(df[i]) && c == ToChange(df[i])
  {
    var changed := Filter(df, LineChanged);
    var lines := ChangedLines(df);
    assert c in WeeklyPriceChanges(df) <==> c in multiset(lines);
    if c in multiset(lines) {
      var k :| 0 <= k < |lines| && lines[k] == c;
      FilterHas(df, LineChanged, changed[k]);
      var i :| 0 <= i < |df| && df[i] == changed[k];
    }
    if exists i :: 0 <= i < |df| && LineChanged(df[i]) && c == ToChange(df[i]) {
      var i :| 0 <= i < |df| && LineChanged(df[i]) && c == ToChange(df[i]);
      FilterHas(df, LineChanged, df[i]);
      var k :| 0 <= k < |changed| && changed[k] == df[i];
      assert lines[k] == c;
    }
  }

  /** Every reported row shows a cost change. */
  lemma WeeklyPriceChangesDiffer(df: seq<Priced>)
    ensures forall c :: c in WeeklyPriceChanges(df) ==> c.before != c.after
  {
    forall c | c in WeeklyPriceChanges(df) ensures c.before != c.after {
      WeeklyPriceChangesRows(df, c);
    }
  }

  // ---------------------------------------------------------------------------
  // compute_price_change_alerts

  datatype AlertLevel = High | Medium | NoAlert

  /** The `Alert` column: "HIGH" above the high threshold, "MEDIUM" above the
      medium one and up to the high one, "" otherwise and when the percentage
      is missing (comparisons with NaN are false). */
  function LevelOf(pct: Option<real>, high: real, medium: real): (l: AlertLevel)
    ensures l == High <==> pct.Some? && Abs(pct.value) > high
    ensures l == Medium <==> pct.Some? && medium < Abs(pct.value) <= high
    ensures l == NoAlert <==> pct.None? || (Abs(pct.value) <= high && Abs(pct.value) <= medium)
  {
    if pct.None? then NoAlert
    else if Abs(pct.value) > high then High
    else if Abs(pct.value) > medium then Medium
    else NoAlert
  }

  /** `(Unit_after - avg) / avg.replace(0, nan) * 100`, missing when the
      average is missing or zero. */
  function UnitPctChange(unitAfter: real, avg: Option<real>): (r: Option<real>)
    ensures r.None? <==> avg.None? || avg.value == 0.0
    ensures r.Some? ==> r.value * avg.value == (unitAfter - avg.value) * 100.0
  {
    if avg.None? || avg.value == 0.0 then None
    else Some((unitAfter - avg.value) / avg.value * 100.0)
  }

  /** One row of `correction_summary_alerts.csv`. */
  datatype Alert = Alert(
    producto: string, origen: string, totalCantidad: real,
    weightedAvg: Option<real>, unitAfter: real, pct: Option<real>,
    beforeSum: real, afterSum: real, costDiff: real, level: AlertLevel)

  function ProductOrigin(r: WeekRow): (string, string) { (r.p.line.producto, r.p.line.origen) }
  function CostDiffOf(a: Alert): real { a.costDiff }

  /** The aggregate of one (product, origin) group of changed lines; the unit
      cost after is the group's first. */
  function AlertOf(g: seq<WeekRow>, k: (string, string), high: real, medium: real): (a: Alert)
    requires g != []
    ensures a.costDiff == SumBy(g, Delta)
  {
    var total := SumBy(g, CantidadOf);
    var beforeSum := SumBy(g, Before);
    var afterSum := SumBy(g, After);
    var avg := DivOrMissing(beforeSum, total);
    var unitAfter := g[0].p.line.unitCost;
    var pct := UnitPctChange(unitAfter, avg);
    SumByDelta(g);
    Alert(k.0, k.1, total, avg, unitAfter, pct, beforeSum, afterSum, afterSum - beforeSum,
          LevelOf(pct, high, medium))
  }

  /** The rows of `groupby(["Producto", "Almacen_origen"]).agg(...)`, one per key. */
  function AlertsOver(changed: seq<WeekRow>, ks: seq<(string, string)>, high: real, medium: real): (r: seq<Alert>)
    requires forall k :: k in ks ==> Group(changed, ProductOrigin, k) != []
    ensures |r| == |ks|
    ensures forall i :: 0 <= i < |ks| ==> (r[i].producto, r[i].origen) == ks[i]
    ensures SumBy(r, CostDiffOf) == SumOverGroups(changed, ProductOrigin, ks, Delta)
    decreases |ks|
  {
    if ks == [] then []
    else
      var a := AlertOf(Group(changed, ProductOrigin, ks[0]), ks[0], high, medium);
      var rest := AlertsOver(changed, ks[1..], high, medium);
      assert ([a] + rest)[1..] == rest;
      [a] + rest
  }

  /** `sort_values("Pct_change_unit", key=abs, ascending=False)`: larger
      absolute change first, missing percentages last. */
  predicate AlertLe(a: Alert, b: Alert) {
    b.pct.None? || (a.pct.Some? && Abs(a.pct.value) >= Abs(b.pct.value))
  }

  lemma AlertLeIsTotalPreorder()
    ensures TotalPreorder(AlertLe)
  {
  }

  function ChangedRows(df: seq<WeekRow>): seq<WeekRow> { Filter(df, RowChanged) }

  function AlertKeys(df: seq<WeekRow>): (ks: seq<(string, string)>)
    ensures forall k :: k in ks ==> Group(ChangedRows(df), ProductOrigin, k) != []
  {
    var changed := ChangedRows(df);
    var ks := GroupKeys(changed, ProductOrigin, PairLe);
    assert forall k :: k in ks ==> exists i :: 0 <= i < |changed| && ProductOrigin(changed[i]) == k;
    ks
  }

  /** `compute_price_change_alerts`: one aggregate per (product, origin) of the
      changed lines, sorted by absolute unit-price change. */
  function PriceChangeAlerts(df: seq<WeekRow>, high: real, medium: real): (r: seq<Alert>)
    ensures multiset(r) == multiset(AlertsOver(ChangedRows(df), AlertKeys(df), high, medium))
    ensures SortedBy(r, AlertLe)
  {
    AlertLeIsTotalPreorder();
    SortBy(AlertsOver(ChangedRows(df), AlertKeys(df), high, medium), AlertLe)
  }

  /** The defaults passed by the weekly run. */
  const PctHigh: real := 50.0
  const PctMedium: real := 25.0

  /** The alerts account for the whole correction: their cost differences add
      up to the total cost difference of every line, changed or not. */
  lemma AlertsCostDiffTotal(df: seq<WeekRow>, high: real, medium: real)
    ensures SumBy(PriceChangeAlerts(df, high, medium), CostDiffOf) == SumBy(df, Delta)
  {
    var changed := ChangedRows(df);
    var ks := AlertKeys(df);
    var groups := AlertsOver(changed, ks, high, medium);
    SumByPermutation(PriceChangeAlerts(df, high, medium), groups, CostDiffOf);
    ChangedRowsCovered(df);
    GroupsPartition(changed, ProductOrigin, ks, Delta);
    ChangedCarryTheDifference(df);
  }

  lemma ChangedRowsCovered(df: seq<WeekRow>)
    ensures NoDup(AlertKeys(df))
    ensures forall i :: 0 <= i < |ChangedRows(df)| ==> ProductOrigin(ChangedRows(df)[i]) in AlertKeys(df)
  {
  }

  lemma ChangedCarryTheDifference(df: seq<WeekRow>)
    ensures SumBy(ChangedRows(df), Delta) == SumBy(df, Delta)
  {
    FilterSplitsSum(df, RowChanged, RowUnchanged, Delta);
    UnchangedSumToZero(Filter(df, RowUnchanged));
  }

  lemma AlertHasKey(df: seq<WeekRow>, high: real, medium: real, k: (string, string))
    ensures (exists a :: a in PriceChangeAlerts(df, high, medium) && (a.producto, a.origen) == k)
        <==> k in AlertKeys(df)
  {
    var ks := AlertKeys(df);
    var groups := AlertsOver(ChangedRows(df), ks, high, medium);
    var r := PriceChangeAlerts(df, high, medium);
    if exists a :: a in r && (a.producto, a.origen) == k {
      var a :| a in r && (a.producto, a.origen) == k;
      assert a in multiset(groups);
      var j :| 0 <= j < |groups| && groups[j] == a;
    }
    if k in ks {
      var j :| 0 <= j < |ks| && ks[j] == k;
      assert groups[j] in multiset(r);
    }
  }

  lemma ChangedKey(df: seq<WeekRow>, k: (string, string))
    ensures k in AlertKeys(df)
        <==> exists i :: 0 <= i < |df| && RowChanged(df[i]) && ProductOrigin(df[i]) == k
  {
    if k in AlertKeys(df) {
      ChangedKeyHasRow(df, k);
    }
    if exists i :: 0 <= i < |df| && RowChanged(df[i]) && ProductOrigin(df[i]) == k {
      var i :| 0 <= i < |df| && RowChanged(df[i]) && ProductOrigin(df[i]) == k;
      RowGivesChangedKey(df, i);
    }
  }

  lemma ChangedKeyHasRow(df: seq<WeekRow>, k: (string, string))
    requires k in AlertKeys(df)
    ensures exists i :: 0 <= i < |df| && RowChanged(df[i]) && ProductOrigin(df[i]) == k
  {
    var changed := ChangedRows(df);
    assert k in GroupKeys(changed, ProductOrigin, PairLe);
    var m :| 0 <= m < |changed| && ProductOrigin(changed[m]) == k;
    FilterHas(df, RowChanged, changed[m]);
    var i :| 0 <= i < |df| && df[i] == changed[m];
    assert RowChanged(df[i]) && ProductOrigin(df[i]) == k;
  }

  lemma RowGivesChangedKey(df: seq<WeekRow>, i: nat)
    requires i < |df| && RowChanged(df[i])
    ensures ProductOrigin(df[i]) in AlertKeys(df)
  {
    var changed := ChangedRows(df);
    FilterHas(df, RowChanged, df[i]);
    var m :| 0 <= m < |changed| && changed[m] == df[i];
    assert ProductOrigin(changed[m]) == ProductOrigin(df[i]);
    assert ProductOrigin(df[i]) in GroupKeys(changed, ProductOrigin, PairLe);
  }

  /** There is one alert per (product, origin) pair that has a changed line,
      and no other. */
  lemma AlertsPerGroup(df: seq<WeekRow>, high: real, medium: real, k: (string, string))
    ensures (exists a :: a in PriceChangeAlerts(df, high, medium) && (a.producto, a.origen) == k)
        <==> exists i :: 0 <= i < |df| && RowChanged(df[i]) && ProductOrigin(df[i]) == k
  {
    AlertHasKey(df, high, medium, k);
    ChangedKey(df, k);
  }

  // ---------------------------------------------------------------------------
  // CEDIS exclusion

  const Cedis: string := "Panem - CEDIS"

  predicate ToCedis(r: WeekRow) { r.p.line.destino == Cedis }
  predicate NotToCedis(r: WeekRow) { r.p.line.destino != Cedis }

  /** `work[work["Sucursal destino"] != "Panem - CEDIS"]` when excluding. */
  function CedisKept(rows: seq<WeekRow>, exclude: bool): seq<WeekRow> {
    if exclude then Filter(rows, NotToCedis) else rows
  }

  /** Excluding CEDIS drops exactly the lines sent to CEDIS: any column total
      of the frame is the kept total plus the total of the CEDIS lines. */
  lemma CedisExclusionSplits(rows: seq<WeekRow>, f: WeekRow -> real)
    ensures SumBy(rows, f) == SumBy(CedisKept(rows, true), f) + SumBy(Filter(rows, ToCedis), f)
  {
    FilterSplitsSum(rows, NotToCedis, ToCedis, f);
  }

  /** With non-negative costs, excluding CEDIS can only lower a total. */
  lemma CedisExclusionLowers(rows: seq<WeekRow>, exclude: bool, f: WeekRow -> real)
    requires forall i :: 0 <= i < |rows| ==> f(rows[i]) >= 0.0
    ensures SumBy(CedisKept(rows, exclude), f) <= SumBy(rows, f)
  {
    if exclude {
      FilterNonNegativeSum(rows, NotToCedis, f);
    }
  }

  // ---------------------------------------------------------------------------
  // compute_origin_totals

  datatype OriginKind = AgKind | PtKind | OtherKind

  /** `_origin_type`: "PT" when the raw origin contains "PRODUCTO TERMINADO"
      (set last, so it wins), else "AG" when it contains "ALMACEN GENERAL",
      else "OTHER". */
  function KindOf(origen: string): (t: OriginKind)
    ensures t == PtKind <==> Contains(origen, "PRODUCTO TERMINADO")
    ensures t == AgKind <==> !Contains(origen, "PRODUCTO TERMINADO") && Contains(origen, "ALMACEN GENERAL")
  {
    if Contains(origen, "PRODUCTO TERMINADO") then PtKind
    else if Contains(origen, "ALMACEN GENERAL") then AgKind
    else OtherKind
  }

  predicate IsAgRow(r: WeekRow) { KindOf(r.p.line.origen) == AgKind }
  predicate IsPtRow(r: WeekRow) { KindOf(r.p.line.origen) == PtKind }

  /** One row of `correction_summary_totals.csv`. */
  datatype OriginWeek = OriginWeek(
    week: string,
    agBefore: real, agAfter: real, agDiff: real, agPct: Option<real>,
    ptBefore: real, ptAfter: real, ptDiff: real, ptPct: Option<real>)

  function AgBeforeOf(o: OriginWeek): real { o.agBefore }
  function AgAfterOf(o: OriginWeek): real { o.agAfter }
  function PtBeforeOf(o: OriginWeek): real { o.ptBefore }
  function PtAfterOf(o: OriginWeek): real { o.ptAfter }

  /** The totals of one week and their differences; a side with no lines in
      that week is filled with 0 by the outer merge. */
  function Totals(week: string, agBefore: real, agAfter: real, ptBefore: real, ptAfter: real): (o: OriginWeek)
    ensures o.agDiff == o.agAfter - o.agBefore && o.ptDiff == o.ptAfter - o.ptBefore
    ensures o.agPct == PctChange(o.agBefore, o.agAfter) && o.ptPct == PctChange(o.ptBefore, o.ptAfter)
  {
    OriginWeek(week, agBefore, agAfter, agAfter - agBefore, PctChange(agBefore, agAfter),
               ptBefore, ptAfter, ptAfter - ptBefore, PctChange(ptBefore, ptAfter))
  }

  function OriginWeekOf(ag: seq<WeekRow>, pt: seq<WeekRow>, w: string): OriginWeek {
    var agWeek := Group(ag, WeekOf, w);
    var ptWeek := Group(pt, WeekOf, w);
    Totals(w, SumBy(agWeek, Before), SumBy(agWeek, After), SumBy(ptWeek, Before), SumBy(ptWeek, After))
  }

  /** The merged frame, one row per week. */
  function OriginWeeks(ag: seq<WeekRow>, pt: seq<WeekRow>, ws: seq<string>): (r: seq<OriginWeek>)
    ensures |r| == |ws|
    ensures forall i :: 0 <= i < |ws| ==> r[i].week == ws[i]
    decreases |ws|
  {
    if ws == [] then [] else [OriginWeekOf(ag, pt, ws[0])] + OriginWeeks(ag, pt, ws[1..])
  }

  /** The "All" row: column sums of the merged frame. */
  function AllRow(merged: seq<OriginWeek>): OriginWeek {
    Totals("All", SumBy(merged, AgBeforeOf), SumBy(merged, AgAfterOf),
           SumBy(merged, PtBeforeOf), SumBy(merged, PtAfterOf))
  }

  function AgRows(rows: seq<WeekRow>, exclude: bool): seq<WeekRow> { Filter(CedisKept(rows, exclude), IsAgRow) }
  function PtRows(rows: seq<WeekRow>, exclude: bool): seq<WeekRow> { Filter(CedisKept(rows, exclude), IsPtRow) }

  /** The weeks of the outer merge: every week with an AG or a PT line,
      in sorted order. */
  function OriginWeekKeys(rows: seq<WeekRow>, exclude: bool): (ws: seq<string>)
    ensures NoDup(ws) && SortedBy(ws, StrLe)
    ensures forall w :: w in ws <==> exists i :: 0 <= i < |AgRows(rows, exclude) + PtRows(rows, exclude)|
                                                 && WeekOf((AgRows(rows, exclude) + PtRows(rows, exclude))[i]) == w
  {
    StrLeIsTotalPreorder();
    GroupKeys(AgRows(rows, exclude) + PtRows(rows, exclude), WeekOf, StrLe)
  }

  /** `compute_origin_totals`: an "All" row followed by one row per week. */
  function OriginTotals(rows: seq<WeekRow>, exclude: bool): (r: seq<OriginWeek>)
    ensures rows == [] ==> r == []
    ensures rows != [] ==> |r| == 1 + |OriginWeekKeys(rows, exclude)| && r[0].week == "All"
    ensures rows != [] ==> forall i :: 1 <= i < |r| ==> r[i].week == OriginWeekKeys(rows, exclude)[i - 1]
  {
    if rows == [] then []
    else
      var merged := OriginWeeks(AgRows(rows, exclude), PtRows(rows, exclude), OriginWeekKeys(rows, exclude));
      [AllRow(merged)] + merged
  }

  lemma {:induction false} OriginWeeksSum(ag: seq<WeekRow>, pt: seq<WeekRow>, ws: seq<string>)
    ensures SumBy(OriginWeeks(ag, pt, ws), AgBeforeOf) == SumOverGroups(ag, WeekOf, ws, Before)
    ensures SumBy(OriginWeeks(ag, pt, ws), AgAfterOf) == SumOverGroups(ag, WeekOf, ws, After)
    ensures SumBy(OriginWeeks(ag, pt, ws), PtBeforeOf) == SumOverGroups(pt, WeekOf, ws, Before)
    ensures SumBy(OriginWeeks(ag, pt, ws), PtAfterOf) == SumOverGroups(pt, WeekOf, ws, After)
    decreases |ws|
  {
    if ws != [] {
      var r := OriginWeeks(ag, pt, ws);
      assert r[1..] == OriginWeeks(ag, pt, ws[1..]);
      OriginWeeksSum(ag, pt, ws[1..]);
    }
  }

  lemma OriginWeekKeysCover(rows: seq<WeekRow>, exclude: bool)
    ensures forall i :: 0 <= i < |AgRows(rows, exclude)| ==> WeekOf(AgRows(rows, exclude)[i]) in OriginWeekKeys(rows, exclude)
    ensures forall i :: 0 <= i < |PtRows(rows, exclude)| ==> WeekOf(PtRows(rows, exclude)[i]) in OriginWeekKeys(rows, exclude)
  {
    var ag := AgRows(rows, exclude);
    var pt := PtRows(rows, exclude);
    forall i | 0 <= i < |ag| ensures WeekOf(ag[i]) in OriginWeekKeys(rows, exclude) {
      assert (ag + pt)[i] == ag[i];
    }
    forall i | 0 <= i < |pt| ensures WeekOf(pt[i]) in OriginWeekKeys(rows, exclude) {
      assert (ag + pt)[|ag| + i] == pt[i];
    }
  }

  /** The "All" row holds the totals of every AG line and of every PT line
      kept after the CEDIS exclusion: no week is lost by the outer merge. */
  lemma AllRowTotals(rows: seq<WeekRow>, exclude: bool)
    requires rows != []
    ensures OriginTotals(rows, exclude)[0].agBefore == SumBy(AgRows(rows, exclude), Before)
    ensures OriginTotals(rows, exclude)[0].agAfter == SumBy(AgRows(rows, exclude), After)
    ensures OriginTotals(rows, exclude)[0].ptBefore == SumBy(PtRows(rows, exclude), Before)
    ensures OriginTotals(rows, exclude)[0].ptAfter == SumBy(PtRows(rows, exclude), After)
  {
    var ag := AgRows(rows, exclude);
    var pt := PtRows(rows, exclude);
    var ws := OriginWeekKeys(rows, exclude);
    OriginWeeksSum(ag, pt, ws);
    OriginWeekKeysCover(rows, exclude);
    GroupsPartition(ag, WeekOf, ws, Before);
    GroupsPartition(ag, WeekOf, ws, After);
    GroupsPartition(pt, WeekOf, ws, Before);
    GroupsPartition(pt, WeekOf, ws, After);
  }

  // ---------------------------------------------------------------------------
  // compute_cost_by_dest_branch and compute_weekly_cost_comparison

  /** One row of `price_correction_report.csv` or `weekly_cost_comparison.csv`. */
  datatype KeyTotal = KeyTotal(key: string, totalBefore: real, totalAfter: real, difference: real, pctChange: Option<real>)

  function TotalBeforeOf(t: KeyTotal): real { t.totalBefore }
  function TotalAfterOf(t: KeyTotal): real { t.totalAfter }

  function KeysOf(r: seq<KeyTotal>): (ks: seq<string>)
    ensures |ks| == |r| && forall i :: 0 <= i < |r| ==> ks[i] == r[i].key
  {
    seq(|r|, i requires 0 <= i < |r| => r[i].key)
  }

  /** `groupby(key).agg(Total_Before=sum, Total_After=sum)` with the
      difference and the percentage change. */
  function TotalsOver(rows: seq<WeekRow>, key: WeekRow -> string, ks: seq<string>): (r: seq<KeyTotal>)
    ensures KeysOf(r) == ks
    ensures forall i :: 0 <= i < |ks| ==> r[i].difference == r[i].totalAfter - r[i].totalBefore
                                          && r[i].pctChange == PctChange(r[i].totalBefore, r[i].totalAfter)
    ensures SumBy(r, TotalBeforeOf) == SumOverGroups(rows, key, ks, Before)
    ensures SumBy(r, TotalAfterOf) == SumOverGroups(rows, key, ks, After)
    decreases |ks|
  {
    if ks == [] then []
    else
      var g := Group(rows, key, ks[0]);
      var b := SumBy(g, Before);
      var a := SumBy(g, After);
      var rest := TotalsOver(rows, key, ks[1..]);
      assert ([KeyTotal(ks[0], b, a, a - b, PctChange(b, a))] + rest)[1..] == rest;
      [KeyTotal(ks[0], b, a, a - b, PctChange(b, a))] + rest
  }

  /** Grouping by a key: one row per distinct key, in sorted order, and the
      totals of all rows split between them. */
  function TotalsBy(rows: seq<WeekRow>, key: WeekRow -> string): (r: seq<KeyTotal>)
    ensures forall k :: k in KeysOf(r) <==> exists i :: 0 <= i < |rows| && key(rows[i]) == k
    ensures NoDup(KeysOf(r)) && SortedBy(KeysOf(r), StrLe)
    ensures SumBy(r, TotalBeforeOf) == SumBy(rows, Before)
    ensures SumBy(r, TotalAfterOf) == SumBy(rows, After)
  {
    StrLeIsTotalPreorder();
    var ks := GroupKeys(rows, key, StrLe);
    GroupsPartition(rows, key, ks, Before);
    GroupsPartition(rows, key, ks, After);
    TotalsOver(rows, key, ks)
  }

  /** `compute_cost_by_dest_branch`: totals by destination branch. */
  function CostByDestBranch(rows: seq<WeekRow>): (r: seq<KeyTotal>)
    ensures SumBy(r, TotalBeforeOf) == SumBy(rows, Before)
    ensures SumBy(r, TotalAfterOf) == SumBy(rows, After)
    ensures forall k :: k in KeysOf(r) <==> exists i :: 0 <= i < |rows| && DestinoOf(rows[i]) == k
    ensures NoDup(KeysOf(r)) && SortedBy(KeysOf(r), StrLe)
  {
    TotalsBy(rows, DestinoOf)
  }

  /** `compute_weekly_cost_comparison`: totals by week, after the optional
      CEDIS exclusion. */
  function WeeklyCostComparison(rows: seq<WeekRow>, exclude: bool): (r: seq<KeyTotal>)
    ensures SumBy(r, TotalBeforeOf) == SumBy(CedisKept(rows, exclude), Before)
    ensures SumBy(r, TotalAfterOf) == SumBy(CedisKept(rows, exclude), After)
    ensures forall k :: k in KeysOf(r)
                        <==> exists i :: 0 <= i < |CedisKept(rows, exclude)| && WeekOf(CedisKept(rows, exclude)[i]) == k
    ensures NoDup(KeysOf(r)) && SortedBy(KeysOf(r), StrLe)
  {
    TotalsBy(CedisKept(rows, exclude), WeekOf)
  }

  // ---------------------------------------------------------------------------
  // _write_weekly_breakdown

  /** Gold reference totals by week label: (detail total, NUMEROS total). */
  const GoldReferenceByWeek: map<string, (real, real)> :=
    map["2026-02-02_2026-02-07" := (311794.0, 283368.0)]

  /** One row of `weekly_breakdown.csv`; a week without a reference has
      missing gold columns. */
  datatype BreakdownRow = BreakdownRow(
    week: string, totalAfter: real, toCedis: real, toBranches: real,
    aptOnly: real, agOnly: real, goldReference: Option<real>, goldNumeros: Option<real>)

  /** Exact origin names, unlike the substring test of the origin totals. */
  predicate IsAptExact(r: WeekRow) { r.p.line.origen == "ALMACEN PRODUCTO TERMINADO" }
  predicate IsAgExact(r: WeekRow) { r.p.line.origen == "ALMACEN GENERAL" }

  /** The unrounded cost-after total of one week. */
  function WeekAfterTotal(combined: seq<WeekRow>, week: string): real {
    SumBy(Group(combined, WeekOf, week), After)
  }

  /** The row written for one week: totals by destination and by origin,
      each rounded to cents. */
  function BreakdownOf(combined: seq<WeekRow>, week: string, gold: map<string, (real, real)>): (b: BreakdownRow)
    ensures b.week == week
    ensures -0.005 <= b.totalAfter - WeekAfterTotal(combined, week) <= 0.005
    ensures week in gold <==> b.goldReference.Some? && b.goldNumeros.Some?
  {
    var wf := Group(combined, WeekOf, week);
    var total := SumBy(wf, After);
    var toCedis := SumBy(Filter(wf, ToCedis), After);
    var apt := SumBy(Filter(wf, IsAptExact), After);
    var ag := SumBy(Filter(wf, IsAgExact), After);
    BreakdownRow(week, Round(total, 2), Round(toCedis, 2), Round(total - toCedis, 2),
                 Round(apt, 2), Round(ag, 2),
                 if week in gold then Some(gold[week].0) else None,
                 if week in gold then Some(gold[week].1) else None)
  }

  function WeekLabels(combined: seq<WeekRow>): (ws: seq<string>)
    ensures NoDup(ws)
    ensures forall w :: w in ws <==> exists i :: 0 <= i < |combined| && combined[i].week == w
  {
    var ks := Keys(combined, WeekOf);
    assert forall w :: w in ks <==> exists i :: 0 <= i < |combined| && combined[i].week == w;
    Distinct(ks)
  }

  /** `_write_weekly_breakdown`: one row per week label in first-seen order. */
  method WeeklyBreakdown(combined: seq<WeekRow>, gold: map<string, (real, real)>) returns (rows: seq<BreakdownRow>)
    ensures |rows| == |WeekLabels(combined)|
    ensures forall i :: 0 <= i < |rows| ==> rows[i] == BreakdownOf(combined, WeekLabels(combined)[i], gold)
  {
    var weeks := WeekLabels(combined);
    rows := [];
    var i := 0;
    while i < |weeks|
      invariant 0 <= i <= |weeks|
      invariant |rows| == i
      invariant forall j :: 0 <= j < i ==> rows[j] == BreakdownOf(combined, weeks[j], gold)
    {
      rows := rows + [BreakdownOf(combined, weeks[i], gold)];
      i := i + 1;
    }
  }

  /** The weeks of the breakdown account for every line: their unrounded
      totals add up to the total cost after correction. */
  lemma BreakdownCoversAll(combined: seq<WeekRow>)
    ensures SumOverGroups(combined, WeekOf, WeekLabels(combined), After) == SumBy(combined, After)
  {
    var ws := WeekLabels(combined);
    assert forall i :: 0 <= i < |combined| ==> WeekOf(combined[i]) in ws;
    GroupsPartition(combined, WeekOf, ws, After);
  }

  /** Within a week, the lines to CEDIS and to the branches add up to the
      week's total, so `To_Branches_Only` is the total of the non-CEDIS lines
      before rounding. */
  lemma BreakdownSplits(combined: seq<WeekRow>, week: string)
    ensures SumBy(Filter(Group(combined, WeekOf, week), ToCedis), After)
          + SumBy(Filter(Group(combined, WeekOf, week), NotToCedis), After)
         == WeekAfterTotal(combined, week)
  {
    FilterSplitsSum(Group(combined, WeekOf, week), NotToCedis, ToCedis, After);
  }

  predicate NotExactOrigin(r: WeekRow) { !IsAptExact(r) && !IsAgExact(r) }
  predicate IsExactOrigin(r: WeekRow) { IsAptExact(r) || IsAgExact(r) }

  /** With non-negative costs, `APT_Only` and `AG_Only` together never
      exceed the week's total (the two exact names are different). */
  lemma ExactOriginsWithinTotal(wf: seq<WeekRow>)
    requires forall i :: 0 <= i < |wf| ==> After(wf[i]) >= 0.0
    ensures SumBy(Filter(wf, IsAptExact), After) + SumBy(Filter(wf, IsAgExact), After) <= SumBy(wf, After)
  {
    var ex := Filter(wf, IsExactOrigin);
    FilterSplitsSum(wf, IsExactOrigin, NotExactOrigin, After);
    FilterNonNegativeSum(wf, IsExactOrigin, After);
    ExactOriginsSplit(wf);
  }

  lemma {:induction false} ExactOriginsSplit(wf: seq<WeekRow>)
    ensures SumBy(Filter(wf, IsAptExact), After) + SumBy(Filter(wf, IsAgExact), After)
         == SumBy(Filter(wf, IsExactOrigin), After)
  {
    if wf != [] {
      ExactOriginsSplit(wf[1..]);
    }
  }
}
