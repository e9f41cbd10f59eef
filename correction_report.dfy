/** The data behind the transfer-correction report
    (`scripts/generate_transfer_correction_report.py`): the per-week
    `price_changes_*.csv` files of a run, the per-item aggregate of the price
    differences across all weeks, and the overall percentage change. */
module CorrectionReport {
  import opened Wrappers
  import opened Sorting
  import opened Rows
  import opened WeekFiles
  import Reports

  const PriceChangesPrefix: string := "price_changes_"

  /** One line of a `price_changes_*.csv` file, with its numeric columns
      coerced (a missing or non-numeric cell is `None`). */
  datatype Change = Change(
    producto: string, origen: string, cantidad: Option<real>,
    costoBefore: Option<real>, costoAfter: Option<real>,
    unitBefore: Option<real>, unitAfter: Option<real>)

  /** One week read back: its dates, from the file name, and its lines. */
  datatype WeekChanges = WeekChanges(start: string, end: string, rows: seq<Change>)

  /** A file of the output directory: its name and its lines. */
  type CsvFile = (string, seq<Change>)

  // ---------------------------------------------------------------------------
  // load_all_data

  /** The week a file contributes: none when its name does not parse or it
      has no lines. */
  function WeekOfFile(f: CsvFile): (w: Option<WeekChanges>)
    ensures w.Some? ==> w.value.rows == f.1 && w.value.rows != []
  {
    match WeekFromName(PriceChangesPrefix, f.0)
    case None => None
    case Some(week) => if f.1 == [] then None else Some(WeekChanges(week.0, week.1, f.1))
  }

  /** The weeks of `files`, in file order. */
  function WeeksOf(files: seq<CsvFile>): (r: seq<WeekChanges>)
    ensures |r| <= |files|
  {
    if files == [] then []
    else
      var init := WeeksOf(files[..|files| - 1]);
      match WeekOfFile(files[|files| - 1])
      case None => init
      case Some(w) => init + [w]
  }

  /** A week is kept exactly when some file yields it. */
  lemma {:induction false} WeeksOfMember(files: seq<CsvFile>, w: WeekChanges)
    ensures w in WeeksOf(files) <==> exists f :: f in files && WeekOfFile(f) == Some(w)
  {
    if files != [] {
      var init := files[..|files| - 1];
      WeeksOfMember(init, w);
      assert files == init + [files[|files| - 1]];
      assert forall f :: f in files <==> f in init || f == files[|files| - 1];
    }
  }

  /** The loop of `load_all_data` over `sorted(dir.glob("price_changes_*.csv"))`. */
  method LoadPriceChanges(listing: seq<CsvFile>) returns (weeks: seq<WeekChanges>)
    ensures weeks == WeeksOf(SortedGlob(PriceChangesPrefix, listing))
  {
    weeks := LoadWeeks(SortedGlob(PriceChangesPrefix, listing));
  }

  /** The loop itself, over the sorted files. */
  method LoadWeeks(files: seq<CsvFile>) returns (weeks: seq<WeekChanges>)
    ensures weeks == WeeksOf(files)
  {
    weeks := [];
    var i := 0;
    while i < |files|
      invariant 0 <= i <= |files|
      invariant weeks == WeeksOf(files[..i])
    {
      assert files[..i + 1][..i] == files[..i];
      var week := WeekFromName(PriceChangesPrefix, files[i].0);
      if week.Some? {
        if files[i].1 != [] {
          weeks := weeks + [WeekChanges(week.value.0, week.value.1, files[i].1)];
        }
      }
      i := i + 1;
    }
    assert files[..|files|] == files;
  }

  /** The weeks loaded are exactly those of the non-empty files whose names
      match the glob and the week pattern, each with the dates of its name. */
  lemma LoadedWeeks(listing: seq<CsvFile>, w: WeekChanges)
    ensures w in WeeksOf(SortedGlob(PriceChangesPrefix, listing))
        <==> exists f :: f in listing && GlobMatches(PriceChangesPrefix, f.0) && f.1 != [] && f.1 == w.rows
                         && WeekFromName(PriceChangesPrefix, f.0) == Some((w.start, w.end))
  {
    var files := SortedGlob(PriceChangesPrefix, listing);
    WeeksOfMember(files, w);
  }

  // ---------------------------------------------------------------------------
  // aggregate_item_price_differences

  /** `pd.concat` of the weeks' lines, in week order. */
  function Combined(weeks: seq<WeekChanges>): (rows: seq<Change>)
  {
    if weeks == [] then [] else Combined(weeks[..|weeks| - 1]) + weeks[|weeks| - 1].rows
  }

  /** Column sums skip missing values. */
  function CantidadOr0(c: Change): real { if c.cantidad.Some? then c.cantidad.value else 0.0 }
  function BeforeOr0(c: Change): real { if c.costoBefore.Some? then c.costoBefore.value else 0.0 }
  function AfterOr0(c: Change): real { if c.costoAfter.Some? then c.costoAfter.value else 0.0 }
  function UnitBeforeOr0(c: Change): real { if c.unitBefore.Some? then c.unitBefore.value else 0.0 }
  function ChangeDelta(c: Change): real { AfterOr0(c) - BeforeOr0(c) }
  predicate HasCantidad(c: Change) { c.cantidad.Some? }
  predicate HasUnitBefore(c: Change) { c.unitBefore.Some? }

  lemma {:induction false} SumByChangeDelta(g: seq<Change>)
    ensures SumBy(g, AfterOr0) - SumBy(g, BeforeOr0) == SumBy(g, ChangeDelta)
  {
    if g != [] {
      SumByChangeDelta(g[1..]);
    }
  }

  /** No row passes `p` exactly when the filtered rows are none. */
  lemma FilterEmpty(g: seq<Change>, p: Change -> bool)
    ensures |Filter(g, p)| == 0 <==> forall c :: c in g ==> !p(c)
  {
    forall c | c in g ensures c in Filter(g, p) <==> p(c) {
      FilterHas(g, p, c);
    }
    if |Filter(g, p)| > 0 {
      var x := Filter(g, p)[0];
      assert x in Filter(g, p);
      FilterHas(g, p, x);
    }
  }

  /** `count` of the present unit costs before. */
  function CountUnitBefore(g: seq<Change>): (n: nat)
    ensures n <= |g|
    ensures n == 0 <==> forall c :: c in g ==> c.unitBefore.None?
  {
    FilterEmpty(g, HasUnitBefore);
    |Filter(g, HasUnitBefore)|
  }

  /** `mean` of the unit cost before: the average of the present values,
      missing when there are none. */
  function MeanUnitBefore(g: seq<Change>): (m: Option<real>)
    ensures m.None? <==> forall c :: c in g ==> c.unitBefore.None?
    ensures m.Some? ==> m.value * (CountUnitBefore(g) as real) == SumBy(g, UnitBeforeOr0)
  {
    var n := CountUnitBefore(g);
    if n == 0 then None
    else
      var total := SumBy(g, UnitBeforeOr0);
      DivTimes(total, n as real);
      Some(total / n as real)
  }

  lemma DivTimes(x: real, n: real)
    requires n != 0.0
    ensures (x / n) * n == x
  {
  }

  /** `first` of the unit cost after: the first present value of the group. */
  function FirstUnitAfter(g: seq<Change>): (u: Option<real>)
    ensures u.None? <==> forall c :: c in g ==> c.unitAfter.None?
    ensures u.Some? ==> exists i :: 0 <= i < |g| && g[i].unitAfter == u
                                    && forall j :: 0 <= j < i ==> g[j].unitAfter.None?
  {
    if g == [] then None
    else if g[0].unitAfter.Some? then g[0].unitAfter
    else
      var u := FirstUnitAfter(g[1..]);
      assert forall c :: c in g ==> c == g[0] || c in g[1..];
      assert u.Some? ==> exists i :: 0 <= i < |g[1..]| && g[1..][i].unitAfter == u
                                     && forall j :: 0 <= j < i ==> g[1..][j].unitAfter.None?;
      assert forall i :: 0 <= i < |g[1..]| ==> g[1..][i] == g[i + 1];
      u
  }

  /** One row of the item aggregate. */
  datatype ItemDiff = ItemDiff(
    producto: string, origen: string, totalCantidad: real,
    beforeSum: real, afterSum: real, unitBeforeAvg: Option<real>, unitAfter: Option<real>,
    numLines: nat, costDiff: real, unitDiff: Option<real>, pct: Option<real>)

  function ProductOrigin(c: Change): (string, string) { (c.producto, c.origen) }
  function CostDiffOf(a: ItemDiff): real { a.costDiff }

  /** The aggregate of the lines of one (product, origin) group. */
  function ItemOf(g: seq<Change>, k: (string, string)): (a: ItemDiff)
    ensures (a.producto, a.origen) == k
    ensures a.totalCantidad == SumBy(g, CantidadOr0)
    ensures a.beforeSum == SumBy(g, BeforeOr0) && a.afterSum == SumBy(g, AfterOr0)
    ensures a.costDiff == SumBy(g, ChangeDelta) == a.afterSum - a.beforeSum
    ensures a.unitBeforeAvg == MeanUnitBefore(g) && a.unitAfter == FirstUnitAfter(g)
    ensures a.numLines == |Filter(g, HasCantidad)|
    ensures a.numLines <= |g| && (a.numLines == 0 <==> forall c :: c in g ==> c.cantidad.None?)
    ensures a.unitDiff.Some? <==> a.unitBeforeAvg.Some? && a.unitAfter.Some?
    ensures a.unitDiff.Some? ==> a.unitBeforeAvg.value + a.unitDiff.value == a.unitAfter.value
    ensures a.pct == PercentOf(a.unitDiff, a.unitBeforeAvg)
  {
    var beforeSum := SumBy(g, BeforeOr0);
    var afterSum := SumBy(g, AfterOr0);
    var mean := MeanUnitBefore(g);
    var after := FirstUnitAfter(g);
    var diff := if mean.Some? && after.Some? then Some(after.value - mean.value) else None;
    SumByChangeDelta(g);
    FilterEmpty(g, HasCantidad);
    ItemDiff(k.0, k.1, SumBy(g, CantidadOr0), beforeSum, afterSum, mean, after,
             |Filter(g, HasCantidad)|, afterSum - beforeSum, diff, PercentOf(diff, mean))
  }

  /** One aggregate per key of `ks`, in that order. */
  function ItemsOver(combined: seq<Change>, ks: seq<(string, string)>): (r: seq<ItemDiff>)
    ensures |r| == |ks|
    ensures SumBy(r, CostDiffOf) == SumOverGroups(combined, ProductOrigin, ks, ChangeDelta)
    decreases |ks|
  {
    if ks == [] then []
    else
      var a := ItemOf(Group(combined, ProductOrigin, ks[0]), ks[0]);
      var rest := ItemsOver(combined, ks[1..]);
      assert ([a] + rest)[1..] == rest;
      [a] + rest
  }

  /** The aggregate at each position is that of the key at the same position. */
  lemma {:induction false} ItemsOverAt(combined: seq<Change>, ks: seq<(string, string)>, i: nat)
    requires i < |ks|
    ensures ItemsOver(combined, ks)[i] == ItemOf(Group(combined, ProductOrigin, ks[i]), ks[i])
    decreases |ks|
  {
    if i > 0 {
      ItemsOverAt(combined, ks[1..], i - 1);
    }
  }

  /** `sort_values("Cost_Difference", key=abs, ascending=False)`. */
  predicate ItemLe(a: ItemDiff, b: ItemDiff) {
    Reports.Abs(a.costDiff) >= Reports.Abs(b.costDiff)
  }

  lemma ItemLeIsTotalPreorder()
    ensures TotalPreorder(ItemLe)
  {
  }

  function ItemKeys(combined: seq<Change>): (ks: seq<(string, string)>)
    ensures NoDup(ks) && forall k :: k in ks <==> exists i :: 0 <= i < |combined| && ProductOrigin(combined[i]) == k
  {
    GroupKeys(combined, ProductOrigin, PairLe)
  }

  /** The grouped and sorted aggregate of the combined lines. */
  function ItemDiffs(combined: seq<Change>): (r: seq<ItemDiff>)
    ensures multiset(r) == multiset(ItemsOver(combined, ItemKeys(combined)))
    ensures SortedBy(r, ItemLe)
  {
    ItemLeIsTotalPreorder();
    SortBy(ItemsOver(combined, ItemKeys(combined)), ItemLe)
  }

  /** `aggregate_item_price_differences`: the weeks' lines put together,
      then aggregated per (product, origin); nothing without weeks. */
  method AggregateItemPriceDifferences(weeks: seq<WeekChanges>) returns (agg: seq<ItemDiff>)
    ensures weeks == [] ==> agg == []
    ensures agg == ItemDiffs(Combined(weeks))
  {
    if weeks == [] {
      return [];
    }
    var combined: seq<Change> := [];
    var i := 0;
    while i < |weeks|
      invariant 0 <= i <= |weeks|
      invariant combined == Combined(weeks[..i])
    {
      assert weeks[..i + 1][..i] == weeks[..i];
      combined := combined + weeks[i].rows;
      i := i + 1;
    }
    assert weeks[..|weeks|] == weeks;
    agg := ItemDiffs(combined);
  }

  /** Every line's cost difference is accounted for exactly once: the
      aggregate's differences add up to the total over all lines. */
  lemma ItemDiffsCostTotal(combined: seq<Change>)
    ensures SumBy(ItemDiffs(combined), CostDiffOf) == SumBy(combined, ChangeDelta)
  {
    var ks := ItemKeys(combined);
    SumByPermutation(ItemDiffs(combined), ItemsOver(combined, ks), CostDiffOf);
    GroupsPartition(combined, ProductOrigin, ks, ChangeDelta);
  }

  /** Each reported row is the aggregate of its own group, and there is a
      row for every (product, origin) pair with a line and for no other. */
  lemma ItemDiffsPerGroup(combined: seq<Change>, a: ItemDiff)
    requires a in ItemDiffs(combined)
    ensures a == ItemOf(Group(combined, ProductOrigin, (a.producto, a.origen)), (a.producto, a.origen))
    ensures exists i :: 0 <= i < |combined| && ProductOrigin(combined[i]) == (a.producto, a.origen)
  {
    var ks := ItemKeys(combined);
    var j := ItemPosition(combined, a);
    ItemsOverAt(combined, ks, j);
    assert ks[j] in ks;
  }

  /** Where a reported row stands among the unsorted aggregates. */
  lemma ItemPosition(combined: seq<Change>, a: ItemDiff) returns (j: nat)
    requires a in ItemDiffs(combined)
    ensures j < |ItemKeys(combined)| && ItemsOver(combined, ItemKeys(combined))[j] == a
  {
    var items := ItemsOver(combined, ItemKeys(combined));
    assert a in multiset(ItemDiffs(combined));
    assert a in items;
    j :| 0 <= j < |items| && items[j] == a;
  }

  lemma ItemDiffsCover(combined: seq<Change>, i: nat)
    requires i < |combined|
    ensures exists a :: a in ItemDiffs(combined) && (a.producto, a.origen) == ProductOrigin(combined[i])
  {
    var ks := ItemKeys(combined);
    var items := ItemsOver(combined, ks);
    var k := ProductOrigin(combined[i]);
    assert k in ks;
    var j :| 0 <= j < |ks| && ks[j] == k;
    ItemsOverAt(combined, ks, j);
    assert items[j] in multiset(ItemDiffs(combined));
    assert items[j] in ItemDiffs(combined);
  }

  // ---------------------------------------------------------------------------
  // build_html: the overall figures

  /** The overall percentage change: the difference relative to the total
      before, or 0 when that total is 0. */
  function OverallPct(before: real, after: real): (p: real)
    ensures before == 0.0 ==> p == 0.0
    ensures before != 0.0 ==> p * before == (after - before) * 100.0
  {
    if before != 0.0 then (after - before) / before * 100.0 else 0.0
  }

  /** The totals over the weekly comparison: before, after and the
      percentage change. */
  function OverallTotals(comp: seq<Reports.KeyTotal>): (r: (real, real, real))
    ensures r.0 == 0.0 ==> r.2 == 0.0
    ensures r.0 != 0.0 ==> r.2 * r.0 == (r.1 - r.0) * 100.0
  {
    var before := SumBy(comp, Reports.TotalBeforeOf);
    var after := SumBy(comp, Reports.TotalAfterOf);
    (before, after, OverallPct(before, after))
  }

  /** Read from the weekly comparison of a run, the overall totals are the
      totals of the lines it covered. */
  lemma OverallOfRun(rows: seq<Reports.WeekRow>, exclude: bool)
    ensures OverallTotals(Reports.WeeklyCostComparison(rows, exclude)).0
            == SumBy(Reports.CedisKept(rows, exclude), Reports.Before)
    ensures OverallTotals(Reports.WeeklyCostComparison(rows, exclude)).1
            == SumBy(Reports.CedisKept(rows, exclude), Reports.After)
  {
  }
}
