/** Parsing the reference workbook of corrected transfers and comparing our
    re-priced lines with it (`src/pos_frontend/transfers/gold_investigation.py`).

    A sheet read with `header=None` is a rectangle of cells; the header row is
    found by scanning for "Orden", each column is found by a header test with a
    fixed fallback position, and the rows are kept when they name a product and
    carry a cost and a quantity. */
module Gold {
  import opened Wrappers
  import opened Text
  import opened Calendar
  import opened Sorting
  import opened Rows
  import opened Cells
  import opened Pricing
  import opened Weeks

  /** A sheet read without a header. */
  type Sheet = seq<seq<Cell>>

  /** Every row of a sheet has the same width. */
  predicate Rectangular(s: Sheet) {
    forall i :: 0 <= i < |s| ==> |s[i]| == |s[0]|
  }

  /** Every sheet of a workbook is rectangular. */
  predicate AllRectangular(sheets: seq<(string, Sheet)>) {
    forall sh :: sh in sheets ==> Rectangular(sh.1)
  }

  // ---------------------------------------------------------------------------
  // detect_header_row

  /** Rows scanned for the header. */
  const HeaderScan: nat := 15

  /** Some cell of the row, read as text, contains "Orden". */
  predicate HasOrden(row: seq<Cell>) {
    exists j :: 0 <= j < |row| && Contains(CellStr(row[j]), "Orden")
  }

  function HeaderRowFrom(s: Sheet, i: nat): (h: int)
    requires i <= |s|
    ensures -1 <= h < |s|
    ensures h >= 0 ==> i <= h < HeaderScan && HasOrden(s[h]) && forall j :: i <= j < h ==> !HasOrden(s[j])
    ensures h < 0 <==> forall j :: i <= j < |s| && j < HeaderScan ==> !HasOrden(s[j])
    decreases |s| - i
  {
    if i == |s| || i >= HeaderScan then -1
    else if HasOrden(s[i]) then i
    else HeaderRowFrom(s, i + 1)
  }

  /** The header row: the first of the first fifteen rows holding "Orden",
      or -1 when there is none. */
  function HeaderRow(s: Sheet): (h: int)
    ensures -1 <= h < |s| && h < HeaderScan
    ensures h >= 0 ==> HasOrden(s[h]) && forall j :: 0 <= j < h ==> !HasOrden(s[j])
    ensures h < 0 <==> forall j :: 0 <= j < |s| && j < HeaderScan ==> !HasOrden(s[j])
  {
    HeaderRowFrom(s, 0)
  }

  /** `detect_header_row`: scans at most fifteen rows. */
  method DetectHeaderRow(s: Sheet) returns (h: int)
    ensures h == HeaderRow(s)
  {
    var n := if |s| < HeaderScan then |s| else HeaderScan;
    var i := 0;
    while i < n
      invariant 0 <= i <= n
      invariant forall j :: 0 <= j < i ==> !HasOrden(s[j])
    {
      if HasOrden(s[i]) {
        return i;
      }
      i := i + 1;
    }
    return -1;
  }

  // ---------------------------------------------------------------------------
  // parse_sheet

  /** The column positions `parse_sheet` reads. */
  datatype GoldColumns = GoldColumns(
    orden: nat, origen: nat, destino: nat, fecha: nat, cantidad: nat,
    depto: nat, producto: nat, costo: nat)

  /** The first header the rule accepts, else the fallback position. */
  function ColumnOr(cols: seq<string>, rule: HeaderRule, fallback: nat): nat {
    match FindColumn(cols, rule)
    case Some(k) => k
    case None => fallback
  }

  /** `k` is the first header accepted by the rule, or the fallback when no
      header is. */
  predicate Resolved(cols: seq<string>, rule: HeaderRule, fallback: nat, k: nat) {
    ((forall i :: 0 <= i < |cols| ==> !HeaderMatches(rule, cols[i])) && k == fallback)
    || (k < |cols| && HeaderMatches(rule, cols[k]) && forall i :: 0 <= i < k ==> !HeaderMatches(rule, cols[i]))
  }

  lemma ColumnOrResolved(cols: seq<string>, rule: HeaderRule, fallback: nat)
    ensures Resolved(cols, rule, fallback, ColumnOr(cols, rule, fallback))
  {
  }

  /** Fallbacks: Orden 1, origin 2, destination 3, Fecha 5, Cantidad 6,
      Departamento 7, Producto 8, Costo 10; the Costo position is clamped to
      the last column. */
  function ResolveGoldColumns(cols: seq<string>): (c: GoldColumns)
    requires |cols| > 0
    ensures c.costo < |cols|
  {
    var costo := ColumnOr(cols, HasPart("Costo"), 10);
    GoldColumns(
      ColumnOr(cols, HasPart("Orden"), 1), ColumnOr(cols, AlmacOrigen, 2),
      ColumnOr(cols, LowerContains("destino"), 3), ColumnOr(cols, HasPart("Fecha"), 5),
      ColumnOr(cols, HasPart("Cantidad"), 6), ColumnOr(cols, HasPart("Departamento"), 7),
      ColumnOr(cols, HasPart("Producto"), 8),
      if costo >= |cols| then |cols| - 1 else costo)
  }

  /** Each logical column is the first header containing its text, else its
      fixed position; Costo is also clamped to the last column. */
  lemma ResolveGoldColumnsSpec(cols: seq<string>)
    requires |cols| > 0
    ensures Resolved(cols, HasPart("Orden"), 1, ResolveGoldColumns(cols).orden)
    ensures Resolved(cols, AlmacOrigen, 2, ResolveGoldColumns(cols).origen)
    ensures Resolved(cols, LowerContains("destino"), 3, ResolveGoldColumns(cols).destino)
    ensures Resolved(cols, HasPart("Fecha"), 5, ResolveGoldColumns(cols).fecha)
    ensures Resolved(cols, HasPart("Cantidad"), 6, ResolveGoldColumns(cols).cantidad)
    ensures Resolved(cols, HasPart("Departamento"), 7, ResolveGoldColumns(cols).depto)
    ensures Resolved(cols, HasPart("Producto"), 8, ResolveGoldColumns(cols).producto)
    ensures ResolveGoldColumns(cols).costo == |cols| - 1
            || Resolved(cols, HasPart("Costo"), 10, ResolveGoldColumns(cols).costo)
  {
    ColumnOrResolved(cols, HasPart("Orden"), 1);
    ColumnOrResolved(cols, AlmacOrigen, 2);
    ColumnOrResolved(cols, LowerContains("destino"), 3);
    ColumnOrResolved(cols, HasPart("Fecha"), 5);
    ColumnOrResolved(cols, HasPart("Cantidad"), 6);
    ColumnOrResolved(cols, HasPart("Departamento"), 7);
    ColumnOrResolved(cols, HasPart("Producto"), 8);
    ColumnOrResolved(cols, HasPart("Costo"), 10);
  }

  /** Every position read without clamping lies inside the sheet; otherwise
      `iloc` raises. The destination cell is read only when the sheet has no
      branch of its own. */
  predicate InRange(c: GoldColumns, sucursal: string, width: nat) {
    c.orden < width && c.origen < width && (sucursal == "" ==> c.destino < width) && c.fecha < width
    && c.cantidad < width && c.depto < width && c.producto < width && c.costo < width
  }

  /** A kept row of a reference sheet. The unit cost is missing when the
      quantity is zero. */
  datatype GoldRow = GoldRow(
    orden: string, origen: string, destino: string, fecha: Option<int>,
    cantidad: real, depto: string, producto: string, costo: real,
    unitCost: Option<real>, sheet: string)

  /** One data row read through the resolved columns; `None` when the row is
      dropped (short product name, missing cost or quantity). The origin is
      stripped and upper-cased; the destination is the sheet's branch, or the
      stripped cell when there is none. */
  function ReadRow(row: seq<Cell>, c: GoldColumns, sucursal: string, sheet: string): (r: Option<GoldRow>)
    requires InRange(c, sucursal, |row|)
    ensures r.Some? <==> |Strip(CellStr(row[c.producto]))| > 2
                         && ToNumber(row[c.costo]).Some? && ToNumber(row[c.cantidad]).Some?
  {
    var producto := Strip(CellStr(row[c.producto]));
    var costo := ToNumber(row[c.costo]);
    var cantidad := ToNumber(row[c.cantidad]);
    if |producto| > 2 && costo.Some? && cantidad.Some? then
      Some(GoldRow(
        CellStr(row[c.orden]),
        Upper(Strip(CellStr(row[c.origen]))),
        if sucursal != "" then sucursal else Strip(CellStr(row[c.destino])),
        ToInstant(row[c.fecha]),
        cantidad.value,
        CellStr(row[c.depto]),
        producto,
        costo.value,
        if cantidad.value == 0.0 then None else Some(costo.value / cantidad.value),
        sheet))
    else None
  }

  /** The kept rows among `rows`, in order. */
  function ReadRows(rows: Sheet, c: GoldColumns, sucursal: string, sheet: string): (r: seq<GoldRow>)
    requires forall row :: row in rows ==> InRange(c, sucursal, |row|)
    ensures |r| <= |rows|
    ensures forall x :: x in r ==> |x.producto| > 2 && x.sheet == sheet
    ensures sucursal != "" ==> forall x :: x in r ==> x.destino == sucursal
    decreases |rows|
  {
    if rows == [] then []
    else
      var rest := ReadRows(rows[1..], c, sucursal, sheet);
      match ReadRow(rows[0], c, sucursal, sheet)
      case Some(x) => [x] + rest
      case None => rest
  }

  function HeaderNames(row: seq<Cell>): (r: seq<string>)
    ensures |r| == |row|
  {
    seq(|row|, i requires 0 <= i < |row| => CellStr(row[i]))
  }

  /** `parse_sheet`: nothing without a header row; a failure when a fallback
      position lies outside the sheet; else the kept rows below the header. */
  function ParseSheet(s: Sheet, sucursal: string, sheet: string): (r: Result<seq<GoldRow>, string>)
    requires Rectangular(s)
    ensures HeaderRow(s) < 0 ==> r == Success([])
    ensures r.Success? ==> forall x :: x in r.value ==> |x.producto| > 2 && x.sheet == sheet
    ensures r.Success? && sucursal != "" ==> forall x :: x in r.value ==> x.destino == sucursal
  {
    var h := HeaderRow(s);
    if h < 0 then Success([])
    else
      var cols := HeaderNames(s[h]);
      HeaderNotEmpty(s[h]);
      var c := ResolveGoldColumns(cols);
      if !InRange(c, sucursal, |cols|) then Failure("IndexError")
      else
        BelowHeader(s, h, c, sucursal);
        Success(ReadRows(s[h + 1..], c, sucursal, sheet))
  }

  lemma HeaderNotEmpty(row: seq<Cell>)
    requires HasOrden(row)
    ensures |HeaderNames(row)| > 0
  {
  }

  lemma BelowHeader(s: Sheet, h: nat, c: GoldColumns, sucursal: string)
    requires Rectangular(s) && h < |s| && InRange(c, sucursal, |s[h]|)
    ensures forall row :: row in s[h + 1..] ==> InRange(c, sucursal, |row|)
  {
  }

  // ---------------------------------------------------------------------------
  // parse_gold_excel

  /** `SHEET_TO_SUCURSAL`. */
  const SheetToSucursal: map<string, string> := map[
    "KAVIA" := "Panem - Hotel Kavia N", "PV" := "Panem - Punto Valle",
    "QIN" := "Panem - Plaza QIN N", "Q" := "Panem - Plaza QIN N",
    "HZ" := "Panem - Hospital Zambrano N", "CARRETA" := "Panem - La Carreta N",
    "C" := "Panem - La Carreta N", "NATIVA" := "Panem - Plaza Nativa",
    "N" := "Panem - Plaza Nativa", "CC" := "Panem - Credi Club"]

  /** Sheets that are read: not "NUMEROS", not a "-PT-W" (before correction)
      sheet, and with a hyphen in the name. */
  predicate ReadSheet(name: string) {
    name != "NUMEROS" && !Contains(name, "-PT-W") && '-' in name
  }

  /** The branch of a sheet: its first `-` token, mapped, else prefixed. */
  function SucursalOf(name: string, mapping: map<string, string>): (r: string)
    ensures FirstToken(name, '-') in mapping ==> r == mapping[FirstToken(name, '-')]
    ensures FirstToken(name, '-') !in mapping ==> r == "Panem - " + FirstToken(name, '-')
  {
    var branch := FirstToken(name, '-');
    if branch in mapping then mapping[branch] else "Panem - " + branch
  }

  predicate AgOrigin(r: GoldRow) { Contains(r.origen, "ALMACEN GENERAL") }
  predicate PtOrigin(r: GoldRow) { Contains(r.origen, "ALMACEN PRODUCTO TERMINADO") }

  /** What one sheet adds to (all rows, AG rows): an "-AG" sheet its AG rows
      to both, a "-PT-R" sheet its PT rows to the first, any other nothing. */
  function SheetPart(name: string, s: Sheet, mapping: map<string, string>): (r: Result<(seq<GoldRow>, seq<GoldRow>), string>)
    requires Rectangular(s)
    ensures r.Success? ==> r.value.1 == [] || r.value.0 == r.value.1
    ensures r.Success? ==> forall x :: x in r.value.1 ==> AgOrigin(x)
    ensures r.Success? ==> forall x :: x in r.value.0 ==> AgOrigin(x) || PtOrigin(x)
    ensures !ReadSheet(name) ==> r == Success(([], []))
  {
    if !ReadSheet(name) then Success(([], []))
    else
      match ParseSheet(s, SucursalOf(name, mapping), name)
      case Failure(e) => Failure(e)
      case Success(rows) =>
        if Contains(name, "-AG") then
          var ag := Filter(rows, AgOrigin);
          Success((ag, ag))
        else if Contains(name, "-PT-R") then
          Success((Filter(rows, PtOrigin), []))
        else Success(([], []))
  }

  /** The rows of every sheet, in sheet order, before the date window; the
      first sheet that fails to parse fails the workbook. */
  function GoldParts(sheets: seq<(string, Sheet)>, mapping: map<string, string>): (r: Result<(seq<GoldRow>, seq<GoldRow>), string>)
    requires AllRectangular(sheets)
    ensures r.Success? ==> forall x :: x in r.value.1 ==> x in r.value.0 && AgOrigin(x)
    ensures r.Success? ==> forall x :: x in r.value.0 ==> AgOrigin(x) || PtOrigin(x)
    decreases |sheets|
  {
    if sheets == [] then Success(([], []))
    else
      match SheetPart(sheets[0].0, sheets[0].1, mapping)
      case Failure(e) => Failure(e)
      case Success(part) =>
        match GoldParts(sheets[1..], mapping)
        case Failure(e) => Failure(e)
        case Success(rest) => Success((part.0 + rest.0, part.1 + rest.1))
  }

  /** The reference week: midnight of 2026-02-02 to midnight of 2026-02-08
      (a string bound compared with a timestamp is read as midnight, so later
      times on the 8th fall outside). */
  const GoldStart: int := WeekFeb8.monday * SecondsPerDay
  const GoldEnd: int := WeekFeb8.sunday * SecondsPerDay

  lemma GoldWindowDates()
    ensures GoldStart == ToOrdinal(Civil(2026, 2, 2)) * SecondsPerDay
    ensures GoldEnd == ToOrdinal(Civil(2026, 2, 8)) * SecondsPerDay
  {
    DaysBeforeYearClosed(2026);
  }

  /** A missing date compares false and is dropped. */
  predicate InGoldWindow(r: GoldRow) {
    r.fecha.Some? && GoldStart <= r.fecha.value <= GoldEnd
  }

  /** The date window applied to both outputs; an empty AG side stays empty. */
  function Windowed(parts: (seq<GoldRow>, seq<GoldRow>)): (r: (seq<GoldRow>, seq<GoldRow>))
    requires forall x :: x in parts.1 ==> x in parts.0
    ensures parts.0 == [] ==> r == ([], [])
    ensures forall x :: x in r.0 ==> x in parts.0 && InGoldWindow(x)
    ensures forall x :: x in r.1 ==> x in parts.1 && InGoldWindow(x)
    ensures forall x :: x in parts.0 && InGoldWindow(x) ==> x in r.0
    ensures forall x :: x in parts.1 && InGoldWindow(x) ==> x in r.1
  {
    if parts.0 == [] then ([], [])
    else
      (Filter(parts.0, InGoldWindow), Filter(parts.1, InGoldWindow))
  }

  /** `parse_gold_excel`: (all reference rows, AG reference rows). */
  function GoldWorkbook(sheets: seq<(string, Sheet)>, mapping: map<string, string>): (r: Result<(seq<GoldRow>, seq<GoldRow>), string>)
    requires AllRectangular(sheets)
  {
    match GoldParts(sheets, mapping)
    case Failure(e) => Failure(e)
    case Success(parts) => Success(Windowed(parts))
  }

  /** The AG rows are among all rows, both lie in the reference week, and all
      rows come from AG or PT origins. */
  lemma GoldWorkbookShape(sheets: seq<(string, Sheet)>, mapping: map<string, string>)
    requires AllRectangular(sheets)
    requires GoldWorkbook(sheets, mapping).Success?
    ensures forall x :: x in GoldWorkbook(sheets, mapping).value.1 ==> x in GoldWorkbook(sheets, mapping).value.0
    ensures forall x :: x in GoldWorkbook(sheets, mapping).value.0 ==> InGoldWindow(x) && (AgOrigin(x) || PtOrigin(x))
    ensures forall x :: x in GoldWorkbook(sheets, mapping).value.1 ==> AgOrigin(x)
  {
  }

  /** The window step as written: with rows but no AG sheet rows, the empty
      AG frame has no "Fecha" column and indexing it raises. */
  function WindowedAsWritten(parts: (seq<GoldRow>, seq<GoldRow>)): Result<(seq<GoldRow>, seq<GoldRow>), string> {
    if parts.0 == [] then Success(([], []))
    else if parts.1 == [] then Failure("KeyError: 'Fecha'")
    else Success((Filter(parts.0, InGoldWindow), Filter(parts.1, InGoldWindow)))
  }

  /** A workbook whose only rows come from "-PT-R" sheets fails as written,
      while the corrected step returns its PT rows and an empty AG side; with
      AG rows present the two agree. */
  lemma WindowedAsWrittenFailsWithoutAg(parts: (seq<GoldRow>, seq<GoldRow>))
    requires forall x :: x in parts.1 ==> x in parts.0
    ensures parts.0 != [] && parts.1 == [] ==> WindowedAsWritten(parts).Failure? && Windowed(parts).1 == []
    ensures parts.0 == [] || parts.1 != [] ==> WindowedAsWritten(parts) == Success(Windowed(parts))
  {
  }

  /** `parse_gold_excel` sheet by sheet: the branch, the parse, the origin
      filter and the append; the date window at the end. */
  method ParseGoldExcel(sheets: seq<(string, Sheet)>, mapping: map<string, string>)
    returns (r: Result<(seq<GoldRow>, seq<GoldRow>), string>)
    requires AllRectangular(sheets)
    ensures r == GoldWorkbook(sheets, mapping)
  {
    var all: seq<GoldRow> := [];
    var ag: seq<GoldRow> := [];
    var i := 0;
    PrependEmpty(GoldParts(sheets, mapping));
    assert sheets[0..] == sheets;
    while i < |sheets|
      invariant 0 <= i <= |sheets|
      invariant GoldParts(sheets, mapping) == Prepend((all, ag), GoldParts(sheets[i..], mapping))
    {
      assert sheets[i..][1..] == sheets[i + 1..];
      var part := SheetPart(sheets[i].0, sheets[i].1, mapping);
      if part.Failure? {
        return Failure(part.error);
      }
      PrependAssoc((all, ag), part.value, GoldParts(sheets[i + 1..], mapping));
      all := all + part.value.0;
      ag := ag + part.value.1;
      i := i + 1;
    }
    assert sheets[i..] == [];
    assert all + [] == all && ag + [] == ag;
    return Success(Windowed((all, ag)));
  }

  function Prepend(acc: (seq<GoldRow>, seq<GoldRow>), r: Result<(seq<GoldRow>, seq<GoldRow>), string>): Result<(seq<GoldRow>, seq<GoldRow>), string> {
    match r
    case Failure(e) => Failure(e)
    case Success(v) => Success((acc.0 + v.0, acc.1 + v.1))
  }

  lemma PrependEmpty(r: Result<(seq<GoldRow>, seq<GoldRow>), string>)
    ensures Prepend(([], []), r) == r
  {
    if r.Success? {
      assert [] + r.value.0 == r.value.0 && [] + r.value.1 == r.value.1;
    }
  }

  lemma PrependAssoc(acc: (seq<GoldRow>, seq<GoldRow>), part: (seq<GoldRow>, seq<GoldRow>), r: Result<(seq<GoldRow>, seq<GoldRow>), string>)
    ensures Prepend(acc, Prepend(part, r)) == Prepend((acc.0 + part.0, acc.1 + part.1), r)
  {
    if r.Success? {
      assert acc.0 + (part.0 + r.value.0) == (acc.0 + part.0) + r.value.0;
      assert acc.1 + (part.1 + r.value.1) == (acc.1 + part.1) + r.value.1;
    }
  }

  // ---------------------------------------------------------------------------
  // build_gold_lookup and match_and_compare

  function GoldKey(r: GoldRow): (string, string) { (Strip(r.orden), Strip(r.producto)) }

  /** No later row has the same key. */
  predicate LastOfKey(rows: seq<GoldRow>, i: int)
    requires 0 <= i < |rows|
  {
    forall j :: i < j < |rows| ==> GoldKey(rows[j]) != GoldKey(rows[i])
  }

  /** `build_gold_lookup`: (stripped Orden, stripped Producto) to
      (UnitCost, Costo); a later row overwrites an earlier one. */
  method BuildGoldLookup(rows: seq<GoldRow>) returns (lookup: map<(string, string), (Option<real>, real)>)
    ensures forall k :: k in lookup <==> exists i :: 0 <= i < |rows| && GoldKey(rows[i]) == k
    ensures forall i :: 0 <= i < |rows| && LastOfKey(rows, i) ==> lookup[GoldKey(rows[i])] == (rows[i].unitCost, rows[i].costo)
  {
    lookup := map[];
    var n := 0;
    while n < |rows|
      invariant 0 <= n <= |rows|
      invariant forall k :: k in lookup <==> exists i :: 0 <= i < n && GoldKey(rows[i]) == k
      invariant forall i :: 0 <= i < n && (forall j :: i < j < n ==> GoldKey(rows[j]) != GoldKey(rows[i]))
                  ==> GoldKey(rows[i]) in lookup && lookup[GoldKey(rows[i])] == (rows[i].unitCost, rows[i].costo)
    {
      lookup := lookup[GoldKey(rows[n]) := (rows[n].unitCost, rows[n].costo)];
      n := n + 1;
    }
  }

  /** One row of the comparison report. */
  datatype Comparison = Comparison(
    orden: string, producto: string, destino: string, origen: string,
    oursUnit: real, goldUnit: Option<real>, oursCosto: real, goldCosto: Option<real>,
    diffUnit: Option<real>, diffCosto: Option<real>, matched: bool)

  /** `load_ours`: the origin column stripped and upper-cased. */
  function LoadOurs(t: Transfer): Transfer {
    t.(origen := Upper(Strip(t.origen)))
  }

  /** One of our lines against the lookup: matched exactly when its stripped
      (Orden, Producto) is a key, and then the differences are ours minus
      gold; unmatched lines carry missing gold values. */
  function CompareLine(t: Transfer, lookup: map<(string, string), (Option<real>, real)>): (c: Comparison)
    ensures c.orden == Strip(t.orden) && c.producto == Strip(t.producto)
    ensures c.matched <==> (Strip(t.orden), Strip(t.producto)) in lookup
    ensures c.matched ==> c.goldCosto == Some(lookup[(c.orden, c.producto)].1)
                          && c.diffCosto == Some(t.costo - lookup[(c.orden, c.producto)].1)
    ensures c.matched && c.goldUnit.Some? ==> c.diffUnit == Some(t.unitCost - c.goldUnit.value)
    ensures !c.matched ==> c.goldUnit.None? && c.goldCosto.None? && c.diffUnit.None? && c.diffCosto.None?
  {
    var key := (Strip(t.orden), Strip(t.producto));
    if key in lookup then
      var (gu, gc) := lookup[key];
      Comparison(key.0, key.1, t.destino, t.origen, t.unitCost, gu, t.costo, Some(gc),
                 if gu.Some? then Some(t.unitCost - gu.value) else None, Some(t.costo - gc), true)
    else
      Comparison(key.0, key.1, t.destino, t.origen, t.unitCost, None, t.costo, None, None, None, false)
  }

  /** `match_and_compare`: one report row per line of ours, in order. */
  method MatchAndCompare(ours: seq<Transfer>, lookup: map<(string, string), (Option<real>, real)>)
    returns (report: seq<Comparison>)
    ensures |report| == |ours|
    ensures forall i :: 0 <= i < |ours| ==> report[i] == CompareLine(ours[i], lookup)
  {
    report := [];
    var i := 0;
    while i < |ours|
      invariant 0 <= i <= |ours|
      invariant |report| == i
      invariant forall j :: 0 <= j < i ==> report[j] == CompareLine(ours[j], lookup)
    {
      report := report + [CompareLine(ours[i], lookup)];
      i := i + 1;
    }
  }

  // ---------------------------------------------------------------------------
  // derive_ag_precios

  function ProductoOf(r: GoldRow): string { r.producto }

  /** The unit costs of a group that are present (`median` skips NaN). */
  function PresentUnitCosts(g: seq<GoldRow>): (xs: seq<real>)
    ensures forall x :: x in xs <==> exists i :: 0 <= i < |g| && g[i].unitCost == Some(x)
  {
    if g == [] then []
    else
      var rest := PresentUnitCosts(g[1..]);
      assert forall i :: 1 <= i < |g| ==> g[i] == g[1..][i - 1];
      if g[0].unitCost.Some? then [g[0].unitCost.value] + rest else rest
  }

  function MedianUnitCost(g: seq<GoldRow>): (r: Option<real>)
    ensures r.None? <==> PresentUnitCosts(g) == []
    ensures r.Some? ==> (exists i :: 0 <= i < |PresentUnitCosts(g)| && PresentUnitCosts(g)[i] <= r.value)
    ensures r.Some? ==> (exists j :: 0 <= j < |PresentUnitCosts(g)| && r.value <= PresentUnitCosts(g)[j])
  {
    var xs := PresentUnitCosts(g);
    if xs == [] then None else Some(Median(xs))
  }

  /** The group's price is the median of its present unit costs, as defined
      by order statistics (and so the only such value, by `MedianUnique`). */
  lemma MedianUnitCostIsMedian(g: seq<GoldRow>)
    ensures MedianUnitCost(g).Some? ==> IsMedian(PresentUnitCosts(g), MedianUnitCost(g).value)
  {
    if PresentUnitCosts(g) != [] {
      MedianIsMedian(PresentUnitCosts(g));
    }
  }

  function PricesOver(ag: seq<GoldRow>, ps: seq<string>): (r: seq<PriceEntry>)
    ensures |r| <= |ps|
    ensures forall e :: e in r <==> e.producto in ps && |e.producto| > 2
                                    && e.price == MedianUnitCost(Group(ag, ProductoOf, e.producto))
    decreases |ps|
  {
    if ps == [] then []
    else
      var rest := PricesOver(ag, ps[1..]);
      if |ps[0]| > 2 then [PriceEntry(ps[0], MedianUnitCost(Group(ag, ProductoOf, ps[0])))] + rest
      else rest
  }

  /** A product name `derive_ag_precios` keeps: longer than two characters. */
  predicate LongName(s: string) { |s| > 2 }

  /** The names `PricesOver` lists are those of `ps` it keeps, in the order
      of `ps`. */
  lemma {:induction false} PricesOverNames(ag: seq<GoldRow>, ps: seq<string>)
    ensures Keys(PricesOver(ag, ps), EntryName) == Filter(ps, LongName)
    decreases |ps|
  {
    if ps != [] {
      PricesOverNames(ag, ps[1..]);
      var rest := PricesOver(ag, ps[1..]);
      if LongName(ps[0]) {
        var e := PriceEntry(ps[0], MedianUnitCost(Group(ag, ProductoOf, ps[0])));
        assert PricesOver(ag, ps) == [e] + rest;
        assert Keys([e] + rest, EntryName) == [ps[0]] + Keys(rest, EntryName);
      }
    }
  }

  /** `derive_ag_precios`: per product (sorted, names longer than two
      characters), the median of its present unit costs. */
  function DeriveAgPrecios(ag: seq<GoldRow>): (r: seq<PriceEntry>)
    ensures forall e :: e in r ==> |e.producto| > 2 && (exists i :: 0 <= i < |ag| && ag[i].producto == e.producto)
    ensures forall i :: 0 <= i < |ag| && |ag[i].producto| > 2 ==> exists e :: e in r && e.producto == ag[i].producto
    ensures forall e :: e in r ==> e.price == MedianUnitCost(Group(ag, ProductoOf, e.producto))
    ensures NoDup(Keys(r, EntryName)) && SortedBy(Keys(r, EntryName), StrLe)
  {
    StrLeIsTotalPreorder();
    var ps := GroupKeys(ag, ProductoOf, StrLe);
    var r := PricesOver(ag, ps);
    PricesOverNames(ag, ps);
    FilterNoDup(ps, LongName);
    FilterSorted(ps, LongName, StrLe);
    assert forall i :: 0 <= i < |ag| && |ag[i].producto| > 2
             ==> PriceEntry(ag[i].producto, MedianUnitCost(Group(ag, ProductoOf, ag[i].producto))) in r;
    r
  }

  /** A derived price lies between two of the product's unit costs in the
      reference rows. */
  lemma DerivedPriceWithinObserved(ag: seq<GoldRow>, e: PriceEntry)
    requires e in DeriveAgPrecios(ag) && e.price.Some?
    ensures exists i :: 0 <= i < |ag| && ag[i].producto == e.producto && ag[i].unitCost.Some? && ag[i].unitCost.value <= e.price.value
    ensures exists j :: 0 <= j < |ag| && ag[j].producto == e.producto && ag[j].unitCost.Some? && e.price.value <= ag[j].unitCost.value
  {
    var g := Group(ag, ProductoOf, e.producto);
    assert MedianUnitCost(g) == e.price;
    var a, b := MedianBetweenRows(g);
    GroupMember(ag, ProductoOf, e.producto, g[a]);
    GroupMember(ag, ProductoOf, e.producto, g[b]);
  }

  /** Two rows of the group whose unit costs enclose its median. */
  lemma MedianBetweenRows(g: seq<GoldRow>) returns (a: nat, b: nat)
    requires MedianUnitCost(g).Some?
    ensures a < |g| && g[a].unitCost.Some? && g[a].unitCost.value <= MedianUnitCost(g).value
    ensures b < |g| && g[b].unitCost.Some? && MedianUnitCost(g).value <= g[b].unitCost.value
  {
    var xs := PresentUnitCosts(g);
    var m := MedianUnitCost(g).value;
    var i :| 0 <= i < |xs| && xs[i] <= m;
    var j :| 0 <= j < |xs| && m <= xs[j];
    assert xs[i] in xs && xs[j] in xs;
    a :| 0 <= a < |g| && g[a].unitCost == Some(xs[i]);
    b :| 0 <= b < |g| && g[b].unitCost == Some(xs[j]);
  }
}
