/** The price-correction engine of src/pos_frontend/transfers/weekly_with_prices.py:
    loading the PT price list (PRECIOS) and the AG price list (AG_PRECIOS), and
    re-pricing transfer lines by the warehouse they leave from. */
module Pricing {
  import opened Wrappers
  import opened Text
  import opened Rows
  import opened Cells
  import opened ProductNames

  /** One transfer line as read from the weekly CSVs.  `origen` is the
      "Almacén origen" column, `destino` the "Sucursal destino" column,
      `costo` is "Costo" and `unitCost` is "Costo unitario". */
  datatype Transfer = Transfer(
    orden: string, origen: string, destino: string, producto: string,
    cantidad: real, costo: real, unitCost: real)

  /** A line after `apply_prices`: the updated line with "Costo_before" and
      "Costo_after". */
  datatype Priced = Priced(line: Transfer, before: real, after: real)

  /** One row of a loaded price list: stripped "Producto" and "Precio unitario"
      (missing when the cell is not a number). */
  datatype PriceEntry = PriceEntry(producto: string, price: Option<real>)

  function EntryName(e: PriceEntry): string {
    e.producto
  }

  // ---------------------------------------------------------------- PRECIOS

  /** The name column: "NOMBRE WANSOFT" when present, else "Producto";
      `None` stands for the KeyError when neither exists. */
  function ProductColumn(cols: seq<string>): (r: Option<nat>)
    ensures r.Some? ==> r.value < |cols|
    ensures r.None? <==> "NOMBRE WANSOFT" !in cols && "Producto" !in cols
    ensures r.Some? && "NOMBRE WANSOFT" in cols ==> cols[r.value] == "NOMBRE WANSOFT"
  {
    if "NOMBRE WANSOFT" in cols then ColumnIndex(cols, "NOMBRE WANSOFT") else ColumnIndex(cols, "Producto")
  }

  /** The first column whose stripped, upper-cased name is "UNIDAD". */
  function UnidadColumn(cols: seq<string>): (r: Option<nat>)
    ensures r.Some? ==> r.value < |cols|
  {
    FindColumn(cols, UpperStripped("UNIDAD"))
  }

  /** The first column whose lower-cased name contains "present". */
  function PresentColumn(cols: seq<string>): (r: Option<nat>)
    ensures r.Some? ==> r.value < |cols|
  {
    FindColumn(cols, LowerContains("present"))
  }

  predicate IsPieceUnit(c: Cell) {
    Upper(Strip(CellStr(c))) == "PZ"
  }

  /** The pack-size rule on one row, given whether its UNIDAD reads "PZ": such
      a price with a positive PRESENTACION is divided by it; any other price is
      kept. */
  function PieceDivide(piece: bool, pres: Option<real>, drive: Option<real>): Option<real> {
    if piece && pres.Some? && pres.value > 0.0 && drive.Some? then Some(drive.value / pres.value)
    else drive
  }

  /** Under the pack-size rule a piece price times the pack size is the pack
      price, and every other price passes unchanged. */
  lemma PiecePriceTimesPack(piece: bool, pres: Option<real>, drive: Option<real>)
    ensures piece && pres.Some? && pres.value > 0.0 && drive.Some?
            ==> PieceDivide(piece, pres, drive).Some?
                && PieceDivide(piece, pres, drive).value * pres.value == drive.value
    ensures !(piece && pres.Some? && pres.value > 0.0) ==> PieceDivide(piece, pres, drive) == drive
    ensures drive.None? ==> PieceDivide(piece, pres, drive).None?
  {
    if piece && pres.Some? && pres.value > 0.0 && drive.Some? {
      DivideBack(drive.value, pres.value);
    }
  }

  lemma DivideBack(x: real, y: real)
    requires y > 0.0
    ensures (x / y) * y == x
  {
  }

  /** Where `load_precios` finds its price columns. */
  datatype PriceColumns = PriceColumns(
    unitPrice: Option<nat>, drive: Option<nat>, unidad: Option<nat>, present: Option<nat>, legacy: Option<nat>)

  function ResolvePriceColumns(cols: seq<string>): (pc: PriceColumns)
    ensures FitsWidth(pc, |cols|)
    ensures pc.unitPrice.None? <==> "PRECIO UNITARIO" !in cols
    ensures pc.drive.None? <==> "PRECIO DRIVE" !in cols
  {
    PriceColumns(
      ColumnIndex(cols, "PRECIO UNITARIO"), ColumnIndex(cols, "PRECIO DRIVE"),
      UnidadColumn(cols), PresentColumn(cols), ColumnIndex(cols, "Precio unitario"))
  }

  predicate Fits(c: Option<nat>, width: nat) {
    c.None? || c.value < width
  }

  predicate FitsWidth(pc: PriceColumns, width: nat) {
    Fits(pc.unitPrice, width) && Fits(pc.drive, width) && Fits(pc.unidad, width)
    && Fits(pc.present, width) && Fits(pc.legacy, width)
  }

  /** The "Precio unitario" `load_precios` gives one row: PRECIO UNITARIO when
      that column exists, else PRECIO DRIVE under the pack-size rule (applied
      only when both a UNIDAD and a PRESENTACION column exist), else a
      "Precio unitario" column, else missing. */
  function RowPrice(row: seq<Cell>, pc: PriceColumns): Option<real>
    requires FitsWidth(pc, |row|)
  {
    if pc.unitPrice.Some? then ToNumber(row[pc.unitPrice.value])
    else if pc.drive.Some? then
      if pc.unidad.Some? && pc.present.Some?
      then PieceDivide(IsPieceUnit(row[pc.unidad.value]), ToNumber(row[pc.present.value]), ToNumber(row[pc.drive.value]))
      else ToNumber(row[pc.drive.value])
    else if pc.legacy.Some? then ToNumber(row[pc.legacy.value])
    else None
  }

  /** A price list from a name column and a price column. */
  function Entries(names: seq<string>, prices: seq<Option<real>>): (r: seq<PriceEntry>)
    requires |names| == |prices|
    ensures |r| == |names|
  {
    seq(|names|, i requires 0 <= i < |names| => PriceEntry(names[i], prices[i]))
  }

  /** Every row of the sheet as a price entry, before duplicates are dropped. */
  function SheetEntries(t: Table, name: nat): (r: seq<PriceEntry>)
    requires WellFormed(t) && name < |t.columns|
    ensures |r| == |t.rows|
  {
    Entries(StrippedColumn(t, name), PriceColumn(t, ResolvePriceColumns(t.columns)))
  }

  /** The "Precio unitario" column of `load_precios`, filled step by step:
      PRECIO UNITARIO when present; else PRECIO DRIVE, then divided under the
      "PZ" mask when UNIDAD and PRESENTACION columns exist; else the legacy
      column or missing. */
  method UnitPrices(t: Table, pc: PriceColumns) returns (prices: seq<Option<real>>)
    requires WellFormed(t) && FitsWidth(pc, |t.columns|)
    ensures prices == PriceColumn(t, pc)
  {
    if pc.unitPrice.Some? {
      var col := NumericColumn(t, pc.unitPrice.value);
      prices := col[..];
    } else if pc.drive.Some? {
      var col := NumericColumn(t, pc.drive.value);
      if pc.unidad.Some? && pc.present.Some? {
        DividePieces(t, pc, col);
      }
      prices := col[..];
    } else if pc.legacy.Some? {
      var col := NumericColumn(t, pc.legacy.value);
      prices := col[..];
    } else {
      prices := seq(|t.rows|, k => None);
    }
  }

  /** `pd.to_numeric(df[c], errors="coerce")` as a fresh column. */
  method NumericColumn(t: Table, c: nat) returns (col: array<Option<real>>)
    requires WellFormed(t) && c < |t.columns|
    ensures fresh(col)
    ensures col[..] == NumericValues(t, c)
  {
    ghost var want := NumericValues(t, c);
    col := new Option<real>[|t.rows|];
    for i := 0 to |t.rows|
      invariant col[..i] == want[..i]
    {
      col[i] := ToNumber(t.rows[i][c]);
      assert col[..i + 1] == col[..i] + [col[i]];
    }
  }

  /** The masked division of `load_precios`: rows whose UNIDAD reads "PZ",
      whose PRESENTACION is a positive number and whose price is present get
      price / PRESENTACION; the rest are left as they are. */
  method DividePieces(t: Table, pc: PriceColumns, col: array<Option<real>>)
    requires WellFormed(t) && FitsWidth(pc, |t.columns|)
    requires pc.unitPrice.None? && pc.drive.Some? && pc.unidad.Some? && pc.present.Some?
    requires col[..] == NumericValues(t, pc.drive.value)
    modifies col
    ensures col[..] == PriceColumn(t, pc)
  {
    ghost var drives := col[..];
    ghost var want := PriceColumn(t, pc);
    for i := 0 to |t.rows|
      invariant col[..i] == want[..i]
      invariant col[i..] == drives[i..]
    {
      var piece := IsPieceUnit(t.rows[i][pc.unidad.value]);
      var pres := ToNumber(t.rows[i][pc.present.value]);
      assert col[i] == drives[i];
      ghost var drive := col[i];
      if piece && pres.Some? && pres.value > 0.0 && col[i].Some? {
        col[i] := Some(col[i].value / pres.value);
      }
      assert col[i] == PieceDivide(piece, pres, drive);
      PieceRowPrice(t.rows[i], pc);
      assert col[..i + 1] == col[..i] + [col[i]];
      assert col[i + 1..] == drives[i + 1..];
    }
  }

  /** The unit-price column as `load_precios` leaves it, row by row. */
  function PriceColumn(t: Table, pc: PriceColumns): (r: seq<Option<real>>)
    requires WellFormed(t) && FitsWidth(pc, |t.columns|)
    ensures |r| == |t.rows|
  {
    seq(|t.rows|, k requires 0 <= k < |t.rows| => RowPrice(t.rows[k], pc))
  }

  lemma PieceRowPrice(row: seq<Cell>, pc: PriceColumns)
    requires FitsWidth(pc, |row|)
    requires pc.unitPrice.None? && pc.drive.Some? && pc.unidad.Some? && pc.present.Some?
    ensures RowPrice(row, pc)
         == PieceDivide(IsPieceUnit(row[pc.unidad.value]), ToNumber(row[pc.present.value]), ToNumber(row[pc.drive.value]))
  {
  }

  /** `load_precios`: the name column (a KeyError without one), the unit
      prices, then the first row per stripped name. */
  method LoadPrecios(t: Table) returns (r: Result<seq<PriceEntry>, string>)
    requires WellFormed(t)
    ensures ProductColumn(t.columns).None? <==> r.Failure?
    ensures r.Success? ==> r.value == DedupeFirst(SheetEntries(t, ProductColumn(t.columns).value), EntryName)
  {
    var name := ProductColumn(t.columns);
    if name.None? {
      return Failure("Producto");
    }
    var prices := UnitPrices(t, ResolvePriceColumns(t.columns));
    r := Success(DedupeFirst(Entries(StrippedColumn(t, name.value), prices), EntryName));
  }

  // ------------------------------------------------------------- AG_PRECIOS

  /** `load_ag_precios`: no list when the path is empty, the file does not
      exist, or a required column is missing; else the first row per name. */
  function LoadAgPrecios(path: string, fileExists: bool, t: Table): (r: Option<seq<PriceEntry>>)
    requires WellFormed(t)
    ensures r.None? <==> path == "" || !fileExists || "Producto" !in t.columns || "Precio unitario" !in t.columns
    ensures r.Some? ==> DedupedKeys(r.value, EntryName) && |r.value| <= |t.rows|
    ensures r.Some? ==> forall e :: e in r.value ==> FromRow(t, ColumnIndex(t.columns, "Producto").value,
                                                            ColumnIndex(t.columns, "Precio unitario").value, e)
  {
    if path == "" || !fileExists then None
    else
      match (ColumnIndex(t.columns, "Producto"), ColumnIndex(t.columns, "Precio unitario"))
      case (Some(pc), Some(vc)) =>
        var entries := Entries(StrippedColumn(t, pc), NumericValues(t, vc));
        DedupeFirstDistinct(entries, EntryName);
        DedupedFromRows(t, pc, vc);
        Some(DedupeFirst(entries, EntryName))
      case _ => None
  }

  /** The first-seen row of every name in the sheet is kept. */
  lemma LoadAgPreciosKeepsFirsts(path: string, fileExists: bool, t: Table, pc: nat, vc: nat, i: nat)
    requires WellFormed(t) && LoadAgPrecios(path, fileExists, t).Some?
    requires ColumnIndex(t.columns, "Producto") == Some(pc) && ColumnIndex(t.columns, "Precio unitario") == Some(vc)
    requires i < |t.rows| && IsFirstOfKey(Entries(StrippedColumn(t, pc), NumericValues(t, vc)), EntryName, i)
    ensures Entries(StrippedColumn(t, pc), NumericValues(t, vc))[i] in LoadAgPrecios(path, fileExists, t).value
  {
    DedupeFirstKeepsFirsts(Entries(StrippedColumn(t, pc), NumericValues(t, vc)), EntryName);
  }

  // ------------------------------------------------------ legacy PRECIOS loader

  /** The name and price columns of the legacy `load_precios`: NOMBRE WANSOFT
      and PRECIO DRIVE are renamed only when both exist; otherwise the sheet
      must already have "Producto" and "Precio unitario". */
  function LegacyPriceColumns(cols: seq<string>): (r: Option<(nat, nat)>)
    ensures r.None? <==> !("NOMBRE WANSOFT" in cols && "PRECIO DRIVE" in cols)
                         && !("Producto" in cols && "Precio unitario" in cols)
    ensures r.Some? ==> r.value.0 < |cols| && r.value.1 < |cols|
  {
    match (ColumnIndex(cols, "NOMBRE WANSOFT"), ColumnIndex(cols, "PRECIO DRIVE"))
    case (Some(n), Some(p)) => Some((n, p))
    case _ =>
      match (ColumnIndex(cols, "Producto"), ColumnIndex(cols, "Precio unitario"))
      case (Some(n), Some(p)) => Some((n, p))
      case _ => None
  }

  /** Row `k` read as a price entry: the stripped name and the numeric price
      of the row, taken as it stands (no division by a pack size). */
  function RowEntry(t: Table, n: nat, p: nat, k: nat): PriceEntry
    requires WellFormed(t) && n < |t.columns| && p < |t.columns| && k < |t.rows|
  {
    PriceEntry(Strip(CellStr(t.rows[k][n])), ToNumber(t.rows[k][p]))
  }

  /** `e` is the entry of some row of the sheet. */
  ghost predicate FromRow(t: Table, n: nat, p: nat, e: PriceEntry)
    requires WellFormed(t) && n < |t.columns| && p < |t.columns|
  {
    exists k :: 0 <= k < |t.rows| && e == RowEntry(t, n, p, k)
  }

  /** Every entry kept after de-duplication is the entry of a row. */
  lemma DedupedFromRows(t: Table, n: nat, p: nat)
    requires WellFormed(t) && n < |t.columns| && p < |t.columns|
    ensures |DedupeFirst(Entries(StrippedColumn(t, n), NumericValues(t, p)), EntryName)| <= |t.rows|
    ensures forall e :: e in DedupeFirst(Entries(StrippedColumn(t, n), NumericValues(t, p)), EntryName) ==> FromRow(t, n, p, e)
  {
    var entries := Entries(StrippedColumn(t, n), NumericValues(t, p));
    forall e | e in DedupeFirst(entries, EntryName) ensures FromRow(t, n, p, e) {
      var k :| 0 <= k < |entries| && entries[k] == e;
      assert e == RowEntry(t, n, p, k);
    }
  }

  /** The legacy `load_precios`: a missing column is a KeyError; else the
      stripped names, the numeric prices, and the first row per name. */
  function LegacyLoadPrecios(t: Table): (r: Result<seq<PriceEntry>, string>)
    requires WellFormed(t)
    ensures r.Failure? <==> LegacyPriceColumns(t.columns).None?
    ensures r.Success? ==> DedupedKeys(r.value, EntryName) && |r.value| <= |t.rows|
    ensures r.Success? ==> forall e :: e in r.value ==> FromRow(t, LegacyPriceColumns(t.columns).value.0,
                                                               LegacyPriceColumns(t.columns).value.1, e)
  {
    match LegacyPriceColumns(t.columns)
    case None => Failure("Producto")
    case Some((n, p)) =>
      var entries := Entries(StrippedColumn(t, n), NumericValues(t, p));
      DedupedFromRows(t, n, p);
      DedupeFirstDistinct(entries, EntryName);
      Success(DedupeFirst(entries, EntryName))
  }

  /** The first row of every name in the sheet is kept, with its own price. */
  lemma LegacyLoadPreciosKeepsFirsts(t: Table, n: nat, p: nat, i: nat)
    requires WellFormed(t) && LegacyPriceColumns(t.columns) == Some((n, p)) && i < |t.rows|
    requires forall k :: 0 <= k < i ==> Strip(CellStr(t.rows[k][n])) != Strip(CellStr(t.rows[i][n]))
    ensures LegacyLoadPrecios(t).Success? && RowEntry(t, n, p, i) in LegacyLoadPrecios(t).value
  {
    var entries := Entries(StrippedColumn(t, n), NumericValues(t, p));
    assert IsFirstOfKey(entries, EntryName, i);
    KeptAt(entries, EntryName, i, RowEntry(t, n, p, i));
  }

  // ----------------------------------------------------------- apply_prices

  /** One row of a normalised price list: `_Producto_norm` and "Precio unitario". */
  datatype KeyedPrice = KeyedPrice(key: string, price: Option<real>)

  /** A price list with its `_Producto_norm` column. */
  function Normalised(entries: seq<PriceEntry>): (r: seq<KeyedPrice>)
    ensures |r| == |entries|
  {
    seq(|entries|, i requires 0 <= i < |entries| => KeyedPrice(MatchKey(entries[i].producto), entries[i].price))
  }

  /** The position of the first row whose key is `key`. */
  function FindKey(list: seq<KeyedPrice>, key: string): (r: Option<nat>)
    ensures r.Some? ==> r.value < |list| && list[r.value].key == key
    ensures r.Some? ==> forall j :: 0 <= j < r.value ==> list[j].key != key
    ensures r.None? <==> forall j :: 0 <= j < |list| ==> list[j].key != key
  {
    if list == [] then None
    else if list[0].key == key then Some(0)
    else
      match FindKey(list[1..], key)
      case None => None
      case Some(k) => Some(k + 1)
  }

  /** The price of the first row with key `key`; missing when there is none. */
  function Lookup(list: seq<KeyedPrice>, key: string): Option<real> {
    match FindKey(list, key)
    case Some(j) => list[j].price
    case None => None
  }

  /** `_Precio_PT`: the PRECIOS price of a product, by its lookup key. */
  function PtPrice(producto: string, precios: seq<PriceEntry>): Option<real> {
    Lookup(Normalised(precios), LookupKey(producto))
  }

  /** `_Precio_AG`: the AG_PRECIOS price of a product; always missing without
      that list. */
  function AgPrice(producto: string, ag: Option<seq<PriceEntry>>): Option<real> {
    match ag
    case None => None
    case Some(entries) => Lookup(Normalised(entries), LookupKey(producto))
  }

  /** `_Almacen_origen`: the stripped, upper-cased origin warehouse. */
  function Origin(origen: string): string {
    Upper(Strip(origen))
  }

  predicate IsPtOrigin(origen: string) {
    Contains(Origin(origen), "PRODUCTO TERMINADO")
  }

  predicate IsAgOrigin(origen: string) {
    Contains(Origin(origen), "ALMACEN GENERAL")
  }

  /** The unit cost a line ends with, given the PT and AG prices found for it:
      the AG price on an ALMACEN GENERAL origin, else the PT price on a
      PRODUCTO TERMINADO origin, else the original unit cost. */
  function NewUnitCost(line: Transfer, pt: Option<real>, ag: Option<real>): real {
    if IsAgOrigin(line.origen) && ag.Some? then ag.value
    else if IsPtOrigin(line.origen) && pt.Some? then pt.value
    else line.unitCost
  }

  /** A line given unit cost `unit`: the old cost is kept as "Costo_before"
      and "Costo" and "Costo_after" become quantity times the new unit cost. */
  function Recosted(line: Transfer, unit: real): (p: Priced)
    ensures p.before == line.costo
    ensures p.line.unitCost == unit
    ensures p.line.costo == p.after == line.cantidad * unit
    ensures p.line == line.(unitCost := unit, costo := p.after)
  {
    Priced(line.(unitCost := unit, costo := line.cantidad * unit), line.costo, line.cantidad * unit)
  }

  /** A line re-priced with the given PT and AG prices. */
  function RepricedWith(line: Transfer, pt: Option<real>, ag: Option<real>): Priced {
    Recosted(line, NewUnitCost(line, pt, ag))
  }

  /** One line through `apply_prices`. */
  function Repriced(line: Transfer, precios: seq<PriceEntry>, ag: Option<seq<PriceEntry>>): Priced {
    RepricedWith(line, PtPrice(line.producto, precios), AgPrice(line.producto, ag))
  }

  function RepriceAll(df: seq<Transfer>, precios: seq<PriceEntry>, ag: Option<seq<PriceEntry>>): (r: seq<Priced>)
    ensures |r| == |df|
  {
    seq(|df|, i requires 0 <= i < |df| => Repriced(df[i], precios, ag))
  }

  /** `apply_prices`: looks up both prices for every line, saves the cost,
      overwrites the unit cost under the PT mask and then under the AG mask,
      and recomputes every cost from quantity and unit cost. */
  method ApplyPrices(df: seq<Transfer>, precios: seq<PriceEntry>, ag: Option<seq<PriceEntry>>)
    returns (out: seq<Priced>)
    ensures out == RepriceAll(df, precios, ag)
  {
    var n := |df|;
    var ptPrice := new Option<real>[n](i requires 0 <= i < n => PtPrice(df[i].producto, precios));
    var agPrice := new Option<real>[n](i requires 0 <= i < n => AgPrice(df[i].producto, ag));
    var isPt := new bool[n](i requires 0 <= i < n => IsPtOrigin(df[i].origen));
    var isAg := new bool[n](i requires 0 <= i < n => IsAgOrigin(df[i].origen));
    var unit := new real[n](i requires 0 <= i < n => df[i].unitCost);
    PtMask(df, unit, isPt, ptPrice);
    AgMask(df, unit, isPt, ptPrice, isAg, agPrice);
    out := seq(n, i requires 0 <= i < n reads unit => Recosted(df[i], unit[i]));
    forall i | 0 <= i < n ensures out[i] == Repriced(df[i], precios, ag) {
      assert ptPrice[i] == PtPrice(df[i].producto, precios) && agPrice[i] == AgPrice(df[i].producto, ag);
      MaskedIsNewUnitCost(df[i], ptPrice[i], agPrice[i], isPt[i], isAg[i], unit[i]);
      assert out[i] == Recosted(df[i], unit[i]);
    }
  }

  /** The unit cost left by the two masks is the line's new unit cost. */
  lemma MaskedIsNewUnitCost(line: Transfer, pt: Option<real>, ag: Option<real>, isPt: bool, isAg: bool, u: real)
    requires isPt == IsPtOrigin(line.origen) && isAg == IsAgOrigin(line.origen)
    requires u == if isAg && ag.Some? then ag.value else AfterPt(isPt, pt, line.unitCost)
    ensures u == NewUnitCost(line, pt, ag)
    ensures Recosted(line, u) == RepricedWith(line, pt, ag)
  {
  }

  /** The unit cost after the PT overwrite. */
  function AfterPt(isPt: bool, pt: Option<real>, orig: real): real {
    if isPt && pt.Some? then pt.value else orig
  }

  /** `merged.loc[pt_matched, "Costo unitario"] = merged.loc[pt_matched, "_Precio_PT"]`. */
  method PtMask(df: seq<Transfer>, unit: array<real>, isPt: array<bool>, ptPrice: array<Option<real>>)
    requires unit.Length == isPt.Length == ptPrice.Length == |df|
    requires unit != isPt as object && unit != ptPrice as object
    requires forall k :: 0 <= k < |df| ==> unit[k] == df[k].unitCost
    modifies unit
    ensures forall k :: 0 <= k < |df| ==> unit[k] == AfterPt(isPt[k], ptPrice[k], df[k].unitCost)
  {
    for i := 0 to |df|
      invariant forall k :: 0 <= k < i ==> unit[k] == AfterPt(isPt[k], ptPrice[k], df[k].unitCost)
      invariant forall k :: i <= k < |df| ==> unit[k] == df[k].unitCost
    {
      if isPt[i] && ptPrice[i].Some? {
        unit[i] := ptPrice[i].value;
      }
    }
  }

  /** `merged.loc[ag_matched, "Costo unitario"] = merged.loc[ag_matched, "_Precio_AG"]`. */
  method AgMask(df: seq<Transfer>, unit: array<real>, isPt: array<bool>, ptPrice: array<Option<real>>,
                isAg: array<bool>, agPrice: array<Option<real>>)
    requires unit.Length == isPt.Length == ptPrice.Length == isAg.Length == agPrice.Length == |df|
    requires unit != isPt as object && unit != ptPrice as object && unit != isAg as object && unit != agPrice as object
    requires forall k :: 0 <= k < |df| ==> unit[k] == AfterPt(isPt[k], ptPrice[k], df[k].unitCost)
    modifies unit
    ensures forall k :: 0 <= k < |df| ==>
      unit[k] == if isAg[k] && agPrice[k].Some? then agPrice[k].value else AfterPt(isPt[k], ptPrice[k], df[k].unitCost)
  {
    for i := 0 to |df|
      invariant forall k :: 0 <= k < i ==>
        unit[k] == if isAg[k] && agPrice[k].Some? then agPrice[k].value else AfterPt(isPt[k], ptPrice[k], df[k].unitCost)
      invariant forall k :: i <= k < |df| ==> unit[k] == AfterPt(isPt[k], ptPrice[k], df[k].unitCost)
    {
      if isAg[i] && agPrice[i].Some? {
        unit[i] := agPrice[i].value;
      }
    }
  }

  /** Running the correction again changes no cost: the second pass finds the
      same prices and the line already carries them. */
  lemma RepricingIsIdempotent(line: Transfer, precios: seq<PriceEntry>, ag: Option<seq<PriceEntry>>)
    ensures var p := Repriced(line, precios, ag);
            var q := Repriced(p.line, precios, ag);
            q.line == p.line && q.before == q.after
  {
    var pt, agp := PtPrice(line.producto, precios), AgPrice(line.producto, ag);
    var p := RepricedWith(line, pt, agp);
    assert p.line.producto == line.producto;
    RepricedWithIdempotent(line, pt, agp);
  }

  /** With the prices fixed, a second pass leaves the line as it is. */
  lemma RepricedWithIdempotent(line: Transfer, pt: Option<real>, ag: Option<real>)
    ensures var p := RepricedWith(line, pt, ag);
            var q := RepricedWith(p.line, pt, ag);
            q.line == p.line && q.before == q.after
  {
    var p := RepricedWith(line, pt, ag);
    assert p.line.origen == line.origen;
    assert NewUnitCost(p.line, pt, ag) == p.line.unitCost;
  }

  /** A line whose normalised name is an alias key is priced as the canonical
      product, whether or not the alias itself has a price. */
  lemma AliasUsesCanonicalPrice(producto: string, precios: seq<PriceEntry>)
    requires MatchKey(producto) in Aliases
    ensures PtPrice(producto, precios) == Lookup(Normalised(precios), Aliases[MatchKey(producto)])
  {
  }

  /** "X*" and "X *" find the same price. */
  lemma StarSpellingsSharePrice(x: string, precios: seq<PriceEntry>)
    ensures PtPrice(x + "*", precios) == PtPrice(x + " *", precios)
  {
    StarSpacingIrrelevant(x);
  }

  // ---------------------------------------- the left merge as written (Findings)

  /** The prices of every row whose key is `key`, in list order. */
  function AllMatches(list: seq<KeyedPrice>, key: string): (r: seq<Option<real>>)
    ensures |r| <= |list|
    ensures |r| == 0 <==> FindKey(list, key).None?
  {
    if list == [] then []
    else
      var rest := AllMatches(list[1..], key);
      if list[0].key == key then [list[0].price] + rest else rest
  }

  /** What a left merge pairs a line with: every matching price, or one
      missing price when nothing matches. */
  function MergeSide(list: seq<KeyedPrice>, key: string): (r: seq<Option<real>>)
    ensures |r| >= 1
  {
    var m := AllMatches(list, key);
    if m == [] then [None] else m
  }

  /** One transfer line through the two left merges of `apply_prices` as
      written: one output line per (PT match, AG match) pair. */
  function MergeLineAsWritten(line: Transfer, precios: seq<PriceEntry>, ag: Option<seq<PriceEntry>>): (r: seq<Priced>)
    ensures |r| >= 1
  {
    var key := LookupKey(line.producto);
    var pts := MergeSide(Normalised(precios), key);
    var ags := if ag.None? then [None] else MergeSide(Normalised(ag.value), key);
    var pairs := CrossJoin(pts, ags);
    seq(|pairs|, k requires 0 <= k < |pairs| => RepricedWith(line, pairs[k].0, pairs[k].1))
  }

  function ApplyPricesAsWritten(df: seq<Transfer>, precios: seq<PriceEntry>, ag: Option<seq<PriceEntry>>): (r: seq<Priced>)
    ensures |r| >= |df|
  {
    if df == [] then [] else MergeLineAsWritten(df[0], precios, ag) + ApplyPricesAsWritten(df[1..], precios, ag)
  }

  /** The loader keeps both "X*" and "X *" (their stripped names differ) ... */
  lemma LoaderKeepsBothSpellings(x: string, p1: Option<real>, p2: Option<real>)
    ensures DedupeFirst([PriceEntry(x + "*", p1), PriceEntry(x + " *", p2)], EntryName)
         == [PriceEntry(x + "*", p1), PriceEntry(x + " *", p2)]
  {
    var e := [PriceEntry(x + "*", p1), PriceEntry(x + " *", p2)];
    assert e[..1] == [e[0]];
    assert DedupeFirst(e[..1][..0], EntryName) == [];
    assert |x + "*"| != |x + " *"|;
  }

  /** ... and, as written, the merge then turns one line into two, while the
      model's `ApplyPrices` gives exactly one line per input line. */
  lemma MergeDuplicatesLine(line: Transfer, x: string, p1: Option<real>, p2: Option<real>)
    requires LookupKey(line.producto) == MatchKey(x + " *")
    ensures |ApplyPricesAsWritten([line], [PriceEntry(x + "*", p1), PriceEntry(x + " *", p2)], None)| == 2
    ensures |RepriceAll([line], [PriceEntry(x + "*", p1), PriceEntry(x + " *", p2)], None)| == 1
  {
    StarSpacingIrrelevant(x);
    var key := MatchKey(x + " *");
    var list := Normalised([PriceEntry(x + "*", p1), PriceEntry(x + " *", p2)]);
    assert list == [KeyedPrice(key, p1), KeyedPrice(key, p2)];
    assert list[1..][1..] == [];
    assert AllMatches(list, key) == [p1, p2];
    assert [line][1..] == [];
  }
}
