/** The comparison of the finished-goods sheets of the reference workbook
    (`pt_w_vs_pt_r_comparison`): the "-PT-W" sheets hold the transfers as
    first recorded, the "-PT-R" sheets the corrected ones; the corrected
    unit costs are compared with the recorded ones and with the price list. */
module PtCheck {
  import opened Wrappers
  import opened Text
  import opened Rows
  import opened Cells
  import opened Pricing
  import opened Gold
  import opened Reconcile

  /** Whether a sheet is read for `suffix`: its name contains the suffix and
      a hyphen, and it is not the summary sheet. */
  predicate ReadsPtSheet(name: string, suffix: string) {
    Contains(name, suffix) && name != "NUMEROS" && '-' in name
  }

  /** A finished-goods row with the branch code of its sheet. */
  datatype PtLine = PtLine(row: GoldRow, branch: string)

  function Lines(rows: seq<GoldRow>, branch: string): (r: seq<PtLine>)
    ensures |r| == |rows|
    ensures forall l :: l in r ==> l.row in rows && l.branch == branch
  {
    seq(|rows|, i requires 0 <= i < |rows| => PtLine(rows[i], branch))
  }

  /** The finished-goods rows of one sheet. */
  function PtSheetPart(name: string, s: Sheet, suffix: string, mapping: map<string, string>): (r: Result<seq<PtLine>, string>)
    requires Rectangular(s)
    ensures !ReadsPtSheet(name, suffix) ==> r == Success([])
  {
    if !ReadsPtSheet(name, suffix) then Success([])
    else
      match ParseSheet(s, SucursalOf(name, mapping), name)
      case Failure(e) => Failure(e)
      case Success(rows) => Success(Lines(Filter(rows, PtOrigin), FirstToken(name, '-')))
  }

  /** The rows of every sheet read, in sheet order. */
  function PtParts(sheets: seq<(string, Sheet)>, suffix: string, mapping: map<string, string>): (r: Result<seq<PtLine>, string>)
    requires AllRectangular(sheets)
    ensures r.Success? && sheets == [] ==> r.value == []
    decreases |sheets|
  {
    if sheets == [] then Success([])
    else
      match PtSheetPart(sheets[0].0, sheets[0].1, suffix, mapping)
      case Failure(e) => Failure(e)
      case Success(part) =>
        match PtParts(sheets[1..], suffix, mapping)
        case Failure(e) => Failure(e)
        case Success(rest) => Success(part + rest)
  }

  /** Every line of one sheet is a finished-goods row of that sheet, with
      the sheet's branch code. */
  lemma PtSheetPartShape(name: string, s: Sheet, suffix: string, mapping: map<string, string>, l: PtLine)
    requires Rectangular(s) && PtSheetPart(name, s, suffix, mapping).Success?
    requires l in PtSheetPart(name, s, suffix, mapping).value
    ensures PtOrigin(l.row) && l.row.sheet == name && l.branch == FirstToken(name, '-')
    ensures ReadsPtSheet(name, suffix)
  {
    var rows := ParseSheet(s, SucursalOf(name, mapping), name).value;
    FilterHas(rows, PtOrigin, l.row);
  }

  /** Every line of the run is a finished-goods row of a sheet read for
      `suffix`, with that sheet's branch code. */
  lemma {:induction false} PtPartsShape(sheets: seq<(string, Sheet)>, suffix: string, mapping: map<string, string>, l: PtLine)
    requires AllRectangular(sheets) && PtParts(sheets, suffix, mapping).Success?
    requires l in PtParts(sheets, suffix, mapping).value
    ensures PtOrigin(l.row) && ReadsPtSheet(l.row.sheet, suffix) && l.branch == FirstToken(l.row.sheet, '-')
    decreases |sheets|
  {
    assert sheets != [];
    var part := PtSheetPart(sheets[0].0, sheets[0].1, suffix, mapping).value;
    var rest := PtParts(sheets[1..], suffix, mapping).value;
    assert sheets[0] in sheets;
    if l in part {
      PtSheetPartShape(sheets[0].0, sheets[0].1, suffix, mapping, l);
    } else {
      PtPartsShape(sheets[1..], suffix, mapping, l);
    }
  }

  predicate LineInWindow(l: PtLine) { InGoldWindow(l.row) }

  /** `parse_pt_sheets`: the finished-goods rows of the sheets read for
      `suffix`, inside the reference week; empty when there are none. */
  function ParsePtSheets(sheets: seq<(string, Sheet)>, suffix: string, mapping: map<string, string>): (r: Result<seq<PtLine>, string>)
    requires AllRectangular(sheets)
    ensures r.Success? ==> forall l :: l in r.value ==> PtOrigin(l.row) && InGoldWindow(l.row) && ReadsPtSheet(l.row.sheet, suffix)
    ensures r.Success? ==> forall l :: l in r.value ==> l.branch == FirstToken(l.row.sheet, '-')
  {
    match PtParts(sheets, suffix, mapping)
    case Failure(e) => Failure(e)
    case Success(all) =>
      var kept := Filter(all, LineInWindow);
      KeptLinesShape(sheets, suffix, mapping, all, kept);
      Success(kept)
  }

  lemma KeptLinesShape(sheets: seq<(string, Sheet)>, suffix: string, mapping: map<string, string>, all: seq<PtLine>, kept: seq<PtLine>)
    requires AllRectangular(sheets) && PtParts(sheets, suffix, mapping) == Success(all)
    requires kept == Filter(all, LineInWindow)
    ensures forall l :: l in kept ==> PtOrigin(l.row) && InGoldWindow(l.row) && ReadsPtSheet(l.row.sheet, suffix)
    ensures forall l :: l in kept ==> l.branch == FirstToken(l.row.sheet, '-')
  {
    forall l | l in kept
      ensures PtOrigin(l.row) && InGoldWindow(l.row) && ReadsPtSheet(l.row.sheet, suffix)
      ensures l.branch == FirstToken(l.row.sheet, '-')
    {
      FilterHas(all, LineInWindow, l);
      PtPartsShape(sheets, suffix, mapping, l);
    }
  }

  /** A finished-goods row of a sheet that is read is among that sheet's
      lines. */
  lemma SheetPartHas(name: string, s: Sheet, suffix: string, mapping: map<string, string>, x: GoldRow)
    requires Rectangular(s) && ReadsPtSheet(name, suffix)
    requires ParseSheet(s, SucursalOf(name, mapping), name).Success?
    requires x in ParseSheet(s, SucursalOf(name, mapping), name).value && PtOrigin(x)
    ensures PtSheetPart(name, s, suffix, mapping).Success?
    ensures PtLine(x, FirstToken(name, '-')) in PtSheetPart(name, s, suffix, mapping).value
  {
    var rows := ParseSheet(s, SucursalOf(name, mapping), name).value;
    var kept := Filter(rows, PtOrigin);
    FilterHas(rows, PtOrigin, x);
    var i :| 0 <= i < |kept| && kept[i] == x;
    assert Lines(kept, FirstToken(name, '-'))[i] == PtLine(x, FirstToken(name, '-'));
  }

  /** When every sheet parses, the lines of each sheet are all kept. */
  lemma {:induction false} PtPartsHas(sheets: seq<(string, Sheet)>, suffix: string, mapping: map<string, string>,
                                      name: string, s: Sheet, l: PtLine)
    requires AllRectangular(sheets) && (name, s) in sheets && Rectangular(s)
    requires PtSheetPart(name, s, suffix, mapping).Success? && l in PtSheetPart(name, s, suffix, mapping).value
    requires PtParts(sheets, suffix, mapping).Success?
    ensures l in PtParts(sheets, suffix, mapping).value
    decreases |sheets|
  {
    PtPartsCons(sheets, suffix, mapping);
    if sheets[0] != (name, s) {
      assert (name, s) in sheets[1..];
      PtPartsHas(sheets[1..], suffix, mapping, name, s, l);
    }
  }

  /** A successful run is the first sheet's lines followed by the rest's. */
  lemma PtPartsCons(sheets: seq<(string, Sheet)>, suffix: string, mapping: map<string, string>)
    requires AllRectangular(sheets) && sheets != [] && PtParts(sheets, suffix, mapping).Success?
    ensures PtSheetPart(sheets[0].0, sheets[0].1, suffix, mapping).Success?
    ensures PtParts(sheets[1..], suffix, mapping).Success?
    ensures PtParts(sheets, suffix, mapping).value
            == PtSheetPart(sheets[0].0, sheets[0].1, suffix, mapping).value + PtParts(sheets[1..], suffix, mapping).value
  {
  }

  /** Every finished-goods row of a sheet read for `suffix` that falls inside
      the reference week is reported, with its branch code. */
  lemma ParsePtSheetsHas(sheets: seq<(string, Sheet)>, suffix: string, mapping: map<string, string>, i: nat, x: GoldRow)
    requires AllRectangular(sheets)
    requires i < |sheets| && ReadsPtSheet(sheets[i].0, suffix)
    requires ParseSheet(sheets[i].1, SucursalOf(sheets[i].0, mapping), sheets[i].0).Success?
    requires x in ParseSheet(sheets[i].1, SucursalOf(sheets[i].0, mapping), sheets[i].0).value
    requires PtOrigin(x) && InGoldWindow(x)
    requires ParsePtSheets(sheets, suffix, mapping).Success?
    ensures PtLine(x, FirstToken(sheets[i].0, '-')) in ParsePtSheets(sheets, suffix, mapping).value
  {
    var l := PtLine(x, FirstToken(sheets[i].0, '-'));
    SheetPartHas(sheets[i].0, sheets[i].1, suffix, mapping, x);
    assert sheets[i] in sheets;
    PtPartsHas(sheets, suffix, mapping, sheets[i].0, sheets[i].1, l);
    FilterHas(PtParts(sheets, suffix, mapping).value, LineInWindow, l);
  }

  // ------------------------------------------------- the price list

  /** `load_precios`: nothing when the file is missing; else the list read
      as for the weekly repricing, keeping the first row of every stripped,
      lower-cased name. */
  method LoadPtPrecios(fileExists: bool, t: Table) returns (r: Result<Option<seq<PriceEntry>>, string>)
    requires WellFormed(t)
    ensures !fileExists ==> r == Success(None)
    ensures fileExists ==> (r.Failure? <==> ProductColumn(t.columns).None?)
    ensures r.Success? && r.value.Some? ==>
              r.value.value == DedupeFirst(DedupeFirst(SheetEntries(t, ProductColumn(t.columns).value), EntryName), OursKey)
    ensures r.Success? && r.value.Some? ==> DedupedKeys(r.value.value, OursKey)
  {
    if !fileExists {
      return Success(None);
    }
    var base := LoadPrecios(t);
    if base.Failure? {
      return Failure(base.error);
    }
    DedupeFirstDistinct(base.value, OursKey);
    r := Success(Some(DedupeFirst(base.value, OursKey)));
  }

  /** The list price of a product: the row with its stripped, lower-cased
      name, if any. */
  function ListPrice(precios: seq<PriceEntry>, producto: string): (p: Option<real>)
    ensures p.Some? ==> exists e :: e in precios && OursKey(e) == Norm(producto) && e.price == p
  {
    var g := Group(precios, OursKey, Norm(producto));
    if g == [] then None
    else
      assert g[0] in g;
      GroupMember(precios, OursKey, Norm(producto), g[0]);
      g[0].price
  }

  /** With one row per name, the list price is that row's price. */
  lemma ListPriceOfRow(precios: seq<PriceEntry>, e: PriceEntry)
    requires DedupedKeys(precios, OursKey) && e in precios
    ensures ListPrice(precios, e.producto) == e.price
  {
    var g := Group(precios, OursKey, OursKey(e));
    GroupMember(precios, OursKey, OursKey(e), e);
    assert g[0] in g;
    GroupMember(precios, OursKey, OursKey(e), g[0]);
    var a :| 0 <= a < |precios| && precios[a] == e;
    var b :| 0 <= b < |precios| && precios[b] == g[0];
    assert OursKey(precios[a]) == OursKey(precios[b]);
    assert a == b;
  }

  // ------------------------------------------------- the comparison

  function JoinKey(l: PtLine): (string, string, string) {
    (l.branch, l.row.orden, l.row.producto)
  }

  /** `pt_r.merge(pt_w, on=["Branch", "Orden", "Producto"], how="inner")`:
      for every corrected row in order, each recorded row with its key. */
  function InnerJoin(r: seq<PtLine>, w: seq<PtLine>): (j: seq<(PtLine, PtLine)>)
    ensures forall p :: p in j ==> p.0 in r && p.1 in w && JoinKey(p.0) == JoinKey(p.1)
  {
    if r == [] then []
    else
      var g := Group(w, JoinKey, JoinKey(r[0]));
      var head := seq(|g|, i requires 0 <= i < |g| => (r[0], g[i]));
      forall p | p in head ensures p.1 in w {
        var i :| 0 <= i < |g| && head[i] == p;
        assert g[i] in g;
        GroupMember(w, JoinKey, JoinKey(r[0]), g[i]);
      }
      assert forall x :: x in r[1..] ==> x in r;
      head + InnerJoin(r[1..], w)
  }

  /** Every pair of rows sharing the key is in the join. */
  lemma {:induction false} InnerJoinHas(r: seq<PtLine>, w: seq<PtLine>, a: PtLine, b: PtLine)
    requires a in r && b in w && JoinKey(a) == JoinKey(b)
    ensures (a, b) in InnerJoin(r, w)
  {
    if a == r[0] {
      var g := Group(w, JoinKey, JoinKey(r[0]));
      GroupMember(w, JoinKey, JoinKey(r[0]), b);
      var i :| 0 <= i < |g| && g[i] == b;
      var head := seq(|g|, i requires 0 <= i < |g| => (r[0], g[i]));
      assert head[i] == (a, b);
      assert InnerJoin(r, w) == head + InnerJoin(r[1..], w);
    } else {
      InnerJoinHas(r[1..], w, a, b);
    }
  }

  const Tolerance: real := 0.001

  /** Two present values closer than 0.001. */
  predicate Close(a: Option<real>, b: Option<real>) {
    a.Some? && b.Some? && -Tolerance < a.value - b.value < Tolerance
  }

  /** One row of the comparison. */
  datatype PtComparison = PtComparison(
    branch: string, orden: string, producto: string,
    unitW: Option<real>, unitR: Option<real>, precios: Option<real>,
    rEqW: bool, rEqPrecios: bool, correctionApplied: bool, rDiffPrecios: Option<real>)

  /** "PT_R_eq_PRECIOS" as evidently intended: a list price is present and
      the corrected unit cost is within 0.001 of it. */
  function EqPrecios(r: Option<real>, p: Option<real>): (eq: bool)
    ensures eq <==> p.Some? && r.Some? && -Tolerance < r.value - p.value < Tolerance
    ensures eq ==> Close(r, p)
  {
    p.Some? && Close(r, p)
  }

  /** "PT_R_eq_PRECIOS" as written: `&` binds tighter than `<`, so the float
      column |R - P| is first turned into booleans (nonzero and present) and
      and-ed with "P present", and the result, read as 0 or 1, is compared
      with 0.001. The flag ends up true exactly when the conjunction is
      false. */
  function EqPreciosAsWritten(r: Option<real>, p: Option<real>): (eq: bool)
    ensures eq <==> !(p.Some? && r.Some? && r.value != p.value)
  {
    var absDiffAsBool := r.Some? && p.Some? && Abs(r.value - p.value) != 0.0;
    var conj := p.Some? && absDiffAsBool;
    (if conj then 1.0 else 0.0) < Tolerance
  }

  /** Where the written flag and the intended one part: a missing list price
      counts as a match, and a difference below the tolerance as a miss. */
  lemma EqPreciosAsWrittenDiffers(r: real)
    ensures EqPreciosAsWritten(Some(r), None) && !EqPrecios(Some(r), None)
    ensures !EqPreciosAsWritten(Some(r), Some(r + 0.0005)) && EqPrecios(Some(r), Some(r + 0.0005))
  {
  }

  /** The two flags agree exactly on rows with both values present and
      either equal or at least 0.001 apart. */
  lemma EqPreciosAgreement(r: Option<real>, p: Option<real>)
    requires r.Some? && p.Some?
    ensures EqPreciosAsWritten(r, p) == EqPrecios(r, p) <==> r.value == p.value || !Close(r, p)
  {
  }

  /** "PT_R_diff_PRECIOS": the corrected cost minus the list price, when
      both are present. */
  function DiffPrecios(r: Option<real>, p: Option<real>): (d: Option<real>)
    ensures d.Some? <==> r.Some? && p.Some?
    ensures d.Some? ==> p.value + d.value == r.value
  {
    if p.Some? && r.Some? then Some(r.value - p.value) else None
  }

  /** The comparison row of one joined pair. */
  function CompareLine(pair: (PtLine, PtLine), precios: seq<PriceEntry>): (c: PtComparison)
    ensures c.rEqW <==> Close(pair.0.row.unitCost, pair.1.row.unitCost)
    ensures c.correctionApplied <==> !c.rEqW
    ensures c.rEqPrecios <==> c.precios.Some? && Close(c.unitR, c.precios)
    ensures c.unitR == pair.0.row.unitCost && c.unitW == pair.1.row.unitCost
    ensures c.precios == ListPrice(precios, pair.0.row.producto)
  {
    var r := pair.0.row.unitCost;
    var w := pair.1.row.unitCost;
    var p := ListPrice(precios, pair.0.row.producto);
    var eqW := r.Some? && w.Some? && Abs(r.value - w.value) < Tolerance;
    PtComparison(pair.0.branch, pair.0.row.orden, pair.0.row.producto, w, r, p,
                 eqW, EqPrecios(r, p), !eqW, DiffPrecios(r, p))
  }

  /** The comparison of the whole workbook: no rows when either kind of
      sheet has none, else one row per joined pair. A missing price list
      leaves every list price missing. */
  function PtComparisonReport(w: seq<PtLine>, r: seq<PtLine>, precios: Option<seq<PriceEntry>>): (rows: seq<PtComparison>)
    ensures w == [] || r == [] ==> rows == []
    ensures w != [] && r != [] ==> |rows| == |InnerJoin(r, w)|
    ensures w != [] && r != [] ==> forall i :: 0 <= i < |rows| ==>
              rows[i] == CompareLine(InnerJoin(r, w)[i], if precios.Some? then precios.value else [])
    ensures forall c :: c in rows && precios.None? ==> c.precios.None? && !c.rEqPrecios
  {
    if w == [] || r == [] then []
    else
      var list := if precios.Some? then precios.value else [];
      var j := InnerJoin(r, w);
      seq(|j|, i requires 0 <= i < |j| => CompareLine(j[i], list))
  }

  /** The report as written: with both kinds of sheet present, a missing
      price list is a table without columns, and selecting its "_norm"
      column raises. */
  function PtComparisonReportAsWritten(w: seq<PtLine>, r: seq<PtLine>, precios: Option<seq<PriceEntry>>): (res: Result<seq<PtComparison>, string>)
    ensures res.Failure? <==> w != [] && r != [] && precios.None?
    ensures res.Success? ==> res.value == PtComparisonReport(w, r, precios)
  {
    if w == [] || r == [] then Success([])
    else if precios.None? then Failure("KeyError: \"['_norm', 'Precio unitario'] not in index\"")
    else Success(PtComparisonReport(w, r, precios))
  }

  /** Every corrected row with a recorded partner is compared (the converse
      is `ReportRowsAreMatched`). */
  lemma ReportCoversMatchedRows(w: seq<PtLine>, r: seq<PtLine>, precios: Option<seq<PriceEntry>>, a: PtLine, b: PtLine)
    requires a in r && b in w && JoinKey(a) == JoinKey(b)
    ensures exists c :: c in PtComparisonReport(w, r, precios) && c.unitR == a.row.unitCost && c.unitW == b.row.unitCost
                        && c.branch == a.branch && c.orden == a.row.orden && c.producto == a.row.producto
  {
    InnerJoinHas(r, w, a, b);
    var j := InnerJoin(r, w);
    var i :| 0 <= i < |j| && j[i] == (a, b);
    assert PtComparisonReport(w, r, precios)[i] in PtComparisonReport(w, r, precios);
  }

  /** Every report row compares a corrected row with a recorded row of the
      same branch, order and product, against the price list. */
  lemma ReportRowsAreMatched(w: seq<PtLine>, r: seq<PtLine>, precios: Option<seq<PriceEntry>>, c: PtComparison)
    returns (a: PtLine, b: PtLine)
    requires c in PtComparisonReport(w, r, precios)
    ensures a in r && b in w && JoinKey(a) == JoinKey(b)
    ensures c == CompareLine((a, b), if precios.Some? then precios.value else [])
  {
    var rows := PtComparisonReport(w, r, precios);
    var i :| 0 <= i < |rows| && rows[i] == c;
    var j := InnerJoin(r, w);
    assert j[i] in j;
    a, b := j[i].0, j[i].1;
  }
}
