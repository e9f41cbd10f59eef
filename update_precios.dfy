/** Adding a PRECIO UNITARIO column to the price list
    (`testing/update_precios_with_unit_prices.py`): PRECIO DRIVE is the price
    of a pack of PRESENTACION units, so the unit price is their quotient
    where PRESENTACION is positive, and the pack price elsewhere. */
module UnitPriceColumn {
  import opened Wrappers
  import opened Text
  import opened Cells
  import opened Rows
  import opened Pricing
  import opened ProjectPaths

  // ---------------------------------------------------------------------------
  // Column discovery

  /** The loop looking for the PRESENTACION column: the first column whose
      lower-cased name contains "present". */
  method FindPresentColumn(cols: seq<string>) returns (r: Option<nat>)
    ensures r == PresentColumn(cols)
    ensures r.None? <==> forall j :: 0 <= j < |cols| ==> !Contains(Lower(cols[j]), "present")
  {
    r := None;
    var j := 0;
    while j < |cols|
      invariant 0 <= j <= |cols|
      invariant forall i :: 0 <= i < j ==> !HeaderMatches(LowerContains("present"), cols[i])
    {
      if Contains(Lower(cols[j]), "present") {
        r := Some(j);
        break;
      }
      j := j + 1;
    }
    assert r.None? ==> j == |cols|;
  }

  /** A pack-price column by its alternate names: "precio" and "drive" both
      in the lower-cased name. */
  predicate DriveLike(c: string) {
    Contains(Lower(c), "precio") && Contains(Lower(c), "drive")
  }

  /** The pack-price column: "PRECIO DRIVE" when there is one, else the first
      drive-like column. */
  function DriveColumn(cols: seq<string>): (r: Option<nat>)
    ensures r.Some? ==> r.value < |cols|
    ensures "PRECIO DRIVE" in cols ==> r.Some? && cols[r.value] == "PRECIO DRIVE"
    ensures "PRECIO DRIVE" !in cols && r.Some? ==> DriveLike(cols[r.value])
                                                   && forall i :: 0 <= i < r.value ==> !DriveLike(cols[i])
    ensures r.None? <==> "PRECIO DRIVE" !in cols && forall i :: 0 <= i < |cols| ==> !DriveLike(cols[i])
  {
    if "PRECIO DRIVE" in cols then ColumnIndex(cols, "PRECIO DRIVE") else FirstDriveLike(cols)
  }

  function FirstDriveLike(cols: seq<string>): (r: Option<nat>)
    ensures r.Some? ==> r.value < |cols| && DriveLike(cols[r.value])
    ensures r.Some? ==> forall i :: 0 <= i < r.value ==> !DriveLike(cols[i])
    ensures r.None? <==> forall i :: 0 <= i < |cols| ==> !DriveLike(cols[i])
  {
    if cols == [] then None
    else if DriveLike(cols[0]) then Some(0)
    else
      match FirstDriveLike(cols[1..])
      case None => None
      case Some(k) => Some(k + 1)
  }

  /** The search for the pack-price column: the exact name first, then a loop
      over the alternate names. */
  method FindDriveColumn(cols: seq<string>) returns (r: Option<nat>)
    ensures r == DriveColumn(cols)
  {
    if "PRECIO DRIVE" in cols {
      return ColumnIndex(cols, "PRECIO DRIVE");
    }
    r := None;
    var j := 0;
    while j < |cols|
      invariant 0 <= j <= |cols|
      invariant forall i :: 0 <= i < j ==> !DriveLike(cols[i])
    {
      if DriveLike(cols[j]) {
        r := Some(j);
        break;
      }
      j := j + 1;
    }
    assert r.None? ==> j == |cols|;
  }

  // ---------------------------------------------------------------------------
  // The unit price

  /** PRECIO UNITARIO of one row before rounding: the pack price divided by a
      positive PRESENTACION, else the pack price (a missing one stays
      missing). */
  function UnitPriceOf(pres: Option<real>, price: Option<real>): (u: Option<real>)
    ensures pres.Some? && pres.value > 0.0 && price.Some? ==> u.Some? && u.value * pres.value == price.value
    ensures !(pres.Some? && pres.value > 0.0) ==> u == price
    ensures u.None? <==> price.None?
  {
    if pres.Some? && pres.value > 0.0 && price.Some? then
      DivideBack(price.value, pres.value);
      Some(price.value / pres.value)
    else price
  }

  /** The column written here is the price `load_precios` derives for a
      piece ("PZ") row from the same PRESENTACION and PRECIO DRIVE. */
  lemma UnitPriceIsPiecePrice(pres: Option<real>, price: Option<real>)
    ensures UnitPriceOf(pres, price) == PieceDivide(true, pres, price)
  {
  }

  /** `.round(6)`, which leaves a missing value missing. */
  function Round6(u: Option<real>): (r: Option<real>)
    ensures r.None? <==> u.None?
    ensures r.Some? ==> -1.0 / 2000000.0 <= r.value - u.value <= 1.0 / 2000000.0
  {
    if u.None? then None
    else
      assert Pow10(6) == 1000000 by {
        assert Pow10(2) == 100;
        assert Pow10(4) == 100 * Pow10(2);
      }
      Some(Round(u.value, 6))
  }

  /** The rounded unit prices of a sheet, row by row. */
  function UnitPrices(t: Table, present: nat, price: nat): (r: seq<Option<real>>)
    requires WellFormed(t) && present < |t.columns| && price < |t.columns|
    ensures |r| == |t.rows|
  {
    seq(|t.rows|, k requires 0 <= k < |t.rows| =>
      Round6(UnitPriceOf(ToNumber(t.rows[k][present]), ToNumber(t.rows[k][price]))))
  }

  /** The masked division and the rounding, filled into a fresh column. */
  method ComputeUnitPrices(t: Table, present: nat, price: nat) returns (col: array<Option<real>>)
    requires WellFormed(t) && present < |t.columns| && price < |t.columns|
    ensures fresh(col)
    ensures col[..] == UnitPrices(t, present, price)
  {
    ghost var want := UnitPrices(t, present, price);
    col := new Option<real>[|t.rows|];
    for k := 0 to |t.rows|
      invariant col[..k] == want[..k]
    {
      var pres := ToNumber(t.rows[k][present]);
      var drive := ToNumber(t.rows[k][price]);
      var u := drive;
      if pres.Some? && pres.value > 0.0 && drive.Some? {
        u := Some(drive.value / pres.value);
      }
      col[k] := Round6(u);
      assert col[..k + 1] == col[..k] + [col[k]];
    }
  }

  // ---------------------------------------------------------------------------
  // The sheet written back

  const UnitColumn: string := "PRECIO UNITARIO"
  /** The helper columns added for the computation and dropped after it. */
  const Helpers: set<string> := {"PRESENTACION_num", "PRECIO_num"}

  /** A computed cell: missing values are blank; `repr` is the text a float
      shows as, which is not part of this model. */
  function PriceCell(p: Option<real>, repr: real -> string): Cell {
    if p.Some? then Num(p.value, repr(p.value)) else Blank
  }

  /** `df[name] = cells`: every column of that name is replaced, or a new
      column is appended when there is none. */
  function SetColumn(t: Table, name: string, cells: seq<Cell>): (r: Table)
    requires WellFormed(t) && |cells| == |t.rows|
    ensures WellFormed(r) && |r.rows| == |t.rows|
    ensures name in t.columns ==> r.columns == t.columns
    ensures name !in t.columns ==> r.columns == t.columns + [name]
  {
    if name in t.columns then
      Table(t.columns, seq(|t.rows|, k requires 0 <= k < |t.rows| =>
        seq(|t.columns|, j requires 0 <= j < |t.columns| => if t.columns[j] == name then cells[k] else t.rows[k][j])))
    else
      Table(t.columns + [name], seq(|t.rows|, k requires 0 <= k < |t.rows| => t.rows[k] + [cells[k]]))
  }

  /** The number of columns whose names are not in `names`. */
  function KeptCount(cols: seq<string>, names: set<string>): nat {
    if cols == [] then 0 else (if cols[0] in names then 0 else 1) + KeptCount(cols[1..], names)
  }

  /** The cells of `row` under the columns whose names are not in `names`. */
  function KeepCells<T>(cols: seq<string>, row: seq<T>, names: set<string>): (r: seq<T>)
    requires |row| == |cols|
    ensures |r| == KeptCount(cols, names) <= |cols|
  {
    if cols == [] then []
    else (if cols[0] in names then [] else [row[0]]) + KeepCells(cols[1..], row[1..], names)
  }

  /** `df.drop(columns=names, errors="ignore")`. */
  function DropColumns(t: Table, names: set<string>): (r: Table)
    requires WellFormed(t)
    ensures WellFormed(r) && |r.rows| == |t.rows|
  {
    Table(KeepCells(t.columns, t.columns, names),
          seq(|t.rows|, k requires 0 <= k < |t.rows| => KeepCells(t.columns, t.rows[k], names)))
  }

  /** Dropping works column by column: a split of the columns splits the result. */
  lemma {:induction false} KeepCellsSplit<T>(cols: seq<string>, row: seq<T>, names: set<string>, j: nat)
    requires |row| == |cols| && j <= |cols|
    ensures KeepCells(cols, row, names) == KeepCells(cols[..j], row[..j], names) + KeepCells(cols[j..], row[j..], names)
  {
    if j > 0 {
      KeepCellsSplit(cols[1..], row[1..], names, j - 1);
      assert cols[..j][1..] == cols[1..][..j - 1] && row[..j][1..] == row[1..][..j - 1];
      assert cols[1..][j - 1..] == cols[j..] && row[1..][j - 1..] == row[j..];
    } else {
      assert cols[..0] == [] && cols[0..] == cols && row[0..] == row;
    }
  }

  /** Dropping invents no column. */
  lemma {:induction false} KeepCellsFrom(cols: seq<string>, names: set<string>, c: string)
    requires c in KeepCells(cols, cols, names)
    ensures c in cols && c !in names
  {
    if cols != [] && c in KeepCells(cols[1..], cols[1..], names) {
      KeepCellsFrom(cols[1..], names, c);
    }
  }

  /** The position a kept column moves to: the number of kept columns before it. */
  function KeptPos(cols: seq<string>, names: set<string>, j: nat): nat
    requires j <= |cols|
  {
    KeptCount(cols[..j], names)
  }

  /** A kept column's cell is found at its new position. */
  lemma KeepCellsAt<T>(cols: seq<string>, row: seq<T>, names: set<string>, j: nat)
    requires |row| == |cols| && j < |cols| && cols[j] !in names
    ensures KeptPos(cols, names, j) < |KeepCells(cols, row, names)|
    ensures KeepCells(cols, row, names)[KeptPos(cols, names, j)] == row[j]
  {
    KeepCellsSplit(cols, row, names, j);
    assert cols[j..][1..] == cols[j + 1..] && row[j..][1..] == row[j + 1..];
  }

  /** The first column of a kept name is still the first of that name. */
  lemma FirstOfNameKept(cols: seq<string>, names: set<string>, j: nat)
    requires j < |cols| && cols[j] !in names && forall i :: 0 <= i < j ==> cols[i] != cols[j]
    ensures ColumnIndex(KeepCells(cols, cols, names), cols[j]) == Some(KeptPos(cols, names, j))
  {
    KeepCellsAt(cols, cols, names, j);
    KeepCellsSplit(cols, cols, names, j);
    var kept := KeepCells(cols, cols, names);
    var p := KeptPos(cols, names, j);
    forall i | 0 <= i < p ensures !HeaderMatches(Exactly(cols[j]), kept[i]) {
      var before := KeepCells(cols[..j], cols[..j], names);
      assert kept[i] == before[i];
      KeepCellsFrom(cols[..j], names, kept[i]);
    }
  }

  /** The sheet after the script: PRECIO UNITARIO set to the rounded unit
      prices, the helper columns gone. */
  function UpdatedSheet(t: Table, present: nat, price: nat, repr: real -> string): (r: Table)
    requires WellFormed(t) && present < |t.columns| && price < |t.columns|
    ensures WellFormed(r) && |r.rows| == |t.rows|
  {
    var prices := UnitPrices(t, present, price);
    var cells := seq(|t.rows|, k requires 0 <= k < |t.rows| => PriceCell(prices[k], repr));
    DropColumns(SetColumn(t, UnitColumn, cells), Helpers)
  }

  /** Nothing else changes: every row is kept, and every cell of a column
      other than PRECIO UNITARIO and the helper names keeps its value, at the
      position its column moves to. */
  lemma UpdatedKeepsCells(t: Table, present: nat, price: nat, repr: real -> string, k: nat, j: nat)
    requires WellFormed(t) && present < |t.columns| && price < |t.columns|
    requires k < |t.rows| && j < |t.columns| && t.columns[j] != UnitColumn && t.columns[j] !in Helpers
    ensures var s := SetColumn(t, UnitColumn, seq(|t.rows|, i requires 0 <= i < |t.rows| => PriceCell(UnitPrices(t, present, price)[i], repr)));
            var p := KeptPos(s.columns, Helpers, j);
            p < |UpdatedSheet(t, present, price, repr).columns|
            && UpdatedSheet(t, present, price, repr).columns[p] == t.columns[j]
            && UpdatedSheet(t, present, price, repr).rows[k][p] == t.rows[k][j]
  {
    var prices := UnitPrices(t, present, price);
    var cells := seq(|t.rows|, i requires 0 <= i < |t.rows| => PriceCell(prices[i], repr));
    var s := SetColumn(t, UnitColumn, cells);
    assert s.columns[j] == t.columns[j] && s.rows[k][j] == t.rows[k][j];
    KeepCellsAt(s.columns, s.columns, Helpers, j);
    KeepCellsAt(s.columns, s.rows[k], Helpers, j);
  }

  /** The PRECIO UNITARIO column holds each row's rounded unit price. */
  lemma UpdatedHasUnitPrices(t: Table, present: nat, price: nat, repr: real -> string, k: nat)
    requires WellFormed(t) && present < |t.columns| && price < |t.columns| && k < |t.rows|
    ensures var r := UpdatedSheet(t, present, price, repr);
            UnitColumn in r.columns
            && r.rows[k][ColumnIndex(r.columns, UnitColumn).value] == PriceCell(UnitPrices(t, present, price)[k], repr)
  {
    var prices := UnitPrices(t, present, price);
    var cells := seq(|t.rows|, i requires 0 <= i < |t.rows| => PriceCell(prices[i], repr));
    var s := SetColumn(t, UnitColumn, cells);
    var j := ColumnIndex(s.columns, UnitColumn).value;
    assert s.rows[k][j] == cells[k] by {
      if UnitColumn !in t.columns {
        assert j == |t.columns|;
      }
    }
    assert UnitColumn !in Helpers;
    KeepCellsAt(s.columns, s.columns, Helpers, j);
    KeepCellsAt(s.columns, s.rows[k], Helpers, j);
    var r := UpdatedSheet(t, present, price, repr);
    var p := KeptPos(s.columns, Helpers, j);
    assert r.columns[p] == UnitColumn;
    FirstOfNameKept(s.columns, Helpers, j);
  }

  // ---------------------------------------------------------------------------
  // main

  /** What a run ends with: its exit status and the sheet written, if any,
      with the path it is written to. */
  datatype Outcome = Outcome(status: int, written: Option<(string, Table)>)

  /** `main`: 1 without the file or either column; a dry run writes nothing;
      otherwise the updated sheet goes to `--output` (under the project root)
      or back over the input; an empty `--output` is falsy and also means the input. */
  method UpdatePrecios(root: string, precios: string, output: Option<string>, dryRun: bool,
                       fileExists: bool, t: Table, repr: real -> string) returns (o: Outcome)
    requires WellFormed(t)
    ensures !fileExists ==> o == Outcome(1, None)
    ensures fileExists && (PresentColumn(t.columns).None? || DriveColumn(t.columns).None?) ==> o == Outcome(1, None)
    ensures o.status == 0 <==> fileExists && PresentColumn(t.columns).Some? && DriveColumn(t.columns).Some?
    ensures dryRun ==> o.written.None?
    ensures o.status == 0 && !dryRun ==>
              o.written == Some((if output.Some? && output.value != "" then JoinPath(root, output.value) else JoinPath(root, precios),
                                 UpdatedSheet(t, PresentColumn(t.columns).value, DriveColumn(t.columns).value, repr)))
  {
    if !fileExists {
      return Outcome(1, None);
    }
    var present := FindPresentColumn(t.columns);
    if present.None? {
      return Outcome(1, None);
    }
    var price := FindDriveColumn(t.columns);
    if price.None? {
      return Outcome(1, None);
    }
    var col := ComputeUnitPrices(t, present.value, price.value);
    var prices := col[..];
    var cells := seq(|t.rows|, k requires 0 <= k < |t.rows| => PriceCell(prices[k], repr));
    var updated := DropColumns(SetColumn(t, UnitColumn, cells), Helpers);
    assert updated == UpdatedSheet(t, present.value, price.value, repr);
    if dryRun {
      return Outcome(0, None);
    }
    var outPath := if output.Some? && output.value != "" then JoinPath(root, output.value) else JoinPath(root, precios);
    return Outcome(0, Some((outPath, updated)));
  }
}
