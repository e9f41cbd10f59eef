/** Spreadsheet and CSV cells as pandas holds them, and tables with a header. */
module Cells {
  import opened Wrappers
  import opened Text
  import opened Calendar

  /** One cell.  `Num` and `Stamp` carry `shown`, the text `astype(str)` gives
      for them; `Stamp` is a timestamp in seconds on the ordinal day scale. */
  datatype Cell = Blank | Num(value: real, shown: string) | Str(text: string) | Stamp(at: int, shown: string)

  /** `astype(str)`: a missing cell reads "nan". */
  function CellStr(c: Cell): string {
    match c
    case Blank => "nan"
    case Num(_, shown) => shown
    case Str(t) => t
    case Stamp(_, shown) => shown
  }

  /** `pd.to_numeric(..., errors="coerce")`: anything but a number becomes missing. */
  function ToNumber(c: Cell): Option<real> {
    if c.Num? then Some(c.value) else None
  }

  /** `pd.to_datetime(..., errors="coerce")`: a timestamp, or an ISO date text
      read as midnight of that day; anything else becomes missing. */
  function ToInstant(c: Cell): (r: Option<int>)
    ensures c.Stamp? ==> r == Some(c.at)
    ensures c.Str? && ParseIsoDate(c.text).Some? ==> r == Some(ToOrdinal(ParseIsoDate(c.text).value) * SecondsPerDay)
    ensures c.Blank? || c.Num? ==> r.None?
  {
    match c
    case Stamp(at, _) => Some(at)
    case Str(t) =>
      (match ParseIsoDate(t)
       case Some(d) => Some(ToOrdinal(d) * SecondsPerDay)
       case None => None)
    case _ => None
  }

  /** A sheet read with a header row: column names and rows of cells. */
  datatype Table = Table(columns: seq<string>, rows: seq<seq<Cell>>)

  /** Every row has one cell per column. */
  predicate WellFormed(t: Table) {
    forall k :: 0 <= k < |t.rows| ==> |t.rows[k]| == |t.columns|
  }

  /** `df[c].astype(str).str.strip()`. */
  function StrippedColumn(t: Table, c: nat): (r: seq<string>)
    requires WellFormed(t) && c < |t.columns|
    ensures |r| == |t.rows|
  {
    seq(|t.rows|, k requires 0 <= k < |t.rows| => Strip(CellStr(t.rows[k][c])))
  }

  /** `pd.to_numeric(df[c], errors="coerce")`. */
  function NumericValues(t: Table, c: nat): (r: seq<Option<real>>)
    requires WellFormed(t) && c < |t.columns|
    ensures |r| == |t.rows|
  {
    seq(|t.rows|, k requires 0 <= k < |t.rows| => ToNumber(t.rows[k][c]))
  }

  /** How a script recognises a column by its header. */
  datatype HeaderRule =
    | Exactly(name: string)          // `name in df.columns`
    | UpperStripped(name: string)    // `c.strip().upper() == name`
    | LowerContains(part: string)    // `part in c.lower()`
    | HasPart(part: string)          // `part in c`
    | AlmacOrigen                    // `"Almac" in c and "origen" in c.lower()`

  predicate HeaderMatches(rule: HeaderRule, c: string) {
    match rule
    case Exactly(n) => c == n
    case UpperStripped(n) => Upper(Strip(c)) == n
    case LowerContains(n) => Contains(Lower(c), n)
    case HasPart(n) => Contains(c, n)
    case AlmacOrigen => Contains(c, "Almac") && Contains(Lower(c), "origen")
  }

  /** The position of the first column the rule accepts
      (`next(c for c in cols if ...)`). */
  function FindColumn(cols: seq<string>, rule: HeaderRule): (r: Option<nat>)
    ensures r.Some? ==> r.value < |cols| && HeaderMatches(rule, cols[r.value])
    ensures r.Some? ==> forall i :: 0 <= i < r.value ==> !HeaderMatches(rule, cols[i])
    ensures r.None? <==> forall i :: 0 <= i < |cols| ==> !HeaderMatches(rule, cols[i])
  {
    if cols == [] then None
    else if HeaderMatches(rule, cols[0]) then Some(0)
    else
      match FindColumn(cols[1..], rule)
      case None => None
      case Some(k) => Some(k + 1)
  }

  /** The position of the column named `name` (`df.columns.get_loc`). */
  function ColumnIndex(cols: seq<string>, name: string): (r: Option<nat>)
    ensures r.Some? ==> r.value < |cols| && cols[r.value] == name
    ensures r.None? <==> name !in cols
  {
    FindColumn(cols, Exactly(name))
  }
}
