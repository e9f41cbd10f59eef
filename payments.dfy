/** The payments table before forecasting
    (`src/pos_frontend/reporting/weekly_payments.py` and the daily-mart step
    of `reporting/weekly_payments_forecast.py`): required columns, dates
    normalised to days, payment amounts with missing values as 0, the
    derived `ingreso_total`, duplicate (sucursal, fecha) keys, the as-of
    check and the seven-day coverage check. */
module Payments {
  import opened Wrappers
  import opened Text
  import opened Calendar
  import opened Cells
  import opened Sorting
  import opened Rows
  import opened ProjectPaths

  // ---------------------------------------------------------------------------
  // Paths

  /** `resolve_branches_file`: an absolute branches file is kept, a relative
      one is taken under the data root. */
  function ResolveBranchesFile(dataRoot: string, branchesFile: string): (p: string)
    ensures StartsWith(branchesFile, "/") ==> p == branchesFile
    ensures !StartsWith(branchesFile, "/") ==> StartsWith(p, dataRoot) && p[|dataRoot|..] == "/" + branchesFile
  {
    if StartsWith(branchesFile, "/") then branchesFile else JoinPath(dataRoot, branchesFile)
  }

  /** The absolute-path test changes nothing: `Path.__truediv__` already
      lets an absolute path replace the directory. */
  lemma ResolveIsJoin(dataRoot: string, branchesFile: string)
    ensures ResolveBranchesFile(dataRoot, branchesFile) == JoinPath(dataRoot, branchesFile)
  {
  }

  // ---------------------------------------------------------------------------
  // Errors and rows

  /** The ValueErrors the preparation raises. */
  datatype PrepError =
    | MissingColumns(names: seq<string>)
    | MissingFecha
    | BadFecha
    | NotNumeric(column: string)
    | DuplicateKeys(count: nat)
    | EndsAt(last: Option<Day>, asof: Day)
    | CoverageGap(gaps: seq<(string, nat)>)

  /** `--dedupe`: raise, first or sum. */
  datatype Dedupe = RaiseOnDuplicates | KeepFirst | SumDuplicates

  /** A prepared row; a missing `fecha` (NaT) is `None`. */
  datatype Payment = Payment(sucursal: string, fecha: Option<Day>,
                             efectivo: real, credito: real, debito: real, total: real)

  type Key = (string, Option<Day>)

  function KeyOf(p: Payment): Key {
    (p.sucursal, p.fecha)
  }

  function Efectivo(p: Payment): real { p.efectivo }
  function Credito(p: Payment): real { p.credito }
  function Debito(p: Payment): real { p.debito }
  function Total(p: Payment): real { p.total }

  /** `ingreso_total` is the sum of the three payment kinds. */
  predicate Balanced(p: Payment) {
    p.total == p.efectivo + p.credito + p.debito
  }

  const RequiredBase: seq<string> := ["sucursal", "fecha", "ingreso_efectivo", "ingreso_credito", "ingreso_debito"]
  const PayColumns: seq<string> := ["ingreso_efectivo", "ingreso_credito", "ingreso_debito"]
  const TotalColumn: string := "ingreso_total"

  /** `[c for c in required if c not in df.columns]`. */
  function MissingOf(required: seq<string>, cols: seq<string>): (m: seq<string>)
    ensures forall c :: c in m <==> c in required && c !in cols
    ensures m == [] <==> forall c :: c in required ==> c in cols
    ensures |m| <= |required|
  {
    if required == [] then []
    else (if required[0] in cols then [] else [required[0]]) + MissingOf(required[1..], cols)
  }

  // ---------------------------------------------------------------------------
  // Cell conversion

  /** `coerce_fecha_to_datetime` on one cell: `to_datetime(errors="raise")`
      then `dt.normalize()`; a missing cell is NaT. */
  function FechaOf(c: Cell): (r: Result<Option<Day>, PrepError>)
    ensures r.Failure? <==> !c.Blank? && ToInstant(c).None?
    ensures r.Success? && r.value.Some? ==>
              ToInstant(c).Some? && r.value.value * SecondsPerDay <= ToInstant(c).value < (r.value.value + 1) * SecondsPerDay
    ensures r.Success? ==> (r.value.None? <==> c.Blank?)
  {
    if c.Blank? then Success(None)
    else
      match ToInstant(c)
      case None => Failure(BadFecha)
      case Some(at) => Success(Some(DayOf(at)))
  }

  /** `coerce_fecha_to_datetime(df, col)` on a whole column. */
  function CoerceFecha(t: Table, col: string): (r: Result<seq<Option<Day>>, PrepError>)
    requires WellFormed(t)
    ensures col !in t.columns ==> r == Failure(MissingFecha)
    ensures col in t.columns ==>
              (r.Failure? <==> exists k :: 0 <= k < |t.rows| && FechaOf(t.rows[k][ColumnIndex(t.columns, col).value]).Failure?)
    ensures r.Success? ==> |r.value| == |t.rows| && col in t.columns
                           && forall k :: 0 <= k < |t.rows| ==> FechaOf(t.rows[k][ColumnIndex(t.columns, col).value]) == Success(r.value[k])
  {
    match ColumnIndex(t.columns, col)
    case None => Failure(MissingFecha)
    case Some(c) =>
      if exists k :: 0 <= k < |t.rows| && FechaOf(t.rows[k][c]).Failure? then Failure(BadFecha)
      else Success(seq(|t.rows|, k requires 0 <= k < |t.rows| => FechaOf(t.rows[k][c]).value))
  }

  /** `pd.to_numeric(..., errors="raise").fillna(0)` on one cell. */
  function AmountOf(c: Cell): Option<real> {
    match c
    case Num(v, _) => Some(v)
    case Blank => Some(0.0)
    case _ => None
  }

  /** The same on the column `name`: its amounts, or the error naming it. */
  function AmountColumn(t: Table, name: string): (r: Result<seq<real>, PrepError>)
    requires WellFormed(t) && name in t.columns
    ensures r.Failure? <==> exists k :: 0 <= k < |t.rows| && AmountOf(t.rows[k][ColumnIndex(t.columns, name).value]).None?
    ensures r.Failure? ==> r.error == NotNumeric(name)
    ensures r.Success? ==> |r.value| == |t.rows|
                           && forall k :: 0 <= k < |t.rows| ==> AmountOf(t.rows[k][ColumnIndex(t.columns, name).value]) == Some(r.value[k])
  {
    var c := ColumnIndex(t.columns, name).value;
    if exists k :: 0 <= k < |t.rows| && AmountOf(t.rows[k][c]).None? then Failure(NotNumeric(name))
    else Success(seq(|t.rows|, k requires 0 <= k < |t.rows| => AmountOf(t.rows[k][c]).value))
  }

  /** `ingreso_total`: the column converted like the others when there is
      one, else the sum of the three payment kinds. */
  function Totals(t: Table, ef: seq<real>, cr: seq<real>, de: seq<real>): (r: Result<seq<real>, PrepError>)
    requires WellFormed(t) && |ef| == |cr| == |de| == |t.rows|
    ensures TotalColumn in t.columns ==> r == AmountColumn(t, TotalColumn)
    ensures TotalColumn !in t.columns ==>
              r.Success? && |r.value| == |t.rows| && forall k :: 0 <= k < |t.rows| ==> r.value[k] == ef[k] + cr[k] + de[k]
  {
    if TotalColumn in t.columns then AmountColumn(t, TotalColumn)
    else Success(seq(|t.rows|, k requires 0 <= k < |t.rows| => ef[k] + cr[k] + de[k]))
  }

  /** The records of the converted columns. */
  function Assemble(t: Table, fechas: seq<Option<Day>>, ef: seq<real>, cr: seq<real>, de: seq<real>, tot: seq<real>)
    : (r: seq<Payment>)
    requires WellFormed(t) && "sucursal" in t.columns
    requires |fechas| == |ef| == |cr| == |de| == |tot| == |t.rows|
    ensures |r| == |t.rows|
    ensures forall k :: 0 <= k < |r| ==>
              r[k] == Payment(CellStr(t.rows[k][ColumnIndex(t.columns, "sucursal").value]), fechas[k], ef[k], cr[k], de[k], tot[k])
  {
    var s := ColumnIndex(t.columns, "sucursal").value;
    seq(|t.rows|, k requires 0 <= k < |t.rows| => Payment(CellStr(t.rows[k][s]), fechas[k], ef[k], cr[k], de[k], tot[k]))
  }

  /** The column checks and conversions, up to and including `ingreso_total`:
      the rows as records, or the first error raised. */
  function Converted(t: Table): (r: Result<seq<Payment>, PrepError>)
    requires WellFormed(t)
    ensures MissingOf(RequiredBase, t.columns) != [] ==> r == Failure(MissingColumns(MissingOf(RequiredBase, t.columns)))
    ensures r.Success? ==> |r.value| == |t.rows| && MissingOf(RequiredBase, t.columns) == []
  {
    var m := MissingOf(RequiredBase, t.columns);
    if m != [] then Failure(MissingColumns(m))
    else
      assert "sucursal" in RequiredBase && "ingreso_efectivo" in RequiredBase
             && "ingreso_credito" in RequiredBase && "ingreso_debito" in RequiredBase;
      var fechas := CoerceFecha(t, "fecha");
      if fechas.Failure? then Failure(fechas.error) else
      var ef := AmountColumn(t, "ingreso_efectivo");
      if ef.Failure? then Failure(ef.error) else
      var cr := AmountColumn(t, "ingreso_credito");
      if cr.Failure? then Failure(cr.error) else
      var de := AmountColumn(t, "ingreso_debito");
      if de.Failure? then Failure(de.error) else
      var tot := Totals(t, ef.value, cr.value, de.value);
      if tot.Failure? then Failure(tot.error) else
      Success(Assemble(t, fechas.value, ef.value, cr.value, de.value, tot.value))
  }

  /** Without an `ingreso_total` column, every row's total is the sum of its
      three payment kinds. */
  lemma ConvertedBalanced(t: Table)
    requires WellFormed(t) && Converted(t).Success? && TotalColumn !in t.columns
    ensures forall p :: p in Converted(t).value ==> Balanced(p)
  {
  }

  /** Every row's date is its `fecha` cell normalised to a day, and its branch
      the text of its `sucursal` cell. */
  lemma ConvertedRows(t: Table, k: nat)
    requires WellFormed(t) && Converted(t).Success? && k < |t.rows|
    ensures "fecha" in t.columns && "sucursal" in t.columns
    ensures FechaOf(t.rows[k][ColumnIndex(t.columns, "fecha").value]) == Success(Converted(t).value[k].fecha)
    ensures Converted(t).value[k].sucursal == CellStr(t.rows[k][ColumnIndex(t.columns, "sucursal").value])
  {
    assert "sucursal" in RequiredBase && "fecha" in RequiredBase;
  }

  // ---------------------------------------------------------------------------
  // Order of the keys

  /** `sort_values` order of a date: NaT last. */
  predicate FechaLe(a: Option<Day>, b: Option<Day>) {
    b.None? || (a.Some? && a.value <= b.value)
  }

  /** `sort_values(["sucursal", "fecha"])` and `groupby(..., sort=True)` order. */
  predicate KeyLe(a: Key, b: Key) {
    if a.0 == b.0 then FechaLe(a.1, b.1) else StrLe(a.0, b.0)
  }

  predicate PaymentLe(a: Payment, b: Payment) {
    KeyLe(KeyOf(a), KeyOf(b))
  }

  lemma KeyLeIsTotalPreorder()
    ensures TotalPreorder(KeyLe)
  {
    forall a: Key, b: Key ensures KeyLe(a, b) || KeyLe(b, a) {
      StrLeTotal(a.0, b.0);
    }
    forall a: Key, b: Key, c: Key | KeyLe(a, b) && KeyLe(b, c) ensures KeyLe(a, c) {
      if a.0 != b.0 && b.0 != c.0 {
        StrLeTrans(a.0, b.0, c.0);
        if a.0 == c.0 {
          StrLeAntisym(a.0, b.0);
        }
      }
    }
  }

  lemma PaymentLeIsTotalPreorder()
    ensures TotalPreorder(PaymentLe)
  {
    KeyLeIsTotalPreorder();
    assert forall a: Payment, b: Payment :: PaymentLe(a, b) == KeyLe(KeyOf(a), KeyOf(b));
  }

  /** Two keys ordered both ways are equal. */
  lemma KeyLeAntisym(a: Key, b: Key)
    requires KeyLe(a, b) && KeyLe(b, a)
    ensures a == b
  {
    if a.0 != b.0 {
      StrLeAntisym(a.0, b.0);
    }
  }

  // ---------------------------------------------------------------------------
  // Duplicate keys

  /** The rows whose key occurs at least twice in `keys`. */
  function SharedCount(rows: seq<Payment>, keys: multiset<Key>): nat {
    if rows == [] then 0 else (if keys[KeyOf(rows[0])] >= 2 then 1 else 0) + SharedCount(rows[1..], keys)
  }

  lemma {:induction false} SharedCountZero(rows: seq<Payment>, keys: multiset<Key>)
    ensures SharedCount(rows, keys) == 0 <==> forall i :: 0 <= i < |rows| ==> keys[KeyOf(rows[i])] < 2
  {
    if rows != [] {
      SharedCountZero(rows[1..], keys);
      assert forall i :: 1 <= i < |rows| ==> rows[i] == rows[1..][i - 1];
    }
  }

  /** `df.duplicated(subset=key_cols, keep=False).sum()`: the rows sharing
      their key with another row. */
  function DuplicateCount(rows: seq<Payment>): (n: nat)
    ensures n == 0 <==> DedupedKeys(rows, KeyOf)
  {
    SharedCountZero(rows, multiset(Keys(rows, KeyOf)));
    NoSharedKeys(rows);
    SharedCount(rows, multiset(Keys(rows, KeyOf)))
  }

  /** No row's key occurs twice exactly when all keys differ. */
  lemma NoSharedKeys(rows: seq<Payment>)
    ensures (forall i :: 0 <= i < |rows| ==> multiset(Keys(rows, KeyOf))[KeyOf(rows[i])] < 2) <==> DedupedKeys(rows, KeyOf)
  {
    var ks := Keys(rows, KeyOf);
    if DedupedKeys(rows, KeyOf) {
      forall i | 0 <= i < |rows| ensures multiset(ks)[KeyOf(rows[i])] < 2 {
        NoDupCount(ks, KeyOf(rows[i]));
      }
    } else {
      var i, j :| 0 <= i < j < |rows| && KeyOf(rows[i]) == KeyOf(rows[j]);
      TwoOccurrences(ks, i, j);
    }
  }

  predicate HasFecha(p: Payment) {
    p.fecha.Some?
  }

  /** One row of `groupby(key_cols, sort=True)[numeric_cols].sum()`. */
  function SumGroup(rows: seq<Payment>, k: Key): (p: Payment)
    ensures KeyOf(p) == k
  {
    var g := Group(rows, KeyOf, k);
    Payment(k.0, k.1, SumBy(g, Efectivo), SumBy(g, Credito), SumBy(g, Debito), SumBy(g, Total))
  }

  /** The keys `groupby` sees: those of the rows with a date, in key order. */
  function SumKeys(rows: seq<Payment>): seq<Key> {
    GroupKeys(Filter(rows, HasFecha), KeyOf, KeyLe)
  }

  /** `--dedupe=sum`: one row per key with the amounts of its rows summed;
      `groupby` drops the rows whose `fecha` is NaT. */
  function Summed(rows: seq<Payment>): (r: seq<Payment>)
    ensures |r| == |SumKeys(rows)|
    ensures forall i :: 0 <= i < |r| ==> KeyOf(r[i]) == SumKeys(rows)[i]
  {
    var ks := SumKeys(rows);
    seq(|ks|, i requires 0 <= i < |ks| => SumGroup(Filter(rows, HasFecha), ks[i]))
  }

  /** The summed rows are in key order, one per key of a dated row. */
  lemma SummedKeys(rows: seq<Payment>)
    ensures DedupedKeys(Summed(rows), KeyOf) && SortedBy(Summed(rows), PaymentLe)
    ensures forall k :: k in Keys(Summed(rows), KeyOf) <==> k in Keys(Filter(rows, HasFecha), KeyOf)
  {
    var r := Summed(rows);
    var ks := SumKeys(rows);
    KeyLeIsTotalPreorder();
    assert Keys(r, KeyOf) == ks;
    forall k ensures k in ks <==> k in Keys(Filter(rows, HasFecha), KeyOf) {
      if k in ks {
        var i :| 0 <= i < |Filter(rows, HasFecha)| && KeyOf(Filter(rows, HasFecha)[i]) == k;
        assert Keys(Filter(rows, HasFecha), KeyOf)[i] == k;
      }
    }
  }

  /** The keys a de-duplication leaves: those of the rows with each of the
      three strategies' reading. */
  function Deduplicated(rows: seq<Payment>, dedupe: Dedupe): (r: Result<seq<Payment>, PrepError>)
    ensures r.Failure? <==> dedupe == RaiseOnDuplicates && !DedupedKeys(rows, KeyOf)
    ensures r.Failure? ==> r.error == DuplicateKeys(DuplicateCount(rows)) && r.error.count > 0
    ensures DedupedKeys(rows, KeyOf) ==> r == Success(rows)
    ensures r.Success? ==> DedupedKeys(r.value, KeyOf)
  {
    var n := DuplicateCount(rows);
    if n == 0 then Success(rows)
    else
      match dedupe
      case RaiseOnDuplicates => Failure(DuplicateKeys(n))
      case KeepFirst =>
        DedupeFirstDistinct(SortBy(rows, PaymentLe), KeyOf);
        Success(DedupeFirst(SortBy(rows, PaymentLe), KeyOf))
      case SumDuplicates =>
        SummedKeys(rows);
        Success(Summed(rows))
  }

  // ---------------------------------------------------------------------------
  // As-of and coverage

  /** `df["fecha"].max()`, which skips NaT; `None` when every date is NaT. */
  function MaxFecha(rows: seq<Payment>): (m: Option<Day>)
    ensures m.None? <==> forall p :: p in rows ==> !HasFecha(p)
    ensures m.Some? ==> (exists p :: p in rows && p.fecha == m)
                        && forall p :: p in rows && HasFecha(p) ==> p.fecha.value <= m.value
  {
    if rows == [] then None
    else
      var rest := MaxFecha(rows[1..]);
      assert forall p :: p in rows <==> p == rows[0] || p in rows[1..];
      match rows[0].fecha
      case None => rest
      case Some(d) =>
        assert HasFecha(rows[0]) && rows[0] in rows;
        if rest.Some? && rest.value > d then rest else Some(d)
  }

  /** A max determined by the rows present does not depend on their order. */
  lemma MaxFechaOfSameRows(a: seq<Payment>, b: seq<Payment>)
    requires forall p :: p in a <==> p in b
    ensures MaxFecha(a) == MaxFecha(b)
  {
    var ma, mb := MaxFecha(a), MaxFecha(b);
    if ma.Some? {
      var pa :| pa in a && pa.fecha == ma;
      assert pa in b && HasFecha(pa);
      assert mb.Some? && ma.value <= mb.value;
      var pb :| pb in b && pb.fecha == mb;
      assert pb in a && HasFecha(pb);
      assert mb.value <= ma.value;
    }
  }

  /** In the seven days ending on the as-of date. */
  predicate InWindow(p: Payment, asof: Day) {
    p.fecha.Some? && asof - 6 <= p.fecha.value <= asof
  }

  function Sucursal(p: Payment): string {
    p.sucursal
  }

  /** The distinct dates branch `b` has in the window (`nunique` skips NaT). */
  function WindowDays(rows: seq<Payment>, b: string, asof: Day): set<Day> {
    set p | p in rows && p.sucursal == b && InWindow(p, asof) :: p.fecha.value
  }

  /** The branches of `bs` with fewer than seven dates in the window, with
      their counts. */
  function GapsAmong(bs: seq<string>, rows: seq<Payment>, asof: Day): (g: seq<(string, nat)>)
    ensures forall b, n :: (b, n) in g <==> b in bs && n == |WindowDays(rows, b, asof)| && n < 7
  {
    if bs == [] then []
    else
      var n := |WindowDays(rows, bs[0], asof)|;
      (if n < 7 then [(bs[0], n)] else []) + GapsAmong(bs[1..], rows, asof)
  }

  /** The coverage check as written: the counts are taken over the rows of
      the window only, so a branch with no row there is never reported. */
  function CoverageGapsAsWritten(rows: seq<Payment>, asof: Day): (g: seq<(string, nat)>) {
    var lastWeek := Filter(rows, p => InWindow(p, asof));
    GapsAmong(GroupKeys(lastWeek, Sucursal, StrLe), rows, asof)
  }

  /** The coverage check over every branch of the table. */
  function CoverageGaps(rows: seq<Payment>, asof: Day): (g: seq<(string, nat)>)
    ensures forall b :: b in Keys(rows, Sucursal) && |WindowDays(rows, b, asof)| < 7 ==> (b, |WindowDays(rows, b, asof)|) in g
    ensures forall e :: e in g ==> e.0 in Keys(rows, Sucursal) && e.1 < 7
  {
    var bs := GroupKeys(rows, Sucursal, StrLe);
    forall b | b in Keys(rows, Sucursal) ensures b in bs {
      var i :| 0 <= i < |rows| && Keys(rows, Sucursal)[i] == b;
    }
    forall e | e in GapsAmong(bs, rows, asof) ensures e.0 in Keys(rows, Sucursal) {
      var i :| 0 <= i < |rows| && Sucursal(rows[i]) == e.0;
    }
    GapsAmong(bs, rows, asof)
  }

  /** A branch with a row in the window is reported by both versions with the
      same count; one without is reported only by `CoverageGaps`, with 0. */
  lemma CoverageAsWrittenSkipsSilentBranches(rows: seq<Payment>, asof: Day, b: string, n: nat)
    ensures (b, n) in CoverageGapsAsWritten(rows, asof) <==> (b, n) in CoverageGaps(rows, asof) && n > 0
  {
    var inWindow := (p: Payment) => InWindow(p, asof);
    var lastWeek := Filter(rows, inWindow);
    var days := WindowDays(rows, b, asof);
    if exists p :: p in rows && p.sucursal == b && InWindow(p, asof) {
      var p :| p in rows && p.sucursal == b && InWindow(p, asof);
      assert p.fecha.value in days;
      FilterHas(rows, inWindow, p);
      var i :| 0 <= i < |lastWeek| && lastWeek[i] == p;
      var j :| 0 <= j < |rows| && rows[j] == p;
      assert Keys(rows, Sucursal)[j] == b;
    } else {
      assert days == {};
    }
  }

  /** A branch whose data stopped before the window: the table passes the
      as-of check, yet only `CoverageGaps` reports the branch. */
  lemma SilentBranchExample(asof: Day)
    ensures var rows := [Payment("A", Some(asof), 0.0, 0.0, 0.0, 0.0), Payment("B", Some(asof - 30), 0.0, 0.0, 0.0, 0.0)];
            MaxFecha(rows) == Some(asof)
            && ("B", 0) in CoverageGaps(rows, asof)
            && ("B", 0) !in CoverageGapsAsWritten(rows, asof)
  {
    var rows := [Payment("A", Some(asof), 0.0, 0.0, 0.0, 0.0), Payment("B", Some(asof - 30), 0.0, 0.0, 0.0, 0.0)];
    assert WindowDays(rows, "B", asof) == {};
    assert Keys(rows, Sucursal)[1] == "B";
    CoverageAsWrittenSkipsSilentBranches(rows, asof, "B", 0);
  }

  // ---------------------------------------------------------------------------
  // The whole preparation

  /** `validate_and_prepare_payments`: the prepared rows sorted by
      (sucursal, fecha), or the first error raised. */
  function PreparePayments(t: Table, asof: Option<Day>, dedupe: Dedupe, strict: bool): (r: Result<seq<Payment>, PrepError>)
    requires WellFormed(t)
  {
    match Converted(t)
    case Failure(e) => Failure(e)
    case Success(rows) =>
      match Deduplicated(rows, dedupe)
      case Failure(e) => Failure(e)
      case Success(d) =>
        if asof.Some? && MaxFecha(d) != Some(asof.value) then Failure(EndsAt(MaxFecha(d), asof.value))
        else if asof.Some? && strict && CoverageGaps(d, asof.value) != [] then Failure(CoverageGap(CoverageGaps(d, asof.value)))
        else Success(SortBy(d, PaymentLe))
  }

  /** The first payment column that does not convert is the error. */
  lemma ConvertedFailsAt(t: Table, i: nat)
    requires WellFormed(t) && MissingOf(RequiredBase, t.columns) == [] && CoerceFecha(t, "fecha").Success?
    requires i < |PayColumns| && forall j :: 0 <= j < |PayColumns| ==> PayColumns[j] in t.columns
    requires forall j :: 0 <= j < i ==> AmountColumn(t, PayColumns[j]).Success?
    requires AmountColumn(t, PayColumns[i]).Failure?
    ensures Converted(t) == Failure(NotNumeric(PayColumns[i]))
  {
    if i == 0 {
    } else if i == 1 {
      assert AmountColumn(t, PayColumns[0]).Success?;
    } else {
      assert AmountColumn(t, PayColumns[0]).Success? && AmountColumn(t, PayColumns[1]).Success?;
    }
  }

  /** The conversion once the dates and the three payment columns have converted. */
  lemma ConvertedFrom(t: Table, fechas: seq<Option<Day>>, ef: seq<real>, cr: seq<real>, de: seq<real>)
    requires WellFormed(t) && MissingOf(RequiredBase, t.columns) == [] && CoerceFecha(t, "fecha") == Success(fechas)
    requires forall c :: c in PayColumns ==> c in t.columns
    requires AmountColumn(t, PayColumns[0]) == Success(ef) && AmountColumn(t, PayColumns[1]) == Success(cr)
             && AmountColumn(t, PayColumns[2]) == Success(de)
    ensures "sucursal" in t.columns
    ensures Converted(t) == match Totals(t, ef, cr, de)
                            case Failure(e) => Failure(e)
                            case Success(tot) => Success(Assemble(t, fechas, ef, cr, de, tot))
  {
    assert "sucursal" in RequiredBase;
  }

  /** The loop over the payment columns, converting each in turn; the first
      that does not convert ends the preparation. */
  method PaymentAmounts(t: Table) returns (r: Result<seq<seq<real>>, PrepError>)
    requires WellFormed(t) && MissingOf(RequiredBase, t.columns) == [] && CoerceFecha(t, "fecha").Success?
    ensures r.Failure? ==> Converted(t) == Failure(r.error)
    ensures r.Success? ==> |r.value| == |PayColumns|
                           && forall j :: 0 <= j < |PayColumns| ==> AmountColumn(t, PayColumns[j]) == Success(r.value[j])
  {
    assert forall i :: 0 <= i < |PayColumns| ==> PayColumns[i] in RequiredBase;
    var amounts: seq<seq<real>> := [];
    for i := 0 to |PayColumns|
      invariant |amounts| == i
      invariant forall j :: 0 <= j < i ==> AmountColumn(t, PayColumns[j]) == Success(amounts[j])
    {
      var a := AmountColumn(t, PayColumns[i]);
      if a.Failure? {
        ConvertedFailsAt(t, i);
        return Failure(a.error);
      }
      amounts := amounts + [a.value];
    }
    return Success(amounts);
  }

  /** The column stage. */
  method ConvertColumns(t: Table) returns (r: Result<seq<Payment>, PrepError>)
    requires WellFormed(t)
    ensures r == Converted(t)
  {
    var missing := MissingOf(RequiredBase, t.columns);
    if missing != [] {
      return Failure(MissingColumns(missing));
    }
    var fechas := CoerceFecha(t, "fecha");
    if fechas.Failure? {
      return Failure(fechas.error);
    }
    var amounts := PaymentAmounts(t);
    if amounts.Failure? {
      return Failure(amounts.error);
    }
    var a := amounts.value;
    ConvertedFrom(t, fechas.value, a[0], a[1], a[2]);
    var tot := Totals(t, a[0], a[1], a[2]);
    if tot.Failure? {
      return Failure(tot.error);
    }
    r := Success(Assemble(t, fechas.value, a[0], a[1], a[2], tot.value));
  }

  /** The preparation stage by stage, as the script reassigns its frame. */
  method ValidateAndPreparePayments(t: Table, asof: Option<Day>, dedupe: Dedupe, strict: bool)
    returns (r: Result<seq<Payment>, PrepError>)
    requires WellFormed(t)
    ensures r == PreparePayments(t, asof, dedupe, strict)
  {
    var rows := ConvertColumns(t);
    if rows.Failure? {
      return Failure(rows.error);
    }
    var d := Deduplicated(rows.value, dedupe);
    if d.Failure? {
      return Failure(d.error);
    }
    if asof.Some? {
      var last := MaxFecha(d.value);
      if last != Some(asof.value) {
        return Failure(EndsAt(last, asof.value));
      }
      var gaps := CoverageGaps(d.value, asof.value);
      if strict && gaps != [] {
        return Failure(CoverageGap(gaps));
      }
    }
    r := Success(SortBy(d.value, PaymentLe));
  }

  // ---------------------------------------------------------------------------
  // What a successful preparation promises

  lemma SortKeepsRows(d: seq<Payment>)
    ensures forall p :: p in SortBy(d, PaymentLe) <==> p in d
  {
    forall p ensures p in SortBy(d, PaymentLe) <==> p in d {
      assert p in SortBy(d, PaymentLe) <==> p in multiset(SortBy(d, PaymentLe));
    }
  }

  /** A value counted twice sits at two positions. */
  lemma {:induction false} TwiceIn(a: seq<Payment>, x: Payment)
    requires multiset(a)[x] >= 2
    ensures exists k, l :: 0 <= k < l < |a| && a[k] == x && a[l] == x
  {
    assert a == [a[0]] + a[1..];
    if a[0] == x {
      assert x in multiset(a[1..]);
      var l :| 0 <= l < |a[1..]| && a[1..][l] == x;
      assert a[l + 1] == x;
    } else {
      TwiceIn(a[1..], x);
      var k, l :| 0 <= k < l < |a[1..]| && a[1..][k] == x && a[1..][l] == x;
      assert a[k + 1] == x && a[l + 1] == x;
    }
  }

  lemma DistinctRowsDistinctKeys(a: seq<Payment>, x: Payment, y: Payment)
    requires x in a && y in a && x != y && DedupedKeys(a, KeyOf)
    ensures KeyOf(x) != KeyOf(y)
  {
    var k :| 0 <= k < |a| && a[k] == x;
    var l :| 0 <= l < |a| && a[l] == y;
  }

  /** Reordering rows keeps their keys distinct. */
  lemma PermutationKeepsDistinctKeys(a: seq<Payment>, b: seq<Payment>)
    requires multiset(a) == multiset(b) && DedupedKeys(a, KeyOf)
    ensures DedupedKeys(b, KeyOf)
  {
    forall i, j | 0 <= i < j < |b| ensures KeyOf(b[i]) != KeyOf(b[j]) {
      if b[i] == b[j] {
        TwoOccurrences(b, i, j);
        TwiceIn(a, b[i]);
      } else {
        assert b[i] in multiset(b) && b[j] in multiset(b);
        DistinctRowsDistinctKeys(a, b[i], b[j]);
      }
    }
  }

  /** The stages a successful preparation went through. */
  lemma PreparedFrom(t: Table, asof: Option<Day>, dedupe: Dedupe, strict: bool)
    requires WellFormed(t) && PreparePayments(t, asof, dedupe, strict).Success?
    ensures Converted(t).Success? && Deduplicated(Converted(t).value, dedupe).Success?
    ensures var d := Deduplicated(Converted(t).value, dedupe).value;
            PreparePayments(t, asof, dedupe, strict).value == SortBy(d, PaymentLe)
            && (asof.Some? ==> MaxFecha(d) == asof)
            && (asof.Some? && strict ==> CoverageGaps(d, asof.value) == [])
  {
  }

  /** The prepared table is sorted by (sucursal, fecha) and has one row per key. */
  lemma PreparedSortedAndUnique(t: Table, asof: Option<Day>, dedupe: Dedupe, strict: bool)
    requires WellFormed(t) && PreparePayments(t, asof, dedupe, strict).Success?
    ensures SortedBy(PreparePayments(t, asof, dedupe, strict).value, PaymentLe)
    ensures DedupedKeys(PreparePayments(t, asof, dedupe, strict).value, KeyOf)
  {
    PreparedFrom(t, asof, dedupe, strict);
    var d := Deduplicated(Converted(t).value, dedupe).value;
    PaymentLeIsTotalPreorder();
    PermutationKeepsDistinctKeys(d, SortBy(d, PaymentLe));
  }

  /** With an as-of date, the prepared table ends exactly on it. */
  lemma PreparedEndsOnAsOf(t: Table, asof: Option<Day>, dedupe: Dedupe, strict: bool)
    requires WellFormed(t) && PreparePayments(t, asof, dedupe, strict).Success? && asof.Some?
    ensures MaxFecha(PreparePayments(t, asof, dedupe, strict).value) == asof
  {
    PreparedFrom(t, asof, dedupe, strict);
    var d := Deduplicated(Converted(t).value, dedupe).value;
    SortKeepsRows(d);
    MaxFechaOfSameRows(d, SortBy(d, PaymentLe));
  }

  /** With strict coverage, every branch of the prepared table has all seven
      days of the week ending on the as-of date. */
  lemma PreparedCoversLastWeek(t: Table, asof: Option<Day>, dedupe: Dedupe, strict: bool, b: string)
    requires WellFormed(t) && PreparePayments(t, asof, dedupe, strict).Success? && asof.Some? && strict
    requires b in Keys(PreparePayments(t, asof, dedupe, strict).value, Sucursal)
    ensures |WindowDays(PreparePayments(t, asof, dedupe, strict).value, b, asof.value)| == 7
  {
    PreparedFrom(t, asof, dedupe, strict);
    var d := Deduplicated(Converted(t).value, dedupe).value;
    SortKeepsRows(d);
    FullWeeks(d, SortBy(d, PaymentLe), b, asof.value);
  }

  /** No coverage gap: every branch has seven dates in the window, also
      after the rows are reordered. */
  lemma FullWeeks(d: seq<Payment>, r: seq<Payment>, b: string, asof: Day)
    requires forall p :: p in r <==> p in d
    requires CoverageGaps(d, asof) == [] && b in Keys(r, Sucursal)
    ensures |WindowDays(r, b, asof)| == 7
  {
    SameRowsSameDays(d, r, b, asof);
    var i :| 0 <= i < |r| && Sucursal(r[i]) == b;
    assert r[i] in r;
    var j :| 0 <= j < |d| && d[j] == r[i];
    assert Keys(d, Sucursal)[j] == b;
    WindowHasAtMostSeven(d, b, asof);
  }

  lemma SameRowsSameDays(a: seq<Payment>, b: seq<Payment>, s: string, asof: Day)
    requires forall p :: p in a <==> p in b
    ensures WindowDays(a, s, asof) == WindowDays(b, s, asof)
  {
  }

  /** Seven days hold at most seven dates. */
  lemma WindowHasAtMostSeven(rows: seq<Payment>, b: string, asof: Day)
    ensures |WindowDays(rows, b, asof)| <= 7
  {
    var w := {asof - 6, asof - 5, asof - 4, asof - 3, asof - 2, asof - 1, asof};
    assert WindowDays(rows, b, asof) <= w;
    assert |w| == 7;
    SubsetCard(WindowDays(rows, b, asof), w);
  }

  /** Amounts add up group by group. */
  lemma {:induction false} SumsBalanced(g: seq<Payment>)
    requires forall p :: p in g ==> Balanced(p)
    ensures SumBy(g, Total) == SumBy(g, Efectivo) + SumBy(g, Credito) + SumBy(g, Debito)
  {
    if g != [] {
      assert g[0] in g;
      SumsBalanced(g[1..]);
    }
  }

  /** Without an `ingreso_total` column every prepared row is balanced, under
      every strategy (a sum of balanced rows is balanced). */
  lemma PreparedBalanced(t: Table, asof: Option<Day>, dedupe: Dedupe, strict: bool)
    requires WellFormed(t) && PreparePayments(t, asof, dedupe, strict).Success? && TotalColumn !in t.columns
    ensures forall p :: p in PreparePayments(t, asof, dedupe, strict).value ==> Balanced(p)
  {
    PreparedFrom(t, asof, dedupe, strict);
    var rows := Converted(t).value;
    ConvertedBalanced(t);
    var d := Deduplicated(rows, dedupe).value;
    if !DedupedKeys(rows, KeyOf) && dedupe == KeepFirst {
      SortKeepsRows(rows);
    } else if !DedupedKeys(rows, KeyOf) && dedupe == SumDuplicates {
      var kept := Filter(rows, HasFecha);
      forall i | 0 <= i < |d| ensures Balanced(d[i]) {
        var g := Group(kept, KeyOf, SumKeys(rows)[i]);
        forall p | p in g ensures Balanced(p) {
          GroupMember(kept, KeyOf, SumKeys(rows)[i], p);
        }
        SumsBalanced(g);
      }
    }
    SortKeepsRows(d);
  }

  /** The summed rows' totals, column by column. */
  lemma {:induction false} SumOfSumGroups(kept: seq<Payment>, ks: seq<Key>, f: Payment -> real)
    requires forall k :: f(SumGroup(kept, k)) == SumBy(Group(kept, KeyOf, k), f)
    ensures SumBy(seq(|ks|, i requires 0 <= i < |ks| => SumGroup(kept, ks[i])), f) == SumOverGroups(kept, KeyOf, ks, f)
  {
    if ks != [] {
      SumOfSumGroups(kept, ks[1..], f);
      assert seq(|ks|, i requires 0 <= i < |ks| => SumGroup(kept, ks[i]))[1..]
          == seq(|ks[1..]|, i requires 0 <= i < |ks[1..]| => SumGroup(kept, ks[1..][i]));
    }
  }

  lemma SummedColumn(rows: seq<Payment>, f: Payment -> real)
    requires forall k :: f(SumGroup(Filter(rows, HasFecha), k)) == SumBy(Group(Filter(rows, HasFecha), KeyOf, k), f)
    ensures SumBy(Summed(rows), f) == SumBy(Filter(rows, HasFecha), f)
  {
    var kept := Filter(rows, HasFecha);
    var ks := SumKeys(rows);
    SumOfSumGroups(kept, ks, f);
    assert Summed(rows) == seq(|ks|, i requires 0 <= i < |ks| => SumGroup(kept, ks[i]));
    forall i | 0 <= i < |kept| ensures KeyOf(kept[i]) in ks {
    }
    GroupsPartition(kept, KeyOf, ks, f);
  }

  /** `--dedupe=sum` loses no money: each amount column of the summed table
      totals what the dated rows total. */
  lemma SummedConserves(rows: seq<Payment>)
    ensures SumBy(Summed(rows), Efectivo) == SumBy(Filter(rows, HasFecha), Efectivo)
    ensures SumBy(Summed(rows), Credito) == SumBy(Filter(rows, HasFecha), Credito)
    ensures SumBy(Summed(rows), Debito) == SumBy(Filter(rows, HasFecha), Debito)
    ensures SumBy(Summed(rows), Total) == SumBy(Filter(rows, HasFecha), Total)
  {
    SummedColumn(rows, Efectivo);
    SummedColumn(rows, Credito);
    SummedColumn(rows, Debito);
    SummedColumn(rows, Total);
  }

  /** The position of the first row with key `k`. */
  function FirstWithKey(s: seq<Payment>, k: Key): (i: nat)
    requires exists j :: 0 <= j < |s| && KeyOf(s[j]) == k
    ensures i < |s| && KeyOf(s[i]) == k && IsFirstOfKey(s, KeyOf, i)
  {
    if KeyOf(s[0]) == k then 0
    else
      var j :| 0 <= j < |s| && KeyOf(s[j]) == k;
      assert KeyOf(s[1..][j - 1]) == k;
      1 + FirstWithKey(s[1..], k)
  }

  /** `--dedupe=first` keeps input rows only, and one for every key. */
  lemma FirstKeepsEveryKey(rows: seq<Payment>)
    ensures forall q :: q in DedupeFirst(SortBy(rows, PaymentLe), KeyOf) ==> q in rows
    ensures forall p :: p in rows ==> exists q :: q in DedupeFirst(SortBy(rows, PaymentLe), KeyOf) && KeyOf(q) == KeyOf(p)
  {
    var s := SortBy(rows, PaymentLe);
    SortKeepsRows(rows);
    forall p | p in rows ensures exists q :: q in DedupeFirst(s, KeyOf) && KeyOf(q) == KeyOf(p) {
      var j :| 0 <= j < |s| && s[j] == p;
      var i := FirstWithKey(s, KeyOf(p));
      KeptIfFirst(s, KeyOf, i);
    }
  }

  // ---------------------------------------------------------------------------
  // The forecast script's column step

  const ForecastRequired: seq<string> := RequiredBase + [TotalColumn]

  /** The columns after `run_payments_daily_mart`'s checks: `ingreso_total`
      appended when absent and its three parts exist, else the missing parts;
      then any of the six required columns still missing. */
  function MartColumns(cols: seq<string>): (r: Result<seq<string>, PrepError>)
    ensures TotalColumn in cols && r.Success? ==> r.value == cols
    ensures TotalColumn !in cols && MissingOf(PayColumns, cols) != [] ==> r == Failure(MissingColumns(MissingOf(PayColumns, cols)))
    ensures TotalColumn !in cols && r.Success? ==> r.value == cols + [TotalColumn]
    ensures r.Success? ==> forall c :: c in ForecastRequired ==> c in r.value
  {
    var withTotal :=
      if TotalColumn in cols then Success(cols)
      else if MissingOf(PayColumns, cols) != [] then Failure(MissingColumns(MissingOf(PayColumns, cols)))
      else Success(cols + [TotalColumn]);
    match withTotal
    case Failure(e) => Failure(e)
    case Success(c) =>
      var missing := MissingOf(ForecastRequired, c);
      if missing != [] then Failure(MissingColumns(missing)) else Success(c)
  }

  /** The forecast script fails on its columns exactly when the five base
      columns of `validate_and_prepare_payments` are not all there. */
  lemma MartFailsLikePrepare(cols: seq<string>)
    ensures MartColumns(cols).Failure? <==> MissingOf(RequiredBase, cols) != []
  {
    if MissingOf(RequiredBase, cols) != [] {
      var c := MissingOf(RequiredBase, cols)[0];
      assert c in MissingOf(RequiredBase, cols) && c in ForecastRequired;
    } else {
      assert forall c :: c in PayColumns ==> c in RequiredBase;
      var c := if TotalColumn in cols then cols else cols + [TotalColumn];
      assert forall x :: x in ForecastRequired ==> x == TotalColumn || x in RequiredBase;
    }
  }

  /** The row total of the forecast script: plain addition, so a missing
      part leaves the total missing. */
  function MartTotal(ef: Option<real>, cr: Option<real>, de: Option<real>): (r: Option<real>)
    ensures r.Some? <==> ef.Some? && cr.Some? && de.Some?
  {
    if ef.Some? && cr.Some? && de.Some? then Some(ef.value + cr.value + de.value) else None
  }

  /** Where all three parts are present, both scripts derive the same total. */
  lemma MartTotalAgrees(a: Cell, b: Cell, c: Cell)
    requires a.Num? && b.Num? && c.Num?
    ensures MartTotal(ToNumber(a), ToNumber(b), ToNumber(c))
            == Some(AmountOf(a).value + AmountOf(b).value + AmountOf(c).value)
  {
  }
}
