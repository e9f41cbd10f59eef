/** Comparison of our price lists with the golden reference workbook
    (`compare_unit_prices`): per-product reference prices, the outer join of
    a list with them, the sanity filter on reference prices, the ratio flag
    and the decision to take the reference price. */
module Reconcile {
  import opened Wrappers
  import opened Text
  import opened Sorting
  import opened Rows
  import opened Cells
  import opened Pricing
  import opened Gold

  const GoldMinReasonable: real := 0.1
  const GoldMaxReasonable: real := 100000.0
  const GoldCvMax: real := 0.5
  const RatioFlagReview: real := 3.0

  /** `normalize_producto`: the matching key of a name, stripped and
      lower-cased (no other canonicalisation). */
  function Norm(s: string): (k: string)
    ensures |k| <= |s|
  {
    StripSpec(s);
    Lower(Strip(s))
  }

  // ------------------------------------------------- reference prices

  /** One row of a per-product reference table: the median of the present
      unit costs, how many were present ("Count"), and their coefficient of
      variation ("CV", taken as given). */
  datatype GoldPrice = GoldPrice(producto: string, median: Option<real>, count: nat, cv: Option<real>)

  function GoldName(g: GoldPrice): string { g.producto }

  lemma {:induction false} PresentCountBound(g: seq<GoldRow>)
    ensures |PresentUnitCosts(g)| <= |g|
  {
    if g != [] {
      PresentCountBound(g[1..]);
    }
  }

  /** The reference row of product `p`; `cvOf` gives the coefficient of
      variation of a group's present unit costs. */
  function CanonicalPrice(rows: seq<GoldRow>, p: string, cvOf: seq<real> -> Option<real>): GoldPrice {
    var g := Group(rows, ProductoOf, p);
    GoldPrice(p, MedianUnitCost(g), |PresentUnitCosts(g)|, cvOf(PresentUnitCosts(g)))
  }

  /** `_agg`: one row per product (sorted), with its median unit cost and the
      number of rows with a unit cost; empty when there are no rows. */
  function CanonicalPrices(rows: seq<GoldRow>, cvOf: seq<real> -> Option<real>): (r: seq<GoldPrice>)
    ensures forall p :: p in Keys(r, GoldName) <==> p in Keys(rows, ProductoOf)
    ensures NoDup(Keys(r, GoldName)) && SortedBy(Keys(r, GoldName), StrLe)
    ensures forall i :: 0 <= i < |r| ==> r[i].count <= |Group(rows, ProductoOf, r[i].producto)|
    ensures forall i :: 0 <= i < |r| ==> (r[i].median.None? <==> r[i].count == 0)
    ensures forall i :: 0 <= i < |r| ==>
              var g := Group(rows, ProductoOf, r[i].producto);
              r[i].median == MedianUnitCost(g) && r[i].count == |PresentUnitCosts(g)|
              && r[i].cv == cvOf(PresentUnitCosts(g))
  {
    StrLeIsTotalPreorder();
    var ps := GroupKeys(rows, ProductoOf, StrLe);
    var r := seq(|ps|, i requires 0 <= i < |ps| => CanonicalPrice(rows, ps[i], cvOf));
    assert Keys(r, GoldName) == ps;
    forall i | 0 <= i < |r| ensures r[i].count <= |Group(rows, ProductoOf, r[i].producto)| {
      PresentCountBound(Group(rows, ProductoOf, ps[i]));
    }
    r
  }

  /** `build_gold_canonical_prices`: the reference tables of the finished
      goods ("ALMACEN PRODUCTO TERMINADO") and general warehouse ("ALMACEN
      GENERAL") rows, in that order. */
  function GoldCanonicalPrices(gold: seq<GoldRow>, cvOf: seq<real> -> Option<real>): (r: (seq<GoldPrice>, seq<GoldPrice>))
    ensures forall p :: p in Keys(r.0, GoldName) <==> exists j :: 0 <= j < |gold| && gold[j].producto == p && PtOrigin(gold[j])
    ensures forall p :: p in Keys(r.1, GoldName) <==> exists j :: 0 <= j < |gold| && gold[j].producto == p && AgOrigin(gold[j])
    ensures forall i :: 0 <= i < |r.0| ==>
              var g := Group(Filter(gold, PtOrigin), ProductoOf, r.0[i].producto);
              r.0[i].median == MedianUnitCost(g) && r.0[i].count == |PresentUnitCosts(g)|
    ensures forall i :: 0 <= i < |r.1| ==>
              var g := Group(Filter(gold, AgOrigin), ProductoOf, r.1[i].producto);
              r.1[i].median == MedianUnitCost(g) && r.1[i].count == |PresentUnitCosts(g)|
  {
    var pt := Filter(gold, PtOrigin);
    var ag := Filter(gold, AgOrigin);
    forall p ensures p in Keys(pt, ProductoOf) <==> exists j :: 0 <= j < |gold| && gold[j].producto == p && PtOrigin(gold[j]) {
      if exists j :: 0 <= j < |gold| && gold[j].producto == p && PtOrigin(gold[j]) {
        var j :| 0 <= j < |gold| && gold[j].producto == p && PtOrigin(gold[j]);
        FilterHas(gold, PtOrigin, gold[j]);
      }
    }
    forall p ensures p in Keys(ag, ProductoOf) <==> exists j :: 0 <= j < |gold| && gold[j].producto == p && AgOrigin(gold[j]) {
      if exists j :: 0 <= j < |gold| && gold[j].producto == p && AgOrigin(gold[j]) {
        var j :| 0 <= j < |gold| && gold[j].producto == p && AgOrigin(gold[j]);
        FilterHas(gold, AgOrigin, gold[j]);
      }
    }
    (CanonicalPrices(pt, cvOf), CanonicalPrices(ag, cvOf))
  }

  /** Neither origin present: both tables are empty. */
  lemma NoOriginNoPrices(gold: seq<GoldRow>, cvOf: seq<real> -> Option<real>)
    requires forall j :: 0 <= j < |gold| ==> !PtOrigin(gold[j]) && !AgOrigin(gold[j])
    ensures GoldCanonicalPrices(gold, cvOf) == ([], [])
  {
    FilterNoneKept(gold, PtOrigin);
    FilterNoneKept(gold, AgOrigin);
  }

  /** `build_gold_canonical_prices` of `parse_gold_excel`'s first frame, as
      written: when no sheet yields a row, that frame is `pd.DataFrame()`
      without an "Almacen_origen" column, and reading the column raises. A
      workbook whose rows all fall outside the reference week keeps its
      columns and gives the two tables of its (empty) windowed rows. */
  function GoldCanonicalPricesAsWritten(parts: (seq<GoldRow>, seq<GoldRow>), cvOf: seq<real> -> Option<real>)
    : (r: Result<(seq<GoldPrice>, seq<GoldPrice>), string>)
    requires forall x :: x in parts.1 ==> x in parts.0
    ensures r.Failure? <==> parts.0 == []
    ensures r.Success? ==> r.value == GoldCanonicalPrices(Windowed(parts).0, cvOf)
  {
    if parts.0 == [] then Failure("KeyError: 'Almacen_origen'")
    else Success(GoldCanonicalPrices(Windowed(parts).0, cvOf))
  }

  /** A workbook from which no sheet yields a row fails as written, while the
      corrected step gives two empty tables; any other workbook gets the
      tables of its windowed rows either way. */
  lemma RowlessWorkbookFails(sheets: seq<(string, Sheet)>, mapping: map<string, string>, cvOf: seq<real> -> Option<real>)
    requires AllRectangular(sheets) && GoldParts(sheets, mapping).Success?
    ensures GoldParts(sheets, mapping).value.0 == [] ==>
              GoldCanonicalPricesAsWritten(GoldParts(sheets, mapping).value, cvOf).Failure?
              && GoldCanonicalPrices(GoldWorkbook(sheets, mapping).value.0, cvOf) == ([], [])
    ensures GoldParts(sheets, mapping).value.0 != [] ==>
              GoldCanonicalPricesAsWritten(GoldParts(sheets, mapping).value, cvOf)
              == Success(GoldCanonicalPrices(GoldWorkbook(sheets, mapping).value.0, cvOf))
  {
    var parts := GoldParts(sheets, mapping).value;
    if parts.0 == [] {
      NoOriginNoPrices([], cvOf);
    }
  }

  // ------------------------------------------------------------ our lists

  /** `load_precios(precios_path) if precios_path.exists() else
      pd.DataFrame()`: no list without the file; a KeyError when neither
      pair of columns exists; else the legacy loader's list. */
  function LoadOurList(fileExists: bool, t: Table): (r: Result<seq<PriceEntry>, string>)
    requires WellFormed(t)
    ensures !fileExists ==> r == Success([])
    ensures fileExists ==> (r.Failure? <==> LegacyPriceColumns(t.columns).None?)
    ensures r.Success? ==> DedupedKeys(r.value, EntryName) && |r.value| <= |t.rows|
    ensures fileExists && r.Success? ==>
              forall e :: e in r.value ==> FromRow(t, LegacyPriceColumns(t.columns).value.0, LegacyPriceColumns(t.columns).value.1, e)
  {
    if !fileExists then Success([]) else LegacyLoadPrecios(t)
  }

  /** `load_ag_precios(ag_path) if ag_path.exists() else pd.DataFrame()`:
      the list is empty without the file or either column (`load_ag_precios`
      returns an empty frame then); else the first row per stripped name. */
  function LoadAgList(agPath: string, fileExists: bool, t: Table): (r: seq<PriceEntry>)
    requires WellFormed(t) && agPath != ""
    ensures !fileExists || "Producto" !in t.columns || "Precio unitario" !in t.columns ==> r == []
    ensures DedupedKeys(r, EntryName) && |r| <= |t.rows|
    ensures fileExists && "Producto" in t.columns && "Precio unitario" in t.columns ==>
              forall e :: e in r ==> FromRow(t, ColumnIndex(t.columns, "Producto").value, ColumnIndex(t.columns, "Precio unitario").value, e)
  {
    match LoadAgPrecios(agPath, fileExists, t)
    case None => []
    case Some(l) => l
  }

  // ------------------------------------------------- one compared row

  /** `is_gold_reasonable`: a reference price is used only when present,
      between `minP` and 100000, and not spread out (CV above 0.5). */
  function Reasonable(gold: Option<real>, cv: Option<real>, minP: real): (ok: bool)
    ensures ok <==> gold.Some? && minP <= gold.value <= GoldMaxReasonable && (cv.None? || cv.value <= GoldCvMax)
  {
    if gold.None? || gold.value < minP || gold.value > GoldMaxReasonable then false
    else if cv.Some? && cv.value > GoldCvMax then false
    else true
  }

  /** "Diff": ours minus the reference, missing when either is. */
  function PriceDiff(ours: Option<real>, gold: Option<real>): (d: Option<real>)
    ensures d.Some? <==> ours.Some? && gold.Some?
    ensures d.Some? ==> gold.value + d.value == ours.value
  {
    if ours.Some? && gold.Some? then Some(ours.value - gold.value) else None
  }

  /** "Flag_Review": the reference is more than three times ours, or less
      than a third of it; never raised when a price is missing or ours is 0. */
  function FlagReview(ours: Option<real>, gold: Option<real>): (flag: bool)
    ensures flag ==> ours.Some? && gold.Some? && ours.value != 0.0
    ensures ours.Some? && gold.Some? && ours.value > 0.0 ==>
              (flag <==> gold.value > RatioFlagReview * ours.value || RatioFlagReview * gold.value < ours.value)
    ensures ours.Some? && gold.Some? && ours.value < 0.0 && gold.value > 0.0 ==> flag
  {
    var ratio := if ours.Some? && gold.Some? && ours.value != 0.0 then Some(gold.value / ours.value) else None;
    if ratio.Some? then RatioBounds(gold.value, ours.value); ratio.value > RatioFlagReview || ratio.value < 1.0 / RatioFlagReview
    else false
  }

  /** Comparing a ratio with 3 and with 1/3 is comparing the prices. */
  lemma RatioBounds(y: real, x: real)
    requires x != 0.0
    ensures x > 0.0 ==> (y / x > 3.0 <==> y > 3.0 * x)
    ensures x > 0.0 ==> (y / x < 1.0 / 3.0 <==> 3.0 * y < x)
    ensures x < 0.0 && y > 0.0 ==> y / x < 1.0 / 3.0
  {
    var q := y / x;
    assert y == q * x;
    if x > 0.0 {
      assert 3.0 * y == (3.0 * q) * x;
      assert q > 3.0 ==> y > 3.0 * x;
      assert y > 3.0 * x ==> q > 3.0;
      if 3.0 * q < 1.0 {
        var t := 1.0 - 3.0 * q;
        assert t > 0.0;
        assert x - 3.0 * y == t * x;
        assert t * x > 0.0;
        assert x - 3.0 * y > 0.0;
      }
      if 3.0 * q >= 1.0 {
        var u := 3.0 * q - 1.0;
        assert 3.0 * y - x == u * x;
        assert u * x >= 0.0;
        assert 3.0 * y >= x;
      }
      assert (q < 1.0 / 3.0) <==> (3.0 * q < 1.0);
    }
    if x < 0.0 && y > 0.0 {
      assert q < 0.0;
    }
  }

  /** "Use_Gold": reasonable, present, more than a cent away from ours, and
      not flagged. */
  function UseGold(reasonable: bool, gold: Option<real>, diff: Option<real>, flag: bool): (use: bool)
    ensures use <==> reasonable && gold.Some? && diff.Some? && (diff.value > 0.01 || diff.value < -0.01) && !flag
  {
    reasonable && gold.Some? && diff.Some? && Abs(diff.value) > 0.01 && !flag
  }

  function Abs(x: real): real { if x < 0.0 then -x else x }

  /** One row of the comparison report. */
  datatype Compared = Compared(
    producto: string, ours: Option<real>, gold: Option<real>, count: Option<nat>, cv: Option<real>,
    diff: Option<real>, pctDiff: Option<real>, reasonable: bool, flagReview: bool, useGold: bool)

  /** The report row of one joined pair; the name is ours, else the
      reference's, else the key. */
  function CompareRow(o: Option<PriceEntry>, g: Option<GoldPrice>, k: string): (c: Compared)
    ensures c.ours == (if o.Some? then o.value.price else None)
    ensures c.gold == (if g.Some? then g.value.median else None)
    ensures o.Some? ==> c.producto == o.value.producto
    ensures o.None? && g.Some? ==> c.producto == g.value.producto
  {
    var ours := if o.Some? then o.value.price else None;
    var gold := if g.Some? then g.value.median else None;
    var cv := if g.Some? then g.value.cv else None;
    var diff := PriceDiff(ours, gold);
    var reasonable := Reasonable(gold, cv, GoldMinReasonable);
    var flag := FlagReview(ours, gold);
    Compared(
      if o.Some? then o.value.producto else if g.Some? then g.value.producto else k,
      ours, gold, if g.Some? then Some(g.value.count) else None, cv,
      diff, PercentOf(diff, gold), reasonable, flag, UseGold(reasonable, gold, diff, flag))
  }

  /** A row that takes the reference price has both prices and a sane
      reference; ours is either zero (no ratio, so never flagged) or positive
      and within a factor of three of the reference. */
  lemma UsedGoldIsClose(c: Compared, o: Option<PriceEntry>, g: Option<GoldPrice>, k: string)
    requires c == CompareRow(o, g, k) && c.useGold
    ensures c.ours.Some? && c.gold.Some?
    ensures GoldMinReasonable <= c.gold.value <= GoldMaxReasonable
    ensures c.ours.value == 0.0 || (c.ours.value > 0.0 && c.gold.value <= RatioFlagReview * c.ours.value && c.ours.value <= RatioFlagReview * c.gold.value)
  {
    assert c.reasonable == Reasonable(c.gold, c.cv, GoldMinReasonable);
    assert c.flagReview == FlagReview(c.ours, c.gold);
  }

  // ------------------------------------------------- the outer join

  function OursKey(e: PriceEntry): string { Norm(e.producto) }
  function GoldKey(g: GoldPrice): string { Norm(g.producto) }

  /** The join keys of an outer merge: every key of either side, sorted. */
  function JoinKeys(ours: seq<PriceEntry>, gold: seq<GoldPrice>): (ks: seq<string>)
    ensures forall k :: k in ks <==> k in Keys(ours, OursKey) || k in Keys(gold, GoldKey)
  {
    var d := Distinct(Keys(ours, OursKey) + Keys(gold, GoldKey));
    var ks := SortBy(d, StrLe);
    forall k ensures k in ks <==> k in d {
      assert k in ks <==> k in multiset(ks);
    }
    ks
  }

  type Pair = (Option<PriceEntry>, Option<GoldPrice>)

  /** The merged rows of one key: the cross product of both sides' rows, or
      the rows of the one side that has the key. */
  function Paired(os: seq<PriceEntry>, gs: seq<GoldPrice>): (r: seq<Pair>)
    ensures forall p :: p in r ==> (p.0.Some? ==> p.0.value in os) && (p.1.Some? ==> p.1.value in gs)
    ensures forall p :: p in r ==> p.0.Some? || p.1.Some?
    ensures forall p :: p in r && p.0.None? ==> os == []
    ensures forall p :: p in r && p.1.None? ==> gs == []
    ensures forall e :: e in os ==> exists p :: p in r && p.0 == Some(e)
    ensures forall g :: g in gs ==> exists p :: p in r && p.1 == Some(g)
  {
    if os == [] then
      var r := seq(|gs|, j requires 0 <= j < |gs| => (None, Some(gs[j])));
      assert forall j :: 0 <= j < |gs| ==> r[j].1 == Some(gs[j]);
      r
    else if gs == [] then
      var r := seq(|os|, i requires 0 <= i < |os| => (Some(os[i]), None));
      assert forall i :: 0 <= i < |os| ==> r[i].0 == Some(os[i]);
      r
    else
      var c := CrossJoin(os, gs);
      var r := seq(|c|, i requires 0 <= i < |c| => (Some(c[i].0), Some(c[i].1)));
      forall p | p in r ensures p.0.value in os && p.1.value in gs {
        var i :| 0 <= i < |r| && r[i] == p;
        CrossJoinFrom(os, gs, c[i]);
      }
      forall e | e in os ensures exists p :: p in r && p.0 == Some(e) {
        CrossJoinHas(os, gs, e, gs[0]);
        var i :| 0 <= i < |c| && c[i] == (e, gs[0]);
        assert r[i].0 == Some(e);
      }
      forall g | g in gs ensures exists p :: p in r && p.1 == Some(g) {
        CrossJoinHas(os, gs, os[0], g);
        var i :| 0 <= i < |c| && c[i] == (os[0], g);
        assert r[i].1 == Some(g);
      }
      r
  }

  function PairsOf(ours: seq<PriceEntry>, gold: seq<GoldPrice>, k: string): seq<Pair> {
    Paired(Group(ours, OursKey, k), Group(gold, GoldKey, k))
  }

  /** `ours.merge(gold, on="_norm", how="outer")`: key by key, the pairs of
      rows sharing the key, with a missing side where only one has it. */
  function OuterJoin(ours: seq<PriceEntry>, gold: seq<GoldPrice>): seq<Pair> {
    var ks := JoinKeys(ours, gold);
    Concat(seq(|ks|, i requires 0 <= i < |ks| => PairsOf(ours, gold, ks[i])))
  }

  /** Where a pair of the join comes from, and which key it belongs to. */
  lemma OuterJoinFrom(ours: seq<PriceEntry>, gold: seq<GoldPrice>, p: Pair) returns (k: string)
    requires p in OuterJoin(ours, gold)
    ensures p in PairsOf(ours, gold, k)
    ensures p.0.Some? ==> p.0.value in ours && OursKey(p.0.value) == k
    ensures p.1.Some? ==> p.1.value in gold && GoldKey(p.1.value) == k
    ensures p.0.None? ==> p.1.Some? && forall e :: e in ours ==> OursKey(e) != k
    ensures p.1.None? ==> p.0.Some? && forall g :: g in gold ==> GoldKey(g) != k
  {
    var ks := JoinKeys(ours, gold);
    var frames := seq(|ks|, i requires 0 <= i < |ks| => PairsOf(ours, gold, ks[i]));
    var i :| 0 <= i < |frames| && p in frames[i];
    k := ks[i];
    if p.0.Some? {
      GroupMember(ours, OursKey, k, p.0.value);
    } else {
      forall e | e in ours ensures OursKey(e) != k {
        GroupMember(ours, OursKey, k, e);
      }
    }
    if p.1.Some? {
      GroupMember(gold, GoldKey, k, p.1.value);
    } else {
      forall g | g in gold ensures GoldKey(g) != k {
        GroupMember(gold, GoldKey, k, g);
      }
    }
  }

  /** The pair of `Paired` that holds a given row of ours. */
  lemma PairedLeft(os: seq<PriceEntry>, gs: seq<GoldPrice>, e: PriceEntry) returns (p: Pair)
    requires e in os
    ensures p in Paired(os, gs) && p.0 == Some(e)
  {
    var i :| 0 <= i < |os| && os[i] == e;
    if gs == [] {
      p := (Some(e), None);
      assert Paired(os, gs)[i] == p;
    } else {
      CrossJoinHas(os, gs, e, gs[0]);
      var j :| 0 <= j < |CrossJoin(os, gs)| && CrossJoin(os, gs)[j] == (e, gs[0]);
      p := (Some(e), Some(gs[0]));
      assert Paired(os, gs)[j] == p;
    }
  }

  /** The pair of `Paired` that holds a given reference row. */
  lemma PairedRight(os: seq<PriceEntry>, gs: seq<GoldPrice>, g: GoldPrice) returns (p: Pair)
    requires g in gs
    ensures p in Paired(os, gs) && p.1 == Some(g)
  {
    var j :| 0 <= j < |gs| && gs[j] == g;
    if os == [] {
      p := (None, Some(g));
      assert Paired(os, gs)[j] == p;
    } else {
      CrossJoinHas(os, gs, os[0], g);
      var i :| 0 <= i < |CrossJoin(os, gs)| && CrossJoin(os, gs)[i] == (os[0], g);
      p := (Some(os[0]), Some(g));
      assert Paired(os, gs)[i] == p;
    }
  }

  /** The position of a key of either side among the join keys. */
  lemma JoinKeyAt(ours: seq<PriceEntry>, gold: seq<GoldPrice>, k: string) returns (i: nat)
    requires k in Keys(ours, OursKey) || k in Keys(gold, GoldKey)
    ensures i < |JoinKeys(ours, gold)| && JoinKeys(ours, gold)[i] == k
  {
    var ks := JoinKeys(ours, gold);
    assert k in ks;
    i :| 0 <= i < |ks| && ks[i] == k;
  }

  /** A pair of one key's frame is a pair of the join. */
  lemma InOuterJoin(ours: seq<PriceEntry>, gold: seq<GoldPrice>, i: nat, p: Pair)
    requires i < |JoinKeys(ours, gold)| && p in PairsOf(ours, gold, JoinKeys(ours, gold)[i])
    ensures p in OuterJoin(ours, gold)
  {
    var ks := JoinKeys(ours, gold);
    var frames := seq(|ks|, i requires 0 <= i < |ks| => PairsOf(ours, gold, ks[i]));
    assert p in frames[i];
  }

  /** Every row of our list is in the join. */
  lemma OuterJoinKeepsOurs(ours: seq<PriceEntry>, gold: seq<GoldPrice>, e: PriceEntry)
    requires e in ours
    ensures exists p :: p in OuterJoin(ours, gold) && p.0 == Some(e)
  {
    var k := OursKey(e);
    assert k in Keys(ours, OursKey);
    var i := JoinKeyAt(ours, gold, k);
    GroupMember(ours, OursKey, k, e);
    var p := PairedLeft(Group(ours, OursKey, k), Group(gold, GoldKey, k), e);
    InOuterJoin(ours, gold, i, p);
  }

  /** Every reference row is in the join. */
  lemma OuterJoinKeepsGold(ours: seq<PriceEntry>, gold: seq<GoldPrice>, g: GoldPrice)
    requires g in gold
    ensures exists p :: p in OuterJoin(ours, gold) && p.1 == Some(g)
  {
    var k := GoldKey(g);
    assert k in Keys(gold, GoldKey);
    var i := JoinKeyAt(ours, gold, k);
    GroupMember(gold, GoldKey, k, g);
    var p := PairedRight(Group(ours, OursKey, k), Group(gold, GoldKey, k), g);
    InOuterJoin(ours, gold, i, p);
  }

  function ComparePair(p: Pair): Compared {
    CompareRow(p.0, p.1, if p.0.Some? then OursKey(p.0.value) else if p.1.Some? then GoldKey(p.1.value) else "")
  }

  /** `merge_and_compare`: the report row of every pair of the outer join. */
  function MergeAndCompare(ours: seq<PriceEntry>, gold: seq<GoldPrice>): (r: seq<Compared>)
    ensures |r| == |OuterJoin(ours, gold)|
    ensures forall i :: 0 <= i < |r| ==> r[i] == ComparePair(OuterJoin(ours, gold)[i])
  {
    var j := OuterJoin(ours, gold);
    seq(|j|, i requires 0 <= i < |j| => ComparePair(j[i]))
  }

  /** Every product of either side has a report row carrying its price. */
  lemma EveryProductCompared(ours: seq<PriceEntry>, gold: seq<GoldPrice>)
    ensures forall e :: e in ours ==> exists c :: c in MergeAndCompare(ours, gold) && c.producto == e.producto && c.ours == e.price
    ensures forall g :: g in gold ==> exists c :: c in MergeAndCompare(ours, gold) && Norm(c.producto) == Norm(g.producto) && c.gold == g.median
  {
    var j := OuterJoin(ours, gold);
    var r := MergeAndCompare(ours, gold);
    forall e | e in ours ensures exists c :: c in r && c.producto == e.producto && c.ours == e.price {
      OuterJoinKeepsOurs(ours, gold, e);
      var i :| 0 <= i < |j| && j[i].0 == Some(e);
      assert r[i].producto == e.producto;
    }
    forall g | g in gold ensures exists c :: c in r && Norm(c.producto) == Norm(g.producto) && c.gold == g.median {
      OuterJoinKeepsGold(ours, gold, g);
      var i :| 0 <= i < |j| && j[i].1 == Some(g);
      var k := OuterJoinFrom(ours, gold, j[i]);
      assert r[i].gold == g.median;
    }
  }

  /** A report row without a reference price or without our price never
      takes the reference. */
  lemma OneSidedRowsKeepOurs(ours: seq<PriceEntry>, gold: seq<GoldPrice>, c: Compared)
    requires c in MergeAndCompare(ours, gold)
    requires c.ours.None? || c.gold.None?
    ensures !c.useGold && !c.flagReview
  {
  }

  // ------------------------------------------------- empty reference side

  /** The comparison as written: a reference side without rows is a table
      without columns, and reading its "Producto" column raises. */
  function CompareAsWritten(ours: seq<PriceEntry>, gold: seq<GoldPrice>): (r: Result<seq<Compared>, string>)
    ensures r.Success? ==> r.value == MergeAndCompare(ours, gold)
    ensures r.Failure? <==> gold == []
  {
    if gold == [] then Failure("KeyError: 'Producto'") else Success(MergeAndCompare(ours, gold))
  }

  /** A workbook with rows of one origin only: the other origin's list
      cannot be compared as written. */
  lemma OneOriginWorkbookFails(gold: seq<GoldRow>, cvOf: seq<real> -> Option<real>, ours: seq<PriceEntry>)
    requires forall j :: 0 <= j < |gold| ==> AgOrigin(gold[j]) && !PtOrigin(gold[j])
    ensures CompareAsWritten(ours, GoldCanonicalPrices(gold, cvOf).0).Failure?
  {
    FilterNoneKept(gold, PtOrigin);
  }

  /** The same comparison against no reference rows: every row of our list
      is reported, unmatched and unchanged. */
  lemma CompareWithoutReference(ours: seq<PriceEntry>)
    ensures forall c :: c in MergeAndCompare(ours, []) ==> c.gold.None? && !c.useGold
    ensures forall e :: e in ours ==> exists c :: c in MergeAndCompare(ours, []) && c.producto == e.producto && c.ours == e.price
  {
    EveryProductCompared(ours, []);
    forall c | c in MergeAndCompare(ours, []) ensures c.gold.None? {
      var j := OuterJoin(ours, []);
      var i :| 0 <= i < |j| && ComparePair(j[i]) == c;
      var k := OuterJoinFrom(ours, [], j[i]);
    }
  }
}
