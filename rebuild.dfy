/** The rebuilt price lists of `compare_unit_prices`: our list with the
    reference prices taken where the comparison says so, the reasonable
    reference-only products appended, and the transferred products missing
    from both lists added from the reference. */
module Rebuild {
  import opened Wrappers
  import opened Text
  import opened Sorting
  import opened Rows
  import opened Pricing
  import opened Reconcile

  /** (stripped name, reference price) taken from one comparison row. */
  type Update = (string, real)

  /** The rows marked "Use_Gold", in report order. */
  function Updates(cmp: seq<Compared>): (us: seq<Update>)
    ensures forall u :: u in us ==> exists c :: c in cmp && c.useGold && c.gold.Some? && u == (Strip(c.producto), c.gold.value)
  {
    if cmp == [] then []
    else
      var rest := Updates(cmp[1..]);
      assert forall c :: c in cmp[1..] ==> c in cmp;
      if cmp[0].useGold && cmp[0].gold.Some? then [(Strip(cmp[0].producto), cmp[0].gold.value)] + rest else rest
  }

  /** The mask of one update: the stripped, lower-cased names agree. */
  predicate Matches(e: PriceEntry, u: Update) {
    Norm(e.producto) == Lower(u.0)
  }

  /** The position of the last update matching `e`. */
  function LastMatch(e: PriceEntry, us: seq<Update>): (r: Option<nat>)
    ensures r.Some? ==> r.value < |us| && Matches(e, us[r.value])
    ensures r.Some? ==> forall j :: r.value < j < |us| ==> !Matches(e, us[j])
    ensures r.None? ==> forall j :: 0 <= j < |us| ==> !Matches(e, us[j])
  {
    if us == [] then None
    else if Matches(e, us[|us| - 1]) then Some(|us| - 1)
    else LastMatch(e, us[..|us| - 1])
  }

  /** One row after the updates `us`, applied one after the other. */
  function UpdatedBy(e: PriceEntry, us: seq<Update>): (r: PriceEntry)
    ensures r.producto == e.producto
  {
    if us == [] then e
    else
      var prev := UpdatedBy(e, us[..|us| - 1]);
      if Matches(prev, us[|us| - 1]) then PriceEntry(prev.producto, Some(Round(us[|us| - 1].1, 2))) else prev
  }

  /** The last matching update wins; a row no update matches is unchanged. */
  lemma {:induction false} UpdatedByLastMatch(e: PriceEntry, us: seq<Update>)
    ensures LastMatch(e, us).None? ==> UpdatedBy(e, us) == e
    ensures LastMatch(e, us).Some? ==> UpdatedBy(e, us) == PriceEntry(e.producto, Some(Round(us[LastMatch(e, us).value].1, 2)))
  {
    if us != [] {
      UpdatedByLastMatch(e, us[..|us| - 1]);
    }
  }

  /** The update loop of `_build_new`: for every update, every row of the
      list matching it gets the reference price rounded to cents. */
  method ApplyUpdates(ours: seq<PriceEntry>, us: seq<Update>) returns (result: seq<PriceEntry>)
    ensures |result| == |ours|
    ensures forall i :: 0 <= i < |ours| ==> result[i] == UpdatedBy(ours[i], us)
  {
    result := ours;
    var k := 0;
    while k < |us|
      invariant 0 <= k <= |us|
      invariant |result| == |ours|
      invariant forall i :: 0 <= i < |ours| ==> result[i] == UpdatedBy(ours[i], us[..k])
    {
      var u := us[k];
      result := seq(|result|, i requires 0 <= i < |result| =>
                      if Matches(result[i], u) then PriceEntry(result[i].producto, Some(Round(u.1, 2))) else result[i]);
      assert us[..k + 1][..k] == us[..k];
      k := k + 1;
    }
    assert us[..|us|] == us;
  }

  /** The names of a list as matching keys. */
  function NormSet(rows: seq<PriceEntry>): set<string> {
    set e | e in rows :: Norm(e.producto)
  }

  /** The reference-only products with a reasonable price: our price missing,
      the reference present and reasonable. */
  function GoldOnly(cmp: seq<Compared>): (cs: seq<Update>)
    ensures forall u :: u in cs ==> Strip(u.0) == u.0
    ensures forall u :: u in cs ==> exists c :: c in cmp && c.ours.None? && c.gold.Some? && c.reasonable && u == (Strip(c.producto), c.gold.value)
  {
    if cmp == [] then []
    else
      var rest := GoldOnly(cmp[1..]);
      assert forall c :: c in cmp[1..] ==> c in cmp;
      StripIdempotent(cmp[0].producto);
      if cmp[0].ours.None? && cmp[0].gold.Some? && cmp[0].reasonable then [(Strip(cmp[0].producto), cmp[0].gold.value)] + rest else rest
  }

  /** The rows the append loop adds: each candidate whose lower-cased name is
      not yet known, the known names growing as rows are added. */
  function AppendNew(existing: set<string>, cands: seq<Update>): (r: seq<PriceEntry>)
    ensures forall e :: e in r ==> exists u :: u in cands && e == PriceEntry(u.0, Some(Round(u.1, 2)))
    ensures forall e :: e in r ==> Lower(e.producto) !in existing
    decreases |cands|
  {
    if cands == [] then []
    else
      var u := cands[0];
      assert forall v :: v in cands[1..] ==> v in cands;
      if Lower(u.0) in existing then AppendNew(existing, cands[1..])
      else [PriceEntry(u.0, Some(Round(u.1, 2)))] + AppendNew(existing + {Lower(u.0)}, cands[1..])
  }

  /** No two appended rows share a lower-cased name. */
  lemma {:induction false} AppendNewOnce(existing: set<string>, cands: seq<Update>)
    ensures forall i, j :: 0 <= i < j < |AppendNew(existing, cands)| ==>
              Lower(AppendNew(existing, cands)[i].producto) != Lower(AppendNew(existing, cands)[j].producto)
    decreases |cands|
  {
    if cands != [] {
      var u := cands[0];
      if Lower(u.0) in existing {
        AppendNewOnce(existing, cands[1..]);
      } else {
        var rest := AppendNew(existing + {Lower(u.0)}, cands[1..]);
        AppendNewOnce(existing + {Lower(u.0)}, cands[1..]);
        assert forall j :: 0 <= j < |rest| ==> rest[j] in rest;
      }
    }
  }

  /** Every candidate's name ends up known: it was already, or it was added. */
  lemma {:induction false} AppendNewCovers(existing: set<string>, cands: seq<Update>)
    ensures forall u :: u in cands ==> Lower(u.0) in existing || exists e :: e in AppendNew(existing, cands) && Lower(e.producto) == Lower(u.0)
    decreases |cands|
  {
    if cands != [] {
      var u := cands[0];
      if Lower(u.0) in existing {
        AppendNewCovers(existing, cands[1..]);
      } else {
        AppendNewCovers(existing + {Lower(u.0)}, cands[1..]);
        var r := AppendNew(existing, cands);
        assert r[0] in r;
      }
    }
  }

  /** The append loop of `_build_new`. */
  method AddGoldOnly(result: seq<PriceEntry>, cands: seq<Update>) returns (out: seq<PriceEntry>)
    ensures out == result + AppendNew(NormSet(result), cands)
  {
    out := result;
    var existing := NormSet(result);
    var k := 0;
    while k < |cands|
      invariant 0 <= k <= |cands|
      invariant out + AppendNew(existing, cands[k..]) == result + AppendNew(NormSet(result), cands)
    {
      var u := cands[k];
      assert cands[k..][1..] == cands[k + 1..];
      if Lower(u.0) !in existing {
        out := out + [PriceEntry(u.0, Some(Round(u.1, 2)))];
        existing := existing + {Lower(u.0)};
      }
      k := k + 1;
    }
  }

  function Updated(ours: seq<PriceEntry>, us: seq<Update>): (r: seq<PriceEntry>)
    ensures |r| == |ours| && forall i :: 0 <= i < |ours| ==> r[i].producto == ours[i].producto
  {
    seq(|ours|, i requires 0 <= i < |ours| => UpdatedBy(ours[i], us))
  }

  /** The rows of `_build_new` before the final de-duplication. */
  function Rebuilt(ours: seq<PriceEntry>, cmp: seq<Compared>): seq<PriceEntry> {
    Updated(ours, Updates(cmp)) + AppendNew(NormSet(ours), GoldOnly(cmp))
  }

  /** `_build_new(ours, cmp, add_gold_only=True)`. */
  method BuildNew(ours: seq<PriceEntry>, cmp: seq<Compared>) returns (r: seq<PriceEntry>)
    ensures r == DedupeFirst(Rebuilt(ours, cmp), EntryName)
    ensures DedupedKeys(r, EntryName)
  {
    var result := ApplyUpdates(ours, Updates(cmp));
    assert result == Updated(ours, Updates(cmp));
    assert NormSet(result) == NormSet(ours) by {
      forall x | x in NormSet(ours) ensures x in NormSet(result) {
        var e :| e in ours && Norm(e.producto) == x;
        var i :| 0 <= i < |ours| && ours[i] == e;
        assert result[i] in result;
      }
    }
    result := AddGoldOnly(result, GoldOnly(cmp));
    r := DedupeFirst(result, EntryName);
    DedupeFirstDistinct(result, EntryName);
  }

  /** The rebuilt list keeps the first row of each of our names, with its
      updated price. */
  lemma RebuiltKeepsOurs(ours: seq<PriceEntry>, cmp: seq<Compared>, i: nat)
    requires i < |ours| && IsFirstOfKey(ours, EntryName, i)
    ensures UpdatedBy(ours[i], Updates(cmp)) in DedupeFirst(Rebuilt(ours, cmp), EntryName)
  {
    var rows := Rebuilt(ours, cmp);
    DedupeFirstKeepsFirsts(rows, EntryName);
    assert forall k :: 0 <= k < i ==> rows[k].producto == ours[k].producto;
    assert IsFirstOfKey(rows, EntryName, i);
  }

  /** An appended product's name is none of our names. */
  lemma AppendedNameIsNew(ours: seq<PriceEntry>, cmp: seq<Compared>, e: PriceEntry, o: PriceEntry)
    requires e in AppendNew(NormSet(ours), GoldOnly(cmp)) && o in ours
    ensures o.producto != e.producto
  {
    var c :| c in GoldOnly(cmp) && e == PriceEntry(c.0, Some(Round(c.1, 2)));
    assert Norm(o.producto) in NormSet(ours);
  }

  /** Two appended rows have different names. */
  lemma AppendedNamesDiffer(existing: set<string>, cands: seq<Update>, i: nat, j: nat)
    requires i < j < |AppendNew(existing, cands)|
    ensures AppendNew(existing, cands)[i].producto != AppendNew(existing, cands)[j].producto
  {
    AppendNewOnce(existing, cands);
  }

  /** No row before an appended one carries its name. */
  lemma AppendedIsFirst(ours: seq<PriceEntry>, cmp: seq<Compared>, j: nat)
    requires j < |AppendNew(NormSet(ours), GoldOnly(cmp))|
    ensures |ours| + j < |Rebuilt(ours, cmp)| && IsFirstOfKey(Rebuilt(ours, cmp), EntryName, |ours| + j)
    ensures Rebuilt(ours, cmp)[|ours| + j] == AppendNew(NormSet(ours), GoldOnly(cmp))[j]
  {
    var u := Updated(ours, Updates(cmp));
    var a := AppendNew(NormSet(ours), GoldOnly(cmp));
    var rows := Rebuilt(ours, cmp);
    assert rows == u + a;
    var e := a[j];
    assert e in a;
    forall k | 0 <= k < |u| + j ensures rows[k].producto != e.producto {
      if k < |u| {
        assert ours[k] in ours;
        AppendedNameIsNew(ours, cmp, e, ours[k]);
      } else {
        assert rows[k] == a[k - |u|];
        AppendedNamesDiffer(NormSet(ours), GoldOnly(cmp), k - |u|, j);
      }
    }
    assert rows[|u| + j] == e;
  }

  /** The rebuilt list keeps every appended reference-only product: its
      name is new to our list and to the other appended rows. */
  lemma RebuiltKeepsAppended(ours: seq<PriceEntry>, cmp: seq<Compared>, j: nat)
    requires j < |AppendNew(NormSet(ours), GoldOnly(cmp))|
    ensures AppendNew(NormSet(ours), GoldOnly(cmp))[j] in DedupeFirst(Rebuilt(ours, cmp), EntryName)
  {
    var rows := Rebuilt(ours, cmp);
    AppendedIsFirst(ours, cmp, j);
    KeptAt(rows, EntryName, |ours| + j, AppendNew(NormSet(ours), GoldOnly(cmp))[j]);
  }

  // ------------------------------------------------- both lists

  /** The reference table as a price list, used when our list is empty. */
  function GoldList(gold: seq<GoldPrice>): (r: seq<PriceEntry>)
    ensures |r| == |gold|
    ensures forall i :: 0 <= i < |gold| ==> r[i].producto == gold[i].producto && r[i].price == gold[i].median
  {
    seq(|gold|, i requires 0 <= i < |gold| => PriceEntry(gold[i].producto, gold[i].median))
  }

  /** The new list of one origin: rebuilt from the comparison when we have a
      list, else the reference table unchanged. */
  method NewList(ours: seq<PriceEntry>, gold: seq<GoldPrice>) returns (r: seq<PriceEntry>)
    ensures ours == [] ==> r == GoldList(gold)
    ensures ours != [] ==> r == DedupeFirst(Rebuilt(ours, MergeAndCompare(ours, gold)), EntryName)
    ensures ours != [] ==> DedupedKeys(r, EntryName)
  {
    if ours == [] {
      r := GoldList(gold);
    } else {
      r := BuildNew(ours, MergeAndCompare(ours, gold));
    }
  }

  /** The new list as written: with no list of ours, the reference table's
      two columns are selected, and a reference table with no rows is
      `pd.DataFrame()` without columns, so the selection raises KeyError. */
  function NewListAsWritten(ours: seq<PriceEntry>, gold: seq<GoldPrice>): (r: Result<seq<PriceEntry>, string>)
    ensures r.Failure? <==> ours == [] && gold == []
    ensures r.Success? && ours == [] ==> r.value == GoldList(gold)
    ensures r.Success? && ours != [] ==> r.value == DedupeFirst(Rebuilt(ours, MergeAndCompare(ours, gold)), EntryName)
  {
    if ours == [] && gold == [] then Failure("KeyError: \"None of [Index(['Producto', 'Precio_unitario'])] are in the [columns]\"")
    else if ours == [] then Success(GoldList(gold))
    else Success(DedupeFirst(Rebuilt(ours, MergeAndCompare(ours, gold)), EntryName))
  }

  /** Where the two differ: with neither a list of ours nor a reference row,
      the code raises, while the intended new list is simply empty. */
  lemma NewListAsWrittenFailsWhenEmpty()
    ensures NewListAsWritten([], []).Failure?
    ensures GoldList([]) == []
  {
  }

  // ------------------------------------------------- transfer products

  /** A transferred product: its matching key, its first name, and whether
      any of its lines leaves the general warehouse. */
  datatype TransferProduct = TransferProduct(norm: string, producto: string, isAg: bool)

  function TransferKey(t: Transfer): string { Norm(Strip(t.producto)) }
  predicate IsAgLine(t: Transfer) { Contains(t.origen, "ALMACEN GENERAL") }

  /** "any" over the group's lines. */
  function AnyAg(g: seq<Transfer>): (b: bool)
    ensures b <==> exists t :: t in g && IsAgLine(t)
  {
    if g == [] then false
    else
      assert forall t :: t in g <==> t == g[0] || t in g[1..];
      IsAgLine(g[0]) || AnyAg(g[1..])
  }

  function ProductOf(trans: seq<Transfer>, k: string): (tp: TransferProduct)
    ensures tp.norm == k
  {
    var g := Group(trans, TransferKey, k);
    if g == [] then TransferProduct(k, "", false)
    else TransferProduct(k, g[0].producto, AnyAg(g))
  }

  function ProductNorm(tp: TransferProduct): string { tp.norm }

  /** The `groupby("_norm")` of the transfer lines: one product per key,
      sorted, with its first name and "any line from AG". */
  function TransferProducts(trans: seq<Transfer>): (r: seq<TransferProduct>)
    ensures forall k :: k in Keys(r, ProductNorm) <==> k in Keys(trans, TransferKey)
    ensures NoDup(Keys(r, ProductNorm))
    ensures forall i :: 0 <= i < |r| ==> r[i] == ProductOf(trans, r[i].norm)
  {
    var ks := GroupKeys(trans, TransferKey, StrLe);
    var r := seq(|ks|, i requires 0 <= i < |ks| => ProductOf(trans, ks[i]));
    assert Keys(r, ProductNorm) == ks;
    r
  }

  /** A transfer product's name has its key, and it counts as AG exactly
      when one of its lines leaves the general warehouse. */
  lemma TransferProductSpec(trans: seq<Transfer>, tp: TransferProduct)
    requires tp in TransferProducts(trans)
    ensures Norm(tp.producto) == tp.norm
    ensures tp.isAg <==> exists t :: t in trans && TransferKey(t) == tp.norm && IsAgLine(t)
  {
    var r := TransferProducts(trans);
    var i :| 0 <= i < |r| && r[i] == tp;
    assert tp.norm in Keys(r, ProductNorm);
    var j :| 0 <= j < |trans| && TransferKey(trans[j]) == tp.norm;
    var g := Group(trans, TransferKey, tp.norm);
    assert g[0] in g;
    GroupMember(trans, TransferKey, tp.norm, g[0]);
    StripIdempotent(g[0].producto);
    forall t | t in trans && TransferKey(t) == tp.norm ensures t in g {
      GroupMember(trans, TransferKey, tp.norm, t);
    }
    forall t | t in g ensures t in trans {
      GroupMember(trans, TransferKey, tp.norm, t);
    }
  }

  /** `dict(zip(normalized names, prices))`: a later name with the same key
      overwrites an earlier one. */
  function NormPrices(gold: seq<GoldPrice>): (m: map<string, Option<real>>)
    ensures forall k :: k in m <==> k in Keys(gold, GoldKey)
  {
    if gold == [] then map[]
    else
      var last := gold[|gold| - 1];
      assert Keys(gold, GoldKey) == Keys(gold[..|gold| - 1], GoldKey) + [GoldKey(last)];
      NormPrices(gold[..|gold| - 1])[GoldKey(last) := last.median]
  }

  /** `_ok`: a reference price that is present and within [0.1, 100000]. */
  predicate OkPrice(m: map<string, Option<real>>, k: string) {
    k in m && m[k].Some? && GoldMinReasonable <= m[k].value <= GoldMaxReasonable
  }

  /** Which list a missing product goes to (true: the AG list) and at what
      reference price: its own origin's price when usable, else the other
      origin's. */
  function Choice(tp: TransferProduct, pt: map<string, Option<real>>, ag: map<string, Option<real>>): (r: Option<(bool, real)>)
    ensures r.None? <==> !OkPrice(pt, tp.norm) && !OkPrice(ag, tp.norm)
    ensures r.Some? ==> r.value.0 == tp.isAg && GoldMinReasonable <= r.value.1 <= GoldMaxReasonable
    ensures r.Some? && !tp.isAg && OkPrice(pt, tp.norm) ==> r.value.1 == pt[tp.norm].value
    ensures r.Some? && tp.isAg && OkPrice(ag, tp.norm) ==> r.value.1 == ag[tp.norm].value
    ensures r.Some? ==> (OkPrice(pt, tp.norm) && r.value.1 == pt[tp.norm].value) || (OkPrice(ag, tp.norm) && r.value.1 == ag[tp.norm].value)
  {
    var n := tp.norm;
    if !tp.isAg && OkPrice(pt, n) then Some((false, pt[n].value))
    else if tp.isAg && OkPrice(ag, n) then Some((true, ag[n].value))
    else if !tp.isAg && OkPrice(ag, n) then Some((false, ag[n].value))
    else if tp.isAg && OkPrice(pt, n) then Some((true, pt[n].value))
    else None
  }

  /** The rows the fill loop appends to one list (`toAg` picks which). */
  function Added(missing: seq<TransferProduct>, pt: map<string, Option<real>>, ag: map<string, Option<real>>, toAg: bool): (r: seq<PriceEntry>)
    ensures |r| <= |missing|
  {
    if missing == [] then []
    else
      var init := missing[..|missing| - 1];
      var tp := missing[|missing| - 1];
      var rest := Added(init, pt, ag, toAg);
      var c := Choice(tp, pt, ag);
      if c.Some? && c.value.0 == toAg then rest + [PriceEntry(tp.producto, Some(Round(c.value.1, 2)))] else rest
  }

  /** Each added row is a missing product of the list's origin with a
      usable reference price, rounded to cents. */
  lemma {:induction false} AddedFrom(missing: seq<TransferProduct>, pt: map<string, Option<real>>, ag: map<string, Option<real>>, toAg: bool, e: PriceEntry)
    requires e in Added(missing, pt, ag, toAg)
    ensures exists tp :: tp in missing && e.producto == tp.producto && tp.isAg == toAg
                         && Choice(tp, pt, ag).Some? && e.price == Some(Round(Choice(tp, pt, ag).value.1, 2))
  {
    var init := missing[..|missing| - 1];
    var tp := missing[|missing| - 1];
    if e in Added(init, pt, ag, toAg) {
      AddedFrom(init, pt, ag, toAg, e);
      assert forall x :: x in init ==> x in missing;
    }
  }

  /** Where the product of an added row stands among the missing ones. */
  lemma AddedKeyAt(missing: seq<TransferProduct>, pt: map<string, Option<real>>, ag: map<string, Option<real>>, toAg: bool, e: PriceEntry)
    returns (j: nat)
    requires e in Added(missing, pt, ag, toAg)
    requires forall tp :: tp in missing ==> Norm(tp.producto) == tp.norm
    ensures j < |missing| && EntryKey(e) == missing[j].norm
  {
    AddedFrom(missing, pt, ag, toAg, e);
    var x :| x in missing && e.producto == x.producto && x.isAg == toAg
             && Choice(x, pt, ag).Some? && e.price == Some(Round(Choice(x, pt, ag).value.1, 2));
    j :| 0 <= j < |missing| && missing[j] == x;
  }

  /** With distinct keys, each missing product is added at most once. */
  lemma {:induction false} AddedOnce(missing: seq<TransferProduct>, pt: map<string, Option<real>>, ag: map<string, Option<real>>, toAg: bool)
    requires NoDup(Keys(missing, ProductNorm))
    requires forall tp :: tp in missing ==> Norm(tp.producto) == tp.norm
    ensures DedupedKeys(Added(missing, pt, ag, toAg), EntryKey)
  {
    if missing != [] {
      var init := missing[..|missing| - 1];
      var tp := missing[|missing| - 1];
      assert Keys(init, ProductNorm) == Keys(missing, ProductNorm)[..|missing| - 1];
      assert forall x :: x in init ==> x in missing;
      AddedOnce(init, pt, ag, toAg);
      var rest := Added(init, pt, ag, toAg);
      forall e | e in rest ensures EntryKey(e) != tp.norm {
        var j := AddedKeyAt(init, pt, ag, toAg, e);
        assert Keys(missing, ProductNorm)[j] != Keys(missing, ProductNorm)[|missing| - 1];
      }
      var row := PriceEntry(tp.producto, Some(Round(if Choice(tp, pt, ag).Some? then Choice(tp, pt, ag).value.1 else 0.0, 2)));
      assert EntryKey(row) == tp.norm;
      DedupedKeysAppend(rest, row, EntryKey);
    }
  }

  function EntryKey(e: PriceEntry): string { Norm(e.producto) }

  /** The transfer products whose key is in neither list. */
  function Missing(tps: seq<TransferProduct>, known: set<string>): (r: seq<TransferProduct>)
    ensures forall tp :: tp in r <==> tp in tps && tp.norm !in known
  {
    var r := Filter(tps, (tp: TransferProduct) => tp.norm !in known);
    forall tp ensures tp in r <==> tp in tps && tp.norm !in known {
      FilterHas(tps, (tp: TransferProduct) => tp.norm !in known, tp);
    }
    r
  }

  /** One more missing product whose row goes to the list: it is appended. */
  lemma AddedAppends(missing: seq<TransferProduct>, pt: map<string, Option<real>>, ag: map<string, Option<real>>, k: nat, toAg: bool)
    requires k < |missing| && Choice(missing[k], pt, ag).Some? && Choice(missing[k], pt, ag).value.0 == toAg
    ensures Added(missing[..k + 1], pt, ag, toAg)
         == Added(missing[..k], pt, ag, toAg) + [PriceEntry(missing[k].producto, Some(Round(Choice(missing[k], pt, ag).value.1, 2)))]
  {
    assert missing[..k + 1][..k] == missing[..k];
  }

  /** One more missing product whose row does not go to the list: the list
      is unchanged. */
  lemma AddedSkips(missing: seq<TransferProduct>, pt: map<string, Option<real>>, ag: map<string, Option<real>>, k: nat, toAg: bool)
    requires k < |missing| && (Choice(missing[k], pt, ag).None? || Choice(missing[k], pt, ag).value.0 != toAg)
    ensures Added(missing[..k + 1], pt, ag, toAg) == Added(missing[..k], pt, ag, toAg)
  {
    assert missing[..k + 1][..k] == missing[..k];
  }

  /** The fill loop: each missing product goes to the list of its origin at
      the chosen reference price, rounded to cents; `added` counts them. */
  method FillMissing(pt: seq<PriceEntry>, ag: seq<PriceEntry>, missing: seq<TransferProduct>,
                     goldPt: map<string, Option<real>>, goldAg: map<string, Option<real>>)
    returns (newPt: seq<PriceEntry>, newAg: seq<PriceEntry>, added: nat)
    ensures newPt == pt + Added(missing, goldPt, goldAg, false)
    ensures newAg == ag + Added(missing, goldPt, goldAg, true)
    ensures added == |newPt| - |pt| + |newAg| - |ag|
  {
    newPt, newAg, added := pt, ag, 0;
    var k := 0;
    while k < |missing|
      invariant 0 <= k <= |missing|
      invariant newPt == pt + Added(missing[..k], goldPt, goldAg, false)
      invariant newAg == ag + Added(missing[..k], goldPt, goldAg, true)
      invariant added == |newPt| - |pt| + |newAg| - |ag|
    {
      var tp := missing[k];
      var c := Choice(tp, goldPt, goldAg);
      if c.Some? {
        var row := PriceEntry(tp.producto, Some(Round(c.value.1, 2)));
        if c.value.0 {
          AddedAppends(missing, goldPt, goldAg, k, true);
          AddedSkips(missing, goldPt, goldAg, k, false);
          AppendOne(ag, Added(missing[..k], goldPt, goldAg, true), row);
          newAg := newAg + [row];
        } else {
          AddedAppends(missing, goldPt, goldAg, k, false);
          AddedSkips(missing, goldPt, goldAg, k, true);
          AppendOne(pt, Added(missing[..k], goldPt, goldAg, false), row);
          newPt := newPt + [row];
        }
        added := added + 1;
      } else {
        AddedSkips(missing, goldPt, goldAg, k, true);
        AddedSkips(missing, goldPt, goldAg, k, false);
      }
      k := k + 1;
    }
    assert missing[..|missing|] == missing;
  }

  /** The transfer fill of `compare_unit_prices.main`: the transferred
      products missing from both new lists are added from the reference, and
      both lists are de-duplicated when anything was added. */
  method FillFromTransfers(pt: seq<PriceEntry>, ag: seq<PriceEntry>, trans: seq<Transfer>,
                           goldPt: seq<GoldPrice>, goldAg: seq<GoldPrice>)
    returns (newPt: seq<PriceEntry>, newAg: seq<PriceEntry>)
    ensures var missing := Missing(TransferProducts(trans), NormSet(pt) + NormSet(ag));
            var addPt := Added(missing, NormPrices(goldPt), NormPrices(goldAg), false);
            var addAg := Added(missing, NormPrices(goldPt), NormPrices(goldAg), true);
            if addPt == [] && addAg == [] then newPt == pt && newAg == ag
            else newPt == DedupeFirst(pt + addPt, EntryName) && newAg == DedupeFirst(ag + addAg, EntryName)
  {
    var missing := Missing(TransferProducts(trans), NormSet(pt) + NormSet(ag));
    var added;
    newPt, newAg, added := FillMissing(pt, ag, missing, NormPrices(goldPt), NormPrices(goldAg));
    if added > 0 {
      newPt := DedupeFirst(newPt, EntryName);
      newAg := DedupeFirst(newAg, EntryName);
    }
  }

  /** What the fill adds to one list holds each product at most once. */
  lemma FilledOnce(pt: seq<PriceEntry>, ag: seq<PriceEntry>, trans: seq<Transfer>,
                   goldPt: seq<GoldPrice>, goldAg: seq<GoldPrice>, toAg: bool)
    ensures DedupedKeys(Added(Missing(TransferProducts(trans), NormSet(pt) + NormSet(ag)), NormPrices(goldPt), NormPrices(goldAg), toAg), EntryKey)
  {
    var tps := TransferProducts(trans);
    var missing := Missing(tps, NormSet(pt) + NormSet(ag));
    MissingNoDup(tps, NormSet(pt) + NormSet(ag));
    forall tp | tp in missing ensures Norm(tp.producto) == tp.norm {
      TransferProductSpec(trans, tp);
    }
    AddedOnce(missing, NormPrices(goldPt), NormPrices(goldAg), toAg);
  }

  /** A product the fill adds is new to both lists, and goes to the list of
      its own origin: the AG list exactly when one of its lines leaves the
      general warehouse. */
  lemma FilledProductIsNew(pt: seq<PriceEntry>, ag: seq<PriceEntry>, trans: seq<Transfer>,
                           goldPt: seq<GoldPrice>, goldAg: seq<GoldPrice>, toAg: bool, e: PriceEntry)
    requires e in Added(Missing(TransferProducts(trans), NormSet(pt) + NormSet(ag)), NormPrices(goldPt), NormPrices(goldAg), toAg)
    ensures EntryKey(e) !in NormSet(pt) && EntryKey(e) !in NormSet(ag)
    ensures toAg <==> exists a :: a in trans && TransferKey(a) == EntryKey(e) && IsAgLine(a)
  {
    var tps := TransferProducts(trans);
    var missing := Missing(tps, NormSet(pt) + NormSet(ag));
    AddedFrom(missing, NormPrices(goldPt), NormPrices(goldAg), toAg, e);
    var tp :| tp in missing && e.producto == tp.producto && tp.isAg == toAg
              && Choice(tp, NormPrices(goldPt), NormPrices(goldAg)).Some?
              && e.price == Some(Round(Choice(tp, NormPrices(goldPt), NormPrices(goldAg)).value.1, 2));
    TransferProductSpec(trans, tp);
  }

  /** Filtering keeps the keys distinct. */
  lemma MissingNoDup(tps: seq<TransferProduct>, known: set<string>)
    requires NoDup(Keys(tps, ProductNorm))
    ensures NoDup(Keys(Missing(tps, known), ProductNorm))
  {
    assert NoDup(tps) by {
      forall i, j | 0 <= i < j < |tps| ensures tps[i] != tps[j] {
        assert Keys(tps, ProductNorm)[i] != Keys(tps, ProductNorm)[j];
      }
    }
    var p := (tp: TransferProduct) => tp.norm !in known;
    FilterNoDup(tps, p);
    var r := Missing(tps, known);
    assert r == Filter(tps, p);
    forall i, j | 0 <= i < j < |r| ensures r[i].norm != r[j].norm {
      assert r[i] in tps && r[j] in tps;
      var a :| 0 <= a < |tps| && tps[a] == r[i];
      var b :| 0 <= b < |tps| && tps[b] == r[j];
      if a != b {
        if a < b {
          assert Keys(tps, ProductNorm)[a] != Keys(tps, ProductNorm)[b];
        } else {
          assert Keys(tps, ProductNorm)[b] != Keys(tps, ProductNorm)[a];
        }
      }
    }
  }
}
