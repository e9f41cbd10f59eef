/** Weekly output files named `<prefix>YYYY-MM-DD_YYYY-MM-DD.csv`, as the
    reporting scripts find them: a glob over a directory, sorted by name, and
    the two dates read back from each name with an anchored regular
    expression (ISO 8601 calendar dates, extended format, section 4.1.2.2 of
    ISO 8601:2004; only the digit shape is checked). */
module WeekFiles {
  import opened Wrappers
  import opened Text
  import opened Calendar
  import opened Sorting

  /** Length of `YYYY-MM-DD_YYYY-MM-DD.csv`. */
  const WeekPartLength: nat := 25

  /** `re.match(prefix + r"(\d{4}-\d{2}-\d{2})_(\d{4}-\d{2}-\d{2})\.csv", name)`:
      the two dates when the name begins with the pattern (the match is
      anchored at the start only), else nothing. */
  function WeekFromName(prefix: string, name: string): (r: Option<(string, string)>)
    ensures r.Some? ==> IsIsoShaped(r.value.0) && IsIsoShaped(r.value.1)
    ensures r.Some? ==> StartsWith(name, prefix + r.value.0 + "_" + r.value.1 + ".csv")
  {
    var p := |prefix|;
    if StartsWith(name, prefix) && |name| >= p + WeekPartLength
       && IsIsoShaped(name[p..p + 10]) && name[p + 10] == '_'
       && IsIsoShaped(name[p + 11..p + 21]) && name[p + 21..p + 25] == ".csv"
    then
      assert name[..p + 25] == prefix + name[p..p + 10] + "_" + name[p + 11..p + 21] + ".csv";
      Some((name[p..p + 10], name[p + 11..p + 21]))
    else None
  }

  /** Every name made of the prefix, two date-shaped texts and ".csv" is
      matched, whatever follows, and gives back the two texts. */
  lemma WeekNameRoundTrip(prefix: string, start: string, end: string, rest: string)
    requires IsIsoShaped(start) && IsIsoShaped(end)
    ensures WeekFromName(prefix, prefix + start + "_" + end + ".csv" + rest) == Some((start, end))
  {
    var name := prefix + start + "_" + end + ".csv" + rest;
    var p := |prefix|;
    assert name[..p] == prefix;
    assert name[p..p + 10] == start;
    assert name[p + 11..p + 21] == end;
    assert name[p + 21..p + 25] == ".csv";
  }

  /** The file a run writes for a week is read back as that week. */
  lemma WeekNameOfDates(prefix: string, start: Civil, end: Civil)
    requires ValidCivil(start) && ValidCivil(end)
    ensures WeekFromName(prefix, prefix + IsoDate(start) + "_" + IsoDate(end) + ".csv") == Some((IsoDate(start), IsoDate(end)))
  {
    WeekNameRoundTrip(prefix, IsoDate(start), IsoDate(end), "");
    assert prefix + IsoDate(start) + "_" + IsoDate(end) + ".csv" + "" == prefix + IsoDate(start) + "_" + IsoDate(end) + ".csv";
  }

  /** Only the digit shape is checked: a name with no such calendar date is
      still read as a week. */
  lemma WeekNameAcceptsNonDates()
    ensures WeekFromName("transfers_", "transfers_" + "2026-13-45" + "_" + "2026-00-00" + ".csv" + "")
            == Some(("2026-13-45", "2026-00-00"))
  {
    assert IsIsoShaped("2026-13-45") by {
      assert "2026-13-45"[..4] == "2026" && "2026-13-45"[5..7] == "13" && "2026-13-45"[8..] == "45";
    }
    assert IsIsoShaped("2026-00-00") by {
      assert "2026-00-00"[..4] == "2026" && "2026-00-00"[5..7] == "00" && "2026-00-00"[8..] == "00";
    }
    WeekNameRoundTrip("transfers_", "2026-13-45", "2026-00-00", "");
  }

  /** The month of the first date in `WeekNameAcceptsNonDates` does not exist. */
  lemma NoMonthThirteen()
    ensures ParseIsoDate("2026-13-45").None?
  {
    assert "2026-13-45"[5..7] == "13";
    assert DigitsValue("13") == 13 by {
      assert "13"[..1] == "1";
      assert DigitsValue("1") == 1 by { assert "1"[..0] == ""; }
    }
  }

  /** `dir.glob(prefix + "*.csv")` on one name: it begins with the prefix and
      ends with ".csv". */
  predicate GlobMatches(prefix: string, name: string) {
    StartsWith(name, prefix) && |name| >= |prefix| + 4 && name[|name| - 4..] == ".csv"
  }

  /** The entries of a directory the glob keeps, in listing order. */
  function Globbed<T(!new)>(prefix: string, listing: seq<(string, T)>): (r: seq<(string, T)>)
    ensures forall f :: f in r <==> f in listing && GlobMatches(prefix, f.0)
  {
    if listing == [] then []
    else
      var rest := Globbed(prefix, listing[1..]);
      assert forall f :: f in listing <==> f == listing[0] || f in listing[1..];
      if GlobMatches(prefix, listing[0].0) then [listing[0]] + rest else rest
  }

  predicate NameLe<T>(a: (string, T), b: (string, T)) {
    StrLe(a.0, b.0)
  }

  lemma NameLeIsTotalPreorder<T(!new)>()
    ensures TotalPreorder(NameLe<T>)
  {
    forall a: (string, T), b: (string, T) ensures NameLe(a, b) || NameLe(b, a) {
      StrLeTotal(a.0, b.0);
    }
    forall a: (string, T), b: (string, T), c: (string, T) | NameLe(a, b) && NameLe(b, c) ensures NameLe(a, c) {
      StrLeTrans(a.0, b.0, c.0);
    }
  }

  /** `sorted(dir.glob(prefix + "*.csv"))`: the matching entries, by name. */
  function SortedGlob<T(!new)>(prefix: string, listing: seq<(string, T)>): (r: seq<(string, T)>)
    ensures forall f :: f in r <==> f in listing && GlobMatches(prefix, f.0)
    ensures SortedBy(r, NameLe)
  {
    var g := Globbed(prefix, listing);
    var r := SortBy(g, NameLe);
    NameLeIsTotalPreorder<T>();
    forall f ensures f in r <==> f in g {
      assert f in r <==> f in multiset(r);
    }
    r
  }
}
