/** Column arithmetic over tables held as sequences of records: sums, the
    rows of one group, the distinct values of a column in first-seen order
    (`Series.unique()`), the sorted group keys of a `groupby`, and the median. */
module Rows {
  import opened Wrappers
  import opened Sorting
  import opened Text

  function Sum(xs: seq<real>): real {
    if xs == [] then 0.0 else xs[0] + Sum(xs[1..])
  }

  /** `frame[col].sum()` where `f` reads the column. */
  function SumBy<T>(rows: seq<T>, f: T -> real): real {
    if rows == [] then 0.0 else f(rows[0]) + SumBy(rows[1..], f)
  }

  lemma {:induction false} SumByAppend<T>(a: seq<T>, b: seq<T>, f: T -> real)
    ensures SumBy(a + b, f) == SumBy(a, f) + SumBy(b, f)
  {
    if a != [] {
      assert (a + b)[1..] == a[1..] + b;
      SumByAppend(a[1..], b, f);
    } else {
      assert a + b == b;
    }
  }

  /** `frame[mask]`: the rows satisfying `p`, in their original order. */
  function Filter<T>(rows: seq<T>, p: T -> bool): (r: seq<T>)
    ensures |r| <= |rows|
    ensures forall i :: 0 <= i < |r| ==> p(r[i]) && r[i] in rows
    ensures forall i :: 0 <= i < |rows| && p(rows[i]) ==> rows[i] in r
  {
    if rows == [] then []
    else
      var rest := Filter(rows[1..], p);
      assert forall i :: 1 <= i < |rows| ==> rows[i] == rows[1..][i - 1];
      if p(rows[0]) then [rows[0]] + rest else rest
  }

  /** Membership in a filtered frame. */
  lemma FilterHas<T>(rows: seq<T>, p: T -> bool, x: T)
    ensures x in Filter(rows, p) <==> x in rows && p(x)
  {
    if x in rows && p(x) {
      var i :| 0 <= i < |rows| && rows[i] == x;
    }
  }

  /** A mask splits a column total into the total of the kept rows and the
      total of the dropped ones. */
  lemma {:induction false} FilterSplitsSum<T>(rows: seq<T>, p: T -> bool, q: T -> bool, f: T -> real)
    requires forall x :: q(x) == !p(x)
    ensures SumBy(rows, f) == SumBy(Filter(rows, p), f) + SumBy(Filter(rows, q), f)
  {
    if rows != [] {
      FilterSplitsSum(rows[1..], p, q, f);
    }
  }

  /** `pd.concat(frames)`: the rows of every frame, frame after frame. */
  function Concat<T(!new)>(frames: seq<seq<T>>): (r: seq<T>)
    ensures forall x :: x in r <==> exists i :: 0 <= i < |frames| && x in frames[i]
  {
    if frames == [] then []
    else
      var rest := Concat(frames[1..]);
      assert forall i :: 1 <= i < |frames| ==> frames[i] == frames[1..][i - 1];
      frames[0] + rest
  }

  /** A mask every row passes keeps the table as it is. */
  lemma {:induction false} FilterAllKept<T>(rows: seq<T>, p: T -> bool)
    requires forall i :: 0 <= i < |rows| ==> p(rows[i])
    ensures Filter(rows, p) == rows
  {
    if rows != [] {
      FilterAllKept(rows[1..], p);
    }
  }

  /** A mask keeps distinct rows distinct. */
  lemma {:induction false} FilterNoDup<T>(rows: seq<T>, p: T -> bool)
    requires NoDup(rows)
    ensures NoDup(Filter(rows, p))
  {
    if rows != [] {
      assert NoDup(rows[1..]) by {
        assert forall i :: 0 <= i < |rows[1..]| ==> rows[1..][i] == rows[i + 1];
      }
      FilterNoDup(rows[1..], p);
      var rest := Filter(rows[1..], p);
      assert rows[0] !in rows[1..];
      assert forall i :: 0 <= i < |rest| ==> rest[i] in rows[1..];
    }
  }

  /** A mask keeps a sorted frame sorted. */
  lemma {:induction false} FilterSorted<T>(rows: seq<T>, p: T -> bool, le: (T, T) -> bool)
    requires SortedBy(rows, le)
    ensures SortedBy(Filter(rows, p), le)
  {
    if rows != [] {
      assert SortedBy(rows[1..], le) by {
        assert forall i :: 0 <= i < |rows[1..]| ==> rows[1..][i] == rows[i + 1];
      }
      FilterSorted(rows[1..], p, le);
      var rest := Filter(rows[1..], p);
      forall x | x in rows[1..] ensures le(rows[0], x) {
        var k :| 0 <= k < |rows[1..]| && rows[1..][k] == x;
        assert rows[k + 1] == x;
      }
      if p(rows[0]) {
        var r := [rows[0]] + rest;
        assert Filter(rows, p) == r;
        forall i, j | 0 <= i < j < |r| ensures le(r[i], r[j]) {
          if i == 0 {
            assert r[j] == rest[j - 1] && rest[j - 1] in rows[1..];
          } else {
            assert r[i] == rest[i - 1] && r[j] == rest[j - 1];
          }
        }
      }
    }
  }

  /** A mask no row passes leaves nothing. */
  lemma {:induction false} FilterNoneKept<T>(rows: seq<T>, p: T -> bool)
    requires forall i :: 0 <= i < |rows| ==> !p(rows[i])
    ensures Filter(rows, p) == []
  {
    if rows != [] {
      FilterNoneKept(rows[1..], p);
    }
  }

  /** A row at the end that fails the mask does not change the result. */
  lemma {:induction false} FilterDropsLast<T>(rows: seq<T>, p: T -> bool)
    requires |rows| > 0 && !p(rows[|rows| - 1])
    ensures Filter(rows, p) == Filter(rows[..|rows| - 1], p)
  {
    if |rows| > 1 {
      assert rows[1..][..|rows| - 2] == rows[..|rows| - 1][1..];
      FilterDropsLast(rows[1..], p);
    }
  }

  /** Dropping rows whose column value is never negative cannot raise the total. */
  lemma {:induction false} FilterNonNegativeSum<T>(rows: seq<T>, p: T -> bool, f: T -> real)
    requires forall i :: 0 <= i < |rows| && !p(rows[i]) ==> f(rows[i]) >= 0.0
    ensures SumBy(Filter(rows, p), f) <= SumBy(rows, f)
  {
    if rows != [] {
      FilterNonNegativeSum(rows[1..], p, f);
    }
  }

  /** The rows whose key equals `k`, in their original order. */
  function Group<T, K(==)>(rows: seq<T>, key: T -> K, k: K): (g: seq<T>)
    ensures |g| <= |rows|
    ensures forall i :: 0 <= i < |g| ==> key(g[i]) == k
    ensures (exists i :: 0 <= i < |rows| && key(rows[i]) == k) ==> |g| > 0
  {
    if rows == [] then []
    else
      var rest := Group(rows[1..], key, k);
      assert forall i :: 1 <= i < |rows| ==> rows[i] == rows[1..][i - 1];
      if key(rows[0]) == k then [rows[0]] + rest else rest
  }

  /** Membership in a group. */
  lemma {:induction false} GroupMember<T, K>(rows: seq<T>, key: T -> K, k: K, x: T)
    ensures x in Group(rows, key, k) <==> x in rows && key(x) == k
  {
    if rows != [] {
      GroupMember(rows[1..], key, k, x);
      assert x in rows <==> x == rows[0] || x in rows[1..];
    }
  }

  predicate NoDup<K(==)>(s: seq<K>) {
    forall i, j :: 0 <= i < j < |s| ==> s[i] != s[j]
  }

  /** `Series.unique()`: each value once, in order of first appearance. */
  function Distinct<K(!new, ==)>(xs: seq<K>): (r: seq<K>)
    ensures forall x :: x in r <==> x in xs
    ensures NoDup(r)
  {
    if xs == [] then []
    else
      var d := Distinct(xs[..|xs| - 1]);
      assert forall x :: x in xs <==> x in xs[..|xs| - 1] || x == xs[|xs| - 1];
      if xs[|xs| - 1] in d then d else d + [xs[|xs| - 1]]
  }

  /** Every occurrence of `y` in `xs` comes after an occurrence of `x`: `x`
      is seen first. */
  ghost predicate SeenBefore<K>(xs: seq<K>, x: K, y: K) {
    forall b :: 0 <= b < |xs| && xs[b] == y ==> exists a :: 0 <= a < b && xs[a] == x
  }

  /** `Distinct` lists the values in the order of their first appearance. */
  lemma {:induction false} DistinctFirstSeenOrder<K(!new)>(xs: seq<K>)
    ensures forall i, j :: 0 <= i < j < |Distinct(xs)| ==> SeenBefore(xs, Distinct(xs)[i], Distinct(xs)[j])
  {
    if xs != [] {
      var n := |xs| - 1;
      var init := xs[..n];
      var d := Distinct(init);
      DistinctFirstSeenOrder(init);
      var r := Distinct(xs);
      assert forall k :: 0 <= k < |d| ==> r[k] == d[k];
      forall i, j | 0 <= i < j < |r| ensures SeenBefore(xs, r[i], r[j]) {
        assert r[i] in d by { assert r[i] == d[i]; }
        var a0 :| 0 <= a0 < n && init[a0] == r[i];
        forall b | 0 <= b < |xs| && xs[b] == r[j] ensures exists a :: 0 <= a < b && xs[a] == r[i] {
          if j < |d| {
            assert SeenBefore(init, d[i], d[j]);
            if b < n {
              assert init[b] == d[j];
              var a :| 0 <= a < b && init[a] == d[i];
              assert xs[a] == r[i];
            } else {
              assert r[j] in d by { assert r[j] == d[j]; }
              var b' :| 0 <= b' < n && init[b'] == d[j];
              var a :| 0 <= a < b' && init[a] == d[i];
              assert xs[a] == r[i];
            }
          } else {
            assert r[j] == xs[n] && xs[n] !in init;
            assert forall k :: 0 <= k < n ==> xs[k] == init[k];
            assert xs[a0] == r[i] && a0 < b;
          }
        }
      }
    }
  }

  function Keys<T, K>(rows: seq<T>, key: T -> K): (ks: seq<K>)
    ensures |ks| == |rows| && forall i :: 0 <= i < |rows| ==> ks[i] == key(rows[i])
  {
    seq(|rows|, i requires 0 <= i < |rows| => key(rows[i]))
  }

  lemma NoDupCount<K>(s: seq<K>, x: K)
    requires NoDup(s)
    ensures multiset(s)[x] <= 1
  {
    if s != [] {
      assert s == [s[0]] + s[1..];
      NoDupCount(s[1..], x);
      if x == s[0] {
        assert x !in s[1..];
      }
    }
  }

  lemma TwoOccurrences<K>(s: seq<K>, i: int, j: int)
    requires 0 <= i < j < |s|
    ensures s[i] == s[j] ==> multiset(s)[s[i]] >= 2
  {
    assert s == s[..i] + [s[i]] + s[i + 1..j] + [s[j]] + s[j + 1..];
  }

  lemma CountNoDup<K>(s: seq<K>)
    requires forall x :: multiset(s)[x] <= 1
    ensures NoDup(s)
  {
    forall i, j | 0 <= i < j < |s| ensures s[i] != s[j] {
      TwoOccurrences(s, i, j);
    }
  }

  /** `drop_duplicates(subset=key, keep="first")`: the first row of every key,
      in their original order (see `DedupeFirstDistinct` and `DedupeFirstKeepsFirsts`). */
  function DedupeFirst<T, K(==)>(rows: seq<T>, key: T -> K): (r: seq<T>)
    ensures |r| <= |rows|
    ensures forall j :: 0 <= j < |r| ==> r[j] in rows
    decreases |rows|
  {
    if rows == [] then []
    else
      var d := DedupeFirst(rows[..|rows| - 1], key);
      assert forall j :: 0 <= j < |d| ==> d[j] in rows;
      if forall j :: 0 <= j < |d| ==> key(d[j]) != key(rows[|rows| - 1]) then d + [rows[|rows| - 1]] else d
  }

  predicate DedupedKeys<T, K(==)>(r: seq<T>, key: T -> K) {
    forall a, b :: 0 <= a < b < |r| ==> key(r[a]) != key(r[b])
  }

  /** Appending a row to a table that extends `a` extends `a` by one more row. */
  lemma AppendOne<T>(a: seq<T>, b: seq<T>, x: T)
    ensures (a + b) + [x] == a + (b + [x])
  {
  }

  /** A row whose key is new keeps the keys distinct. */
  lemma DedupedKeysAppend<T, K>(r: seq<T>, x: T, key: T -> K)
    requires DedupedKeys(r, key) && forall e :: e in r ==> key(e) != key(x)
    ensures DedupedKeys(r + [x], key)
  {
    forall a, b | 0 <= a < b < |r| + 1 ensures key((r + [x])[a]) != key((r + [x])[b]) {
      if b == |r| {
        assert r[a] in r;
      }
    }
  }

  /** No two kept rows share a key. */
  lemma {:induction false} DedupeFirstDistinct<T, K>(rows: seq<T>, key: T -> K)
    ensures DedupedKeys(DedupeFirst(rows, key), key)
    decreases |rows|
  {
    if rows != [] {
      DedupeFirstDistinct(rows[..|rows| - 1], key);
    }
  }

  /** The first row of every key is kept. */
  lemma {:induction false} DedupeFirstKeepsFirsts<T, K>(rows: seq<T>, key: T -> K)
    ensures forall i :: 0 <= i < |rows| && IsFirstOfKey(rows, key, i) ==> rows[i] in DedupeFirst(rows, key)
    decreases |rows|
  {
    if rows != [] {
      var n := |rows| - 1;
      var init := rows[..n];
      DedupeFirstKeepsFirsts(init, key);
      forall i | 0 <= i < |rows| && IsFirstOfKey(rows, key, i) ensures rows[i] in DedupeFirst(rows, key) {
        if i < n {
          assert forall k :: 0 <= k <= i ==> init[k] == rows[k];
          assert IsFirstOfKey(init, key, i);
          assert rows[i] in DedupeFirst(init, key);
        } else {
          LastFirstKept(rows, key);
        }
      }
    }
  }

  /** A last row whose key no earlier row has is appended. */
  lemma LastFirstKept<T, K>(rows: seq<T>, key: T -> K)
    requires rows != [] && IsFirstOfKey(rows, key, |rows| - 1)
    ensures rows[|rows| - 1] in DedupeFirst(rows, key)
  {
    var n := |rows| - 1;
    var init := rows[..n];
    var d := DedupeFirst(init, key);
    forall j | 0 <= j < |d| ensures key(d[j]) != key(rows[n]) {
      assert d[j] in init;
      var k :| 0 <= k < n && init[k] == d[j];
      assert rows[k] == d[j];
    }
    assert DedupeFirst(rows, key) == d + [rows[n]];
  }

  /** A row no earlier row shares its key with survives the de-duplication. */
  lemma KeptIfFirst<T, K>(rows: seq<T>, key: T -> K, i: nat)
    requires i < |rows| && IsFirstOfKey(rows, key, i)
    ensures rows[i] in DedupeFirst(rows, key)
  {
    DedupeFirstKeepsFirsts(rows, key);
  }

  /** The same, for the row's value. */
  lemma KeptAt<T, K>(rows: seq<T>, key: T -> K, i: nat, x: T)
    requires i < |rows| && IsFirstOfKey(rows, key, i) && rows[i] == x
    ensures x in DedupeFirst(rows, key)
  {
    KeptIfFirst(rows, key, i);
  }

  /** No earlier row shares the key of row `i`. */
  predicate IsFirstOfKey<T, K(==)>(rows: seq<T>, key: T -> K, i: int)
    requires 0 <= i < |rows|
  {
    forall k :: 0 <= k < i ==> key(rows[k]) != key(rows[i])
  }

  /** A subset is no larger than the set around it. */
  lemma {:induction false} SubsetCard<T>(small: set<T>, big: set<T>)
    requires small <= big
    ensures |small| <= |big|
    decreases big
  {
    if big != {} {
      var x :| x in big;
      SubsetCard(small - {x}, big - {x});
    }
  }

  /** A column total does not depend on the order of the rows. */
  lemma {:induction false} SumByPermutation<T>(a: seq<T>, b: seq<T>, f: T -> real)
    requires multiset(a) == multiset(b)
    ensures SumBy(a, f) == SumBy(b, f)
    decreases |a|
  {
    if a != [] {
      assert a[0] in multiset(b);
      var i :| 0 <= i < |b| && b[i] == a[0];
      RemoveAt(b, i, f);
      assert a == [a[0]] + a[1..];
      assert multiset(a[1..]) == multiset(a) - multiset{a[0]};
      SumByPermutation(a[1..], b[..i] + b[i + 1..], f);
    }
  }

  lemma RemoveAt<T>(b: seq<T>, i: int, f: T -> real)
    requires 0 <= i < |b|
    ensures multiset(b[..i] + b[i + 1..]) == multiset(b) - multiset{b[i]}
    ensures SumBy(b, f) == f(b[i]) + SumBy(b[..i] + b[i + 1..], f)
  {
    RemoveAtMultiset(b, i);
    RemoveAtSum(b, i, f);
  }

  lemma RemoveAtSum<T>(b: seq<T>, i: int, f: T -> real)
    requires 0 <= i < |b|
    ensures SumBy(b, f) == f(b[i]) + SumBy(b[..i] + b[i + 1..], f)
  {
    var front, back := b[..i], b[i + 1..];
    var rest := [b[i]] + back;
    assert b == front + rest;
    assert rest[1..] == back;
    SumByAppend(front, rest, f);
    SumByAppend(front, back, f);
  }

  lemma RemoveAtMultiset<T>(b: seq<T>, i: int)
    requires 0 <= i < |b|
    ensures multiset(b[..i] + b[i + 1..]) == multiset(b) - multiset{b[i]}
  {
    assert b == b[..i] + [b[i]] + b[i + 1..];
  }

  /** The keys of a `groupby(..., sort=True)`: each key of a row once, in order. */
  function GroupKeys<T, K(!new, ==)>(rows: seq<T>, key: T -> K, le: (K, K) -> bool): (ks: seq<K>)
    ensures forall k :: k in ks <==> exists i :: 0 <= i < |rows| && key(rows[i]) == k
    ensures NoDup(ks)
    ensures TotalPreorder(le) ==> SortedBy(ks, le)
  {
    var d := Distinct(Keys(rows, key));
    var ks := SortBy(d, le);
    forall k ensures k in ks <==> k in d {
      assert k in ks <==> k in multiset(ks);
    }
    forall x ensures multiset(ks)[x] <= 1 {
      NoDupCount(d, x);
    }
    CountNoDup(ks);
    ks
  }

  /** Sum of the per-group totals over the distinct keys `ks`. */
  function SumOverGroups<T, K(==)>(rows: seq<T>, key: T -> K, ks: seq<K>, f: T -> real): real {
    if ks == [] then 0.0 else SumBy(Group(rows, key, ks[0]), f) + SumOverGroups(rows, key, ks[1..], f)
  }

  lemma {:induction false} SumOverGroupsCons<T, K>(r: T, rows: seq<T>, key: T -> K, ks: seq<K>, f: T -> real)
    requires NoDup(ks)
    ensures SumOverGroups([r] + rows, key, ks, f)
         == SumOverGroups(rows, key, ks, f) + (if key(r) in ks then f(r) else 0.0)
  {
    if ks != [] {
      assert ([r] + rows)[1..] == rows;
      SumOverGroupsCons(r, rows, key, ks[1..], f);
      assert key(r) in ks <==> key(r) == ks[0] || key(r) in ks[1..];
      assert key(r) == ks[0] ==> key(r) !in ks[1..];
    }
  }

  /** Grouping loses nothing: summing every group's total over all keys gives the
      column total, when the keys are distinct and cover every row. */
  lemma {:induction false} GroupsPartition<T, K>(rows: seq<T>, key: T -> K, ks: seq<K>, f: T -> real)
    requires NoDup(ks)
    requires forall i :: 0 <= i < |rows| ==> key(rows[i]) in ks
    ensures SumOverGroups(rows, key, ks, f) == SumBy(rows, f)
  {
    if rows == [] {
      EmptyGroups(key, ks, f);
    } else {
      assert rows == [rows[0]] + rows[1..];
      GroupsPartition(rows[1..], key, ks, f);
      SumOverGroupsCons(rows[0], rows[1..], key, ks, f);
    }
  }

  lemma {:induction false} EmptyGroups<T, K>(key: T -> K, ks: seq<K>, f: T -> real)
    ensures SumOverGroups([], key, ks, f) == 0.0
  {
    if ks != [] {
      EmptyGroups(key, ks[1..], f);
    }
  }

  predicate RealLe(a: real, b: real) {
    a <= b
  }

  lemma RealLeIsTotalPreorder()
    ensures TotalPreorder(RealLe)
  {
  }

  /** `Series.median()`: the middle value of the sorted values, or the mean of
      the two middle values when their number is even. */
  function Median(xs: seq<real>): (m: real)
    requires |xs| > 0
    ensures exists i :: 0 <= i < |xs| && xs[i] <= m
    ensures exists j :: 0 <= j < |xs| && m <= xs[j]
  {
    var s := SortBy(xs, RealLe);
    RealLeIsTotalPreorder();
    var n := |s|;
    var hi := n / 2;
    var lo := if n % 2 == 1 then hi else hi - 1;
    assert lo < hi ==> RealLe(s[lo], s[hi]);
    var m := if n % 2 == 1 then s[hi] else (s[lo] + s[hi]) / 2.0;
    InMultiset(s, xs, lo);
    InMultiset(s, xs, hi);
    m
  }

  /** `diff / base * 100` over columns that may be missing: missing when
      either operand is, or when the base is 0 (where pandas gives inf or NaN). */
  function PercentOf(diff: Option<real>, base: Option<real>): (p: Option<real>)
    ensures p.Some? <==> diff.Some? && base.Some? && base.value != 0.0
    ensures p.Some? ==> p.value * base.value == diff.value * 100.0
  {
    if diff.Some? && base.Some? && base.value != 0.0 then Some(diff.value / base.value * 100.0) else None
  }

  lemma InMultiset(s: seq<real>, xs: seq<real>, k: int)
    requires multiset(s) == multiset(xs) && 0 <= k < |s|
    ensures exists i :: 0 <= i < |xs| && xs[i] == s[k]
  {
    assert s[k] in multiset(xs);
    assert s[k] in xs;
  }

  // ---------------------------------------------------------------------------
  // Order statistics: an independent definition of the median

  function Below(v: real): real -> bool { x => x < v }
  function Above(v: real): real -> bool { x => x > v }
  function AtMost(v: real): real -> bool { x => x <= v }

  /** One for a row the mask keeps, zero otherwise. */
  function Indicator<T>(p: T -> bool): T -> real { x => if p(x) then 1.0 else 0.0 }

  /** `v` is the `k`-th smallest value of `xs` (from 0): at most `k` values lie
      below it and at most `|xs| - 1 - k` above it. */
  predicate RankValue(xs: seq<real>, k: nat, v: real) {
    |Filter(xs, Below(v))| <= k && |Filter(xs, Above(v))| + k + 1 <= |xs|
  }

  /** The median of a non-empty list, by order statistics: the middle one for
      an odd count, the mean of the two middle ones for an even count. */
  ghost predicate IsMedian(xs: seq<real>, m: real) {
    |xs| > 0
    && if |xs| % 2 == 1 then RankValue(xs, |xs| / 2, m)
       else exists a :: MiddlePair(xs, m, a)
  }

  /** For an even count: `a` is the lower middle value and `2m - a` the upper. */
  predicate MiddlePair(xs: seq<real>, m: real, a: real)
    requires |xs| >= 2
  {
    RankValue(xs, |xs| / 2 - 1, a) && RankValue(xs, |xs| / 2, 2.0 * m - a)
  }

  /** The number of kept rows is the total of the indicator column. */
  lemma {:induction false} FilterCount<T>(rows: seq<T>, p: T -> bool)
    ensures SumBy(rows, Indicator(p)) == |Filter(rows, p)| as real
  {
    if rows != [] {
      FilterCount(rows[1..], p);
    }
  }

  /** A mask keeps as many rows of a permutation. */
  lemma FilterCountPermutation<T>(a: seq<T>, b: seq<T>, p: T -> bool)
    requires multiset(a) == multiset(b)
    ensures |Filter(a, p)| == |Filter(b, p)|
  {
    FilterCount(a, p);
    FilterCount(b, p);
    SumByPermutation(a, b, Indicator(p));
  }

  /** A wider mask keeps at least as many rows. */
  lemma {:induction false} FilterMono<T>(rows: seq<T>, p: T -> bool, q: T -> bool)
    requires forall x :: p(x) ==> q(x)
    ensures |Filter(rows, p)| <= |Filter(rows, q)|
  {
    if rows != [] {
      FilterMono(rows[1..], p, q);
    }
  }

  /** Every value is either at most `v` or above it. */
  lemma {:induction false} SplitAtValue(xs: seq<real>, v: real)
    ensures |Filter(xs, AtMost(v))| + |Filter(xs, Above(v))| == |xs|
  {
    if xs != [] {
      SplitAtValue(xs[1..], v);
    }
  }

  /** No row from position `h` on passes: at most `h` are kept. */
  lemma {:induction false} FilterBoundAbove<T>(rows: seq<T>, p: T -> bool, h: nat)
    requires forall i :: h <= i < |rows| ==> !p(rows[i])
    ensures |Filter(rows, p)| <= h
  {
    if rows != [] {
      if h == 0 {
        FilterNoneKept(rows, p);
      } else {
        FilterBoundAbove(rows[1..], p, h - 1);
      }
    }
  }

  /** No row before position `h` passes: the first `h` are all dropped. */
  lemma {:induction false} FilterBoundBelow<T>(rows: seq<T>, p: T -> bool, h: nat)
    requires h <= |rows|
    requires forall i :: 0 <= i < h ==> !p(rows[i])
    ensures |Filter(rows, p)| + h <= |rows|
  {
    if h > 0 {
      FilterBoundBelow(rows[1..], p, h - 1);
    }
  }

  /** In a sorted list, the value at position `k` is the `k`-th smallest. */
  lemma SortedRank(s: seq<real>, k: nat)
    requires SortedBy(s, RealLe) && k < |s|
    ensures RankValue(s, k, s[k])
  {
    FilterBoundAbove(s, Below(s[k]), k);
    FilterBoundBelow(s, Above(s[k]), k + 1);
  }

  /** Order statistics do not depend on the order of the list. */
  lemma RankPermutation(a: seq<real>, b: seq<real>, k: nat, v: real)
    requires multiset(a) == multiset(b) && RankValue(a, k, v)
    ensures RankValue(b, k, v)
  {
    assert |a| == |multiset(a)| == |multiset(b)| == |b|;
    FilterCountPermutation(a, b, Below(v));
    FilterCountPermutation(a, b, Above(v));
  }

  /** The `k`-th smallest value is unique. */
  lemma RankUnique(xs: seq<real>, k: nat, v: real, w: real)
    requires RankValue(xs, k, v) && RankValue(xs, k, w)
    ensures v == w
  {
    if v < w {
      RankBelow(xs, k, v, w);
    } else if w < v {
      RankBelow(xs, k, w, v);
    }
  }

  lemma RankBelow(xs: seq<real>, k: nat, v: real, w: real)
    requires RankValue(xs, k, v) && v < w
    ensures !RankValue(xs, k, w)
  {
    SplitAtValue(xs, v);
    FilterMono(xs, AtMost(v), Below(w));
  }

  /** `Median` computes the median as defined by order statistics. */
  lemma MedianIsMedian(xs: seq<real>)
    requires |xs| > 0
    ensures IsMedian(xs, Median(xs))
  {
    var s := SortBy(xs, RealLe);
    RealLeIsTotalPreorder();
    var n := |s|;
    SortedRank(s, n / 2);
    RankPermutation(s, xs, n / 2, s[n / 2]);
    if n % 2 == 1 {
      assert Median(xs) == s[n / 2];
      OddMedian(xs, s[n / 2]);
    } else {
      SortedRank(s, n / 2 - 1);
      RankPermutation(s, xs, n / 2 - 1, s[n / 2 - 1]);
      var m := Median(xs);
      assert m == (s[n / 2 - 1] + s[n / 2]) / 2.0;
      assert 2.0 * m - s[n / 2 - 1] == s[n / 2];
      EvenMedian(xs, m, s[n / 2 - 1]);
    }
  }

  lemma OddMedian(xs: seq<real>, m: real)
    requires |xs| % 2 == 1 && RankValue(xs, |xs| / 2, m)
    ensures IsMedian(xs, m)
  {
  }

  lemma EvenMedian(xs: seq<real>, m: real, a: real)
    requires |xs| >= 2 && |xs| % 2 == 0 && MiddlePair(xs, m, a)
    ensures IsMedian(xs, m)
  {
  }

  /** A list has at most one median, so `IsMedian` pins `Median` down. */
  lemma MedianUnique(xs: seq<real>, m1: real, m2: real)
    requires IsMedian(xs, m1) && IsMedian(xs, m2)
    ensures m1 == m2
  {
    var n := |xs|;
    if n % 2 == 1 {
      RankUnique(xs, n / 2, m1, m2);
    } else {
      var a1 :| MiddlePair(xs, m1, a1);
      var a2 :| MiddlePair(xs, m2, a2);
      MiddlePairUnique(xs, m1, m2, a1, a2);
    }
  }

  lemma MiddlePairUnique(xs: seq<real>, m1: real, m2: real, a1: real, a2: real)
    requires |xs| >= 2 && MiddlePair(xs, m1, a1) && MiddlePair(xs, m2, a2)
    ensures m1 == m2
  {
    var k := |xs| / 2;
    RankUnique(xs, k - 1, a1, a2);
    RankUnique(xs, k, 2.0 * m1 - a1, 2.0 * m2 - a2);
  }

  /** Python's `round(x, places)` on exact values: the nearest multiple of
      10^-places, ties going to the even multiple. */
  function Round(x: real, places: nat): (r: real)
    ensures -1.0 / (2 * Pow10(places)) as real <= r - x <= 1.0 / (2 * Pow10(places)) as real
  {
    var p := Pow10(places) as real;
    var scaled := x * p;
    var f := scaled.Floor;
    var frac := scaled - f as real;
    var n := if frac < 0.5 then f else if frac > 0.5 then f + 1 else if f % 2 == 0 then f else f + 1;
    assert -0.5 <= n as real - scaled <= 0.5;
    RoundError(n as real, x, p);
    n as real / p
  }

  lemma RoundError(n: real, x: real, p: real)
    requires p >= 1.0 && -0.5 <= n - x * p <= 0.5
    ensures -1.0 / (2.0 * p) <= n / p - x <= 1.0 / (2.0 * p)
  {
    assert n / p - x == (n - x * p) / p;
  }

  /** The row pairs of a many-to-many merge, in pandas' order: for each left
      row, every right row. */
  function CrossJoin<A, B>(xs: seq<A>, ys: seq<B>): (r: seq<(A, B)>)
    ensures |r| == |xs| * |ys|
  {
    if xs == [] then []
    else seq(|ys|, j requires 0 <= j < |ys| => (xs[0], ys[j])) + CrossJoin(xs[1..], ys)
  }

  /** A pair of the cross join takes one row from each side. */
  lemma {:induction false} CrossJoinFrom<A, B>(xs: seq<A>, ys: seq<B>, p: (A, B))
    requires p in CrossJoin(xs, ys)
    ensures p.0 in xs && p.1 in ys
  {
    if p !in seq(|ys|, j requires 0 <= j < |ys| => (xs[0], ys[j])) {
      CrossJoinFrom(xs[1..], ys, p);
    }
  }

  /** Every pair of a row from each side is in the cross join. */
  lemma {:induction false} CrossJoinHas<A, B>(xs: seq<A>, ys: seq<B>, x: A, y: B)
    requires x in xs && y in ys
    ensures (x, y) in CrossJoin(xs, ys)
  {
    if x == xs[0] {
      var j :| 0 <= j < |ys| && ys[j] == y;
      assert seq(|ys|, j requires 0 <= j < |ys| => (xs[0], ys[j]))[j] == (x, y);
    } else {
      CrossJoinHas(xs[1..], ys, x, y);
    }
  }
}
