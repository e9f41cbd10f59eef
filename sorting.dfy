/** Ordering used by pandas `sort_values` and `groupby`: a stable insertion
    sort under any total preorder, and Python's string order (by code point). */
module Sorting {

  /** `le` orders every pair of values and is transitive. */
  ghost predicate TotalPreorder<T(!new)>(le: (T, T) -> bool) {
    (forall a, b :: le(a, b) || le(b, a))
    && (forall a, b, c :: le(a, b) && le(b, c) ==> le(a, c))
  }

  predicate SortedBy<T>(s: seq<T>, le: (T, T) -> bool) {
    forall i, j :: 0 <= i < j < |s| ==> le(s[i], s[j])
  }

  /** Inserts `x` before the first element it is ordered before. */
  function Insert<T(!new)>(x: T, s: seq<T>, le: (T, T) -> bool): (r: seq<T>)
    ensures multiset(r) == multiset(s) + multiset{x}
    ensures |r| == |s| + 1
    ensures TotalPreorder(le) && SortedBy(s, le) ==> SortedBy(r, le)
  {
    if s == [] then [x]
    else if le(x, s[0]) then
      assert TotalPreorder(le) && SortedBy(s, le) ==> forall j :: 0 <= j < |s| ==> le(x, s[j]);
      [x] + s
    else
      var t := Insert(x, s[1..], le);
      assert s == [s[0]] + s[1..];
      InsertStep(x, s, t, le);
      [s[0]] + t
  }

  lemma InsertStep<T(!new)>(x: T, s: seq<T>, t: seq<T>, le: (T, T) -> bool)
    requires s != [] && !le(x, s[0])
    requires multiset(t) == multiset(s[1..]) + multiset{x}
    requires TotalPreorder(le) && SortedBy(s, le) ==> SortedBy(t, le)
    ensures TotalPreorder(le) && SortedBy(s, le) ==> SortedBy([s[0]] + t, le)
  {
    if TotalPreorder(le) && SortedBy(s, le) {
      assert le(s[0], x);
      forall k | 0 <= k < |t| ensures le(s[0], t[k]) {
        assert t[k] in multiset(t);
        if t[k] != x {
          assert t[k] in multiset(s[1..]);
          assert t[k] in s[1..];
        }
      }
    }
  }

  /** A sorted permutation of `s`; elements that `le` ties keep their order. */
  function SortBy<T(!new)>(s: seq<T>, le: (T, T) -> bool): (r: seq<T>)
    ensures multiset(r) == multiset(s)
    ensures |r| == |s|
    ensures TotalPreorder(le) ==> SortedBy(r, le)
  {
    if s == [] then []
    else
      assert s == [s[0]] + s[1..];
      Insert(s[0], SortBy(s[1..], le), le)
  }

  /** Python's `<=` on strings: lexicographic by code point. */
  predicate StrLe(a: string, b: string) {
    a == [] || (b != [] && (a[0] < b[0] || (a[0] == b[0] && StrLe(a[1..], b[1..]))))
  }

  lemma {:induction false} StrLeTotal(a: string, b: string)
    ensures StrLe(a, b) || StrLe(b, a)
  {
    if a != [] && b != [] && a[0] == b[0] {
      StrLeTotal(a[1..], b[1..]);
    }
  }

  lemma {:induction false} StrLeTrans(a: string, b: string, c: string)
    requires StrLe(a, b) && StrLe(b, c)
    ensures StrLe(a, c)
  {
    if a != [] && b != [] && c != [] && a[0] == b[0] && b[0] == c[0] {
      StrLeTrans(a[1..], b[1..], c[1..]);
    }
  }

  lemma {:induction false} StrLeAntisym(a: string, b: string)
    requires StrLe(a, b) && StrLe(b, a)
    ensures a == b
  {
    if a != [] && b != [] {
      StrLeAntisym(a[1..], b[1..]);
      assert a == [a[0]] + a[1..] && b == [b[0]] + b[1..];
    }
  }

  lemma StrLeIsTotalPreorder()
    ensures TotalPreorder(StrLe)
  {
    forall a, b ensures StrLe(a, b) || StrLe(b, a) {
      StrLeTotal(a, b);
    }
    forall a, b, c | StrLe(a, b) && StrLe(b, c) ensures StrLe(a, c) {
      StrLeTrans(a, b, c);
    }
  }

  /** The order of a `groupby`/`sort_values` over two string columns. */
  predicate PairLe(a: (string, string), b: (string, string)) {
    if a.0 == b.0 then StrLe(a.1, b.1) else StrLe(a.0, b.0)
  }

  lemma PairLeIsTotalPreorder()
    ensures TotalPreorder(PairLe)
  {
    forall a: (string, string), b: (string, string) ensures PairLe(a, b) || PairLe(b, a) {
      StrLeTotal(a.0, b.0);
      StrLeTotal(a.1, b.1);
    }
    forall a: (string, string), b: (string, string), c: (string, string) | PairLe(a, b) && PairLe(b, c)
      ensures PairLe(a, c)
    {
      if a.0 == b.0 && b.0 == c.0 {
        StrLeTrans(a.1, b.1, c.1);
      } else if a.0 == b.0 {
        assert StrLe(a.0, c.0);
      } else if b.0 == c.0 {
        assert StrLe(a.0, c.0);
      } else {
        StrLeTrans(a.0, b.0, c.0);
        if a.0 == c.0 {
          StrLeAntisym(a.0, b.0);
        }
      }
    }
  }
}
