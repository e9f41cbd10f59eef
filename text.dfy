/** The Python `str` operations the pipeline relies on, over `seq<char>`:
    `strip`, `lower`/`upper`, `in` (substring), `startswith`, `split` at the
    first separator and `replace` of one character. */
module Text {
  import opened Wrappers

  /** The characters `str.strip()`, `str.split()` and the regex class `\s` treat
      as whitespace (Python's `str.isspace`). */
  predicate IsSpace(c: char) {
    c == ' ' || ('\t' <= c <= '\r') || ('\U{1C}' <= c <= '\U{1F}')
    || c == '\U{85}' || c == '\U{A0}' || c == '\U{1680}' || ('\U{2000}' <= c <= '\U{200A}')
    || c == '\U{2028}' || c == '\U{2029}' || c == '\U{202F}' || c == '\U{205F}' || c == '\U{3000}'
  }

  predicate AllSpace(s: string) {
    forall i :: 0 <= i < |s| ==> IsSpace(s[i])
  }

  /** `s.lstrip()`. */
  function LStrip(s: string): string {
    if |s| > 0 && IsSpace(s[0]) then LStrip(s[1..]) else s
  }

  /** `s.rstrip()`. */
  function RStrip(s: string): string {
    if |s| > 0 && IsSpace(s[|s| - 1]) then RStrip(s[..|s| - 1]) else s
  }

  /** `s.strip()`. */
  function Strip(s: string): string {
    RStrip(LStrip(s))
  }

  /** `lstrip` keeps a suffix, drops only whitespace, and leaves no
      whitespace in front. */
  lemma {:induction false} LStripSpec(s: string)
    ensures |LStrip(s)| <= |s| && LStrip(s) == s[|s| - |LStrip(s)|..]
    ensures AllSpace(s[..|s| - |LStrip(s)|])
    ensures LStrip(s) == [] || !IsSpace(LStrip(s)[0])
    decreases |s|
  {
    if |s| > 0 && IsSpace(s[0]) {
      var tail := s[1..];
      LStripSpec(tail);
      var r := LStrip(tail);
      assert LStrip(s) == r;
      assert r == tail[|tail| - |r|..] == s[|s| - |r|..];
      assert s[..|s| - |r|] == [s[0]] + tail[..|tail| - |r|];
    }
  }

  /** `rstrip` keeps a prefix, drops only whitespace, and leaves no
      whitespace at the end. */
  lemma {:induction false} RStripSpec(s: string)
    ensures |RStrip(s)| <= |s| && RStrip(s) == s[..|RStrip(s)|]
    ensures AllSpace(s[|RStrip(s)|..])
    ensures RStrip(s) == [] || !IsSpace(RStrip(s)[|RStrip(s)| - 1])
    decreases |s|
  {
    if |s| > 0 && IsSpace(s[|s| - 1]) {
      var init := s[..|s| - 1];
      RStripSpec(init);
      var r := RStrip(init);
      assert RStrip(s) == r;
      assert r == init[..|r|] == s[..|r|];
      assert s[|r|..] == init[|r|..] + [s[|s| - 1]];
    }
  }

  /** Neither end of `strip`'s result is whitespace, and it is a substring of
      the input with only whitespace removed around it. */
  lemma StripSpec(s: string)
    ensures var r := Strip(s);
            |r| <= |s| && (r == [] || (!IsSpace(r[0]) && !IsSpace(r[|r| - 1])))
    ensures exists i :: 0 <= i <= |s| - |Strip(s)| && Strip(s) == s[i..i + |Strip(s)|]
              && AllSpace(s[..i]) && AllSpace(s[i + |Strip(s)|..])
  {
    LStripSpec(s);
    var l := LStrip(s);
    RStripSpec(l);
    var r := RStrip(l);
    var i := |s| - |l|;
    assert r == s[i..i + |r|];
    assert l[|r|..] == s[i + |r|..];
    if r != [] {
      assert r[0] == l[0];
    }
  }

  /** A string that neither starts nor ends with whitespace is its own strip. */
  lemma StripTrimmed(s: string)
    requires s == [] || (!IsSpace(s[0]) && !IsSpace(s[|s| - 1]))
    ensures Strip(s) == s
  {
  }

  lemma StripIdempotent(s: string)
    ensures Strip(Strip(s)) == Strip(s)
  {
    StripSpec(s);
    StripTrimmed(Strip(s));
  }

  /** `str.lower()` on one character (ASCII and Latin-1 letters). */
  function LowerChar(c: char): char {
    if 'A' <= c <= 'Z' || ('À' <= c <= 'Þ' && c != '×') then (c as int + 32) as char else c
  }

  /** `str.upper()` on one character (ASCII and Latin-1 letters). */
  function UpperChar(c: char): char {
    if 'a' <= c <= 'z' || ('à' <= c <= 'þ' && c != '÷') then (c as int - 32) as char
    else if c == 'ÿ' then 'Ÿ'
    else c
  }

  function Lower(s: string): string {
    seq(|s|, i requires 0 <= i < |s| => LowerChar(s[i]))
  }

  function Upper(s: string): string {
    seq(|s|, i requires 0 <= i < |s| => UpperChar(s[i]))
  }

  /** `s.startswith(prefix)`. */
  predicate StartsWith(s: string, prefix: string) {
    |prefix| <= |s| && s[..|prefix|] == prefix
  }

  /** `sub in s`. */
  predicate Contains(s: string, sub: string)
    decreases |s|
  {
    StartsWith(s, sub) || (|s| > 0 && Contains(s[1..], sub))
  }

  /** Index of the first occurrence of `c` in `s`, if any. */
  function IndexOf(s: string, c: char): (r: Option<nat>)
    ensures r.Some? ==> r.value < |s| && s[r.value] == c && c !in s[..r.value]
    ensures r.None? <==> c !in s
  {
    if |s| == 0 then None
    else if s[0] == c then Some(0)
    else
      match IndexOf(s[1..], c)
      case None => None
      case Some(k) =>
        assert s[..k + 1] == [s[0]] + s[1..][..k];
        Some(k + 1)
  }

  /** `s.split(sep)[0]`: everything before the first separator. */
  function FirstToken(s: string, sep: char): (r: string)
    ensures StartsWith(s, r) && sep !in r
    ensures |r| < |s| <==> sep in s
  {
    match IndexOf(s, sep)
    case None => s
    case Some(i) => s[..i]
  }

  /** `s.replace(a, b)` for single characters. */
  function ReplaceChar(s: string, a: char, b: char): string {
    seq(|s|, i requires 0 <= i < |s| => if s[i] == a then b else s[i])
  }

  predicate IsDigit(c: char) {
    '0' <= c <= '9'
  }

  function Pow10(n: nat): (p: nat)
    ensures p >= 1
  {
    if n == 0 then 1 else 10 * Pow10(n - 1)
  }

  predicate AllDigits(s: string) {
    forall i :: 0 <= i < |s| ==> IsDigit(s[i])
  }

  /** A whitespace character is unchanged by case mapping. */
  lemma LowerKeepsSpace(c: char)
    ensures IsSpace(LowerChar(c)) <==> IsSpace(c)
  {
  }

  lemma LowerAppend(a: string, b: string)
    ensures Lower(a + b) == Lower(a) + Lower(b)
  {
  }

  /** A substring of a part is a substring of the whole. */
  lemma {:induction false} ContainsAppend(a: string, b: string, sub: string)
    ensures Contains(a, sub) ==> Contains(a + b, sub)
    ensures Contains(b, sub) ==> Contains(a + b, sub)
    decreases |a|
  {
    if Contains(a, sub) {
      if StartsWith(a, sub) {
        assert (a + b)[..|sub|] == a[..|sub|];
      } else {
        ContainsAppend(a[1..], b, sub);
        assert (a + b)[1..] == a[1..] + b;
      }
    }
    if Contains(b, sub) {
      if |a| == 0 {
        assert a + b == b;
      } else {
        ContainsAppend(a[1..], b, sub);
        assert (a + b)[1..] == a[1..] + b;
      }
    }
  }
}
