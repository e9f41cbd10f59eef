/** Product-name matching keys of the price-correction engine
    (src/pos_frontend/transfers/weekly_with_prices.py): strip, lowercase and a
    canonical trailing " *", then the typo alias table. */
module ProductNames {
  import opened Text

  /** `re.sub(r"\s*\*$", " *", s)`: a final `*` together with the whitespace
      run before it becomes exactly " *". */
  function CanonicalAsterisk(s: string): string {
    if |s| > 0 && s[|s| - 1] == '*' then RStrip(s[..|s| - 1]) + " *" else s
  }

  /** `normalize_producto_for_match` on one name. */
  function MatchKey(name: string): string {
    CanonicalAsterisk(Lower(Strip(name)))
  }

  /** A key is in lower case, and a key ending in `*` ends in exactly one
      space and the star, with no whitespace before that space. */
  lemma MatchKeyShape(name: string)
    ensures IsLowerText(MatchKey(name))
    ensures var k := MatchKey(name);
            |k| > 0 && k[|k| - 1] == '*' ==>
              |k| >= 2 && k[|k| - 2] == ' ' && (|k| == 2 || !IsSpace(k[|k| - 3]))
  {
    var u := Lower(Strip(name));
    LowerIsLower(Strip(name));
    CanonicalKeepsLower(u);
    if |u| > 0 && u[|u| - 1] == '*' {
      RStripSpec(u[..|u| - 1]);
    }
  }

  lemma CanonicalKeepsLower(u: string)
    requires IsLowerText(u)
    ensures IsLowerText(CanonicalAsterisk(u))
  {
    if |u| > 0 && u[|u| - 1] == '*' {
      var p := RStrip(u[..|u| - 1]);
      RStripSpec(u[..|u| - 1]);
      PrefixIsLower(u, p);
      LowerStarSuffix(p);
    }
  }

  predicate IsLowerText(s: string) {
    forall i :: 0 <= i < |s| ==> LowerChar(s[i]) == s[i]
  }

  lemma LowerCharIdempotent(c: char)
    ensures LowerChar(LowerChar(c)) == LowerChar(c)
  {
  }

  lemma LowerIsLower(s: string)
    ensures IsLowerText(Lower(s))
  {
    forall i | 0 <= i < |s| ensures LowerChar(Lower(s)[i]) == Lower(s)[i] {
      LowerCharIdempotent(s[i]);
    }
  }

  lemma PrefixIsLower(u: string, p: string)
    requires IsLowerText(u) && |p| <= |u| && p == u[..|p|]
    ensures IsLowerText(p)
  {
    forall i | 0 <= i < |p| ensures LowerChar(p[i]) == p[i] {
      assert p[i] == u[i];
    }
  }

  lemma LowerStarSuffix(p: string)
    requires IsLowerText(p)
    ensures IsLowerText(p + " *")
  {
    assert LowerChar(' ') == ' ' && LowerChar('*') == '*';
    forall i | 0 <= i < |p| + 2 ensures LowerChar((p + " *")[i]) == (p + " *")[i] {
      if i < |p| {
        assert (p + " *")[i] == p[i];
      }
    }
  }

  /** The typo aliases, from variant key to canonical key. */
  const Aliases: map<string, string> :=
    map["mayones de panem *" := "mayonesa de panem *", "sopa de tomate*" := "sopa de tomate *"]

  /** `PRODUCTO_ALIASES.get(key, key)`: the alias replaces the key whenever one
      exists, whether or not the key itself has a price. */
  function LookupKey(name: string): string {
    var key := MatchKey(name);
    if key in Aliases then Aliases[key] else key
  }

  lemma {:induction false} LStripAppend(x: string, y: string)
    ensures LStrip(x + y) == if AllSpace(x) then LStrip(y) else LStrip(x) + y
  {
    if x != [] {
      assert (x + y)[0] == x[0] && (x + y)[1..] == x[1..] + y;
      LStripAppend(x[1..], y);
      assert AllSpace(x) <==> IsSpace(x[0]) && AllSpace(x[1..]);
    } else {
      assert x + y == y;
    }
  }

  lemma RStripNonSpaceEnd(z: string, c: char)
    requires !IsSpace(c)
    ensures RStrip(z + [c]) == z + [c]
  {
  }

  lemma RStripSpaceEnd(z: string)
    ensures RStrip(z + " ") == RStrip(z)
  {
    assert (z + " ")[..|z + " "| - 1] == z;
  }

  lemma StripStars(x: string)
    requires !AllSpace(x)
    ensures Strip(x + "*") == LStrip(x) + "*"
    ensures Strip(x + " *") == LStrip(x) + " *"
  {
    LStripAppend(x, "*");
    LStripAppend(x, " *");
    var l := LStrip(x);
    RStripNonSpaceEnd(l, '*');
    assert l + " *" == (l + " ") + ['*'];
    RStripNonSpaceEnd(l + " ", '*');
  }

  lemma CanonicalStars(l: string)
    ensures CanonicalAsterisk(Lower(l + "*")) == CanonicalAsterisk(Lower(l + " *"))
  {
    LowerAppend(l, "*");
    LowerAppend(l, " *");
    var w := Lower(l);
    assert Lower("*") == "*" && Lower(" *") == " *";
    assert (w + "*")[..|w + "*"| - 1] == w;
    assert (w + " *")[..|w + " *"| - 1] == w + " ";
    RStripSpaceEnd(w);
  }

  /** "X*" and "X *" have the same key (the test oracle "CEBOLLA ENCURTIDA*"
      and "CEBOLLA ENCURTIDA *" both give "cebolla encurtida *"). */
  lemma StarSpacingIrrelevant(x: string)
    ensures MatchKey(x + "*") == MatchKey(x + " *")
  {
    if !AllSpace(x) {
      StripStars(x);
      CanonicalStars(LStrip(x));
    } else {
      BlankStars(x);
    }
  }

  lemma BlankStars(x: string)
    requires AllSpace(x)
    ensures Strip(x + "*") == Strip(x + " *")
  {
    LStripAppend(x, "*");
    LStripAppend(x, " *");
    assert LStrip(" *") == "*";
  }

  /** No name has the key "sopa de tomate*": that alias entry never applies,
      and "Sopa de tomate*" reaches "sopa de tomate *" by the asterisk rule. */
  lemma SopaAliasUnreachable(name: string)
    ensures MatchKey(name) != "sopa de tomate*"
  {
    MatchKeyShape(name);
  }
}
