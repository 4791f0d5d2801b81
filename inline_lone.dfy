/** What `processInlineMarkdown` as written does keep: a line holding one inline
    formula and no other markup comes back unchanged, whatever single `_` the
    formula holds. After saving, the only `_` on the line are those of the one
    placeholder `__MATH_INLINE_0__`, and none of the underscore rules finds a
    second run to pair them with. The formula's own `_` come back only after the
    emphasis rules, and without a `__` none of them can start a tag placeholder. */
module LoneFormula {
  import opened Text
  import opened Spans
  import opened Inline

  const Placeholder: string := "__MATH_INLINE_0__"

  /** Text that no inline rule starts from. */
  predicate Plain(x: string) {
    Avoids(x, Markup) && '$' !in x
  }

  /** No two `_` side by side. */
  predicate NoDoubleUnderscore(t: string) {
    forall j :: 0 < j < |t| ==> t[j - 1] != '_' || t[j] != '_'
  }

  /** A formula on one line, without `$`, and without what the rules run after
      its restoration look for: `[`, `~`, and the `__` that begins a tag
      placeholder. A single `_`, as in `x_1`, is allowed. */
  predicate Formula(f: string) {
    OneLine(f) && NoDoubleUnderscore(f) && '[' !in f && '~' !in f
  }

  /** What the saving rule needs of a formula: no `$` and no line break. */
  predicate OneLine(f: string) {
    '$' !in f && forall j :: 0 <= j < |f| ==> !IsLineTerminator(f[j])
  }

  /** `processInlineMarkdown("see $x_1$ here")`, as written, is `see $x_1$ here`:
      the formula is saved, its placeholder survives every emphasis rule, and it is
      restored between its dollar signs. */
  lemma LoneFormulaUnchanged(x: string, f: string, y: string)
    requires Plain(x) && Formula(f) && Plain(y)
    ensures ProcessInlineMarkdown(x + "$" + f + "$" + y) == x + "$" + f + "$" + y
  {
    var fmt := Underscored;
    var s := x + "$" + f + "$" + y;
    var t := x + Placeholder + y;
    SaveLone(x, f, y);
    SavedLineChars(x, y);
    SaveWithoutOpener(t, 0, SaveTag, fmt, 0);
    SaveWithoutOpener(t, 0, SaveCode, fmt, 0);
    assert t[0..] == t;
    EmphasisKeepsPlaceholder(x, y);
    NoCodeHead(x, y);
    RestoreWithoutHead(t, fmt, SaveCode, []);
    RestoreLone(x, f, y);
    LineChars(x, f, y);
    LineNoDouble(x, f, y);
    assert s[0..] == s;
    LinkPassWithoutBracket(s, 0);
    ImagePassWithoutBracket(s, 0);
    PassIdentityWithoutDelimiter(s, Strike);
    NoDoubleNoHead(s, SaveTag);
    RestoreWithoutHead(s, fmt, SaveTag, []);
  }

  /** `processInlineMarkdown("see $x_1$ here")` is `see $x_1$ here`. */
  lemma SubscriptFormulaUnchanged(s: string)
    requires s == "see $x_1$ here"
    ensures ProcessInlineMarkdown(s) == s
  {
    SubscriptParts(s);
    LoneFormulaUnchanged(s[..4], s[5..8], s[9..]);
  }

  lemma SubscriptParts(s: string)
    requires s == "see $x_1$ here"
    ensures Plain(s[..4]) && Formula(s[5..8]) && Plain(s[9..])
    ensures s == s[..4] + "$" + s[5..8] + "$" + s[9..]
  {
    var x, f, y := s[..4], s[5..8], s[9..];
    assert x == "see " && f == "x_1" && y == " here";
    assert Plain(x);
    assert Plain(y);
    assert Formula(f);
  }

  /** Every placeholder head begins with `__`, so text without `__` holds none. */
  lemma NoDoubleNoHead(t: string, rule: SaveRule)
    requires NoDoubleUnderscore(t)
    ensures forall k :: 0 <= k < |t| ==> !OccursAt(t, TokenHead(Underscored, rule), k)
  {
    var h := TokenHead(Underscored, rule);
    assert h[0] == '_' && h[1] == '_';
    forall k | 0 <= k < |t| ensures !OccursAt(t, h, k) {
      if k + |h| <= |t| {
        assert t[k..k + |h|][0] == t[k] && t[k..k + |h|][1] == t[k + 1];
      }
    }
  }

  // ---------------------------------------------------------------------
  // Saving
  // ---------------------------------------------------------------------

  lemma FirstToken()
    ensures Token(Underscored, SaveMath, 0) == Placeholder
  {
    assert NatToString(0) == "0";
  }

  /** Where the parts of the line lie. */
  lemma LineParts(x: string, f: string, y: string)
    requires Plain(x) && OneLine(f) && Plain(y)
    ensures var s := x + "$" + f + "$" + y;
      var i, p := |x|, |x| + 1 + |f|;
      && |s| == p + 1 + |y| && s[i] == '$' && s[p] == '$'
      && s[0..i] == x && s[i + 1..p] == f && s[p + 1..] == y
      && (forall k :: 0 <= k < i ==> s[k] != '$')
      && (forall k :: i < k < p ==> s[k] != '$' && !IsLineTerminator(s[k]))
      && (forall k :: p < k < |s| ==> s[k] != '$')
  {
    var s := x + "$" + f + "$" + y;
    var i, p := |x|, |x| + 1 + |f|;
    forall k | 0 <= k < i ensures s[k] != '$' {
      assert s[k] == x[k];
    }
    forall k | i < k < p ensures s[k] != '$' && !IsLineTerminator(s[k]) {
      assert s[k] == f[k - i - 1];
    }
    forall k | p < k < |s| ensures s[k] != '$' {
      assert s[k] == y[k - p - 1];
    }
  }

  /** The lazy `.*?` stops at the second `$`. */
  lemma FormulaEnd(s: string, i: nat, p: nat)
    requires i < p < |s| && s[i] == '$' && s[p] == '$'
    requires forall k :: i < k < p ==> s[k] != '$' && !IsLineTerminator(s[k])
    ensures SaveEnd(SaveMath, s, i) == Some(p)
  {
    var r := StopOnLine(s, i + 1, '$');
    assert !(r < p);
    assert !(p < r);
  }

  lemma SaveLone(x: string, f: string, y: string)
    requires Plain(x) && OneLine(f) && Plain(y)
    ensures SavePass(x + "$" + f + "$" + y, 0, SaveMath, Underscored, 0) == Saved(x + Placeholder + y, [f])
  {
    var s := x + "$" + f + "$" + y;
    var i, p := |x|, |x| + 1 + |f|;
    LineParts(x, f, y);
    SaveKeepsPlain(s, 0, i, SaveMath, Underscored, 0);
    FormulaEnd(s, i, p);
    SaveStepMatch(s, i, SaveMath, Underscored, 0, p);
    SaveWithoutOpener(s, p + 1, SaveMath, Underscored, 1);
    FirstToken();
  }

  // ---------------------------------------------------------------------
  // The saved line
  // ---------------------------------------------------------------------

  lemma SavedLineAt(x: string, y: string, k: nat)
    requires k < |x| + 17 + |y|
    ensures var t := x + Placeholder + y;
      && |t| == |x| + 17 + |y|
      && (k < |x| ==> t[k] == x[k])
      && (|x| <= k < |x| + 17 ==> t[k] == Placeholder[k - |x|])
      && (|x| + 17 <= k ==> t[k] == y[k - |x| - 17])
  {
  }

  /** The saved line holds no opener of the other saving rules and no `*`, and its
      `_` are the placeholder's. */
  lemma SavedLineChars(x: string, y: string)
    requires Plain(x) && Plain(y)
    ensures var t := x + Placeholder + y;
      forall k :: 0 <= k < |t| ==>
        && t[k] != '<' && t[k] != '`' && t[k] != '*'
        && (t[k] == '_' ==> |x| <= k < |x| + 17 && Placeholder[k - |x|] == '_')
  {
    var t := x + Placeholder + y;
    forall k | 0 <= k < |t|
      ensures t[k] != '<' && t[k] != '`' && t[k] != '*'
      ensures t[k] == '_' ==> |x| <= k < |x| + 17 && Placeholder[k - |x|] == '_'
    {
      SavedLineAt(x, y, k);
    }
  }

  // ---------------------------------------------------------------------
  // The emphasis rules
  // ---------------------------------------------------------------------

  /** No run of three `_`: the `___` rule finds nothing. */
  lemma TripleKeeps(x: string, y: string)
    requires Plain(x) && Plain(y)
    ensures var t := x + Placeholder + y; SpanPass(t, 0, StrongEmUnderscore) == t
  {
    var t := x + Placeholder + y;
    SavedLineChars(x, y);
    forall k | 0 <= k < |t| ensures !RunAt(t, k, '_', 3) {
      if k + 3 <= |t| {
        SavedLineAt(x, y, k);
        SavedLineAt(x, y, k + 1);
        SavedLineAt(x, y, k + 2);
      }
    }
    PassSkipsShortRuns(t, 0, |t|, StrongEmUnderscore);
  }

  /** The `__` rule: the placeholder's opening `__` meets the single `_` after
      `MATH`, and its closing `__` meets no `_` at all. */
  lemma DoubleKeeps(x: string, y: string)
    requires Plain(x) && Plain(y)
    ensures var t := x + Placeholder + y; SpanPass(t, 0, StrongUnderscore) == t
  {
    var t := x + Placeholder + y;
    var o := |x|;
    DoubleHead(x, y);
    forall k | 0 <= k < o ensures !RunAt(t, k, '_', 2) {
      SavedLineAt(x, y, k);
    }
    KeepsSkip(t, 0, o, StrongUnderscore);
  }

  /** From the placeholder's opening `__` on. */
  lemma DoubleHead(x: string, y: string)
    requires Plain(x) && Plain(y)
    ensures var t := x + Placeholder + y; SpanPass(t, |x|, StrongUnderscore) == t[|x|..]
  {
    var t := x + Placeholder + y;
    var o := |x|;
    var r := StrongUnderscore;
    DoubleMiddle(x, y);
    PlaceholderOpening();
    SavedLineAt(x, y, o);
    SavedLineAt(x, y, o + 1);
    SavedLineAt(x, y, o + 6);
    SavedLineAt(x, y, o + 7);
    forall k | o + 2 <= k < o + 6 ensures t[k] != '_' && t[k] != '\n' {
      SavedLineAt(x, y, k);
      assert t[k] == Placeholder[k - o];
    }
    SpanEndNone(t, o, o + 6, '_', 2);
    KeepsCopy(t, o, r);
  }

  /** Inside the placeholder no second `__` starts before its closing one. */
  lemma DoubleMiddle(x: string, y: string)
    requires Plain(x) && Plain(y)
    ensures var t := x + Placeholder + y; SpanPass(t, |x| + 1, StrongUnderscore) == t[|x| + 1..]
  {
    var t := x + Placeholder + y;
    var o := |x|;
    DoubleTail(x, y);
    PlaceholderInside();
    forall k | o + 1 <= k < o + 15 ensures !RunAt(t, k, '_', 2) {
      SavedLineAt(x, y, k);
      SavedLineAt(x, y, k + 1);
      assert Placeholder[k - o] != '_' || Placeholder[k + 1 - o] != '_';
    }
    KeepsSkip(t, o + 1, o + 15, StrongUnderscore);
  }

  /** The placeholder opens with `__`, and its next `_` stands alone after `MATH`. */
  lemma PlaceholderOpening()
    ensures Placeholder[0] == '_' && Placeholder[1] == '_'
    ensures forall j :: 2 <= j < 6 ==> Placeholder[j] != '_' && Placeholder[j] != '\n'
    ensures Placeholder[6] == '_' && Placeholder[7] != '_'
  {
  }

  /** Between its opening and closing `__` the placeholder has no two `_` side by
      side. */
  lemma PlaceholderInside()
    ensures forall j :: 1 <= j < 15 ==> Placeholder[j] != '_' || Placeholder[j + 1] != '_'
  {
  }

  /** From the placeholder's closing `__` on. */
  lemma DoubleTail(x: string, y: string)
    requires Plain(x) && Plain(y)
    ensures var t := x + Placeholder + y; SpanPass(t, |x| + 15, StrongUnderscore) == t[|x| + 15..]
  {
    var t := x + Placeholder + y;
    var o := |x|;
    var r := StrongUnderscore;
    SavedLineChars(x, y);
    SavedLineAt(x, y, 0);
    forall k | o + 16 <= k < |t| ensures !RunAt(t, k, '_', 2) {
      if k + 2 <= |t| {
        SavedLineAt(x, y, k + 1);
      }
    }
    KeepsSkip(t, o + 16, |t|, r);
    SpanEndNone(t, o + 15, ContentEnd(t, o + 17, '_'), '_', 2);
    KeepsCopy(t, o + 15, r);
  }

  /** The `_` rule: the first `_` has no content behind it, and every later one
      follows a letter, a digit or another `_`. */
  lemma SingleKeeps(x: string, y: string)
    requires Plain(x) && Plain(y)
    ensures var t := x + Placeholder + y; SpanPass(t, 0, EmUnderscore) == t
  {
    var t := x + Placeholder + y;
    var o := |x|;
    var r := EmUnderscore;
    SavedLineChars(x, y);
    SavedLineAt(x, y, 0);
    forall k | o + 1 <= k < |t| && t[k] == '_' ensures !OpensEmphasis(Before(t, k)) {
      SavedLineAt(x, y, k - 1);
      assert Placeholder[k - 1 - o] == t[k - 1];
    }
    EmphasisNeedsBoundary(t, o + 1, '_');
    SavedLineAt(x, y, o);
    SavedLineAt(x, y, o + 1);
    SpanEndNone(t, o, o + 1, '_', 1);
    KeepsCopy(t, o, r);
    forall k | 0 <= k < o ensures !RunAt(t, k, '_', 1) {
      SavedLineAt(x, y, k);
    }
    KeepsSkip(t, 0, o, r);
  }

  lemma EmphasisKeepsPlaceholder(x: string, y: string)
    requires Plain(x) && Plain(y)
    ensures var t := x + Placeholder + y; EmphasisPasses(t) == t
  {
    var t := x + Placeholder + y;
    SavedLineChars(x, y);
    assert '*' !in t;
    PassIdentityWithoutDelimiter(t, StrongEmStar);
    TripleKeeps(x, y);
    PassIdentityWithoutDelimiter(t, StrongStar);
    DoubleKeeps(x, y);
    PassIdentityWithoutDelimiter(t, EmStar);
    SingleKeeps(x, y);
  }

  // ---------------------------------------------------------------------
  // Restoring
  // ---------------------------------------------------------------------

  /** `__CODE_BLOCK_` would need `__C`, or a `_` six places after a `__`. */
  lemma NoCodeHead(x: string, y: string)
    requires Plain(x) && Plain(y)
    ensures var t := x + Placeholder + y;
      forall k :: 0 <= k < |t| ==> !OccursAt(t, TokenHead(Underscored, SaveCode), k)
  {
    var t := x + Placeholder + y;
    var h := TokenHead(Underscored, SaveCode);
    assert h == "__CODE_BLOCK_";
    SavedLineChars(x, y);
    forall k | 0 <= k < |t| ensures !OccursAt(t, h, k) {
      if OccursAt(t, h, k) {
        assert t[k] == h[0] && t[k + 1] == h[1] && t[k + 2] == h[2] && t[k + 6] == h[6];
        SavedLineAt(x, y, k + 2);
        assert false;
      }
    }
  }

  /** Text without `_` holds no placeholder and passes through a restoring pass. */
  lemma {:induction false} RestoreKeepsPlain(x: string, rest: string, rule: SaveRule, items: seq<string>)
    requires '_' !in x
    ensures RestorePass(x + rest, Underscored, rule, items) == x + RestorePass(rest, Underscored, rule, items)
    decreases |x|
  {
    if x != [] {
      assert (x + rest)[0] == x[0];
      RestoreSkipsChar(x + rest, rule, items);
      TailOfConcat(x, rest);
      RestoreKeepsPlain(x[1..], rest, rule, items);
      ConcatAssoc([x[0]], x[1..], RestorePass(rest, Underscored, rule, items));
      assert [x[0]] + x[1..] == x;
    } else {
      assert x + rest == rest;
    }
  }

  /** A restoring pass copies a first character other than `_`. */
  lemma RestoreSkipsChar(w: string, rule: SaveRule, items: seq<string>)
    requires w != [] && w[0] != '_'
    ensures RestorePass(w, Underscored, rule, items) == [w[0]] + RestorePass(w[1..], Underscored, rule, items)
  {
    assert w[0] != TokenHead(Underscored, rule)[0];
    assert TokenAt(w, Underscored, rule).None?;
  }

  /** The placeholder at the front of the rest of the line is the first saved
      formula. */
  lemma RestorePlaceholder(f: string, y: string)
    requires '_' !in y
    ensures RestorePass(Placeholder + y, Underscored, SaveMath, [f]) == "$" + f + "$" + y
  {
    var w := Placeholder + y;
    assert TokenHead(Underscored, SaveMath) == "__MATH_INLINE_";
    assert w[..14] == "__MATH_INLINE_";
    assert FirstNonDigit(w, 15) == 15;
    assert FirstNonDigit(w, 14) == 15;
    assert OccursAt(w, "__", 15);
    assert TokenAt(w, Underscored, SaveMath) == Some(15);
    assert w[14..15] == "0" && DigitsValue("0") == 0;
    assert w[17..] == y;
    NoUnderscoreNoHead(y, SaveMath);
    RestoreWithoutHead(y, Underscored, SaveMath, [f]);
  }

  lemma RestoreLone(x: string, f: string, y: string)
    requires Plain(x) && Plain(y)
    ensures RestorePass(x + Placeholder + y, Underscored, SaveMath, [f]) == x + "$" + f + "$" + y
  {
    assert '_' !in x && '_' !in y;
    Regroup(x, f, y);
    RestoreKeepsPlain(x, Placeholder + y, SaveMath, [f]);
    RestorePlaceholder(f, y);
  }

  lemma Regroup(x: string, f: string, y: string)
    ensures x + Placeholder + y == x + (Placeholder + y)
    ensures x + ("$" + f + "$" + y) == x + "$" + f + "$" + y
  {
  }

  /** The restored line holds none of the characters the last rules look at,
      and its only `_` are the formula's. */
  lemma LineChars(x: string, f: string, y: string)
    requires Plain(x) && Formula(f) && Plain(y)
    ensures var s := x + "$" + f + "$" + y;
      && (forall k :: 0 <= k < |s| ==> s[k] != '[' && s[k] != '~')
      && (forall k :: 0 <= k < |s| && s[k] == '_' ==> |x| < k < |x| + 1 + |f|)
  {
    var s := x + "$" + f + "$" + y;
    forall k | 0 <= k < |s|
      ensures s[k] != '[' && s[k] != '~'
      ensures s[k] == '_' ==> |x| < k < |x| + 1 + |f|
    {
      if k < |x| {
        assert s[k] == x[k];
      } else if k == |x| || k == |x| + 1 + |f| {
      } else if k < |x| + 1 + |f| {
        assert s[k] == f[k - |x| - 1];
      } else {
        assert s[k] == y[k - |x| - 2 - |f|];
      }
    }
  }

  /** The restored line holds no `__`: its `_` are inside the formula. */
  lemma LineNoDouble(x: string, f: string, y: string)
    requires Plain(x) && Formula(f) && Plain(y)
    ensures NoDoubleUnderscore(x + "$" + f + "$" + y)
  {
    var s := x + "$" + f + "$" + y;
    LineChars(x, f, y);
    forall j | |x| + 1 < j < |x| + 1 + |f| ensures s[j - 1] != '_' || s[j] != '_' {
      assert s[j - 1] == f[j - |x| - 2] && s[j] == f[j - |x| - 1];
    }
  }
}
