/** What `processInlineMarkdown` as written does to the line `$a$ and $b$`: the
    `__bold__` rule reads the end of the first placeholder and the start of the
    second as a bold span, and neither formula is restored. The strings are taken
    as parameters fixed by `requires`, and every pass is followed step by step. */
module InlineFinding {
  import opened Text
  import opened Spans
  import opened Inline

  /** `s` spells `text` character by character. The strings are compared by their
      characters so that the solver never evaluates a pass on a literal whole. */
  predicate Spells(s: string, text: string) {
    |s| == |text| && forall t :: 0 <= t < |s| ==> s[t] == text[t]
  }

  /** The line after the inline-math placeholders went in. */
  predicate IsSaved(s: string) {
    Spells(s, "__MATH_INLINE_0__" + " and " + "__MATH_INLINE_1__")
  }

  /** The line after the `__bold__` rule. */
  predicate IsBroken(s: string) {
    Spells(s, "__MATH_INLINE_0" + "<strong> and </strong>" + "MATH_INLINE_1__")
  }

  lemma MathTokens()
    ensures Token(Underscored, SaveMath, 0) == "__MATH_INLINE_0__"
    ensures Token(Underscored, SaveMath, 1) == "__MATH_INLINE_1__"
  {
    assert NatToString(0) == "0" && NatToString(1) == "1";
  }

  lemma MathSavedSecond(s: string)
    requires Spells(s, "$a$ and $b$")
    ensures SavePass(s, 8, SaveMath, Underscored, 1) == Saved("__MATH_INLINE_1__", ["b"])
  {
    assert StopOnLine(s, 10, '$') == 10;
    assert StopOnLine(s, 9, '$') == 10;
    assert SaveEnd(SaveMath, s, 8) == Some(10);
    SaveStepMatch(s, 8, SaveMath, Underscored, 1, 10);
    MathTokens();
    assert SavedText(SaveMath, s, 8, 10) == "b";
  }

  lemma MathSavedMiddle(s: string)
    requires Spells(s, "$a$ and $b$")
    ensures SavePass(s, 3, SaveMath, Underscored, 1) == Saved(s[3..8] + "__MATH_INLINE_1__", ["b"])
  {
    MathSavedSecond(s);
    SaveKeepsPlain(s, 3, 8, SaveMath, Underscored, 1);
  }

  lemma SavedFromLine(s: string, t: string)
    requires Spells(s, "$a$ and $b$") && IsSaved(t)
    ensures t == "__MATH_INLINE_0__" + s[3..8] + "__MATH_INLINE_1__"
  {
    var u := "__MATH_INLINE_0__" + s[3..8] + "__MATH_INLINE_1__";
    forall k | 0 <= k < |t| ensures t[k] == u[k] {
      SavedAt(t, k);
    }
  }

  lemma MathSaved(s: string, t: string)
    requires Spells(s, "$a$ and $b$") && IsSaved(t)
    ensures SavePass(s, 0, SaveMath, Underscored, 0) == Saved(t, ["a", "b"])
  {
    assert StopOnLine(s, 2, '$') == 2;
    assert StopOnLine(s, 1, '$') == 2;
    assert SaveEnd(SaveMath, s, 0) == Some(2);
    SaveStepMatch(s, 0, SaveMath, Underscored, 0, 2);
    MathSavedMiddle(s);
    MathTokens();
    assert SavedText(SaveMath, s, 0, 2) == "a";
    SavedFromLine(s, t);
  }

  /** Where the characters of the saved line come from. */
  lemma SavedAt(s: string, t: nat)
    requires IsSaved(s) && t < 39
    ensures |s| == 39
    ensures t < 17 ==> s[t] == "__MATH_INLINE_0__"[t]
    ensures 17 <= t < 22 ==> s[t] == " and "[t - 17]
    ensures 22 <= t ==> s[t] == "__MATH_INLINE_1__"[t - 22]
  {
  }

  lemma SavedLone(s: string)
    requires IsSaved(s)
    ensures forall t :: 0 <= t < 38 && t != 0 && t != 15 && t != 22 && t != 37 ==> !RunAt(s, t, '_', 2)
  {
    forall t | 0 <= t < 38 && t != 0 && t != 15 && t != 22 && t != 37 ensures !RunAt(s, t, '_', 2) {
      SavedAt(s, t);
      SavedAt(s, t + 1);
      assert !(s[t] == '_' && s[t + 1] == '_');
    }
  }

  lemma BoldFirst(s: string)
    requires IsSaved(s)
    ensures SpanPass(s, 0, StrongUnderscore) == [s[0]] + SpanPass(s, 1, StrongUnderscore)
  {
    SavedAt(s, 0); SavedAt(s, 1); SavedAt(s, 2); SavedAt(s, 3); SavedAt(s, 4);
    SavedAt(s, 5); SavedAt(s, 6); SavedAt(s, 7);
    SpanEndNone(s, 0, 6, '_', 2);
    PassStepCopy(s, 0, StrongUnderscore);
  }

  lemma BoldHead(s: string)
    requires IsSaved(s)
    ensures SpanPass(s, 0, StrongUnderscore) == s[..15] + SpanPass(s, 15, StrongUnderscore)
  {
    BoldFirst(s);
    SavedLone(s);
    assert |s| == 39;
    PassSkipsShortRuns(s, 1, 15, StrongUnderscore);
    assert [s[0]] + s[1..15] == s[..15];
  }

  lemma BoldMatch(s: string)
    requires IsSaved(s)
    ensures SpanPass(s, 15, StrongUnderscore) == "<strong>" + s[17..22] + "</strong>" + SpanPass(s, 24, StrongUnderscore)
  {
    forall t | 17 <= t < 22 ensures s[t] != '_' && s[t] != '\n' {
      SavedAt(s, t);
    }
    SavedAt(s, 15); SavedAt(s, 16); SavedAt(s, 22); SavedAt(s, 23);
    SpanEndComplete(s, 15, 22, '_', 2);
    PassStepMatch(s, 15, 22, StrongUnderscore);
  }

  lemma BoldLast(s: string)
    requires IsSaved(s)
    ensures SpanPass(s, 37, StrongUnderscore) == s[37..]
  {
    SavedAt(s, 37); SavedAt(s, 38);
    SpanEndNone(s, 37, 39, '_', 2);
    PassStepCopy(s, 37, StrongUnderscore);
    PassSkipsShortRuns(s, 38, 39, StrongUnderscore);
    assert [s[37]] + s[38..39] == s[37..];
  }

  lemma BoldTail(s: string)
    requires IsSaved(s)
    ensures SpanPass(s, 24, StrongUnderscore) == s[24..]
  {
    SavedLone(s);
    SavedAt(s, 0);
    PassSkipsShortRuns(s, 24, 37, StrongUnderscore);
    BoldLast(s);
    assert s[24..37] + s[37..] == s[24..];
  }

  lemma SavedHead(s: string)
    requires IsSaved(s)
    ensures s[..15] == "__MATH_INLINE_0"
  {
    SavedAt(s, 0);
    forall t | 0 <= t < 15 ensures s[..15][t] == "__MATH_INLINE_0"[t] { SavedAt(s, t); }
  }

  lemma SavedMiddle(s: string)
    requires IsSaved(s)
    ensures s[17..22] == " and "
  {
    SavedAt(s, 0);
    forall t | 0 <= t < 5 ensures s[17..22][t] == " and "[t] { SavedAt(s, 17 + t); }
  }

  lemma SavedTail(s: string)
    requires IsSaved(s)
    ensures s[24..] == "MATH_INLINE_1__"
  {
    SavedAt(s, 0);
    forall t | 0 <= t < 15 ensures s[24..][t] == "MATH_INLINE_1__"[t] { SavedAt(s, 24 + t); }
  }

  /** The `__bold__` rule pairs the closing `__` of the first placeholder with the
      opening `__` of the second. */
  lemma BoldSplitsPlaceholders(s: string, b: string)
    requires IsSaved(s) && IsBroken(b)
    ensures SpanPass(s, 0, StrongUnderscore) == b
  {
    BoldHead(s);
    BoldMatch(s);
    BoldTail(s);
    BrokenPieces(s, b);
  }

  lemma BrokenPieces(s: string, b: string)
    requires IsSaved(s) && IsBroken(b)
    ensures b == s[..15] + ("<strong>" + s[17..22] + "</strong>" + s[24..])
  {
    SavedHead(s);
    SavedMiddle(s);
    SavedTail(s);
    assert "<strong>" + " and " + "</strong>" == "<strong> and </strong>";
  }

  /** No run of three underscores: the `___` rule leaves the placeholders alone. */
  lemma TripleLeavesPlaceholders(s: string)
    requires IsSaved(s)
    ensures SpanPass(s, 0, StrongEmUnderscore) == s
  {
    SavedAt(s, 0);
    forall t | 0 <= t < 39 ensures !RunAt(s, t, '_', 3) {
      if t < 37 {
        SavedAt(s, t);
        SavedAt(s, t + 1);
        SavedAt(s, t + 2);
        assert !(s[t] == '_' && s[t + 1] == '_' && s[t + 2] == '_');
      }
    }
    PassSkipsShortRuns(s, 0, 39, StrongEmUnderscore);
  }

  /** Where the characters of the broken line come from. */
  lemma BrokenAt(b: string, t: nat)
    requires IsBroken(b) && t < 52
    ensures |b| == 52
    ensures t < 15 ==> b[t] == "__MATH_INLINE_0"[t]
    ensures 15 <= t < 37 ==> b[t] == "<strong> and </strong>"[t - 15]
    ensures 37 <= t ==> b[t] == "MATH_INLINE_1__"[t - 37]
  {
  }

  lemma WordCharOpensNothing(c: char)
    requires IsWordChar(c)
    ensures !OpensEmphasis(c)
  {
  }

  lemma BrokenBoundaries(b: string)
    requires IsBroken(b)
    ensures forall t :: 1 <= t < |b| && b[t] == '_' ==> !OpensEmphasis(Before(b, t))
  {
    BrokenAt(b, 0);
    forall t | 1 <= t < 52 && b[t] == '_' ensures !OpensEmphasis(Before(b, t)) {
      BrokenAt(b, t);
      BrokenAt(b, t - 1);
      assert IsWordChar(b[t - 1]);
      WordCharOpensNothing(b[t - 1]);
    }
  }

  /** Every `_` of the broken line but the first follows a letter, a digit or another `_`, so
      the `_emphasis_` rule leaves them all alone. */
  lemma EmphasisLeavesBroken(b: string)
    requires IsBroken(b)
    ensures SpanPass(b, 0, EmUnderscore) == b
  {
    BrokenBoundaries(b);
    BrokenAt(b, 0);
    BrokenAt(b, 1);
    SpanEndNone(b, 0, 1, '_', 1);
    PassStepCopy(b, 0, EmUnderscore);
    EmphasisNeedsBoundary(b, 1, '_');
    assert [b[0]] + b[1..] == b;
  }

  /** The emphasis rules as a whole turn the saved line into the broken one. */
  lemma EmphasisBreaks(s: string, b: string)
    requires IsSaved(s) && IsBroken(b)
    ensures EmphasisPasses(s) == b
  {
    SavedAt(s, 0);
    BrokenAt(b, 0);
    assert '*' !in s by {
      forall t | 0 <= t < |s| ensures s[t] != '*' { SavedAt(s, t); }
    }
    assert '*' !in b by {
      forall t | 0 <= t < |b| ensures b[t] != '*' { BrokenAt(b, t); }
    }
    PassIdentityWithoutDelimiter(s, StrongEmStar);
    TripleLeavesPlaceholders(s);
    PassIdentityWithoutDelimiter(s, StrongStar);
    BoldSplitsPlaceholders(s, b);
    PassIdentityWithoutDelimiter(b, EmStar);
    EmphasisLeavesBroken(b);
  }

  lemma BrokenPairs(b: string)
    requires IsBroken(b)
    ensures |b| == 52
    ensures forall k :: 1 <= k < 50 ==> !(b[k] == '_' && b[k + 1] == '_')
  {
    BrokenAt(b, 0);
    forall k | 1 <= k < 50 ensures !(b[k] == '_' && b[k + 1] == '_') {
      BrokenAt(b, k);
      BrokenAt(b, k + 1);
    }
  }

  /** A placeholder head starts with two underscores, which the broken line holds
      together only at its two ends. */
  lemma NoHeadInBroken(b: string, h: string)
    requires IsBroken(b) && |h| >= 3 && h[0] == '_' && h[1] == '_'
    ensures forall k :: 0 <= k < |b[1..]| ==> !OccursAt(b[1..], h, k)
  {
    BrokenPairs(b);
    forall k | 0 <= k < |b[1..]| ensures !OccursAt(b[1..], h, k) {
      if k + |h| <= |b[1..]| {
        assert b[1..][k..k + |h|][0] == b[k + 1] && b[1..][k..k + |h|][1] == b[k + 2];
      }
    }
  }

  /** No restoring pass finds a whole placeholder in the broken line. */
  lemma RestoreFindsNothing(b: string, rule: SaveRule, items: seq<string>)
    requires IsBroken(b)
    ensures RestorePass(b, Underscored, rule, items) == b
  {
    var h := TokenHead(Underscored, rule);
    assert |h| >= 3 && h[0] == '_' && h[1] == '_';
    BrokenAt(b, 0);
    assert TokenAt(b, Underscored, rule).None? by {
      if StartsWith(b, h) {
        assert b[..|h|] == h;
        BrokenAt(b, 2);
        assert h[2] == b[2] == 'M';
        assert rule == SaveMath;
        assert h == "__MATH_INLINE_";
        BrokenAt(b, 14);
        BrokenAt(b, 15);
        assert FirstNonDigit(b, 15) == 15;
        assert FirstNonDigit(b, 14) == 15;
        assert !OccursAt(b, "__", 15);
      }
    }
    NoHeadInBroken(b, h);
    RestoreWithoutHead(b[1..], Underscored, rule, items);
    assert b == [b[0]] + b[1..];
  }

  lemma SavedChars(s: string)
    requires IsSaved(s)
    ensures forall t :: 0 <= t < |s| ==> s[t] != '<' && s[t] != '`'
  {
    SavedAt(s, 0);
    forall t | 0 <= t < |s| ensures s[t] != '<' && s[t] != '`' { SavedAt(s, t); }
  }

  lemma BrokenChars(b: string)
    requires IsBroken(b)
    ensures forall t :: 0 <= t < |b| ==> b[t] != '[' && b[t] != '~'
  {
    BrokenAt(b, 0);
    forall t | 0 <= t < |b| ensures b[t] != '[' && b[t] != '~' { BrokenAt(b, t); }
  }

  lemma AsWrittenStages(line: string, s: string, b: string)
    requires Spells(line, "$a$ and $b$") && IsSaved(s) && IsBroken(b)
    ensures ProcessInlineMarkdown(line) == b
  {
    var fmt := Underscored;
    MathSaved(line, s);
    SavedChars(s);
    SaveWithoutOpener(s, 0, SaveTag, fmt, 0);
    SaveWithoutOpener(s, 0, SaveCode, fmt, 0);
    assert s[0..] == s;
    EmphasisBreaks(s, b);
    RestoreFindsNothing(b, SaveCode, []);
    RestoreFindsNothing(b, SaveMath, ["a", "b"]);
    BrokenChars(b);
    LinkPassWithoutBracket(b, 0);
    ImagePassWithoutBracket(b, 0);
    assert b[0..] == b;
    assert '~' !in b;
    PassIdentityWithoutDelimiter(b, Strike);
    RestoreFindsNothing(b, SaveTag, []);
    calc {
      ProcessInlineMarkdown(line);
      ProcessInlineWith(line, fmt);
      { assert SavePass(line, 0, SaveMath, fmt, 0) == Saved(s, ["a", "b"]);
        assert SavePass(s, 0, SaveTag, fmt, 0) == Saved(s, []);
        assert SavePass(s, 0, SaveCode, fmt, 0) == Saved(s, []); }
      RestorePass(SpanPass(ImagePass(LinkPass(RestorePass(RestorePass(EmphasisPasses(s), fmt, SaveCode, []),
        fmt, SaveMath, ["a", "b"]), 0), 0), 0, Strike), fmt, SaveTag, []);
      b;
    }
  }

  /** `processInlineMarkdown("$a$ and $b$")` as written returns
      `__MATH_INLINE_0<strong> and </strong>MATH_INLINE_1__`. */
  lemma TwoFormulasAsWritten(line: string)
    requires line == "$a$ and $b$"
    ensures ProcessInlineMarkdown(line)
         == "__MATH_INLINE_0" + "<strong> and </strong>" + "MATH_INLINE_1__"
  {
    AsWrittenStages(line, "__MATH_INLINE_0__" + " and " + "__MATH_INLINE_1__",
      "__MATH_INLINE_0" + "<strong> and </strong>" + "MATH_INLINE_1__");
  }

  /** With placeholders the emphasis rules cannot reach, the same line comes back
      unchanged. */
  lemma TwoFormulasCorrected(line: string)
    requires line == "$a$ and $b$"
    ensures ProcessInlineMarkdownCorrected(line) == line
  {
    assert Avoids(line, Markup);
    FormulaLineUnchanged(line);
  }
}
