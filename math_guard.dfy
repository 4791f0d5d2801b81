/** The math placeholder guard (`protectMathFormulas` / `restoreMathFormulas`):
    display formulas `\[...\]` and then inline formulas `\(...\)` are swapped for
    salted tokens `【MATH_DISPLAY_<salt>_<i>】` / `【MATH_INLINE_<salt>_<i>】`
    before Markdown parsing, and swapped back afterwards in reverse index order.
    The random salt is a parameter. */
module MathGuard {
  import opened Text

  datatype Kind = Display | Inline

  /** One entry of the placeholder list: the token and the whole matched span. */
  datatype Placeholder = Placeholder(placeholder: string, formula: string)

  datatype Protected = Protected(protectedContent: string, mathPlaceholders: seq<Placeholder>)

  function KindName(k: Kind): string {
    match k
    case Display => "DISPLAY"
    case Inline => "INLINE"
  }

  /** The first letter of the other kind's name. */
  function OtherLetter(k: Kind): char {
    match k
    case Display => 'I'
    case Inline => 'D'
  }

  function OpenDelim(k: Kind): string {
    match k
    case Display => "\\["
    case Inline => "\\("
  }

  function CloseDelim(k: Kind): string {
    match k
    case Display => "\\]"
    case Inline => "\\)"
  }

  /** `Math.random().toString(36).substring(2, 15)` yields base-36 digits. */
  predicate ValidSalt(salt: string) {
    forall i :: 0 <= i < |salt| ==> IsDigit(salt[i]) || ('a' <= salt[i] <= 'z')
  }

  function TokenPrefix(k: Kind, salt: string): string {
    "【MATH_" + KindName(k) + "_" + salt + "_"
  }

  function Token(k: Kind, salt: string, n: nat): string {
    TokenPrefix(k, salt) + NatToString(n) + "】"
  }

  /** Every placeholder of `ps` is the token of kind `k` numbered `next + i`, and its
      formula is a complete delimited span. */
  predicate Numbered(ps: seq<Placeholder>, k: Kind, salt: string, next: nat) {
    forall i :: 0 <= i < |ps| ==>
      && ps[i].placeholder == Token(k, salt, next + i)
      && StartsWith(ps[i].formula, OpenDelim(k))
      && EndsWith(ps[i].formula, CloseDelim(k))
      && |ps[i].formula| >= 4
  }

  /** One `content.replace(/\\\[([\s\S]*?)\\\]/g, ...)` (or the `\(...\)` one) pass:
      an opening delimiter is matched with the first closing delimiter after it,
      across newlines; an opening delimiter with no closing one is left as text. */
  function ProtectPass(s: string, k: Kind, salt: string, next: nat): (string, seq<Placeholder>)
    decreases |s|
  {
    if StartsWith(s, OpenDelim(k)) && IndexOf(s, CloseDelim(k), 2).Some? then
      var j := IndexOf(s, CloseDelim(k), 2).value;
      var rest := ProtectPass(s[j + 2..], k, salt, next + 1);
      (Token(k, salt, next) + rest.0, [Placeholder(Token(k, salt, next), s[..j + 2])] + rest.1)
    else if s == [] then ([], [])
    else
      var rest := ProtectPass(s[1..], k, salt, next);
      ([s[0]] + rest.0, rest.1)
  }

  /** The placeholders of a pass are numbered consecutively from `next`, and each
      formula runs from an opening delimiter to a closing one. */
  lemma {:induction false} PassNumbered(s: string, k: Kind, salt: string, next: nat)
    ensures Numbered(ProtectPass(s, k, salt, next).1, k, salt, next)
    decreases |s|
  {
    if StartsWith(s, OpenDelim(k)) && IndexOf(s, CloseDelim(k), 2).Some? {
      var j := IndexOf(s, CloseDelim(k), 2).value;
      PassNumbered(s[j + 2..], k, salt, next + 1);
      NumberedMatch(s, j, k, salt, next);
    } else if s != [] {
      PassNumbered(s[1..], k, salt, next);
      PassSkip(s, k, salt, next);
    }
  }

  /** A pass over a text that starts with a delimited formula. */
  lemma PassMatch(s: string, j: nat, k: Kind, salt: string, next: nat)
    requires StartsWith(s, OpenDelim(k)) && IndexOf(s, CloseDelim(k), 2) == Some(j)
    ensures var rest := ProtectPass(s[j + 2..], k, salt, next + 1);
      ProtectPass(s, k, salt, next) == (Token(k, salt, next) + rest.0, [Placeholder(Token(k, salt, next), s[..j + 2])] + rest.1)
  {
  }

  /** A pass over a text that does not start with a delimited formula. */
  lemma PassSkip(s: string, k: Kind, salt: string, next: nat)
    requires s != [] && !(StartsWith(s, OpenDelim(k)) && IndexOf(s, CloseDelim(k), 2).Some?)
    ensures var rest := ProtectPass(s[1..], k, salt, next);
      ProtectPass(s, k, salt, next) == ([s[0]] + rest.0, rest.1)
  {
  }

  lemma NumberedMatch(s: string, j: nat, k: Kind, salt: string, next: nat)
    requires StartsWith(s, OpenDelim(k)) && IndexOf(s, CloseDelim(k), 2) == Some(j)
    requires Numbered(ProtectPass(s[j + 2..], k, salt, next + 1).1, k, salt, next + 1)
    ensures Numbered(ProtectPass(s, k, salt, next).1, k, salt, next)
  {
    PassMatch(s, j, k, salt, next);
    FormulaDelimited(s, j, k);
    NumberedCons(Placeholder(Token(k, salt, next), s[..j + 2]), ProtectPass(s[j + 2..], k, salt, next + 1).1, k, salt, next);
  }

  lemma NumberedCons(ph: Placeholder, ps: seq<Placeholder>, k: Kind, salt: string, next: nat)
    requires ph.placeholder == Token(k, salt, next)
    requires StartsWith(ph.formula, OpenDelim(k)) && EndsWith(ph.formula, CloseDelim(k)) && |ph.formula| >= 4
    requires Numbered(ps, k, salt, next + 1)
    ensures Numbered([ph] + ps, k, salt, next)
  {
    var all := [ph] + ps;
    forall i | 0 < i < |all| ensures all[i] == ps[i - 1] && all[i].placeholder == Token(k, salt, next + i) {
      assert next + 1 + (i - 1) == next + i;
    }
  }

  lemma FormulaDelimited(s: string, j: nat, k: Kind)
    requires StartsWith(s, OpenDelim(k)) && IndexOf(s, CloseDelim(k), 2) == Some(j)
    ensures StartsWith(s[..j + 2], OpenDelim(k)) && EndsWith(s[..j + 2], CloseDelim(k)) && j + 2 >= 4
  {
    assert s[..j + 2][..2] == OpenDelim(k);
    assert s[..j + 2][j..] == CloseDelim(k);
  }

  /** `protectMathFormulas`: display formulas first, then inline formulas, one index counter. */
  function ProtectMathFormulas(content: string, salt: string): Protected
  {
    var d := ProtectPass(content, Display, salt, 0);
    var i := ProtectPass(d.0, Inline, salt, |d.1|);
    Protected(i.0, d.1 + i.1)
  }

  predicate NonEmptyTokens(ps: seq<Placeholder>) {
    forall i :: 0 <= i < |ps| ==> |ps[i].placeholder| > 0
  }

  /** Restoration with each formula substituted literally, last placeholder first. */
  function RestoreVerbatim(content: string, ps: seq<Placeholder>): string
    requires NonEmptyTokens(ps)
    decreases |ps|
  {
    if ps == [] then content
    else RestoreVerbatim(ReplaceAll(content, ps[|ps| - 1].placeholder, ps[|ps| - 1].formula), ps[..|ps| - 1])
  }

  // ---------------------------------------------------------------------
  // `String.prototype.replace` with a string replacement, as written
  // ---------------------------------------------------------------------

  /** The replacement-pattern expansion of `String.prototype.replace` for a pattern
      without capture groups: `$$`, `$&`, `` $` `` and `$'` are special. */
  function ExpandReplacement(rep: string, matched: string, before: string, after: string): string
    decreases |rep|
  {
    if rep == [] then []
    else if rep[0] == '$' && |rep| >= 2 && rep[1] == '$' then "$" + ExpandReplacement(rep[2..], matched, before, after)
    else if rep[0] == '$' && |rep| >= 2 && rep[1] == '&' then matched + ExpandReplacement(rep[2..], matched, before, after)
    else if rep[0] == '$' && |rep| >= 2 && rep[1] == '`' then before + ExpandReplacement(rep[2..], matched, before, after)
    else if rep[0] == '$' && |rep| >= 2 && rep[1] == '\'' then after + ExpandReplacement(rep[2..], matched, before, after)
    else [rep[0]] + ExpandReplacement(rep[1..], matched, before, after)
  }

  /** `s.replace(new RegExp(escaped(pat), 'g'), rep)` scanning from index `i`. */
  function ReplaceFrom(s: string, i: nat, pat: string, rep: string): string
    requires |pat| > 0 && i <= |s|
    decreases |s| - i
  {
    if i + |pat| > |s| then s[i..]
    else if OccursAt(s, pat, i) then ExpandReplacement(rep, pat, s[..i], s[i + |pat|..]) + ReplaceFrom(s, i + |pat|, pat, rep)
    else [s[i]] + ReplaceFrom(s, i + 1, pat, rep)
  }

  function ReplaceAllExpanding(s: string, pat: string, rep: string): string
    requires |pat| > 0
  {
    ReplaceFrom(s, 0, pat, rep)
  }

  /** Restoration as `restoreMathFormulas` does it: the formula is a replacement pattern. */
  function RestoreAsWritten(content: string, ps: seq<Placeholder>): string
    requires NonEmptyTokens(ps)
    decreases |ps|
  {
    if ps == [] then content
    else RestoreAsWritten(ReplaceAllExpanding(content, ps[|ps| - 1].placeholder, ps[|ps| - 1].formula), ps[..|ps| - 1])
  }

  /** `restoreMathFormulas`: the reverse index loop. */
  method RestoreMathFormulas(content: string, mathPlaceholders: seq<Placeholder>) returns (restored: string)
    requires NonEmptyTokens(mathPlaceholders)
    ensures restored == RestoreAsWritten(content, mathPlaceholders)
  {
    restored := content;
    var i := |mathPlaceholders| - 1;
    assert mathPlaceholders[..i + 1] == mathPlaceholders;
    while i >= 0
      invariant -1 <= i < |mathPlaceholders|
      invariant RestoreAsWritten(restored, mathPlaceholders[..i + 1]) == RestoreAsWritten(content, mathPlaceholders)
    {
      var p := mathPlaceholders[i];
      assert mathPlaceholders[..i + 1][..i] == mathPlaceholders[..i];
      restored := ReplaceAllExpanding(restored, p.placeholder, p.formula);
      i := i - 1;
    }
    assert mathPlaceholders[..0] == [];
  }

  // ---------------------------------------------------------------------
  // Facts about tokens
  // ---------------------------------------------------------------------

  lemma TokenShape(k: Kind, salt: string, n: nat)
    requires ValidSalt(salt)
    ensures var t := Token(k, salt, n);
      && |t| >= 9 && t[0] == '【' && t[|t| - 1] == '】'
      && t[1] == 'M' && t[2] == 'A' && t[3] == 'T' && t[4] == 'H' && t[5] == '_'
      && t[6] == KindName(k)[0]
      && (forall i :: 0 < i < |t| ==> t[i] != '【')
      && (forall i :: 0 <= i < |t| - 1 ==> t[i] != '】')
      && (forall i :: 0 <= i < |t| ==> t[i] != '\\' && t[i] != '$')
  {
    var t := Token(k, salt, n);
    var p := TokenPrefix(k, salt);
    var d := NatToString(n);
    PrefixShape(k, salt);
    assert t == p + d + "】";
    forall i | 0 <= i < |t| ensures (i == 0 || t[i] != '【') && (i == |t| - 1 || t[i] != '】') && t[i] != '\\' && t[i] != '$' {
      if i < |p| {
        assert t[i] == p[i];
      } else if i < |p| + |d| {
        assert t[i] == d[i - |p|];
      }
    }
  }

  /** Every character of a token prefix after its opening '【' is an upper-case
      letter, a base-36 digit or `_`. */
  lemma PrefixShape(k: Kind, salt: string)
    requires ValidSalt(salt)
    ensures var p := TokenPrefix(k, salt);
      && |p| >= 8 && p[0] == '【'
      && p[1] == 'M' && p[2] == 'A' && p[3] == 'T' && p[4] == 'H' && p[5] == '_'
      && p[6] == KindName(k)[0]
      && (forall i :: 0 < i < |p| ==> p[i] == '_' || IsDigit(p[i]) || ('A' <= p[i] <= 'Z') || ('a' <= p[i] <= 'z'))
  {
    var p := TokenPrefix(k, salt);
    var name := KindName(k);
    assert p == "【MATH_" + name + "_" + salt + "_";
    forall i | 0 < i < |p| ensures p[i] == '_' || IsDigit(p[i]) || ('A' <= p[i] <= 'Z') || ('a' <= p[i] <= 'z') {
      if 6 <= i < 6 + |name| {
        assert p[i] == name[i - 6];
      } else if 7 + |name| <= i < 7 + |name| + |salt| {
        assert p[i] == salt[i - 7 - |name|];
      }
    }
  }

  /** A word differing from `u` at one index does not start with `u`. */
  lemma DifferAt(w: string, u: string, i: nat)
    requires i < |u| && (i >= |w| || w[i] != u[i])
    ensures !StartsWith(w, u)
  {
    if i < |w| && |u| <= |w| {
      assert w[..|u|][i] == w[i];
    }
  }

  lemma NatToStringDistinct(m: nat, n: nat)
    requires m != n
    ensures NatToString(m) != NatToString(n)
  {
    if NatToString(m) == NatToString(n) {
      NatToStringInjective(m, n);
    }
  }

  /** Two different tokens of one salt: neither begins the other followed by anything. */
  lemma TokenNotPrefix(k: Kind, k': Kind, salt: string, n: nat, m: nat, x: string)
    requires ValidSalt(salt)
    requires k != k' || n != m
    ensures !StartsWith(Token(k, salt, n) + x, Token(k', salt, m))
  {
    if k != k' {
      var t, t' := Token(k, salt, n), Token(k', salt, m);
      TokenShape(k, salt, n);
      TokenShape(k', salt, m);
      assert (t + x)[6] == t[6];
      DifferAt(t + x, t', 6);
    } else {
      NumberNotPrefix(k, salt, n, m, x);
    }
  }

  /** Tokens of one kind that differ in their number differ inside or right after
      the shorter number. */
  lemma NumberNotPrefix(k: Kind, salt: string, n: nat, m: nat, x: string)
    requires n != m
    ensures !StartsWith(Token(k, salt, n) + x, Token(k, salt, m))
  {
    var t, t' := Token(k, salt, n), Token(k, salt, m);
    var p := TokenPrefix(k, salt);
    var d, d' := NatToString(n), NatToString(m);
    assert t == p + d + "】" && t' == p + d' + "】";
    if |d'| < |d| {
      assert (t + x)[|p| + |d'|] == d[|d'|];
      DifferAt(t + x, t', |p| + |d'|);
    } else if |d'| > |d| {
      assert (t + x)[|p| + |d|] == '】';
      assert t'[|p| + |d|] == d'[|d|];
      DifferAt(t + x, t', |p| + |d|);
    } else {
      NatToStringDistinct(n, m);
      var i :| 0 <= i < |d| && d[i] != d'[i];
      assert (t + x)[|p| + i] == d[i];
      assert t'[|p| + i] == d'[i];
      DifferAt(t + x, t', |p| + i);
    }
  }

  // ---------------------------------------------------------------------
  // Shielded text: every '【' starts a token of the other kind
  // ---------------------------------------------------------------------

  /** `y[i]` begins `【MATH_` followed by the other kind's first letter. */
  predicate OpensOther(y: string, i: nat, k: Kind) {
    && i + 6 < |y| && y[i] == '【'
    && y[i + 1] == 'M' && y[i + 2] == 'A' && y[i + 3] == 'T' && y[i + 4] == 'H' && y[i + 5] == '_'
    && y[i + 6] == OtherLetter(k)
  }

  predicate Shielded(y: string, k: Kind) {
    forall i :: 0 <= i < |y| && y[i] == '【' ==> OpensOther(y, i, k)
  }

  lemma ShieldedSuffix(y: string, k: Kind, m: nat)
    requires Shielded(y, k) && m <= |y|
    ensures Shielded(y[m..], k)
  {
    forall i | 0 <= i < |y[m..]| && y[m..][i] == '【' ensures OpensOther(y[m..], i, k) {
      assert y[m + i] == '【';
      assert OpensOther(y, m + i, k);
    }
  }

  lemma ShieldedNoToken(y: string, k: Kind, salt: string, n: nat)
    requires ValidSalt(salt) && Shielded(y, k)
    ensures !Contains(y, Token(k, salt, n))
  {
    var t := Token(k, salt, n);
    TokenShape(k, salt, n);
    forall i: nat | i <= |y| ensures !OccursAt(y, t, i) {
      if i + |t| <= |y| {
        if y[i] == '【' {
          assert OpensOther(y, i, k);
          assert y[i..i + |t|][6] == y[i + 6];
        } else {
          assert y[i..i + |t|][0] == y[i];
        }
      }
    }
  }

  lemma ShieldedAppend(a: string, b: string, k: Kind)
    requires Shielded(b, k)
    requires forall i :: 0 <= i < |a| && a[i] == '【' ==> OpensOther(a, i, k)
    ensures Shielded(a + b, k)
  {
    var y := a + b;
    forall i | 0 <= i < |y| && y[i] == '【' ensures OpensOther(y, i, k) {
      if i < |a| {
        assert a[i] == '【';
        assert OpensOther(a, i, k);
      } else {
        assert b[i - |a|] == '【';
        assert OpensOther(b, i - |a|, k);
      }
    }
  }

  /** The display pass leaves every '【' at the head of a display token. */
  lemma {:induction false} DisplayPassShielded(s: string, salt: string, next: nat)
    requires ValidSalt(salt) && '【' !in s
    ensures Shielded(ProtectPass(s, Display, salt, next).0, Inline)
    decreases |s|
  {
    if StartsWith(s, OpenDelim(Display)) && IndexOf(s, CloseDelim(Display), 2).Some? {
      var j := IndexOf(s, CloseDelim(Display), 2).value;
      DisplayPassShielded(s[j + 2..], salt, next + 1);
      var t := Token(Display, salt, next);
      TokenShape(Display, salt, next);
      assert OpensOther(t, 0, Inline);
      ShieldedAppend(t, ProtectPass(s[j + 2..], Display, salt, next + 1).0, Inline);
    } else if s != [] {
      DisplayPassShielded(s[1..], salt, next);
      ShieldedAppend([s[0]], ProtectPass(s[1..], Display, salt, next).0, Inline);
    }
  }

  // ---------------------------------------------------------------------
  // Restoration lemmas
  // ---------------------------------------------------------------------

  /** Restoring a list in two parts: the later part is restored first. */
  lemma {:induction false} RestoreConcat(t: string, ps: seq<Placeholder>, qs: seq<Placeholder>)
    requires NonEmptyTokens(ps) && NonEmptyTokens(qs)
    ensures NonEmptyTokens(ps + qs)
    ensures RestoreVerbatim(t, ps + qs) == RestoreVerbatim(RestoreVerbatim(t, qs), ps)
    decreases |qs|
  {
    if qs == [] {
      assert ps + qs == ps;
    } else {
      var last := qs[|qs| - 1];
      assert (ps + qs)[..|ps + qs| - 1] == ps + qs[..|qs| - 1];
      RestoreConcat(ReplaceAll(t, last.placeholder, last.formula), ps, qs[..|qs| - 1]);
    }
  }

  /** Replacing one token leaves a different token of the same kind in place. */
  lemma ReplaceSkipsToken(k: Kind, salt: string, n: nat, m: nat, x: string, f: string)
    requires ValidSalt(salt) && n != m
    ensures ReplaceAll(Token(k, salt, n) + x, Token(k, salt, m), f) == Token(k, salt, n) + ReplaceAll(x, Token(k, salt, m), f)
  {
    var t, u := Token(k, salt, n), Token(k, salt, m);
    TokenShape(k, salt, n);
    TokenShape(k, salt, m);
    TokenNotPrefix(k, k, salt, n, m, x);
    ReplaceSkipsHead(t, u, x, f);
  }

  /** A head `t` that does not begin an occurrence of `u`, and holds `u`'s first
      character only at its own start, is copied by `ReplaceAll`. */
  lemma ReplaceSkipsHead(t: string, u: string, x: string, f: string)
    requires |t| > 0 && |u| > 0 && !StartsWith(t + x, u)
    requires forall i :: 0 < i < |t| ==> t[i] != u[0]
    ensures ReplaceAll(t + x, u, f) == t + ReplaceAll(x, u, f)
  {
    ReplaceAllSkip(t + x, u, f);
    assert (t + x)[1..] == t[1..] + x;
    assert u[0] !in t[1..];
    ReplaceAllKeepsPrefix(t[1..], x, u, f);
    assert [t[0]] + t[1..] == t;
  }

  /** A token that no later placeholder names passes through restoration unchanged. */
  lemma {:induction false} RestoreSkipsToken(k: Kind, salt: string, n: nat, x: string, ps: seq<Placeholder>, next: nat)
    requires ValidSalt(salt) && Numbered(ps, k, salt, next) && next > n
    ensures NonEmptyTokens(ps)
    ensures RestoreVerbatim(Token(k, salt, n) + x, ps) == Token(k, salt, n) + RestoreVerbatim(x, ps)
    decreases |ps|
  {
    NumberedNonEmpty(ps, k, salt, next);
    if ps != [] {
      var last := ps[|ps| - 1];
      NumberedInit(ps, k, salt, next);
      ReplaceSkipsToken(k, salt, n, next + |ps| - 1, x, last.formula);
      RestoreSkipsToken(k, salt, n, ReplaceAll(x, last.placeholder, last.formula), ps[..|ps| - 1], next);
    }
  }

  /** Dropping the last placeholder keeps the numbering; the last one is numbered
      `next + |ps| - 1`. */
  lemma NumberedInit(ps: seq<Placeholder>, k: Kind, salt: string, next: nat)
    requires Numbered(ps, k, salt, next) && ps != []
    ensures Numbered(ps[..|ps| - 1], k, salt, next)
    ensures ps[|ps| - 1].placeholder == Token(k, salt, next + |ps| - 1)
  {
    var init := ps[..|ps| - 1];
    forall i | 0 <= i < |init| ensures init[i] == ps[i] { }
  }

  lemma NumberedNonEmpty(ps: seq<Placeholder>, k: Kind, salt: string, next: nat)
    requires Numbered(ps, k, salt, next)
    ensures NonEmptyTokens(ps)
  {
    forall i | 0 <= i < |ps| ensures |ps[i].placeholder| > 0 {
      assert ps[i].placeholder == Token(k, salt, next + i);
    }
  }

  /** A plain character passes through restoration unchanged; a '【' does too when it
      heads a token of the other kind. */
  lemma {:induction false} RestoreSkipsChar(k: Kind, salt: string, c: char, x: string, ps: seq<Placeholder>, next: nat)
    requires ValidSalt(salt) && Numbered(ps, k, salt, next)
    requires c != '【' || OpensOther([c] + x, 0, k)
    ensures NonEmptyTokens(ps)
    ensures RestoreVerbatim([c] + x, ps) == [c] + RestoreVerbatim(x, ps)
    decreases |ps|
  {
    NumberedNonEmpty(ps, k, salt, next);
    if ps != [] {
      var last := ps[|ps| - 1];
      NumberedInit(ps, k, salt, next);
      SkipCharOnce(k, salt, next + |ps| - 1, c, x, last.formula);
      RestoreSkipsChar(k, salt, c, ReplaceAll(x, last.placeholder, last.formula), ps[..|ps| - 1], next);
    }
  }

  /** One `ReplaceAll` of a token copies a plain character, or a '【' heading a token
      of the other kind, and keeps the latter heading one. */
  lemma SkipCharOnce(k: Kind, salt: string, n: nat, c: char, x: string, f: string)
    requires ValidSalt(salt)
    requires c != '【' || OpensOther([c] + x, 0, k)
    ensures var x' := ReplaceAll(x, Token(k, salt, n), f);
      ReplaceAll([c] + x, Token(k, salt, n), f) == [c] + x' && (c != '【' || OpensOther([c] + x', 0, k))
  {
    var t := Token(k, salt, n);
    TokenShape(k, salt, n);
    if c == '【' {
      DifferAt([c] + x, t, 6);
    } else {
      DifferAt([c] + x, t, 0);
    }
    ReplaceAllSkip([c] + x, t, f);
    assert ([c] + x)[1..] == x;
    if c == '【' {
      var x' := ReplaceAll(x, t, f);
      TakeDrop(x, 6);
      assert forall j :: 0 <= j < 6 ==> x[..6][j] != '【';
      ReplaceAllKeepsPrefix(x[..6], x[6..], t, f);
      assert x'[..6] == x[..6];
      assert OpensOther([c] + x', 0, k);
    }
  }

  /** A leading piece free of backslashes is copied by a protect pass. */
  lemma PassCopy(s: string, k: Kind, salt: string, next: nat)
    requires s != [] && s[0] != '\\'
    ensures var rest := ProtectPass(s[1..], k, salt, next);
      ProtectPass(s, k, salt, next) == ([s[0]] + rest.0, rest.1)
  {
    assert !StartsWith(s, OpenDelim(k)) by { assert OpenDelim(k)[0] == '\\'; }
    PassSkip(s, k, salt, next);
  }

  lemma {:induction false} PassKeepsPlainPrefix(y: string, m: nat, k: Kind, salt: string, next: nat)
    requires m <= |y| && forall t :: 0 <= t < m ==> y[t] != '\\'
    ensures ProtectPass(y, k, salt, next).0 == y[..m] + ProtectPass(y[m..], k, salt, next).0
    ensures ProtectPass(y, k, salt, next).1 == ProtectPass(y[m..], k, salt, next).1
  {
    if m > 0 {
      PlainTail(y, m);
      PassKeepsPlainPrefix(y[1..], m - 1, k, salt, next);
      PlainPrefixStep(y, m, k, salt, next);
    }
  }

  lemma PlainTail(y: string, m: nat)
    requires 0 < m <= |y| && forall t :: 0 <= t < m ==> y[t] != '\\'
    ensures y[0] != '\\' && forall t :: 0 <= t < m - 1 ==> y[1..][t] != '\\'
  {
    forall t | 0 <= t < m - 1 ensures y[1..][t] != '\\' {
      assert y[1..][t] == y[t + 1];
    }
  }

  lemma PlainPrefixStep(y: string, m: nat, k: Kind, salt: string, next: nat)
    requires 0 < m <= |y| && y[0] != '\\'
    requires ProtectPass(y[1..], k, salt, next).0 == y[1..][..m - 1] + ProtectPass(y[1..][m - 1..], k, salt, next).0
    requires ProtectPass(y[1..], k, salt, next).1 == ProtectPass(y[1..][m - 1..], k, salt, next).1
    ensures ProtectPass(y, k, salt, next).0 == y[..m] + ProtectPass(y[m..], k, salt, next).0
    ensures ProtectPass(y, k, salt, next).1 == ProtectPass(y[m..], k, salt, next).1
  {
    PassCopy(y, k, salt, next);
    DropDrop(y, 1, m - 1);
    assert y[1..][..m - 1] == y[1..m];
    ConcatAssoc([y[0]], y[1..m], ProtectPass(y[m..], k, salt, next).0);
    assert [y[0]] + y[1..m] == y[..m];
  }

  /** Restoring after a matched formula: the token in front is replaced by its
      formula once the later placeholders have restored the rest. */
  lemma MatchStep(f: string, z: string, r0: string, r1: seq<Placeholder>, k: Kind, salt: string, next: nat)
    requires ValidSalt(salt) && Shielded(z, k) && Numbered(r1, k, salt, next + 1)
    requires NonEmptyTokens(r1) && RestoreVerbatim(r0, r1) == z
    ensures NonEmptyTokens([Placeholder(Token(k, salt, next), f)] + r1)
    ensures RestoreVerbatim(Token(k, salt, next) + r0, [Placeholder(Token(k, salt, next), f)] + r1) == f + z
  {
    var t := Token(k, salt, next);
    var ph := Placeholder(t, f);
    TokenShape(k, salt, next);
    RestoreSkipsToken(k, salt, next, r0, r1, next + 1);
    RestoreConcat(t + r0, [ph], r1);
    assert [ph][..0] == [];
    assert RestoreVerbatim(t + z, [ph]) == ReplaceAll(t + z, t, f);
    ReplaceAllAtFront(z, t, f);
    ShieldedNoToken(z, k, salt, next);
    ReplaceAllAbsent(z, t, f);
  }

  /** One protect pass is undone by literal restoration of its placeholders. */
  lemma {:induction false} PassRoundTrip(y: string, k: Kind, salt: string, next: nat)
    requires ValidSalt(salt) && Shielded(y, k)
    ensures NonEmptyTokens(ProtectPass(y, k, salt, next).1)
    ensures RestoreVerbatim(ProtectPass(y, k, salt, next).0, ProtectPass(y, k, salt, next).1) == y
    decreases |y|
  {
    if StartsWith(y, OpenDelim(k)) && IndexOf(y, CloseDelim(k), 2).Some? {
      var j := IndexOf(y, CloseDelim(k), 2).value;
      ShieldedSuffix(y, k, j + 2);
      PassRoundTrip(y[j + 2..], k, salt, next + 1);
      RoundTripMatch(y, j, k, salt, next);
    } else if y != [] {
      ShieldedSuffix(y, k, 1);
      PassRoundTrip(y[1..], k, salt, next);
      RoundTripCopy(y, k, salt, next);
    }
  }

  lemma RoundTripMatch(y: string, j: nat, k: Kind, salt: string, next: nat)
    requires ValidSalt(salt) && StartsWith(y, OpenDelim(k)) && IndexOf(y, CloseDelim(k), 2) == Some(j)
    requires Shielded(y[j + 2..], k)
    requires NonEmptyTokens(ProtectPass(y[j + 2..], k, salt, next + 1).1)
    requires RestoreVerbatim(ProtectPass(y[j + 2..], k, salt, next + 1).0, ProtectPass(y[j + 2..], k, salt, next + 1).1) == y[j + 2..]
    ensures NonEmptyTokens(ProtectPass(y, k, salt, next).1)
    ensures RestoreVerbatim(ProtectPass(y, k, salt, next).0, ProtectPass(y, k, salt, next).1) == y
  {
    var rest := ProtectPass(y[j + 2..], k, salt, next + 1);
    PassMatch(y, j, k, salt, next);
    PassNumbered(y[j + 2..], k, salt, next + 1);
    MatchStep(y[..j + 2], y[j + 2..], rest.0, rest.1, k, salt, next);
    TakeDrop(y, j + 2);
  }

  lemma RoundTripCopy(y: string, k: Kind, salt: string, next: nat)
    requires ValidSalt(salt) && Shielded(y, k) && y != []
    requires !(StartsWith(y, OpenDelim(k)) && IndexOf(y, CloseDelim(k), 2).Some?)
    requires NonEmptyTokens(ProtectPass(y[1..], k, salt, next).1)
    requires RestoreVerbatim(ProtectPass(y[1..], k, salt, next).0, ProtectPass(y[1..], k, salt, next).1) == y[1..]
    ensures NonEmptyTokens(ProtectPass(y, k, salt, next).1)
    ensures RestoreVerbatim(ProtectPass(y, k, salt, next).0, ProtectPass(y, k, salt, next).1) == y
  {
    var rest := ProtectPass(y[1..], k, salt, next);
    PassSkip(y, k, salt, next);
    PassNumbered(y[1..], k, salt, next);
    if y[0] == '【' {
      CopyKeepsOpener(y, k, salt, next);
    }
    RestoreSkipsChar(k, salt, y[0], rest.0, rest.1, next);
    TakeDrop(y, 1);
    assert y[..1] == [y[0]];
  }

  /** A '【' copied by a protect pass still heads `【MATH_` and the other kind's letter. */
  lemma CopyKeepsOpener(y: string, k: Kind, salt: string, next: nat)
    requires Shielded(y, k) && |y| > 0 && y[0] == '【'
    ensures OpensOther([y[0]] + ProtectPass(y[1..], k, salt, next).0, 0, k)
  {
    var rest := ProtectPass(y[1..], k, salt, next);
    assert OpensOther(y, 0, k);
    assert forall i :: 0 <= i < 6 ==> y[1..][i] == y[i + 1];
    PassKeepsPlainPrefix(y[1..], 6, k, salt, next);
    assert rest.0[..6] == y[1..7];
  }

  /** Restoring a protected text, with each formula substituted literally, gives back
      the original text, provided it holds no '【'. Restoring in reverse order lets an
      inline formula that captured a display token re-expand it afterwards. */
  lemma ProtectRestoreRoundTrip(s: string, salt: string)
    requires ValidSalt(salt) && '【' !in s
    ensures NonEmptyTokens(ProtectMathFormulas(s, salt).mathPlaceholders)
    ensures var p := ProtectMathFormulas(s, salt); RestoreVerbatim(p.protectedContent, p.mathPlaceholders) == s
  {
    var d := ProtectPass(s, Display, salt, 0);
    var i := ProtectPass(d.0, Inline, salt, |d.1|);
    PassRoundTrip(s, Display, salt, 0);
    DisplayPassShielded(s, salt, 0);
    PassRoundTrip(d.0, Inline, salt, |d.1|);
    RestoreConcat(i.0, d.1, i.1);
  }

  // ---------------------------------------------------------------------
  // As written: formulas are replacement patterns
  // ---------------------------------------------------------------------

  lemma {:induction false} ExpandWithoutDollar(rep: string, matched: string, before: string, after: string)
    requires '$' !in rep
    ensures ExpandReplacement(rep, matched, before, after) == rep
    decreases |rep|
  {
    if rep != [] {
      assert rep[0] != '$';
      ExpandWithoutDollar(rep[1..], matched, before, after);
      assert [rep[0]] + rep[1..] == rep;
    }
  }

  lemma {:induction false} ReplaceFromLiteral(s: string, i: nat, pat: string, rep: string)
    requires |pat| > 0 && i <= |s| && '$' !in rep
    ensures ReplaceFrom(s, i, pat, rep) == ReplaceAll(s[i..], pat, rep)
    decreases |s| - i
  {
    if i + |pat| > |s| {
    } else if OccursAt(s, pat, i) {
      ReplaceFromLiteral(s, i + |pat|, pat, rep);
      LiteralMatch(s, i, pat, rep);
    } else {
      ReplaceFromLiteral(s, i + 1, pat, rep);
      LiteralCopy(s, i, pat, rep);
    }
  }

  lemma LiteralMatch(s: string, i: nat, pat: string, rep: string)
    requires |pat| > 0 && i + |pat| <= |s| && '$' !in rep && OccursAt(s, pat, i)
    requires ReplaceFrom(s, i + |pat|, pat, rep) == ReplaceAll(s[i + |pat|..], pat, rep)
    ensures ReplaceFrom(s, i, pat, rep) == ReplaceAll(s[i..], pat, rep)
  {
    ExpandWithoutDollar(rep, pat, s[..i], s[i + |pat|..]);
    OccursAtSuffix(s, pat, i);
    ReplaceAllMatch(s[i..], pat, rep);
    DropDrop(s, i, |pat|);
  }

  lemma LiteralCopy(s: string, i: nat, pat: string, rep: string)
    requires |pat| > 0 && i + |pat| <= |s| && !OccursAt(s, pat, i)
    requires ReplaceFrom(s, i + 1, pat, rep) == ReplaceAll(s[i + 1..], pat, rep)
    ensures ReplaceFrom(s, i, pat, rep) == ReplaceAll(s[i..], pat, rep)
  {
    OccursAtSuffix(s, pat, i);
    ReplaceAllSkip(s[i..], pat, rep);
    DropDrop(s, i, 1);
  }

  /** With no `$` in any formula, the as-written restoration is the literal one. */
  lemma {:induction false} RestoreAsWrittenLiteral(t: string, ps: seq<Placeholder>)
    requires NonEmptyTokens(ps)
    requires forall i :: 0 <= i < |ps| ==> '$' !in ps[i].formula
    ensures RestoreAsWritten(t, ps) == RestoreVerbatim(t, ps)
    decreases |ps|
  {
    if ps != [] {
      var last := ps[|ps| - 1];
      ReplaceFromLiteral(t, 0, last.placeholder, last.formula);
      assert t[0..] == t;
      RestoreAsWrittenLiteral(ReplaceAll(t, last.placeholder, last.formula), ps[..|ps| - 1]);
    }
  }

  /** `restoreMathFormulas(protectMathFormulas(s))` gives back `s` when `s` holds no '【'
      and no captured formula contains `$`. */
  lemma ProtectRestoreAsWritten(s: string, salt: string)
    requires ValidSalt(salt) && '【' !in s
    requires forall p :: p in ProtectMathFormulas(s, salt).mathPlaceholders ==> '$' !in p.formula
    ensures NonEmptyTokens(ProtectMathFormulas(s, salt).mathPlaceholders)
    ensures var p := ProtectMathFormulas(s, salt); RestoreAsWritten(p.protectedContent, p.mathPlaceholders) == s
  {
    var p := ProtectMathFormulas(s, salt);
    ProtectRestoreRoundTrip(s, salt);
    RestoreAsWrittenLiteral(p.protectedContent, p.mathPlaceholders);
  }

  /** A protect pass over text with no closing delimiter changes nothing. */
  lemma {:induction false} PassWithoutClose(s: string, k: Kind, salt: string, next: nat)
    requires !Contains(s, CloseDelim(k))
    ensures ProtectPass(s, k, salt, next) == (s, [])
    decreases |s|
  {
    if s != [] {
      forall i: nat | i <= |s[1..]| ensures !OccursAt(s[1..], CloseDelim(k), i) {
        if OccursAt(s[1..], CloseDelim(k), i) {
          assert s[1..][i..i + 2] == s[i + 1..i + 3];
          assert OccursAt(s, CloseDelim(k), i + 1);
        }
      }
      PassWithoutClose(s[1..], k, salt, next);
      assert [s[0]] + s[1..] == s;
    }
  }

  /** Text without a closing `\]` or `\)` comes back unchanged, with no placeholders. */
  lemma NoClosedPairUnchanged(s: string, salt: string)
    requires !Contains(s, "\\]") && !Contains(s, "\\)")
    ensures ProtectMathFormulas(s, salt) == Protected(s, [])
  {
    PassWithoutClose(s, Display, salt, 0);
    PassWithoutClose(s, Inline, salt, 0);
  }

  /** As written, a formula holding `$$` does not survive: `\($$\)` comes back as `\($\)`. */
  lemma DollarFormulaMangled(salt: string)
    requires ValidSalt(salt)
    ensures var s := "\\($$\\)";
      var p := ProtectMathFormulas(s, salt);
      NonEmptyTokens(p.mathPlaceholders) && RestoreAsWritten(p.protectedContent, p.mathPlaceholders) == "\\($\\)"
  {
    var s := "\\($$\\)";
    var t := Token(Inline, salt, 0);
    DollarSampleProtected(salt);
    TokenShape(Inline, salt, 0);
    DollarSampleExpanded(t);
    assert [Placeholder(t, s)][..0] == [];
  }

  lemma DollarSampleProtected(salt: string)
    ensures ProtectMathFormulas("\\($$\\)", salt) == Protected(Token(Inline, salt, 0), [Placeholder(Token(Inline, salt, 0), "\\($$\\)")])
  {
    var s := "\\($$\\)";
    DollarSampleNoDisplay(salt);
    DollarSampleInline(salt);
  }

  lemma DollarSampleNoDisplay(salt: string)
    ensures ProtectPass("\\($$\\)", Display, salt, 0) == ("\\($$\\)", [])
  {
    var s := "\\($$\\)";
    forall i: nat | i <= |s| ensures !OccursAt(s, "\\]", i) {
      if i + 2 <= |s| {
        assert s[i..i + 2][1] == s[i + 1];
      }
    }
    PassWithoutClose(s, Display, salt, 0);
  }

  lemma DollarSampleInline(salt: string)
    ensures ProtectPass("\\($$\\)", Inline, salt, 0) == (Token(Inline, salt, 0), [Placeholder(Token(Inline, salt, 0), "\\($$\\)")])
  {
    var s := "\\($$\\)";
    assert StartsWith(s, "\\(");
    assert s[2..4][1] != ')' && s[3..5][0] != '\\' && s[4..6] == "\\)";
    assert IndexOf(s, "\\)", 2) == Some(4);
    assert s[..4 + 2] == s;
    assert s[4 + 2..] == [];
    assert ProtectPass([], Inline, salt, 1) == ([], []);
    var t := Token(Inline, salt, 0);
    assert ProtectPass(s, Inline, salt, 0) == (t + [], [Placeholder(t, s[..4 + 2])] + []);
    assert t + [] == t;
    assert [Placeholder(t, s[..4 + 2])] + [] == [Placeholder(t, s)];
  }

  lemma DollarSampleExpanded(t: string)
    requires |t| > 0 && '$' !in t
    ensures ReplaceAllExpanding(t, t, "\\($$\\)") == "\\($\\)"
  {
    var s := "\\($$\\)";
    assert OccursAt(t, t, 0);
    assert ReplaceFrom(t, |t|, t, s) == [];
    assert s[5..] == ")" && s[4..] == "\\)" && s[2..] == "$$\\)" && s[1..] == "($$\\)";
    assert ExpandReplacement(s[5..], t, [], []) == ")";
    assert ExpandReplacement(s[4..], t, [], []) == "\\)";
    assert ExpandReplacement(s[2..], t, [], []) == "$\\)";
    assert ExpandReplacement(s[1..], t, [], []) == "($\\)";
    assert ExpandReplacement(s, t, [], []) == "\\($\\)";
  }
}
