/** `processInlineMarkdown`: an ordered cascade of global replacements on one
    line. Inline math, HTML tags and code spans are first swapped for numbered
    placeholders; then come the strong/emphasis rules, the restoration of code
    spans and math, links, images and strike-through, and the HTML tags last.

    `Format` selects the placeholder spelling: `Underscored` is the source's
    `__MATH_INLINE_n__`, `__HTML_TAG_n__`, `__CODE_BLOCK_n__`; `Sentinel` spells
    them with private-use characters U+E000 and U+E001 so that no emphasis rule can
    reach into them. */
module Inline {
  import opened Text
  import opened Spans

  datatype Format = Underscored | Sentinel

  datatype SaveRule = SaveMath | SaveTag | SaveCode

  const OpenMark: char := '\U{E000}'
  const CloseMark: char := '\U{E001}'

  function TokenName(fmt: Format, rule: SaveRule): string {
    match (fmt, rule)
    case (Underscored, SaveMath) => "MATH_INLINE"
    case (Underscored, SaveTag) => "HTML_TAG"
    case (Underscored, SaveCode) => "CODE_BLOCK"
    case (Sentinel, SaveMath) => "MATH"
    case (Sentinel, SaveTag) => "TAG"
    case (Sentinel, SaveCode) => "CODE"
  }

  function TokenHead(fmt: Format, rule: SaveRule): string {
    if fmt == Underscored then "__" + TokenName(fmt, rule) + "_" else [OpenMark] + TokenName(fmt, rule)
  }

  function TokenTail(fmt: Format): string {
    if fmt == Underscored then "__" else [CloseMark]
  }

  /** The placeholder for the `n`-th saved span. */
  function Token(fmt: Format, rule: SaveRule, n: nat): string {
    TokenHead(fmt, rule) + NatToString(n) + TokenTail(fmt)
  }

  // ---------------------------------------------------------------------
  // Saving spans
  // ---------------------------------------------------------------------

  /** The first index at or after `from` holding `c` or a line terminator. */
  function StopOnLine(s: string, from: nat, c: char): (r: nat)
    ensures from <= |s| ==> from <= r <= |s|
    ensures r < |s| ==> s[r] == c || IsLineTerminator(s[r])
    ensures forall j :: from <= j < r && j < |s| ==> s[j] != c && !IsLineTerminator(s[j])
    decreases |s| - from
  {
    if from >= |s| then from
    else if s[from] == c || IsLineTerminator(s[from]) then from
    else StopOnLine(s, from + 1, c)
  }

  /** The first index at or after `from` holding `c`. */
  function StopAt(s: string, from: nat, c: char): (r: nat)
    ensures from <= |s| ==> from <= r <= |s|
    ensures r < |s| ==> s[r] == c
    ensures forall j :: from <= j < r && j < |s| ==> s[j] != c
    decreases |s| - from
  {
    if from >= |s| then from
    else if s[from] == c then from
    else StopAt(s, from + 1, c)
  }

  /** The character a saved span starts with. */
  function Opener(rule: SaveRule): char {
    match rule
    case SaveMath => '$'
    case SaveTag => '<'
    case SaveCode => '`'
  }

  /** Where the span saved at `i` closes: `\$(.*?)\$` (possibly empty, on one line),
      `<([^>]+)>` (at least one character, across lines), or `` `([^`\n]+?)` ``. */
  function SaveEnd(rule: SaveRule, s: string, i: nat): (r: Option<nat>)
    requires i < |s|
    ensures r.Some? ==> i < r.value < |s| && s[i] == Opener(rule)
  {
    if rule == SaveMath then
      if s[i] != '$' then None
      else
        var p := StopOnLine(s, i + 1, '$');
        if p < |s| && s[p] == '$' then Some(p) else None
    else if rule == SaveTag then
      if s[i] != '<' then None
      else
        var p := StopAt(s, i + 1, '>');
        if i + 1 < p < |s| then Some(p) else None
    else SpanEnd(s, i, '`', 1)
  }

  /** What is pushed: the formula and the code without their delimiters, the whole tag. */
  function SavedText(rule: SaveRule, s: string, i: nat, p: nat): string
    requires i < p < |s|
  {
    if rule == SaveTag then s[i..p + 1] else s[i + 1..p]
  }

  datatype Saved = Saved(text: string, items: seq<string>)

  /** One saving `replace`, numbering placeholders from `next`. */
  function SavePass(s: string, i: nat, rule: SaveRule, fmt: Format, next: nat): Saved
    requires i <= |s|
    decreases |s| - i
  {
    if i == |s| then Saved([], [])
    else
      var e := SaveEnd(rule, s, i);
      if e.Some? then
        var rest := SavePass(s, e.value + 1, rule, fmt, next + 1);
        Saved(Token(fmt, rule, next) + rest.text, [SavedText(rule, s, i, e.value)] + rest.items)
      else
        var rest := SavePass(s, i + 1, rule, fmt, next);
        Saved([s[i]] + rest.text, rest.items)
  }

  // ---------------------------------------------------------------------
  // Restoring spans
  // ---------------------------------------------------------------------

  /** A placeholder `head (\d+) tail` at the start of `s`: the end of its digits.
      The digit run is maximal, as `\d+` is greedy and the tail is no digit. */
  function TokenAt(s: string, fmt: Format, rule: SaveRule): (r: Option<nat>)
    ensures r.Some? ==> |TokenHead(fmt, rule)| < r.value && r.value + |TokenTail(fmt)| <= |s|
  {
    var h := TokenHead(fmt, rule);
    if !StartsWith(s, h) then None
    else
      var e := FirstNonDigit(s, |h|);
      if e > |h| && OccursAt(s, TokenTail(fmt), e) then Some(e) else None
  }

  function FirstNonDigit(s: string, from: nat): (r: nat)
    ensures from <= |s| ==> from <= r <= |s|
    ensures r < |s| ==> !IsDigit(s[r])
    ensures forall j :: from <= j < r && j < |s| ==> IsDigit(s[j])
    decreases |s| - from
  {
    if from >= |s| then from
    else if !IsDigit(s[from]) then from
    else FirstNonDigit(s, from + 1)
  }

  /** What a placeholder is replaced by. An index past the list reads `undefined`. */
  function Expansion(rule: SaveRule, items: seq<string>, v: nat): string {
    var item := if v < |items| then items[v] else "undefined";
    match rule
    case SaveMath => "$" + item + "$"
    case SaveCode => "<code>" + item + "</code>"
    case SaveTag => item
  }

  /** One restoring `replace`. */
  function RestorePass(s: string, fmt: Format, rule: SaveRule, items: seq<string>): string
    decreases |s|
  {
    if s == [] then []
    else
      var e := TokenAt(s, fmt, rule);
      if e.Some? then
        Expansion(rule, items, DigitsValue(s[|TokenHead(fmt, rule)|..e.value]))
          + RestorePass(s[e.value + |TokenTail(fmt)|..], fmt, rule, items)
      else [s[0]] + RestorePass(s[1..], fmt, rule, items)
  }

  // ---------------------------------------------------------------------
  // Links and images
  // ---------------------------------------------------------------------

  /** The first `](` at or after `from` before the end of the line. */
  function LinkMiddle(s: string, from: nat): (r: Option<nat>)
    ensures r.Some? ==> from <= r.value && r.value + 2 <= |s| && s[r.value] == ']' && s[r.value + 1] == '('
    decreases |s| - from
  {
    if from >= |s| || IsLineTerminator(s[from]) then None
    else if from + 1 < |s| && s[from] == ']' && s[from + 1] == '(' then Some(from)
    else LinkMiddle(s, from + 1)
  }

  /** `\[(.*?)\]\((.*?)\)` at `i`: the positions of `](` and of `)`. */
  function LinkAt(s: string, i: nat): (r: Option<(nat, nat)>)
    ensures r.Some? ==> i < r.value.0 && r.value.0 + 2 <= r.value.1 < |s|
  {
    if i >= |s| || s[i] != '[' then None
    else
      var m := LinkMiddle(s, i + 1);
      if m.None? then None
      else
        var q := StopOnLine(s, m.value + 2, ')');
        if q < |s| && s[q] == ')' then Some((m.value, q)) else None
  }

  function LinkPass(s: string, i: nat): string
    requires i <= |s|
    decreases |s| - i
  {
    if i == |s| then []
    else
      var l := LinkAt(s, i);
      if l.Some? then
        var (m, q) := l.value;
        "<a href=\"" + s[m + 2..q] + "\" target=\"_blank\">" + s[i + 1..m] + "</a>" + LinkPass(s, q + 1)
      else [s[i]] + LinkPass(s, i + 1)
  }

  function ImagePass(s: string, i: nat): string
    requires i <= |s|
    decreases |s| - i
  {
    if i == |s| then []
    else
      var l := if s[i] == '!' then LinkAt(s, i + 1) else None;
      if l.Some? then
        var (m, q) := l.value;
        "<img src=\"" + s[m + 2..q] + "\" alt=\"" + s[i + 2..m] + "\" style=\"max-width:100%;\">" + ImagePass(s, q + 1)
      else [s[i]] + ImagePass(s, i + 1)
  }

  // ---------------------------------------------------------------------
  // The cascade
  // ---------------------------------------------------------------------

  const StrongEmStar := Wrap('*', 3, "<strong><em>", "</em></strong>")
  const StrongEmUnderscore := Wrap('_', 3, "<strong><em>", "</em></strong>")
  const StrongStar := Wrap('*', 2, "<strong>", "</strong>")
  const StrongUnderscore := Wrap('_', 2, "<strong>", "</strong>")
  const EmStar := Emphasis('*')
  const EmUnderscore := Emphasis('_')
  const Strike := Wrap('~', 2, "<del>", "</del>")
  const CodeSpan := Wrap('`', 1, "<code>", "</code>")

  /** The six strong/emphasis passes, in source order. */
  function EmphasisPasses(s: string): string {
    var s1 := SpanPass(s, 0, StrongEmStar);
    var s2 := SpanPass(s1, 0, StrongEmUnderscore);
    var s3 := SpanPass(s2, 0, StrongStar);
    var s4 := SpanPass(s3, 0, StrongUnderscore);
    var s5 := SpanPass(s4, 0, EmStar);
    SpanPass(s5, 0, EmUnderscore)
  }

  function ProcessInlineWith(text: string, fmt: Format): string {
    var math := SavePass(text, 0, SaveMath, fmt, 0);
    var tags := SavePass(math.text, 0, SaveTag, fmt, 0);
    var code := SavePass(tags.text, 0, SaveCode, fmt, 0);
    var e := EmphasisPasses(code.text);
    var c := RestorePass(e, fmt, SaveCode, code.items);
    var m := RestorePass(c, fmt, SaveMath, math.items);
    var l := LinkPass(m, 0);
    var im := ImagePass(l, 0);
    var st := SpanPass(im, 0, Strike);
    RestorePass(st, fmt, SaveTag, tags.items)
  }

  /** `processInlineMarkdown` as written, with `__NAME_n__` placeholders. */
  function ProcessInlineMarkdown(text: string): string {
    ProcessInlineWith(text, Underscored)
  }

  /** `processInlineMarkdown` with placeholders the emphasis rules cannot touch:
      the corrected definition. */
  function ProcessInlineMarkdownCorrected(text: string): string {
    ProcessInlineWith(text, Sentinel)
  }

  // ---------------------------------------------------------------------
  // Saving and restoring are inverse (sentinel placeholders)
  // ---------------------------------------------------------------------

  /** A line without the opening character is left as it is, and nothing is saved. */
  lemma {:induction false} SaveWithoutOpener(s: string, i: nat, rule: SaveRule, fmt: Format, next: nat)
    requires i <= |s|
    requires forall j :: i <= j < |s| ==> s[j] != Opener(rule)
    ensures SavePass(s, i, rule, fmt, next) == Saved(s[i..], [])
    decreases |s| - i
  {
    if i < |s| {
      SaveStepCopy(s, i, rule, fmt, next);
      SaveWithoutOpener(s, i + 1, rule, fmt, next);
      HeadJoin(s, i);
    }
  }

  /** A stretch without the opening character is copied as it is. */
  lemma {:induction false} SaveKeepsPlain(s: string, i: nat, j: nat, rule: SaveRule, fmt: Format, next: nat)
    requires i <= j <= |s|
    requires forall t :: i <= t < j ==> s[t] != Opener(rule)
    ensures var rest := SavePass(s, j, rule, fmt, next);
      SavePass(s, i, rule, fmt, next) == Saved(s[i..j] + rest.text, rest.items)
    decreases j - i
  {
    if i < j {
      SaveStepCopy(s, i, rule, fmt, next);
      SaveKeepsPlain(s, i + 1, j, rule, fmt, next);
      ConcatAssoc([s[i]], s[i + 1..j], SavePass(s, j, rule, fmt, next).text);
      assert [s[i]] + s[i + 1..j] == s[i..j];
    }
  }

  /** What saving and then restoring one kind of span gives back: math and tags
      come back as they were, code spans come back wrapped in `<code>`. */
  function Unsaved(rule: SaveRule, s: string, i: nat): string
    requires i <= |s|
  {
    if rule == SaveCode then SpanPass(s, i, CodeSpan) else s[i..]
  }

  lemma UnsavedMatch(rule: SaveRule, s: string, i: nat, p: nat)
    requires i < |s| && SaveEnd(rule, s, i) == Some(p)
    ensures Unsaved(rule, s, i) == Expansion(rule, [SavedText(rule, s, i, p)], 0) + Unsaved(rule, s, p + 1)
  {
    if rule == SaveCode {
      assert SavedText(rule, s, i, p) == s[i + 1..p];
      CodeComesBack(s, i, p);
    } else if rule == SaveMath {
      assert s[p] == '$' && SavedText(rule, s, i, p) == s[i + 1..p];
      MathComesBack(s, i, p);
    } else {
      assert SavedText(rule, s, i, p) == s[i..p + 1];
      TagComesBack(s, i, p);
    }
  }

  lemma CodeComesBack(s: string, i: nat, p: nat)
    requires i < |s| && SpanEnd(s, i, '`', 1) == Some(p)
    ensures SpanPass(s, i, CodeSpan) == Expansion(SaveCode, [s[i + 1..p]], 0) + SpanPass(s, p + 1, CodeSpan)
  {
    PassStepMatch(s, i, p, CodeSpan);
  }

  lemma MathComesBack(s: string, i: nat, p: nat)
    requires i < p < |s| && s[i] == '$' && s[p] == '$'
    ensures s[i..] == Expansion(SaveMath, [s[i + 1..p]], 0) + s[p + 1..]
  {
    assert s[i..] == [s[i]] + s[i + 1..p] + [s[p]] + s[p + 1..];
  }

  lemma TagComesBack(s: string, i: nat, p: nat)
    requires i < p < |s|
    ensures s[i..] == Expansion(SaveTag, [s[i..p + 1]], 0) + s[p + 1..]
  {
    assert s[i..] == s[i..p + 1] + s[p + 1..];
  }

  lemma UnsavedCopy(rule: SaveRule, s: string, i: nat)
    requires i < |s| && SaveEnd(rule, s, i).None?
    ensures Unsaved(rule, s, i) == [s[i]] + Unsaved(rule, s, i + 1)
  {
    if rule == SaveCode {
      PassStepCopy(s, i, CodeSpan);
    } else {
      assert s[i..] == [s[i]] + s[i + 1..];
    }
  }

  /** A sentinel placeholder at the front is replaced by its expansion. */
  lemma RestoreToken(n: nat, x: string, rule: SaveRule, items: seq<string>)
    ensures RestorePass(Token(Sentinel, rule, n) + x, Sentinel, rule, items)
         == Expansion(rule, items, n) + RestorePass(x, Sentinel, rule, items)
  {
    var h := TokenHead(Sentinel, rule);
    var d := NatToString(n);
    assert Token(Sentinel, rule, n) + x == h + d + [CloseMark] + x;
    TokenPieces(h, d, x);
    DigitsValueOfNatToString(n);
  }

  /** Where the digits and the closing mark of a placeholder sit. */
  lemma TokenPieces(h: string, d: string, x: string)
    requires AllDigits(d)
    ensures var t := h + d + [CloseMark] + x;
      StartsWith(t, h) && FirstNonDigit(t, |h|) == |h| + |d| && OccursAt(t, [CloseMark], |h| + |d|)
      && t[|h|..|h| + |d|] == d && t[|h| + |d| + 1..] == x
  {
    TokenSlices(h, d, x);
    TokenDigits(h, d, x);
  }

  lemma TokenSlices(h: string, d: string, x: string)
    ensures var t := h + d + [CloseMark] + x;
      t[..|h|] == h && t[|h|..|h| + |d|] == d && t[|h| + |d|..|h| + |d| + 1] == [CloseMark] && t[|h| + |d| + 1..] == x
  {
  }

  lemma TokenDigits(h: string, d: string, x: string)
    requires AllDigits(d)
    ensures FirstNonDigit(h + d + [CloseMark] + x, |h|) == |h| + |d|
  {
    var t := h + d + [CloseMark] + x;
    var e := |h| + |d|;
    forall k | |h| <= k < e ensures IsDigit(t[k]) {
      assert t[k] == d[k - |h|];
    }
    assert t[e] == CloseMark;
    FirstNonDigitAt(t, |h|, e);
  }

  lemma FirstNonDigitAt(t: string, a: nat, e: nat)
    requires a <= e < |t| && !IsDigit(t[e])
    requires forall k :: a <= k < e ==> IsDigit(t[k])
    ensures FirstNonDigit(t, a) == e
  {
    var r := FirstNonDigit(t, a);
    assert !(r < e);
  }

  /** A character other than U+E000 is copied by a restoring pass. */
  lemma RestoreCopy(c: char, x: string, rule: SaveRule, items: seq<string>)
    requires c != OpenMark
    ensures RestorePass([c] + x, Sentinel, rule, items) == [c] + RestorePass(x, Sentinel, rule, items)
  {
    var t := [c] + x;
    var h := TokenHead(Sentinel, rule);
    assert h[0] == OpenMark && t[0] == c;
    assert !StartsWith(t, h) by {
      if |h| <= |t| {
        assert t[..|h|][0] != h[0];
      }
    }
    assert TokenAt(t, Sentinel, rule).None?;
    assert t[1..] == x;
  }

  /** `saved` sits in `items` from index `next` on. */
  predicate ItemsFrom(items: seq<string>, next: nat, saved: seq<string>) {
    next + |saved| <= |items| && items[next..next + |saved|] == saved
  }

  /** Dropping the first saved item moves the rest one place along. */
  lemma ItemsFromTail(items: seq<string>, next: nat, head: string, saved: seq<string>)
    requires ItemsFrom(items, next, [head] + saved)
    ensures ItemsFrom(items, next + 1, saved)
  {
    var all := [head] + saved;
    assert items[next + 1..next + 1 + |saved|] == all[1..];
    assert all[1..] == saved;
  }

  /** The item saved by a match sits at index `next`. */
  lemma SaveItemsHead(s: string, i: nat, p: nat, rule: SaveRule, next: nat, items: seq<string>)
    requires i < |s| && SaveEnd(rule, s, i) == Some(p)
    requires ItemsFrom(items, next, SavePass(s, i, rule, Sentinel, next).items)
    ensures next < |items| && items[next] == SavedText(rule, s, i, p)
  {
    SaveStepMatch(s, i, rule, Sentinel, next, p);
    var all := SavePass(s, i, rule, Sentinel, next).items;
    assert all[0] == SavedText(rule, s, i, p);
    assert items[next..next + |all|][0] == items[next];
  }

  /** The items saved after a match sit one place further along. */
  lemma SaveItemsTail(s: string, i: nat, p: nat, rule: SaveRule, next: nat, items: seq<string>)
    requires i < |s| && SaveEnd(rule, s, i) == Some(p)
    requires ItemsFrom(items, next, SavePass(s, i, rule, Sentinel, next).items)
    ensures ItemsFrom(items, next + 1, SavePass(s, p + 1, rule, Sentinel, next + 1).items)
  {
    SaveStepMatch(s, i, rule, Sentinel, next, p);
    ItemsFromTail(items, next, SavedText(rule, s, i, p), SavePass(s, p + 1, rule, Sentinel, next + 1).items);
  }

  lemma SaveStepMatch(s: string, i: nat, rule: SaveRule, fmt: Format, next: nat, p: nat)
    requires i < |s| && SaveEnd(rule, s, i) == Some(p)
    ensures var rest := SavePass(s, p + 1, rule, fmt, next + 1);
      SavePass(s, i, rule, fmt, next) == Saved(Token(fmt, rule, next) + rest.text, [SavedText(rule, s, i, p)] + rest.items)
  {
    assert SaveEnd(rule, s, i).Some?;
  }

  lemma SaveStepCopy(s: string, i: nat, rule: SaveRule, fmt: Format, next: nat)
    requires i < |s| && SaveEnd(rule, s, i).None?
    ensures var rest := SavePass(s, i + 1, rule, fmt, next);
      SavePass(s, i, rule, fmt, next) == Saved([s[i]] + rest.text, rest.items)
  {
  }

  lemma SaveRestoreMatch(s: string, i: nat, p: nat, rule: SaveRule, next: nat, items: seq<string>)
    requires i < |s| && SaveEnd(rule, s, i) == Some(p)
    requires ItemsFrom(items, next, SavePass(s, i, rule, Sentinel, next).items)
    requires RestorePass(SavePass(s, p + 1, rule, Sentinel, next + 1).text, Sentinel, rule, items) == Unsaved(rule, s, p + 1)
    ensures RestorePass(SavePass(s, i, rule, Sentinel, next).text, Sentinel, rule, items) == Unsaved(rule, s, i)
  {
    var rest := SavePass(s, p + 1, rule, Sentinel, next + 1);
    SaveStepMatch(s, i, rule, Sentinel, next, p);
    SaveItemsHead(s, i, p, rule, next, items);
    RestoreToken(next, rest.text, rule, items);
    UnsavedMatch(rule, s, i, p);
  }

  lemma SaveRestoreCopy(s: string, i: nat, rule: SaveRule, next: nat, items: seq<string>)
    requires i < |s| && SaveEnd(rule, s, i).None? && s[i] != OpenMark
    requires RestorePass(SavePass(s, i + 1, rule, Sentinel, next).text, Sentinel, rule, items) == Unsaved(rule, s, i + 1)
    ensures RestorePass(SavePass(s, i, rule, Sentinel, next).text, Sentinel, rule, items) == Unsaved(rule, s, i)
  {
    SaveStepCopy(s, i, rule, Sentinel, next);
    RestoreCopy(s[i], SavePass(s, i + 1, rule, Sentinel, next).text, rule, items);
    UnsavedCopy(rule, s, i);
  }

  lemma {:induction false} SaveRestore(s: string, i: nat, rule: SaveRule, next: nat, items: seq<string>)
    requires i <= |s|
    requires forall j :: i <= j < |s| ==> s[j] != OpenMark
    requires ItemsFrom(items, next, SavePass(s, i, rule, Sentinel, next).items)
    ensures RestorePass(SavePass(s, i, rule, Sentinel, next).text, Sentinel, rule, items) == Unsaved(rule, s, i)
    decreases |s| - i
  {
    if i < |s| {
      var e := SaveEnd(rule, s, i);
      if e.Some? {
        var p := e.value;
        SaveItemsTail(s, i, p, rule, next, items);
        SaveRestore(s, p + 1, rule, next + 1, items);
        SaveRestoreMatch(s, i, p, rule, next, items);
      } else {
        SaveRestore(s, i + 1, rule, next, items);
        SaveRestoreCopy(s, i, rule, next, items);
      }
    }
  }

  /** Restoring what a saving pass produced undoes it: math and tags come back
      verbatim, code spans come back as `<code>` elements. */
  lemma SaveRestoreRoundTrip(s: string, rule: SaveRule)
    requires OpenMark !in s
    ensures var saved := SavePass(s, 0, rule, Sentinel, 0);
      RestorePass(saved.text, Sentinel, rule, saved.items) == Unsaved(rule, s, 0)
  {
    SaveRestore(s, 0, rule, 0, SavePass(s, 0, rule, Sentinel, 0).items);
  }

  // ---------------------------------------------------------------------
  // A line without markup passes through unchanged (sentinel placeholders)
  // ---------------------------------------------------------------------

  /** Characters no placeholder holds, and the opening U+E000 is followed by the
      first letter of its name everywhere. */
  predicate MarksLead(t: string, c: char) {
    forall k :: 0 <= k < |t| && t[k] == OpenMark ==> k + 1 < |t| && t[k + 1] == c
  }

  lemma MarksLeadConcat(a: string, b: string, c: char)
    requires MarksLead(a, c) && MarksLead(b, c)
    ensures MarksLead(a + b, c)
  {
    forall k | 0 <= k < |a + b| && (a + b)[k] == OpenMark ensures k + 1 < |a + b| && (a + b)[k + 1] == c {
      if k < |a| {
        assert a[k] == OpenMark;
        assert (a + b)[k + 1] == a[k + 1];
      } else {
        assert b[k - |a|] == OpenMark;
        assert (a + b)[k + 1] == b[k - |a| + 1];
      }
    }
  }

  lemma TokenShape(rule: SaveRule, n: nat, bad: string)
    requires OpenMark !in bad && CloseMark !in bad && Avoids(TokenName(Sentinel, rule), bad)
    requires forall j :: 0 <= j < |bad| ==> !IsDigit(bad[j])
    ensures Avoids(Token(Sentinel, rule, n), bad)
    ensures MarksLead(Token(Sentinel, rule, n), TokenName(Sentinel, rule)[0])
  {
    var name := TokenName(Sentinel, rule);
    var d := NatToString(n);
    var t := Token(Sentinel, rule, n);
    assert t == [OpenMark] + name + d + [CloseMark];
    forall j | 0 <= j < |t| ensures t[j] !in bad && (t[j] == OpenMark ==> j == 0) {
      if 1 <= j < 1 + |name| {
        assert t[j] == name[j - 1];
      } else if 1 + |name| <= j < 1 + |name| + |d| {
        assert t[j] == d[j - 1 - |name|];
        assert IsDigit(t[j]);
      }
    }
  }

  lemma {:induction false} SaveAvoids(s: string, i: nat, rule: SaveRule, next: nat, bad: string)
    requires i <= |s|
    requires forall j :: i <= j < |s| ==> s[j] !in bad
    requires OpenMark !in bad && CloseMark !in bad && Avoids(TokenName(Sentinel, rule), bad)
    requires forall j :: 0 <= j < |bad| ==> !IsDigit(bad[j])
    ensures Avoids(SavePass(s, i, rule, Sentinel, next).text, bad)
    decreases |s| - i
  {
    if i < |s| {
      var e := SaveEnd(rule, s, i);
      if e.Some? {
        SaveAvoids(s, e.value + 1, rule, next + 1, bad);
        SaveAvoidsMatch(s, i, e.value, rule, next, bad);
      } else {
        SaveAvoids(s, i + 1, rule, next, bad);
        SaveAvoidsCopy(s, i, rule, next, bad);
      }
    }
  }

  lemma SaveAvoidsMatch(s: string, i: nat, p: nat, rule: SaveRule, next: nat, bad: string)
    requires i < |s| && SaveEnd(rule, s, i) == Some(p)
    requires OpenMark !in bad && CloseMark !in bad && Avoids(TokenName(Sentinel, rule), bad)
    requires forall j :: 0 <= j < |bad| ==> !IsDigit(bad[j])
    requires Avoids(SavePass(s, p + 1, rule, Sentinel, next + 1).text, bad)
    ensures Avoids(SavePass(s, i, rule, Sentinel, next).text, bad)
  {
    SaveStepMatch(s, i, rule, Sentinel, next, p);
    TokenShape(rule, next, bad);
    AvoidsConcat(Token(Sentinel, rule, next), SavePass(s, p + 1, rule, Sentinel, next + 1).text, bad);
  }

  lemma SaveAvoidsCopy(s: string, i: nat, rule: SaveRule, next: nat, bad: string)
    requires i < |s| && SaveEnd(rule, s, i).None? && s[i] !in bad
    requires Avoids(SavePass(s, i + 1, rule, Sentinel, next).text, bad)
    ensures Avoids(SavePass(s, i, rule, Sentinel, next).text, bad)
  {
    SaveStepCopy(s, i, rule, Sentinel, next);
    assert Avoids([s[i]], bad);
    AvoidsConcat([s[i]], SavePass(s, i + 1, rule, Sentinel, next).text, bad);
  }

  lemma {:induction false} SaveMarksLead(s: string, i: nat, rule: SaveRule, next: nat)
    requires i <= |s|
    requires forall j :: i <= j < |s| ==> s[j] != OpenMark
    ensures MarksLead(SavePass(s, i, rule, Sentinel, next).text, TokenName(Sentinel, rule)[0])
    decreases |s| - i
  {
    if i < |s| {
      var e := SaveEnd(rule, s, i);
      if e.Some? {
        SaveMarksLead(s, e.value + 1, rule, next + 1);
        SaveMarksLeadMatch(s, i, e.value, rule, next);
      } else {
        SaveMarksLead(s, i + 1, rule, next);
        SaveMarksLeadCopy(s, i, rule, next);
      }
    }
  }

  lemma SaveMarksLeadMatch(s: string, i: nat, p: nat, rule: SaveRule, next: nat)
    requires i < |s| && SaveEnd(rule, s, i) == Some(p)
    requires MarksLead(SavePass(s, p + 1, rule, Sentinel, next + 1).text, TokenName(Sentinel, rule)[0])
    ensures MarksLead(SavePass(s, i, rule, Sentinel, next).text, TokenName(Sentinel, rule)[0])
  {
    SaveStepMatch(s, i, rule, Sentinel, next, p);
    TokenShape(rule, next, []);
    MarksLeadConcat(Token(Sentinel, rule, next), SavePass(s, p + 1, rule, Sentinel, next + 1).text, TokenName(Sentinel, rule)[0]);
  }

  lemma SaveMarksLeadCopy(s: string, i: nat, rule: SaveRule, next: nat)
    requires i < |s| && SaveEnd(rule, s, i).None? && s[i] != OpenMark
    requires MarksLead(SavePass(s, i + 1, rule, Sentinel, next).text, TokenName(Sentinel, rule)[0])
    ensures MarksLead(SavePass(s, i, rule, Sentinel, next).text, TokenName(Sentinel, rule)[0])
  {
    var c := TokenName(Sentinel, rule)[0];
    SaveStepCopy(s, i, rule, Sentinel, next);
    assert MarksLead([s[i]], c);
    MarksLeadConcat([s[i]], SavePass(s, i + 1, rule, Sentinel, next).text, c);
  }

  /** A restoring pass leaves a text alone when every U+E000 in it opens a
      placeholder of another kind. */
  lemma {:induction false} RestoreSkipsOthers(t: string, rule: SaveRule, c: char, items: seq<string>)
    requires MarksLead(t, c) && c != TokenName(Sentinel, rule)[0]
    ensures RestorePass(t, Sentinel, rule, items) == t
    decreases |t|
  {
    if t != [] {
      var h := TokenHead(Sentinel, rule);
      assert !StartsWith(t, h) by {
        if |h| <= |t| && t[0] == OpenMark {
          assert t[..|h|][1] != h[1];
        } else if |h| <= |t| {
          assert t[..|h|][0] != h[0];
        }
      }
      assert MarksLead(t[1..], c) by {
        forall k | 0 <= k < |t[1..]| && t[1..][k] == OpenMark ensures k + 1 < |t[1..]| && t[1..][k + 1] == c {
          assert t[k + 1] == OpenMark;
        }
      }
      RestoreSkipsOthers(t[1..], rule, c, items);
      assert t == [t[0]] + t[1..];
    }
  }

  lemma {:induction false} LinkPassWithoutBracket(s: string, i: nat)
    requires i <= |s| && forall j :: i <= j < |s| ==> s[j] != '['
    ensures LinkPass(s, i) == s[i..]
    decreases |s| - i
  {
    if i < |s| {
      LinkPassWithoutBracket(s, i + 1);
      assert s[i..] == [s[i]] + s[i + 1..];
    }
  }

  lemma {:induction false} ImagePassWithoutBracket(s: string, i: nat)
    requires i <= |s| && forall j :: i <= j < |s| ==> s[j] != '['
    ensures ImagePass(s, i) == s[i..]
    decreases |s| - i
  {
    if i < |s| {
      ImagePassWithoutBracket(s, i + 1);
      assert s[i..] == [s[i]] + s[i + 1..];
    }
  }

  /** A restoring pass leaves a text alone when no placeholder head occurs in it. */
  lemma {:induction false} RestoreWithoutHead(t: string, fmt: Format, rule: SaveRule, items: seq<string>)
    requires forall k :: 0 <= k < |t| ==> !OccursAt(t, TokenHead(fmt, rule), k)
    ensures RestorePass(t, fmt, rule, items) == t
    decreases |t|
  {
    if t != [] {
      var h := TokenHead(fmt, rule);
      assert !StartsWith(t, h) by {
        assert !OccursAt(t, h, 0);
        assert |h| <= |t| ==> t[..|h|] == t[0..|h|];
      }
      forall k | 0 <= k < |t[1..]| ensures !OccursAt(t[1..], h, k) {
        assert !OccursAt(t, h, k + 1);
        assert k + |h| <= |t[1..]| ==> t[1..][k..k + |h|] == t[k + 1..k + 1 + |h|];
      }
      RestoreWithoutHead(t[1..], fmt, rule, items);
      assert t == [t[0]] + t[1..];
    }
  }

  /** The characters any inline rule other than inline math starts from. */
  const Markup: string := "*_<`[~"

  /** A line without markup and without `$` comes out of the processor as written
      exactly as it went in: nothing is saved, no rule matches, and no placeholder
      is found to restore. */
  lemma PlainLineUnchanged(s: string)
    requires Avoids(s, Markup) && '$' !in s
    ensures ProcessInlineMarkdown(s) == s
  {
    var fmt := Underscored;
    assert s[0..] == s;
    SaveWithoutOpener(s, 0, SaveMath, fmt, 0);
    SaveWithoutOpener(s, 0, SaveTag, fmt, 0);
    SaveWithoutOpener(s, 0, SaveCode, fmt, 0);
    assert '*' !in s && '_' !in s && '~' !in s;
    PassIdentityWithoutDelimiter(s, StrongEmStar);
    PassIdentityWithoutDelimiter(s, StrongEmUnderscore);
    PassIdentityWithoutDelimiter(s, StrongStar);
    PassIdentityWithoutDelimiter(s, StrongUnderscore);
    PassIdentityWithoutDelimiter(s, EmStar);
    PassIdentityWithoutDelimiter(s, EmUnderscore);
    assert EmphasisPasses(s) == s;
    NoUnderscoreNoHead(s, SaveCode);
    RestoreWithoutHead(s, fmt, SaveCode, []);
    NoUnderscoreNoHead(s, SaveMath);
    RestoreWithoutHead(s, fmt, SaveMath, []);
    LinkPassWithoutBracket(s, 0);
    ImagePassWithoutBracket(s, 0);
    PassIdentityWithoutDelimiter(s, Strike);
    NoUnderscoreNoHead(s, SaveTag);
    RestoreWithoutHead(s, fmt, SaveTag, []);
  }

  /** Every `__NAME_n__` placeholder starts with `_`. */
  lemma NoUnderscoreNoHead(t: string, rule: SaveRule)
    requires '_' !in t
    ensures forall k :: 0 <= k < |t| ==> !OccursAt(t, TokenHead(Underscored, rule), k)
  {
    var h := TokenHead(Underscored, rule);
    forall k | 0 <= k < |t| ensures !OccursAt(t, h, k) {
      if k + |h| <= |t| {
        assert t[k..k + |h|][0] == t[k] != h[0];
      }
    }
  }

  /** A line whose only markup is inline math comes out exactly as it went in:
      the formulas are saved, survive every emphasis rule untouched, and are restored
      between their dollar signs. */
  lemma FormulaLineUnchanged(s: string)
    requires Avoids(s, Markup) && OpenMark !in s
    ensures ProcessInlineMarkdownCorrected(s) == s
  {
    var math := SavePass(s, 0, SaveMath, Sentinel, 0);
    var t := math.text;
    SaveAvoids(s, 0, SaveMath, 0, Markup);
    SaveMarksLead(s, 0, SaveMath, 0);
    SaveWithoutOpener(t, 0, SaveTag, Sentinel, 0);
    assert t[0..] == t;
    SaveWithoutOpener(t, 0, SaveCode, Sentinel, 0);
    assert '*' !in t && '_' !in t;
    PassIdentityWithoutDelimiter(t, StrongEmStar);
    PassIdentityWithoutDelimiter(t, StrongEmUnderscore);
    PassIdentityWithoutDelimiter(t, StrongStar);
    PassIdentityWithoutDelimiter(t, StrongUnderscore);
    PassIdentityWithoutDelimiter(t, EmStar);
    PassIdentityWithoutDelimiter(t, EmUnderscore);
    assert EmphasisPasses(t) == t;
    RestoreSkipsOthers(t, SaveCode, 'M', []);
    SaveRestoreRoundTrip(s, SaveMath);
    assert s[0..] == s;
    LinkPassWithoutBracket(s, 0);
    ImagePassWithoutBracket(s, 0);
    assert '~' !in s;
    PassIdentityWithoutDelimiter(s, Strike);
    RestoreSkipsOthers(s, SaveTag, 'M', []);
  }
}
