/** `processCellContent`: the Markdown of a table cell reduced to its text. Formula
    dollars, the emphasis, code and strike-through delimiters and the link and
    image syntax are dropped around their content, and white space is collapsed. */
module CellContent {
  import opened Text
  import Spans

  // ---------------------------------------------------------------------
  // `replace(/\$(.*?)\$/g, '$1')`
  // ---------------------------------------------------------------------

  /** The first index after `i` holding `$` or a line terminator, `|s|` if none. */
  function DollarStop(s: string, i: nat): (r: nat)
    requires i <= |s|
    ensures i <= r <= |s|
    ensures forall t :: i <= t < r ==> s[t] != '$' && !IsLineTerminator(s[t])
    ensures r < |s| ==> s[r] == '$' || IsLineTerminator(s[r])
    decreases |s| - i
  {
    if i == |s| || s[i] == '$' || IsLineTerminator(s[i]) then i else DollarStop(s, i + 1)
  }

  /** Where the closing dollar of an inline formula opened at `i` stands: the lazy
      `.*?` stops at the first dollar, and `.` matches no line terminator. */
  function DollarClose(s: string, i: nat): (r: Option<nat>)
    requires i < |s|
    ensures r.Some? ==> i < r.value < |s| && s[r.value] == '$'
  {
    if s[i] != '$' then None
    else
      var j := DollarStop(s, i + 1);
      if j < |s| && s[j] == '$' then Some(j) else None
  }

  /** Every inline formula gives its content, left to right. */
  function DollarPass(s: string, i: nat): string
    requires i <= |s|
    decreases |s| - i
  {
    if i == |s| then []
    else match DollarClose(s, i)
      case Some(j) => s[i + 1..j] + DollarPass(s, j + 1)
      case None => [s[i]] + DollarPass(s, i + 1)
  }

  /** No two dollars stand side by side. */
  predicate NoDoubleDollar(t: string) {
    forall p :: 0 <= p < |t| - 1 && t[p] == '$' ==> t[p + 1] != '$'
  }

  /** After the inline rule no two dollars stand side by side: a dollar that stays
      has no other dollar after it on its line. */
  lemma {:induction false} DollarPassLeavesNoPair(s: string, i: nat)
    requires i <= |s|
    ensures NoDoubleDollar(DollarPass(s, i))
    ensures i < |s| && s[i] != '$' ==> DollarPass(s, i)[0] == s[i]
    decreases |s| - i
  {
    if i < |s| {
      match DollarClose(s, i)
      case Some(j) =>
        DollarPassLeavesNoPair(s, j + 1);
        var content := s[i + 1..j];
        assert forall t :: 0 <= t < |content| ==> content[t] == s[i + 1 + t];
        PrependNoDollar(content, DollarPass(s, j + 1));
      case None =>
        DollarPassLeavesNoPair(s, i + 1);
        if s[i] == '$' && i + 1 < |s| {
          assert DollarStop(s, i + 1) == i + 1 || s[i + 1] != '$';
        }
        PrependOne(s[i], DollarPass(s, i + 1));
    }
  }

  /** Dollar-free text in front keeps the property. */
  lemma PrependNoDollar(a: string, b: string)
    requires '$' !in a && NoDoubleDollar(b)
    ensures NoDoubleDollar(a + b)
  {
    var t := a + b;
    forall p | 0 <= p < |t| - 1 && t[p] == '$'
      ensures t[p + 1] != '$'
    {
      if p >= |a| {
        assert t[p] == b[p - |a|] && t[p + 1] == b[p + 1 - |a|];
      }
    }
  }

  /** One character in front keeps the property when it is no dollar or when the
      text it goes in front of starts with something else. */
  lemma PrependOne(c: char, b: string)
    requires NoDoubleDollar(b)
    requires c == '$' && b != [] ==> b[0] != '$'
    ensures NoDoubleDollar([c] + b)
  {
    var t := [c] + b;
    forall p | 0 <= p < |t| - 1 && t[p] == '$'
      ensures t[p + 1] != '$'
    {
      if p > 0 {
        assert t[p] == b[p - 1] && t[p + 1] == b[p];
      }
    }
  }

  // ---------------------------------------------------------------------
  // `replace(/\$\$(.*?)\$\$/gs, '$1')`
  // ---------------------------------------------------------------------

  /** Where the closing `$$` of a display formula opened at `i` starts: the first
      `$$` after the opening one, across lines. */
  function DisplayClose(s: string, i: nat): (r: Option<nat>)
    requires i <= |s|
  {
    if !OccursAt(s, "$$", i) then None else IndexOf(s, "$$", i + 2)
  }

  function DisplayPass(s: string, i: nat): string
    requires i <= |s|
    decreases |s| - i
  {
    if i == |s| then []
    else match DisplayClose(s, i)
      case Some(j) => s[i + 2..j] + DisplayPass(s, j + 2)
      case None => [s[i]] + DisplayPass(s, i + 1)
  }

  /** The display rule changes nothing in a text without `$$`. */
  lemma {:induction false} DisplayPassIdle(s: string, i: nat)
    requires i <= |s| && NoDoubleDollar(s)
    ensures DisplayPass(s, i) == s[i..]
    decreases |s| - i
  {
    if i < |s| {
      assert !OccursAt(s, "$$", i) by {
        if i + 2 <= |s| {
          assert s[i..i + 2] == [s[i], s[i + 1]];
        }
      }
      DisplayPassIdle(s, i + 1);
      assert s[i..] == [s[i]] + s[i + 1..];
    }
  }

  // ---------------------------------------------------------------------
  // Links and images
  // ---------------------------------------------------------------------

  /** `\[([^\]]+)\]\([^)]+\)` at `i`: the index of the `]` that ends the text and the
      index of the `)` that ends the target. */
  function LinkAt(s: string, i: nat): (r: Option<(nat, nat)>)
    requires i <= |s|
    ensures r.Some? ==> i + 1 < r.value.0 && r.value.0 + 2 < r.value.1 < |s|
  {
    if i >= |s| || s[i] != '[' then None
    else match IndexOf(s, "]", i + 1)
      case None => None
      case Some(b) =>
        if b == i + 1 || b + 1 >= |s| || s[b + 1] != '(' then None
        else match IndexOf(s, ")", b + 2)
          case None => None
          case Some(p) => if p == b + 2 then None else Some((b, p))
  }

  /** Every link gives its text, left to right. */
  function LinkPass(s: string, i: nat): string
    requires i <= |s|
    decreases |s| - i
  {
    if i == |s| then []
    else match LinkAt(s, i)
      case Some(m) => s[i + 1..m.0] + LinkPass(s, m.1 + 1)
      case None => [s[i]] + LinkPass(s, i + 1)
  }

  /** `!\[([^\]]+)\]\([^)]+\)`: every image gives its alternative text. */
  function ImagePass(s: string, i: nat): string
    requires i <= |s|
    decreases |s| - i
  {
    if i == |s| then []
    else if s[i] == '!' && LinkAt(s, i + 1).Some? then
      var m := LinkAt(s, i + 1).value;
      s[i + 2..m.0] + ImagePass(s, m.1 + 1)
    else [s[i]] + ImagePass(s, i + 1)
  }

  lemma {:induction false} LinkPassIdle(s: string, i: nat)
    requires i <= |s| && '[' !in s
    ensures LinkPass(s, i) == s[i..] && ImagePass(s, i) == s[i..]
    decreases |s| - i
  {
    if i < |s| {
      LinkPassIdle(s, i + 1);
      assert s[i..] == [s[i]] + s[i + 1..];
      if i + 1 < |s| {
        assert s[i + 1] != '[';
      }
    }
  }

  // ---------------------------------------------------------------------
  // White space
  // ---------------------------------------------------------------------

  /** `replace(/\s+/g, ' ')` */
  function Collapse(s: string): string
    decreases |s|
  {
    if s == [] then []
    else if IsWhite(s[0]) then " " + Collapse(s[SkipWhite(s, 0)..])
    else [s[0]] + Collapse(s[1..])
  }

  /** The only white space is single spaces. */
  predicate SingleSpaced(t: string) {
    && (forall p :: 0 <= p < |t| && IsWhite(t[p]) ==> t[p] == ' ')
    && (forall p :: 0 <= p < |t| - 1 && IsWhite(t[p]) ==> !IsWhite(t[p + 1]))
  }

  lemma {:induction false} CollapseSingleSpaced(s: string)
    ensures SingleSpaced(Collapse(s))
    ensures s != [] && !IsWhite(s[0]) ==> Collapse(s)[0] == s[0]
    decreases |s|
  {
    if s != [] {
      if IsWhite(s[0]) {
        var rest := s[SkipWhite(s, 0)..];
        CollapseSingleSpaced(rest);
        SpaceInFront(Collapse(rest), rest);
      } else {
        CollapseSingleSpaced(s[1..]);
        CharInFront(s[0], Collapse(s[1..]));
      }
    }
  }

  lemma SpaceInFront(t: string, rest: string)
    requires SingleSpaced(t)
    requires rest == [] || !IsWhite(rest[0])
    requires rest != [] ==> t != [] && t[0] == rest[0]
    requires rest == [] ==> t == []
    ensures SingleSpaced(" " + t)
  {
    var u := " " + t;
    forall p | 0 <= p < |u| - 1 && IsWhite(u[p])
      ensures !IsWhite(u[p + 1])
    {
      if p > 0 {
        assert u[p] == t[p - 1] && u[p + 1] == t[p];
      }
    }
    forall p | 0 <= p < |u| && IsWhite(u[p])
      ensures u[p] == ' '
    {
      if p > 0 {
        assert u[p] == t[p - 1];
      }
    }
  }

  lemma CharInFront(c: char, t: string)
    requires SingleSpaced(t) && !IsWhite(c)
    ensures SingleSpaced([c] + t)
  {
    var u := [c] + t;
    forall p | 0 <= p < |u| - 1 && IsWhite(u[p])
      ensures !IsWhite(u[p + 1])
    {
      assert u[p] == t[p - 1] && u[p + 1] == t[p];
    }
    forall p | 0 <= p < |u| && IsWhite(u[p])
      ensures u[p] == ' '
    {
      assert u[p] == t[p - 1];
    }
  }

  /** A slice of single-spaced text is single-spaced. */
  lemma SliceSingleSpaced(t: string, a: nat, b: nat)
    requires SingleSpaced(t) && a <= b <= |t|
    ensures SingleSpaced(t[a..b])
  {
    var u := t[a..b];
    assert forall p :: 0 <= p < |u| ==> u[p] == t[a + p];
  }

  // ---------------------------------------------------------------------
  // The whole chain
  // ---------------------------------------------------------------------

  /** `([^d\n]+?)` between `k` copies of `d`, replaced by the content alone. */
  function Unwrap(d: char, k: nat): Spans.Rule {
    Spans.Wrap(d, k, "", "")
  }

  /** The six delimiter rules, in the order they run. */
  function Delimiters(s: string): string {
    var a := Spans.SpanPass(s, 0, Unwrap('*', 2));
    var b := Spans.SpanPass(a, 0, Unwrap('_', 2));
    var c := Spans.SpanPass(b, 0, Unwrap('*', 1));
    var d := Spans.SpanPass(c, 0, Unwrap('_', 1));
    var e := Spans.SpanPass(d, 0, Unwrap('`', 1));
    Spans.SpanPass(e, 0, Unwrap('~', 2))
  }

  /** The formula and delimiter rules, which run before the link and image rules. */
  function Markup(content: string): string {
    Delimiters(DisplayPass(DollarPass(content, 0), 0))
  }

  /** `processCellContent` as written: links are replaced before images, so the
      image rule finds the `!` of an image already detached from its brackets. */
  function ProcessCellContent(content: string): string {
    Trim(Collapse(ImagePass(LinkPass(Markup(content), 0), 0)))
  }

  /** The same chain with the image rule ahead of the link rule, so that an image
      gives its alternative text. */
  function ProcessCellContentCorrected(content: string): string {
    Trim(Collapse(LinkPass(ImagePass(Markup(content), 0), 0)))
  }

  /** The display-formula rule never fires: after the inline rule no `$$` is left. */
  lemma DisplayRuleIdle(content: string)
    ensures DisplayPass(DollarPass(content, 0), 0) == DollarPass(content, 0)
  {
    DollarPassLeavesNoPair(content, 0);
    DisplayPassIdle(DollarPass(content, 0), 0);
  }

  /** Trimmed, with single spaces as its only white space. */
  predicate Tidy(r: string) {
    SingleSpaced(r) && (r == [] || (!IsWhite(r[0]) && !IsWhite(r[|r| - 1])))
  }

  lemma CollapseTrimTidy(e: string)
    ensures Tidy(Trim(Collapse(e)))
  {
    var t := Collapse(e);
    CollapseSingleSpaced(e);
    TrimSpec(t);
    TrimIsSlice(t);
  }

  /** The result is trimmed and its only white space is single spaces. */
  lemma CellContentSpacing(content: string)
    ensures Tidy(ProcessCellContent(content))
    ensures Tidy(ProcessCellContentCorrected(content))
  {
    CollapseTrimTidy(ImagePass(LinkPass(Markup(content), 0), 0));
    CollapseTrimTidy(LinkPass(ImagePass(Markup(content), 0), 0));
  }

  /** Trimming takes a slice. */
  lemma TrimIsSlice(t: string)
    ensures SingleSpaced(t) ==> SingleSpaced(Trim(t))
  {
    if SingleSpaced(t) {
      var a := SkipWhite(t, 0);
      var u := t[a..];
      SliceSingleSpaced(t, a, |t|);
      SliceSingleSpaced(u, 0, UnwhiteLength(u, |u|));
    }
  }

  /** A cell without dollars, delimiters or brackets keeps its text; only its white
      space is collapsed and trimmed. */
  lemma PlainCellContent(content: string)
    requires Avoids(content, "$*_`~[")
    ensures ProcessCellContent(content) == Trim(Collapse(content))
    ensures ProcessCellContentCorrected(content) == Trim(Collapse(content))
  {
    MarkupIdle(content);
    LinkPassIdle(content, 0);
  }

  /** Text without dollars and delimiters passes the formula and delimiter rules. */
  lemma MarkupIdle(content: string)
    requires Avoids(content, "$*_`~")
    ensures Markup(content) == content
  {
    DollarIdle(content, 0);
    DisplayRuleIdle(content);
    Spans.PassIdentityWithoutDelimiter(content, Unwrap('*', 2));
    Spans.PassIdentityWithoutDelimiter(content, Unwrap('_', 2));
    Spans.PassIdentityWithoutDelimiter(content, Unwrap('*', 1));
    Spans.PassIdentityWithoutDelimiter(content, Unwrap('_', 1));
    Spans.PassIdentityWithoutDelimiter(content, Unwrap('`', 1));
    Spans.PassIdentityWithoutDelimiter(content, Unwrap('~', 2));
  }

  // ---------------------------------------------------------------------
  // Images
  // ---------------------------------------------------------------------

  /** `s` is the image `![alt](url)`. */
  predicate ImageCell(s: string, alt: string, url: string) {
    && alt != [] && url != []
    && Avoids(alt, "$*_`~[]()") && Avoids(url, "$*_`~[]()")
    && s == "![" + alt + "](" + url + ")"
  }

  /** The link pattern matches at index 1 of an image and covers the rest of it. */
  lemma ImageLink(s: string, alt: string, url: string)
    requires ImageCell(s, alt, url)
    ensures LinkAt(s, 1) == Some((2 + |alt|, |s| - 1))
  {
    var b := 2 + |alt|;
    var p := |s| - 1;
    assert forall t :: 2 <= t < b ==> s[t] == alt[t - 2];
    assert forall t :: b + 2 <= t < p ==> s[t] == url[t - b - 2];
    assert s[b] == ']' && s[b + 1] == '(' && s[p] == ')';
    assert OccursAt(s, "]", b) by { assert s[b..b + 1] == [s[b]]; }
    forall j: nat | 2 <= j < b
      ensures !OccursAt(s, "]", j)
    {
      assert s[j..j + 1] == [s[j]];
    }
    assert OccursAt(s, ")", p) by { assert s[p..p + 1] == [s[p]]; }
    forall j: nat | b + 2 <= j < p
      ensures !OccursAt(s, ")", j)
    {
      assert s[j..j + 1] == [s[j]];
    }
  }

  /** The formula and delimiter rules leave an image alone. */
  lemma ImageMarkup(s: string, alt: string, url: string)
    requires ImageCell(s, alt, url)
    ensures Markup(s) == s
  {
    var b := 2 + |alt|;
    var p := |s| - 1;
    forall t | 0 <= t < |s|
      ensures s[t] !in "$*_`~"
    {
      if 2 <= t < b {
        assert s[t] == alt[t - 2];
      } else if b + 2 <= t < p {
        assert s[t] == url[t - b - 2];
      }
    }
    MarkupIdle(s);
  }

  /** The link rule turns an image into `!` and its alternative text. */
  lemma LinkPassImage(s: string, alt: string, url: string)
    requires ImageCell(s, alt, url)
    ensures LinkPass(s, 0) == "!" + alt
  {
    ImageLink(s, alt, url);
    assert s[2..2 + |alt|] == alt;
    assert LinkPass(s, |s|) == [];
    assert LinkAt(s, 0).None?;
  }

  /** The image rule turns an image into its alternative text. */
  lemma ImagePassImage(s: string, alt: string, url: string)
    requires ImageCell(s, alt, url)
    ensures ImagePass(s, 0) == alt
  {
    ImageLink(s, alt, url);
    assert s[2..2 + |alt|] == alt;
    assert ImagePass(s, |s|) == [];
  }

  /** As written, an image loses its brackets and target to the link rule and keeps
      its `!`. */
  lemma ImageKeepsBangAsWritten(s: string, alt: string, url: string)
    requires ImageCell(s, alt, url)
    ensures ProcessCellContent(s) == Trim(Collapse("!" + alt))
  {
    ImageMarkup(s, alt, url);
    LinkPassImage(s, alt, url);
    var t := "!" + alt;
    assert forall k :: 1 <= k < |t| ==> t[k] == alt[k - 1];
    LinkPassIdle(t, 0);
  }

  /** With the image rule first, an image gives its alternative text. */
  lemma ImageCellCorrected(s: string, alt: string, url: string)
    requires ImageCell(s, alt, url)
    ensures ProcessCellContentCorrected(s) == Trim(Collapse(alt))
  {
    ImageMarkup(s, alt, url);
    ImagePassImage(s, alt, url);
    LinkPassIdle(alt, 0);
  }

  lemma {:induction false} DollarIdle(s: string, i: nat)
    requires i <= |s| && '$' !in s
    ensures DollarPass(s, i) == s[i..]
    decreases |s| - i
  {
    if i < |s| {
      DollarIdle(s, i + 1);
      assert s[i..] == [s[i]] + s[i + 1..];
    }
  }

  /** An inline formula alone in a cell gives its content. */
  lemma FormulaCell(s: string, f: string)
    requires '$' !in f && forall t :: 0 <= t < |f| ==> !IsLineTerminator(f[t])
    requires s == ['$'] + f + ['$']
    ensures DollarPass(s, 0) == f
  {
    var j := 1 + |f|;
    assert forall t :: 1 <= t < j ==> s[t] == f[t - 1];
    DollarStopAt(s, 1, j);
    assert DollarClose(s, 0) == Some(j);
    assert s[1..j] == f;
    assert DollarPass(s, j + 1) == [];
  }

  lemma {:induction false} DollarStopAt(s: string, i: nat, j: nat)
    requires i <= j < |s| && s[j] == '$'
    requires forall t :: i <= t < j ==> s[t] != '$' && !IsLineTerminator(s[t])
    ensures DollarStop(s, i) == j
    decreases j - i
  {
    if i < j {
      DollarStopAt(s, i + 1, j);
    }
  }
}
