/** The cell text of the spreadsheet export: `extractPlainTextFromHtml`, which turns
    the HTML of a rendered cell into plain text, and `hasBoldInHtml` /
    `hasItalicInHtml`, which look for formatting tags in it. */
module HtmlText {
  import opened Text

  // ---------------------------------------------------------------------
  // Formatting tags
  // ---------------------------------------------------------------------

  /** `hasBoldInHtml`: false for the empty string, otherwise whether one of the
      four bold tags occurs. */
  predicate HasBoldInHtml(html: string) {
    && html != []
    && (Contains(html, "<strong>") || Contains(html, "<b>")
        || Contains(html, "</strong>") || Contains(html, "</b>"))
  }

  /** `hasItalicInHtml`: the same test with the italic tags. */
  predicate HasItalicInHtml(html: string) {
    && html != []
    && (Contains(html, "<em>") || Contains(html, "<i>")
        || Contains(html, "</em>") || Contains(html, "</i>"))
  }

  /** Content wrapped the way the converter writes bold and emphasis is
      recognised, wherever it stands in the cell. */
  lemma WrappedIsFormatted(a: string, x: string, b: string)
    ensures HasBoldInHtml(a + "<strong>" + x + "</strong>" + b)
    ensures HasItalicInHtml(a + "<em>" + x + "</em>" + b)
  {
    var s := a + "<strong>" + x + "</strong>" + b;
    assert OccursAt(s, "<strong>", |a|) by {
      assert s[|a|..|a| + 8] == "<strong>";
    }
    var e := a + "<em>" + x + "</em>" + b;
    assert OccursAt(e, "<em>", |a|) by {
      assert e[|a|..|a| + 4] == "<em>";
    }
  }

  /** A cell without `<` has neither kind of formatting. */
  lemma NoTagNoFormatting(html: string)
    requires '<' !in html
    ensures !HasBoldInHtml(html) && !HasItalicInHtml(html)
  {
    AbsentHead(html, "<strong>");
    AbsentHead(html, "<b>");
    AbsentHead(html, "</strong>");
    AbsentHead(html, "</b>");
    AbsentHead(html, "<em>");
    AbsentHead(html, "<i>");
    AbsentHead(html, "</em>");
    AbsentHead(html, "</i>");
  }

  // ---------------------------------------------------------------------
  // Line breaks: `replace(/<br\s*\/?>/gi, '\n')`
  // ---------------------------------------------------------------------

  /** The end of a `<br\s*\/?>` tag (in any letter case) at the front of `s`. */
  function BreakEnd(s: string): (r: Option<nat>)
    ensures r.Some? ==> 4 <= r.value <= |s| && s[0] == '<'
  {
    if |s| >= 4 && s[0] == '<' && (s[1] == 'b' || s[1] == 'B') && (s[2] == 'r' || s[2] == 'R') then
      var j := SkipWhite(s, 3);
      if j < |s| && s[j] == '>' then Some(j + 1)
      else if j + 1 < |s| && s[j] == '/' && s[j + 1] == '>' then Some(j + 2)
      else None
    else None
  }

  /** Every line-break tag becomes a newline, left to right. */
  function Breaks(s: string): string
    decreases |s|
  {
    if s == [] then []
    else match BreakEnd(s)
      case Some(e) => "\n" + Breaks(s[e..])
      case None => [s[0]] + Breaks(s[1..])
  }

  // ---------------------------------------------------------------------
  // Tags: `replace(/<[^>]*>/g, '')`
  // ---------------------------------------------------------------------

  /** Every `<` that a later `>` closes is removed together with everything up
      to and including that `>`; a `<` with no `>` after it stays. */
  function StripTags(s: string): string
    decreases |s|
  {
    if s == [] then []
    else if s[0] == '<' then
      match IndexOf(s, ">", 1)
      case Some(e) => StripTags(s[e + 1..])
      case None => [s[0]] + StripTags(s[1..])
    else [s[0]] + StripTags(s[1..])
  }

  /** No tag survives: after the first `<` of the result no `>` follows. */
  predicate NoTag(t: string) {
    forall i, j :: 0 <= i < j < |t| && t[i] == '<' ==> t[j] != '>'
  }

  lemma NoCloseFrom(s: string, from: nat)
    requires 1 <= from && IndexOf(s, ">", from).None?
    ensures forall j :: from <= j < |s| ==> s[j] != '>'
  {
    forall j | from <= j < |s|
      ensures s[j] != '>'
    {
      assert !OccursAt(s, ">", j);
      assert s[j..j + 1] == [s[j]];
    }
  }

  /** An unclosed `<` is copied together with all that follows. */
  lemma {:induction false} StripUnclosed(s: string)
    requires forall j :: 0 <= j < |s| ==> s[j] != '>'
    ensures StripTags(s) == s
    decreases |s|
  {
    if s != [] {
      if s[0] == '<' {
        NoCloseFrom1(s);
      }
      StripUnclosed(s[1..]);
    }
  }

  lemma NoCloseFrom1(s: string)
    requires s != [] && forall j :: 0 <= j < |s| ==> s[j] != '>'
    ensures IndexOf(s, ">", 1).None?
  {
    AbsentHead(s, ">");
  }

  lemma {:induction false} StripTagsNoTag(s: string)
    ensures NoTag(StripTags(s))
    ensures forall c :: c in StripTags(s) ==> c in s
    decreases |s|
  {
    if s != [] {
      if s[0] == '<' {
        match IndexOf(s, ">", 1)
        case Some(e) => StripTagsNoTag(s[e + 1..]);
        case None =>
          NoCloseFrom(s, 1);
          StripUnclosed(s[1..]);
          StripTagsNoTag(s[1..]);
          CopyNoTag(s[0], s[1..]);
      } else {
        StripTagsNoTag(s[1..]);
        HeadNoTag(s[0], StripTags(s[1..]));
      }
    }
  }

  /** A `<` with no `>` after it keeps the text free of tags. */
  lemma CopyNoTag(c: char, rest: string)
    requires NoTag(rest) && forall j :: 0 <= j < |rest| ==> rest[j] != '>'
    ensures NoTag([c] + rest)
  {
  }

  /** A character other than `<` in front keeps the text free of tags. */
  lemma HeadNoTag(c: char, rest: string)
    requires NoTag(rest) && c != '<'
    ensures NoTag([c] + rest)
  {
    var t := [c] + rest;
    forall i, j | 0 <= i < j < |t| && t[i] == '<'
      ensures t[j] != '>'
    {
      assert t[i] == rest[i - 1] && t[j] == rest[j - 1];
    }
  }

  /** Text without `<` has no tags to remove. */
  lemma {:induction false} StripTagsPlain(s: string)
    requires '<' !in s
    ensures StripTags(s) == s
    decreases |s|
  {
    if s != [] {
      assert s[1..] == s[1..];
      assert '<' !in s[1..] by {
        forall c | c in s[1..] ensures c in s { }
      }
      StripTagsPlain(s[1..]);
    }
  }

  lemma {:induction false} BreaksPlain(s: string)
    requires '<' !in s
    ensures Breaks(s) == s
    decreases |s|
  {
    if s != [] {
      assert '<' !in s[1..] by {
        forall c | c in s[1..] ensures c in s { }
      }
      BreaksPlain(s[1..]);
    }
  }

  // ---------------------------------------------------------------------
  // Entities
  // ---------------------------------------------------------------------

  /** The six entity replacements as written, each over the result of the one
      before: `&amp;` first, then `&lt;`, `&gt;`, `&quot;`, `&#39;` and `&nbsp;`. */
  function DecodeChain(t: string): string {
    var a := ReplaceAll(t, "&amp;", "&");
    var b := ReplaceAll(a, "&lt;", "<");
    var c := ReplaceAll(b, "&gt;", ">");
    var d := ReplaceAll(c, "&quot;", "\"");
    var e := ReplaceAll(d, "&#39;", "'");
    ReplaceAll(e, "&nbsp;", " ")
  }

  /** `extractPlainTextFromHtml` as written. */
  function ExtractPlainTextFromHtml(html: string): (r: string)
    ensures r == [] || (!IsWhite(r[0]) && !IsWhite(r[|r| - 1]))
  {
    if html == [] then []
    else
      TrimSpec(DecodeChain(StripTags(Breaks(html))));
      Trim(DecodeChain(StripTags(Breaks(html))))
  }

  lemma DecodeChainPlain(t: string)
    requires '&' !in t
    ensures DecodeChain(t) == t
  {
    AbsentHead(t, "&amp;");
    ReplaceAllAbsent(t, "&amp;", "&");
    AbsentHead(t, "&lt;");
    ReplaceAllAbsent(t, "&lt;", "<");
    AbsentHead(t, "&gt;");
    ReplaceAllAbsent(t, "&gt;", ">");
    AbsentHead(t, "&quot;");
    ReplaceAllAbsent(t, "&quot;", "\"");
    AbsentHead(t, "&#39;");
    ReplaceAllAbsent(t, "&#39;", "'");
    AbsentHead(t, "&nbsp;");
    ReplaceAllAbsent(t, "&nbsp;", " ");
  }

  /** A cell that holds neither markup nor entities comes out trimmed and
      otherwise unchanged. */
  lemma PlainCellKept(html: string)
    requires '<' !in html && '&' !in html
    ensures ExtractPlainTextFromHtml(html) == Trim(html)
  {
    if html != [] {
      BreaksPlain(html);
      StripTagsPlain(html);
      DecodeChainPlain(html);
    }
  }

  /** Whatever the cell holds, no tag is left in the text before the entities are
      decoded. */
  lemma TagsRemoved(html: string)
    ensures NoTag(StripTags(Breaks(html)))
  {
    StripTagsNoTag(Breaks(html));
  }

  // ---------------------------------------------------------------------
  // Decoding in one pass
  // ---------------------------------------------------------------------

  /** The entity at the front of `t`, if any: the character it stands for and its
      length. */
  function LeadingEntity(t: string): (r: Option<(char, nat)>)
    ensures r.Some? ==> 4 <= r.value.1 <= |t| && t[0] == '&'
  {
    if t == [] || t[0] != '&' then None
    else if StartsWith(t, "&amp;") then Some(('&', 5))
    else if StartsWith(t, "&lt;") then Some(('<', 4))
    else if StartsWith(t, "&gt;") then Some(('>', 4))
    else if StartsWith(t, "&quot;") then Some(('"', 6))
    else if StartsWith(t, "&#39;") then Some(('\'', 5))
    else if StartsWith(t, "&nbsp;") then Some((' ', 6))
    else None
  }

  /** The six entities decoded from the left, each once: the `&` a decoded
      `&amp;` yields never starts another entity. */
  function DecodeEntities(t: string): string
    decreases |t|
  {
    if t == [] then []
    else match LeadingEntity(t)
      case Some(e) => [e.0] + DecodeEntities(t[e.1..])
      case None => [t[0]] + DecodeEntities(t[1..])
  }

  /** The cell text with entities decoded once. */
  function ExtractPlainTextCorrected(html: string): (r: string)
    ensures r == [] || (!IsWhite(r[0]) && !IsWhite(r[|r| - 1]))
  {
    if html == [] then []
    else
      TrimSpec(DecodeEntities(StripTags(Breaks(html))));
      Trim(DecodeEntities(StripTags(Breaks(html))))
  }

  /** How HTML writes one character of text. */
  function EncodeChar(c: char): string {
    if c == '&' then "&amp;"
    else if c == '<' then "&lt;"
    else if c == '>' then "&gt;"
    else if c == '"' then "&quot;"
    else if c == '\'' then "&#39;"
    else [c]
  }

  /** Text written as HTML, character by character. */
  function Encode(s: string): (r: string)
    ensures '<' !in r && |r| >= |s|
  {
    if s == [] then [] else EncodeChar(s[0]) + Encode(s[1..])
  }

  /** `p` at the front of `t`, and what follows it. */
  lemma Front(t: string, p: string, rest: string)
    requires t == p + rest
    ensures StartsWith(t, p) && t[|p|..] == rest
  {
    assert t[..|p|] == p;
  }

  lemma EncodeCharDecodes(c: char, rest: string)
    ensures DecodeEntities(EncodeChar(c) + rest) == [c] + DecodeEntities(rest)
  {
    var t := EncodeChar(c) + rest;
    Front(t, EncodeChar(c), rest);
    if c == '&' || c == '<' || c == '>' || c == '"' || c == '\'' {
      EntityFront(c, rest);
    }
  }

  /** The entity that encodes `c` is the one found at the front. */
  lemma EntityFront(c: char, rest: string)
    requires c == '&' || c == '<' || c == '>' || c == '"' || c == '\''
    ensures LeadingEntity(EncodeChar(c) + rest) == Some((c, |EncodeChar(c)|))
  {
    var t := EncodeChar(c) + rest;
    Front(t, EncodeChar(c), rest);
    if c != '&' {
      assert t[1] == EncodeChar(c)[1];
      assert !StartsWith(t, "&amp;");
      if c != '<' {
        assert !StartsWith(t, "&lt;");
        if c != '>' {
          assert !StartsWith(t, "&gt;");
          if c != '"' {
            assert !StartsWith(t, "&quot;");
          }
        }
      }
    }
  }

  /** Decoding undoes encoding, whatever the text holds. */
  lemma {:induction false} DecodeEncode(s: string)
    ensures DecodeEntities(Encode(s)) == s
    decreases |s|
  {
    if s != [] {
      EncodeCharDecodes(s[0], Encode(s[1..]));
      DecodeEncode(s[1..]);
    }
  }

  /** The text of a cell holding encoded text is that text, trimmed. */
  lemma CorrectedRoundTrip(s: string)
    ensures ExtractPlainTextCorrected(Encode(s)) == Trim(s)
  {
    var h := Encode(s);
    BreaksPlain(h);
    StripTagsPlain(h);
    DecodeEncode(s);
  }

  /** The chain turns `&amp;lt;` into `<`. */
  lemma ChainDecodesTwice()
    ensures DecodeChain("&amp;lt;") == "<"
  {
    var h := "&amp;lt;";
    assert ReplaceAll(h, "&amp;", "&") == "&lt;" by {
      assert h[..5] == "&amp;";
      assert ReplaceAll("lt;", "&amp;", "&") == "lt;";
    }
    assert ReplaceAll("&lt;", "&lt;", "<") == "<" by {
      assert ReplaceAll([], "&lt;", "<") == [];
    }
  }

  lemma EncodeLt()
    ensures Encode("&lt;") == "&amp;lt;"
  {
    assert Encode("lt;") == "lt;" by {
      assert Encode("t;") == "t;" by { assert Encode(";") == ";"; }
    }
  }

  /** A cell without `<` is only decoded and trimmed. */
  lemma UntaggedCell(html: string)
    requires html != [] && '<' !in html
    ensures ExtractPlainTextFromHtml(html) == Trim(DecodeChain(html))
  {
    BreaksPlain(html);
    StripTagsPlain(html);
  }

  lemma TrimLt()
    ensures Trim("<") == "<"
  {
    assert SkipWhite("<", 0) == 0;
  }

  lemma ExtractAsWrittenLt(h: string)
    requires h == "&amp;lt;"
    ensures ExtractPlainTextFromHtml(h) == "<"
  {
    UntaggedCell(h);
    ChainDecodesTwice();
    TrimLt();
  }

  lemma ExtractCorrectedLt()
    ensures ExtractPlainTextCorrected("&amp;lt;") == "&lt;"
  {
    EncodeLt();
    CorrectedRoundTrip("&lt;");
    assert Trim("&lt;") == "&lt;" by {
      assert SkipWhite("&lt;", 0) == 0;
      assert UnwhiteLength("&lt;", 4) == 4;
    }
  }

  /** As written, the text `&lt;` written as HTML (`&amp;lt;`) comes out as `<`:
      the `&` that the first replacement produces starts the entity of the second.
      Decoding once gives the text back. */
  lemma DoubleDecodeAsWritten()
    ensures Encode("&lt;") == "&amp;lt;"
    ensures ExtractPlainTextFromHtml(Encode("&lt;")) == "<"
    ensures ExtractPlainTextCorrected(Encode("&lt;")) == "&lt;"
  {
    EncodeLt();
    ExtractAsWrittenLt(Encode("&lt;"));
    ExtractCorrectedLt();
  }
}
