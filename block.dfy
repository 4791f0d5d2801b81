/** `convertMarkdownToHtml`: the converter's own block parser. It walks the trimmed
    lines once, keeping mode flags for an open list, a fenced code block, a table
    and a `$$` math block, and a counter of consecutive blank lines. */
module Block {
  import opened Text
  import Escape
  import Numbering
  import Lists
  import Table
  import Inline

  /** `listType`: `''` before any list was opened, then `'ol'` or `'ul'`. */
  datatype ListType = NoType | Ol | Ul

  /** What the converter appends to `html`, one block at a time. */
  datatype Piece =
    | MathBlock(math: string)
    | CodeBlock(lang: string, code: string)
    | TableBlock(rows: seq<string>)
    | Rule
    | EmptyParagraph
    | Heading(level: nat, title: string)
    | Quote(text: string)
    | Paragraph(line: string)
    | OrderedList(items: seq<Lists.ListItem>)
    | UnorderedList(items: seq<Lists.ListItem>)

  /** The blocks written so far and the list being collected. */
  datatype Doc = Doc(out: seq<Piece>, inList: bool, listType: ListType, items: seq<Lists.ListItem>)

  /** The loop's local variables between two lines. */
  datatype State = State(
    doc: Doc,
    emptyLines: nat,
    inCode: bool, code: string, lang: string,
    inTable: bool, rows: seq<string>,
    inMath: bool, math: string)

  const Initial: State := State(Doc([], false, NoType, []), 0, false, "", "", false, [], false, "")

  // ---------------------------------------------------------------------
  // Line recognisers
  // ---------------------------------------------------------------------

  predicate AllAre(s: string, c: char) { forall j :: 0 <= j < |s| ==> s[j] == c }

  /** `^(\*{3,}|-{3,}|_{3,})$` */
  predicate IsRule(line: string) {
    |line| >= 3 && (AllAre(line, '*') || AllAre(line, '-') || AllAre(line, '_'))
  }

  /** The end of the leading run of `#`. */
  function HashEnd(line: string, i: nat): (r: nat)
    requires i <= |line|
    ensures i <= r <= |line|
    ensures forall j :: i <= j < r ==> line[j] == '#'
    ensures r < |line| ==> line[r] != '#'
    decreases |line| - i
  {
    if i < |line| && line[i] == '#' then HashEnd(line, i + 1) else i
  }

  /** `^#+\s+` */
  predicate IsHeading(line: string) {
    |line| > 0 && line[0] == '#' && HashEnd(line, 0) < |line| && IsWhite(line[HashEnd(line, 0)])
  }

  /** The heading's level (the raw count of `#`, not capped at 6) and its text. */
  function HeadingParts(line: string): (r: (nat, string))
    requires IsHeading(line)
  {
    var h := HashEnd(line, 0);
    (h, line[SkipWhite(line, h)..])
  }

  function HeadingHtml(inline: string -> string, level: nat, title: string): string {
    "<h" + NatToString(level) + ">" + inline(title) + "</h" + NatToString(level) + ">"
  }

  predicate IsBulletChar(c: char) { c == '-' || c == '*' || c == '•' }

  /** `^[-\*•]\s+` */
  predicate IsBullet(line: string) {
    |line| >= 2 && IsBulletChar(line[0]) && IsWhite(line[1])
  }

  /** `line.replace(/^[-\*•]\s+/, '').trim()` */
  function BulletContent(line: string): string
    requires |line| >= 1
  {
    Trim(line[SkipWhite(line, 1)..])
  }

  predicate IsDash(c: char) { c == '-' || c == '—' || c == '–' }

  /** `^[-—–]\s*$` */
  predicate IsDashOnly(t: string) {
    |t| >= 1 && IsDash(t[0]) && forall j :: 1 <= j < |t| ==> IsWhite(t[j])
  }

  /** The display symbol recorded for a bullet item. */
  function BulletMarker(line: string): string
    requires |line| >= 1
  {
    var content := BulletContent(line);
    if line[0] == '-' then
      if content != "" && !IsDashOnly(content) then "•" else ""
    else "•"
  }

  /** `^>\s+` */
  predicate IsQuote(line: string) {
    |line| >= 2 && line[0] == '>' && IsWhite(line[1])
  }

  /** The quoted text: the line without `>` and the white space after it. */
  function QuoteText(line: string): string
    requires |line| >= 1
  {
    line[SkipWhite(line, 1)..]
  }

  function QuoteHtml(inline: string -> string, text: string): string {
    "<blockquote>" + inline(text) + "</blockquote>"
  }

  function ParagraphHtml(inline: string -> string, line: string): string {
    if Numbering.HasNumberingPattern(line) then
      "<p data-has-numbering=\"true\">" + inline(line) + "</p>"
    else "<p>" + inline(line) + "</p>"
  }

  /** `^```(\w*)`: the word characters right after the fence. */
  function FenceLanguage(line: string): string {
    if |line| < 3 then "" else line[3..WordEnd(line, 3)]
  }

  /** The fenced block's HTML: the content only ever reaches the page escaped. */
  function CodeHtml(lang: string, content: string): string {
    if lang != "" then
      "<pre><code class=\"language-" + lang + "\">" + Escape.EscapeHtml(content) + "</code></pre>"
    else "<pre><code>" + Escape.EscapeHtml(content) + "</code></pre>"
  }

  function MathDiv(content: string): string {
    "<div class=\"math-block\">" + content + "</div>"
  }

  const NbspParagraph: string := "<p>&nbsp;</p>"

  /** The item an ordered line becomes: the matched marker, trailing white space
      included, and the rest of the line. The `None` case is the source's fallback,
      which shows no number. */
  function OrderedItem(inline: string -> string, line: string): Lists.ListItem {
    match Numbering.OrderedMarker(line)
    case Some(n) => Lists.Numbered(line[..n], inline(line[n..]))
    case None => Lists.Numbered("", inline(line))
  }

  function BulletItem(inline: string -> string, line: string): Lists.ListItem
    requires |line| >= 1
  {
    Lists.Bulleted(inline(BulletContent(line)), BulletMarker(line))
  }

  /** The HTML of one block. */
  function PieceHtml(inline: string -> string, p: Piece): string {
    match p
    case MathBlock(m) => MathDiv(m)
    case CodeBlock(lang, code) => CodeHtml(lang, code)
    case TableBlock(rows) => Table.TableHtml(inline, rows)
    case Rule => "<hr>"
    case EmptyParagraph => NbspParagraph
    case Heading(level, title) => HeadingHtml(inline, level, title)
    case Quote(text) => QuoteHtml(inline, text)
    case Paragraph(line) => ParagraphHtml(inline, line)
    case OrderedList(items) => Lists.OrderedListHtml(items)
    case UnorderedList(items) => Lists.UnorderedListHtml(items)
  }

  /** The HTML of the blocks, in order. */
  function Render(inline: string -> string, out: seq<Piece>): string
    decreases |out|
  {
    if out == [] then "" else Render(inline, out[..|out| - 1]) + PieceHtml(inline, out[|out| - 1])
  }

  lemma RenderSnoc(inline: string -> string, out: seq<Piece>, p: Piece)
    ensures Render(inline, out + [p]) == Render(inline, out) + PieceHtml(inline, p)
  {
    assert (out + [p])[..|out|] == out;
  }

  /** `PieceHtml` by the kind of block, one case at a time. */
  lemma PieceCases(inline: string -> string, p: Piece)
    ensures p.MathBlock? ==> PieceHtml(inline, p) == MathDiv(p.math)
    ensures p.CodeBlock? ==> PieceHtml(inline, p) == CodeHtml(p.lang, p.code)
    ensures p.TableBlock? ==> PieceHtml(inline, p) == Table.TableHtml(inline, p.rows)
    ensures p.Rule? ==> PieceHtml(inline, p) == "<hr>"
    ensures p.EmptyParagraph? ==> PieceHtml(inline, p) == NbspParagraph
    ensures p.Heading? ==> PieceHtml(inline, p) == HeadingHtml(inline, p.level, p.title)
    ensures p.Quote? ==> PieceHtml(inline, p) == QuoteHtml(inline, p.text)
    ensures p.Paragraph? ==> PieceHtml(inline, p) == ParagraphHtml(inline, p.line)
    ensures p.OrderedList? ==> PieceHtml(inline, p) == Lists.OrderedListHtml(p.items)
    ensures p.UnorderedList? ==> PieceHtml(inline, p) == Lists.UnorderedListHtml(p.items)
  {
  }

  // ---------------------------------------------------------------------
  // One line
  // ---------------------------------------------------------------------

  /** The block an open list of type `t` becomes, if any. */
  function ListPiece(t: ListType, items: seq<Lists.ListItem>): seq<Piece> {
    if t == Ol then [OrderedList(items)]
    else if t == Ul then [UnorderedList(items)]
    else []
  }

  /** Ending the current list, where one is open. */
  function Flush(d: Doc): Doc {
    if d.inList then Doc(d.out + ListPiece(d.listType, d.items), false, d.listType, []) else d
  }

  /** Opening a list of type `t` unless one of that type is open; an open list of
      the other type is written out first. */
  function OpenList(d: Doc, t: ListType): Doc {
    if d.inList && d.listType == t then d
    else
      var other := if t == Ol then Ul else Ol;
      var out := if d.inList && d.listType == other then d.out + ListPiece(other, d.items) else d.out;
      Doc(out, true, t, [])
  }

  function Emit(d: Doc, p: Piece): Doc {
    d.(out := d.out + [p])
  }

  /** A line that is not blank and reached the heading, list, quote and paragraph tests. */
  function TextStep(inline: string -> string, d: Doc, line: string): Doc
  {
    if IsHeading(line) then
      var (level, title) := HeadingParts(line);
      Emit(d, Heading(level, title))
    else if Numbering.IsOrderedItem(line) then
      var o := OpenList(d, Ol);
      o.(items := o.items + [OrderedItem(inline, line)])
    else if IsBullet(line) then
      var u := OpenList(d, Ul);
      u.(items := u.items + [BulletItem(inline, line)])
    else if IsQuote(line) then Emit(d, Quote(QuoteText(line)))
    else Emit(Flush(d), Paragraph(line))
  }

  /** A blank line: the counter goes up, an open list ends, and only the first blank
      line of a run writes an empty paragraph. */
  function BlankStep(st: State): State {
    var count := st.emptyLines + 1;
    st.(emptyLines := count, doc := BlankDoc(st.doc, count))
  }

  /** The blocks and list state after a blank line that is the `count`-th of a run. */
  function BlankDoc(d: Doc, count: nat): Doc {
    var f := Flush(d);
    if count <= 1 then Emit(f, EmptyParagraph) else f
  }

  /** A table row: collected, and the table written out when the next line, trimmed,
      is not a table row or there is none. */
  function TableStep(st: State, line: string, lines: seq<string>, i: nat): State
    requires i < |lines|
  {
    var rows := (if st.inTable then st.rows else []) + [line];
    if i == |lines| - 1 || !Table.IsTableRow(Trim(lines[i + 1])) then
      st.(doc := Emit(st.doc, TableBlock(rows)), inTable := false, rows := [])
    else st.(inTable := true, rows := rows)
  }

  /** The `$$` tests and a line inside a math block: a one-line block longer than
      `$$$$` is written out at once, any other `$$` line opens a block, and inside a
      block `$$` alone or a `$$`-line ending in `$$` closes it. */
  function MathStep(st: State, line: string): State {
    if StartsWith(line, "$$") && !st.inMath then
      if EndsWith(line, "$$") && |line| > 4 then st.(doc := Emit(st.doc, MathBlock(line)))
      else st.(inMath := true, math := line)
    else if StartsWith(line, "$$") && (line == "$$" || EndsWith(line, "$$")) then
      var m := if line == "$$" then st.math else st.math + "\n" + line;
      st.(doc := Emit(st.doc, MathBlock(m)), inMath := false, math := "")
    else st.(math := st.math + (if st.math != "" then "\n" else "") + line)
  }

  /** The fence tests and a line inside a code block. */
  function CodeStep(st: State, line: string): State {
    if StartsWith(line, "```") then
      if !st.inCode then st.(inCode := true, lang := FenceLanguage(line))
      else st.(doc := Emit(st.doc, CodeBlock(st.lang, st.code)), inCode := false, code := "", lang := "")
    else st.(code := st.code + line + "\n")
  }

  /** The loop body for line `i`, its tests in the order the source makes them. */
  function Step(inline: string -> string, st: State, lines: seq<string>, i: nat): State
    requires i < |lines|
  {
    var line := Trim(lines[i]);
    if StartsWith(line, "$$") || st.inMath then MathStep(st, line)
    else if StartsWith(line, "```") || st.inCode then CodeStep(st, line)
    else if Table.IsTableRow(line) then TableStep(st, line, lines, i)
    else if IsRule(line) then st.(doc := Emit(st.doc, Rule))
    else if line == "" then BlankStep(st)
    else st.(emptyLines := 0, doc := TextStep(inline, st.doc, line))
  }

  /** The state after the first `n` lines. */
  function Run(inline: string -> string, lines: seq<string>, n: nat): State
    requires n <= |lines|
  {
    if n == 0 then Initial else Step(inline, Run(inline, lines, n - 1), lines, n - 1)
  }

  /** End of input: an open list is written out, then an unterminated code block
      (without its language class) and an unterminated math block, each only when
      it has content. */
  function Finish(st: State): seq<Piece> {
    var a := Flush(st.doc).out;
    var b := if st.inCode && st.code != "" then a + [CodeBlock("", st.code)] else a;
    if st.inMath && st.math != "" then b + [MathBlock(st.math)] else b
  }

  /** The blocks `convertMarkdownToHtml` writes for `text`. */
  function Blocks(inline: string -> string, text: string): seq<Piece> {
    var lines := Split(text, '\n');
    Finish(Run(inline, lines, |lines|))
  }

  // ---------------------------------------------------------------------
  // The converter
  // ---------------------------------------------------------------------

  /** `convertMarkdownToHtml`: the loop over the lines, then the end of input. */
  method ConvertMarkdownToHtml(text: string) returns (html: string)
    ensures html == Render(Inline.ProcessInlineMarkdown, Blocks(Inline.ProcessInlineMarkdown, text))
  {
    html := ConvertWith(Inline.ProcessInlineMarkdown, text);
  }

  /** The converter with the corrected inline processor, whose placeholders the
      emphasis rules cannot reach. */
  method ConvertMarkdownToHtmlCorrected(text: string) returns (html: string)
    ensures html == Render(Inline.ProcessInlineMarkdownCorrected, Blocks(Inline.ProcessInlineMarkdownCorrected, text))
  {
    html := ConvertWith(Inline.ProcessInlineMarkdownCorrected, text);
  }

  /** The converter's loop, with the inline processor it calls on the text of
      headings, list items, quotes, paragraphs and table cells as a parameter. The
      ghost `out` records the blocks appended to `html`. */
  method ConvertWith(inline: string -> string, text: string) returns (html: string)
    ensures html == Render(inline, Blocks(inline, text))
  {
    var lines := Split(text, '\n');
    html := "";
    ghost var out: seq<Piece> := [];
    var inListContext := false;
    var listType := NoType;
    var listItems: seq<Lists.ListItem> := [];
    var emptyLineCount: nat := 0;
    var inCodeBlock := false;
    var codeBlockContent := "";
    var codeBlockLanguage := "";
    var inTableContext := false;
    var tableRows: seq<string> := [];
    var inMathBlock := false;
    var mathBlockContent := "";
    ghost var st := Initial;
    for i := 0 to |lines|
      invariant st == Run(inline, lines, i)
      invariant html == Render(inline, out)
      invariant Mirrors(st, out, inListContext, listType, listItems, emptyLineCount, inCodeBlock, codeBlockContent,
        codeBlockLanguage, inTableContext, tableRows, inMathBlock, mathBlockContent)
    {
      html, out, inListContext, listType, listItems, emptyLineCount, inCodeBlock, codeBlockContent, codeBlockLanguage,
        inTableContext, tableRows, inMathBlock, mathBlockContent :=
        ConvertLine(inline, st, lines, i, html, out, inListContext, listType, listItems, emptyLineCount,
          inCodeBlock, codeBlockContent, codeBlockLanguage, inTableContext, tableRows, inMathBlock, mathBlockContent);
      RunNext(inline, lines, i);
      st := Step(inline, st, lines, i);
    }
    html := EndOfInput(inline, Run(inline, lines, |lines|), html, out, inListContext, listType, listItems,
      inCodeBlock, codeBlockContent, inMathBlock, mathBlockContent);
  }

  lemma RunNext(inline: string -> string, lines: seq<string>, i: nat)
    requires i < |lines|
    ensures Run(inline, lines, i + 1) == Step(inline, Run(inline, lines, i), lines, i)
  {
  }

  /** The local variables of the conversion loop hold the state `st`. */
  ghost predicate Mirrors(st: State, out: seq<Piece>, inList: bool, listType: ListType, items: seq<Lists.ListItem>,
                          emptyLines: nat, inCode: bool, code: string, lang: string, inTable: bool, rows: seq<string>,
                          inMath: bool, math: string)
  {
    && st.doc == Doc(out, inList, listType, items)
    && st.emptyLines == emptyLines
    && st.inCode == inCode && st.code == code && st.lang == lang
    && st.inTable == inTable && st.rows == rows
    && st.inMath == inMath && st.math == math
  }

  /** The body of the conversion loop for line `i`: the tests in the order the
      source makes them, each branch updating the variables it owns. */
  method ConvertLine(inline: string -> string, ghost st: State, lines: seq<string>, i: nat, html: string,
                     ghost out: seq<Piece>, inList: bool, listType: ListType, items: seq<Lists.ListItem>,
                     emptyLines: nat, inCode: bool, code: string, lang: string, inTable: bool, rows: seq<string>,
                     inMath: bool, math: string)
    returns (html': string, ghost out': seq<Piece>, inList': bool, listType': ListType, items': seq<Lists.ListItem>,
             emptyLines': nat, inCode': bool, code': string, lang': string, inTable': bool, rows': seq<string>,
             inMath': bool, math': string)
    requires i < |lines| && html == Render(inline, out)
    requires Mirrors(st, out, inList, listType, items, emptyLines, inCode, code, lang, inTable, rows, inMath, math)
    ensures html' == Render(inline, out')
    ensures Mirrors(Step(inline, st, lines, i), out', inList', listType', items', emptyLines', inCode', code', lang',
      inTable', rows', inMath', math')
  {
    html', out', inList', listType', items', emptyLines' := html, out, inList, listType, items, emptyLines;
    inCode', code', lang', inTable', rows', inMath', math' := inCode, code, lang, inTable, rows, inMath, math;
    var line := Trim(lines[i]);
    if StartsWith(line, "$$") || inMath {
      html', out', inMath', math' := MathBranch(inline, st, line, html, out, inMath, math);
    } else if StartsWith(line, "```") || inCode {
      html', out', inCode', code', lang' := CodeBranch(inline, st, line, html, out, inCode, code, lang);
    } else if Table.IsTableRow(line) {
      html', out', inTable', rows' := TableBranch(inline, st, lines, i, line, html, out, inTable, rows);
    } else if IsRule(line) {
      RenderSnoc(inline, out, Rule);
      PieceCases(inline, Rule);
      html', out' := html + "<hr>", out + [Rule];
    } else if line == "" {
      html', out', emptyLines', inList', items' := BlankBranch(inline, html, out, emptyLines, inList, listType, items);
    } else {
      emptyLines' := 0;
      html', out', inList', listType', items' := TextLine(inline, line, html, out, inList, listType, items);
    }
  }

  /** A blank line: the counter goes up, an open list is written out, and only the
      first blank line of a run writes an empty paragraph. */
  method BlankBranch(inline: string -> string, html: string, ghost out: seq<Piece>,
                     emptyLines: nat, inList: bool, listType: ListType, items: seq<Lists.ListItem>)
    returns (html': string, ghost out': seq<Piece>, emptyLines': nat, inList': bool, items': seq<Lists.ListItem>)
    requires html == Render(inline, out)
    ensures html' == Render(inline, out')
    ensures emptyLines' == emptyLines + 1
    ensures Doc(out', inList', listType, items') == BlankDoc(Doc(out, inList, listType, items), emptyLines')
  {
    emptyLines' := emptyLines + 1;
    html', out', inList', items' := EndList(inline, html, out, inList, listType, items);
    if emptyLines' <= 1 {
      RenderSnoc(inline, out', EmptyParagraph);
      PieceCases(inline, EmptyParagraph);
      html', out' := html' + NbspParagraph, out' + [EmptyParagraph];
    }
  }

  /** After the last line: an open list is written out, then an unterminated code
      block and an unterminated math block, each only when it has content. */
  method EndOfInput(inline: string -> string, ghost st: State, html: string, ghost out: seq<Piece>,
                    inList: bool, listType: ListType, items: seq<Lists.ListItem>,
                    inCode: bool, code: string, inMath: bool, math: string)
    returns (html': string)
    requires st.doc == Doc(out, inList, listType, items)
    requires st.inCode == inCode && st.code == code && st.inMath == inMath && st.math == math
    requires html == Render(inline, out)
    ensures html' == Render(inline, Finish(st))
  {
    var inList', items';
    ghost var out';
    html', out', inList', items' := EndList(inline, html, out, inList, listType, items);
    if inCode && code != "" {
      RenderSnoc(inline, out', CodeBlock("", code));
      PieceCases(inline, CodeBlock("", code));
      html', out' := html' + CodeHtml("", code), out' + [CodeBlock("", code)];
    }
    if inMath && math != "" {
      RenderSnoc(inline, out', MathBlock(math));
      PieceCases(inline, MathBlock(math));
      html', out' := html' + MathDiv(math), out' + [MathBlock(math)];
    }
  }

  /** The `$$` tests and a line inside a math block: a one-line block is written out
      at once, `$$` alone opens a block, and a line ending in `$$` closes an open one. */
  method MathBranch(inline: string -> string, ghost st: State, line: string,
                  html: string, ghost out: seq<Piece>, inMath: bool, math: string)
    returns (html': string, ghost out': seq<Piece>, inMath': bool, math': string)
    requires st.doc.out == out && st.inMath == inMath && st.math == math && html == Render(inline, out)
    ensures html' == Render(inline, out')
    ensures MathStep(st, line) == st.(doc := st.doc.(out := out'), inMath := inMath', math := math')
  {
    html', out', inMath', math' := html, out, inMath, math;
    if StartsWith(line, "$$") {
      if !inMath {
        inMath' := true;
        if EndsWith(line, "$$") && |line| > 4 {
          RenderSnoc(inline, out, MathBlock(line));
          PieceCases(inline, MathBlock(line));
          html', out' := html + MathDiv(line), out + [MathBlock(line)];
          inMath' := false;
        } else {
          math' := line;
        }
        return;
      } else if line == "$$" || EndsWith(line, "$$") {
        if line != "$$" {
          math' := math + "\n" + line;
        }
        RenderSnoc(inline, out, MathBlock(math'));
        PieceCases(inline, MathBlock(math'));
        html', out' := html + MathDiv(math'), out + [MathBlock(math')];
        inMath' := false;
        math' := "";
        return;
      }
    }
    math' := math + (if math != "" then "\n" else "") + line;
  }

  /** The fence tests and a line inside a code block: a fence opens a block and
      records its language, or closes the open block and writes it out escaped. */
  method CodeBranch(inline: string -> string, ghost st: State, line: string,
                  html: string, ghost out: seq<Piece>, inCode: bool, code: string, lang: string)
    returns (html': string, ghost out': seq<Piece>, inCode': bool, code': string, lang': string)
    requires st.doc.out == out && st.inCode == inCode && st.code == code && st.lang == lang
    requires html == Render(inline, out)
    ensures html' == Render(inline, out')
    ensures CodeStep(st, line) == st.(doc := st.doc.(out := out'), inCode := inCode', code := code', lang := lang')
  {
    html', out', inCode', code', lang' := html, out, inCode, code, lang;
    if StartsWith(line, "```") {
      if !inCode {
        inCode' := true;
        lang' := FenceLanguage(line);
      } else {
        RenderSnoc(inline, out, CodeBlock(lang, code));
        PieceCases(inline, CodeBlock(lang, code));
        html', out' := html + CodeHtml(lang, code), out + [CodeBlock(lang, code)];
        inCode' := false;
        code' := "";
        lang' := "";
      }
      return;
    }
    code' := code + line + "\n";
  }

  /** A table row: collected, and the table written out with `processTable` when the
      next line, trimmed, is not a table row or there is none. */
  method TableBranch(inline: string -> string, ghost st: State, lines: seq<string>, i: nat, line: string,
                   html: string, ghost out: seq<Piece>, inTable: bool, rows: seq<string>)
    returns (html': string, ghost out': seq<Piece>, inTable': bool, rows': seq<string>)
    requires i < |lines|
    requires st.doc.out == out && st.inTable == inTable && st.rows == rows && html == Render(inline, out)
    ensures html' == Render(inline, out')
    ensures TableStep(st, line, lines, i) == st.(doc := st.doc.(out := out'), inTable := inTable', rows := rows')
  {
    html', out', inTable', rows' := html, out, inTable, rows;
    if !inTable {
      inTable' := true;
      rows' := [];
    }
    rows' := rows' + [line];
    if i == |lines| - 1 || !Table.IsTableRow(Trim(lines[i + 1])) {
      var table := Table.ProcessTableWith(inline, rows');
      RenderSnoc(inline, out, TableBlock(rows'));
      PieceCases(inline, TableBlock(rows'));
      html', out' := html + table, out + [TableBlock(rows')];
      inTable' := false;
      rows' := [];
    }
  }

  /** The block the source repeats wherever a list ends: `createOrderedList` or
      `createUnorderedList` by the list's type, and the list state cleared. */
  method EndList(inline: string -> string, html: string, ghost out: seq<Piece>, inList: bool, listType: ListType,
                 items: seq<Lists.ListItem>)
    returns (html': string, ghost out': seq<Piece>, inList': bool, items': seq<Lists.ListItem>)
    requires html == Render(inline, out)
    ensures html' == Render(inline, out')
    ensures Doc(out', inList', listType, items') == Flush(Doc(out, inList, listType, items))
  {
    html', out', inList', items' := html, out, inList, items;
    if inList {
      if listType == Ol {
        var list := Lists.CreateOrderedList(items);
        RenderSnoc(inline, out, OrderedList(items));
        PieceCases(inline, OrderedList(items));
        html', out' := html + list, out + [OrderedList(items)];
      } else if listType == Ul {
        var list := Lists.CreateUnorderedList(items);
        RenderSnoc(inline, out, UnorderedList(items));
        PieceCases(inline, UnorderedList(items));
        html', out' := html + list, out + [UnorderedList(items)];
      }
      inList' := false;
      items' := [];
    }
  }

  /** The heading, list, quote and paragraph branches for a line that is not blank. */
  method TextLine(inline: string -> string, line: string, html: string, ghost out: seq<Piece>, inList: bool,
                  listType: ListType, items: seq<Lists.ListItem>)
    returns (html': string, ghost out': seq<Piece>, inList': bool, listType': ListType, items': seq<Lists.ListItem>)
    requires html == Render(inline, out)
    ensures html' == Render(inline, out')
    ensures Doc(out', inList', listType', items') == TextStep(inline, Doc(out, inList, listType, items), line)
  {
    html', out', inList', listType', items' := html, out, inList, listType, items;
    if IsHeading(line) {
      var (level, title) := HeadingParts(line);
      RenderSnoc(inline, out, Heading(level, title));
      PieceCases(inline, Heading(level, title));
      html', out' := html + HeadingHtml(inline, level, title), out + [Heading(level, title)];
    } else if Numbering.IsOrderedItem(line) {
      if !inList || listType != Ol {
        if inList && listType == Ul {
          var list := Lists.CreateUnorderedList(items);
          RenderSnoc(inline, out, UnorderedList(items));
          PieceCases(inline, UnorderedList(items));
          html', out' := html + list, out + [UnorderedList(items)];
        }
        inList', listType', items' := true, Ol, [];
      }
      items' := items' + [OrderedItem(inline, line)];
    } else if IsBullet(line) {
      if !inList || listType != Ul {
        if inList && listType == Ol {
          var list := Lists.CreateOrderedList(items);
          RenderSnoc(inline, out, OrderedList(items));
          PieceCases(inline, OrderedList(items));
          html', out' := html + list, out + [OrderedList(items)];
        }
        inList', listType', items' := true, Ul, [];
      }
      items' := items' + [BulletItem(inline, line)];
    } else if IsQuote(line) {
      RenderSnoc(inline, out, Quote(QuoteText(line)));
      PieceCases(inline, Quote(QuoteText(line)));
      html', out' := html + QuoteHtml(inline, QuoteText(line)), out + [Quote(QuoteText(line))];
    } else {
      html', out', inList', items' := EndList(inline, html, out, inList, listType, items);
      RenderSnoc(inline, out', Paragraph(line));
      PieceCases(inline, Paragraph(line));
      html', out' := html' + ParagraphHtml(inline, line), out' + [Paragraph(line)];
    }
  }
}
