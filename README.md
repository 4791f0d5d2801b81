# A verified model of the Markdown editor's converter

This project models the text-processing core of a browser Markdown editor, the
logic in `js/script.js`. It is written in Dafny and proves properties of that
logic. Text is `seq<char>`; each regular expression of the source is a small
recogniser function; each loop of the source is a method whose `ensures` ties
its result to a specification function. Lemmas then state what the source
promises of those functions.

The modules, in the order of the file:

- `MathGuard` (`math_guard.dfy`) covers `protectMathFormulas` and
  `restoreMathFormulas`. They swap `\[…\]` and `\(…\)` formulas for salted
  tokens `【MATH_DISPLAY_<salt>_<i>】` and `【MATH_INLINE_<salt>_<i>】`, and put
  them back in reverse order. The random salt is a parameter.
- `Superscripts` (`superscripts.dfy`) covers `convertSuperscripts`: three caret
  rules, then the passes over `²` and the other superscript characters.
- `Block` and `BlockFacts` (`block.dfy`, `block_facts.dfy`) cover
  `convertMarkdownToHtml`, the editor's own block parser.
  - It is one forward loop over the trimmed lines.
  - It keeps mode flags for lists, code, tables and `$$` math, and a
    blank-line counter.
  - `Block` states the loop as `Step`/`Run`/`Finish` over a `State` and proves
    the method against them. `BlockFacts` holds the properties of that
    specification.
- `Table` (`table.dfy`) covers `processTable`, plus the table-row tests that the
  converter and the Markdown table extractor share.
- `Escape` (`escape.dfy`) covers `escapeHtml`.
- `Inline`, `Spans`, `InlineFinding` and `LoneFormula` cover
  `processInlineMarkdown`.
  - `Inline` and `Spans` model the cascade of global replacements.
  - `Inline.ProcessInlineMarkdown` is the processor as written, with
    `__MATH_INLINE_n__` placeholders.
  - `Inline.ProcessInlineMarkdownCorrected` uses placeholders that no emphasis
    rule can reach.
  - `InlineFinding` exhibits the difference. `LoneFormula` proves what the
    as-written processor does keep.
- `Cleaners` (`cleaners.dfy`) covers `removeLeadingBullets`,
  `smartRemoveLeadingSymbols` and `cleanLine`.
- `Numbering` (`numbering.dfy`) covers `hasNumberingPattern` and the converter's
  ordered-list marker.
- `Lists` (`lists.dfy`) covers `createOrderedList` and `createUnorderedList`.
- `Roman` (`roman.dfy`) covers `toRoman`.
- `Sheet` (`sheet.dfy`) covers the pure grid logic of `exportToExcel`: the cell
  texts, the stacking of tables, the column widths and the cell styles.
- `CellContent` (`cell_content.dfy`) covers `processCellContent`.
- `HtmlText` (`html_text.dfy`) covers `hasBoldInHtml`, `hasItalicInHtml` and
  `extractPlainTextFromHtml`.
- `MarkdownTables` (`md_tables.dfy`) covers `extractTablesFromMarkdown`.
- `Text` (`text.dfy`) holds the JavaScript string primitives the others use:
  `trim`, `split`/`join`, global replacement of a literal, and the decimal
  numeral.

The live preview of the editor renders through the `marked` library.
`convertMarkdownToHtml` has no caller in `js/script.js`, and neither has
`processCellContent`. Both are modelled as the repository's own code.

## Model

| member | source | states |
|---|---|---|
| MathGuard.PassNumbered | js/script.js:146-158 | each protect pass numbers its placeholders consecutively from the running index, and each recorded formula runs from an opening delimiter to a closing one |
| MathGuard.RestoreMathFormulas | js/script.js:163-175 | the reverse index loop computes the as-written restoration, with every formula used as a JavaScript replacement string |
| MathGuard.ProtectRestoreRoundTrip | js/script.js:139-175 | restoring a protected text with each formula substituted literally gives back the original text (for text without '【'), including display tokens captured inside a later inline span |
| MathGuard.ProtectRestoreAsWritten | js/script.js:139-175 | `restoreMathFormulas(protectMathFormulas(s))` is `s` when `s` has no '【' and no captured formula contains `$` |
| MathGuard.RestoreAsWrittenLiteral | js/script.js:165-173 | with no `$` in any formula, the as-written restoration equals the literal one |
| MathGuard.NoClosedPairUnchanged | js/script.js:139-160 | text without a closing `\]` or `\)` comes back unchanged, with an empty placeholder list |
| MathGuard.PassWithoutClose | js/script.js:146-158 | a pass whose closing delimiter never occurs changes nothing and records nothing |
| MathGuard.DisplayPassShielded | js/script.js:146-151 | after the display pass, every '【' in the text heads a display token, so the inline pass cannot confuse it with its own tokens |
| MathGuard.PassRoundTrip | js/script.js:146-173 | one protect pass is undone by literal restoration of its placeholders |
| MathGuard.TokenNotPrefix | js/script.js:147-155 | two different tokens of one salt never begin one another, so restoring one token never touches another |
| MathGuard.RestoreSkipsToken | js/script.js:165-173 | a token that no later placeholder names passes through restoration unchanged |
| MathGuard.DollarFormulaMangled | js/script.js:163-175 | as written, `\($$\)` is protected and restored as `\($\)` |
| Superscripts.CaretRulesOnly | js/script.js:282-327 | the `²` passes and the superscript-character passes put back exactly what they match, so the whole conversion equals the three caret rules |
| Superscripts.ConvertFlat | js/script.js:249-279 | read back (caret dropped, superscript digits read as digits), the converted text equals the original: the caret rules only drop the caret and raise the digits |
| Superscripts.CaretFree | js/script.js:249-279 | a text without `^` comes back unchanged |
| Superscripts.LetterPower | js/script.js:251-256 | a letter raised to a number, `x^12`, becomes the letter followed by the superscript digits, `x¹²` |
| Superscripts.BaseEnd | js/script.js:252-268 | the base of each rule: one letter; `(`, at least one character other than `)`, and the first `)`; or the whole greedy run of letters, digits and `+-*/` |
| Superscripts.CaretAt | js/script.js:252-268 | a match is the rule's base, a `^` right after it, and the whole run of digits after the caret (the next character is no digit); a base followed by `^` and a digit always matches |
| Superscripts.Sup | js/script.js:254 | the superscript of a digit string has the same length and maps each digit through the source's table |
| Superscripts.RebuildsIdentity | js/script.js:282-327 | the passes whose replacement restores the match leave every text unchanged |
| Superscripts.CaretPassFlat | js/script.js:277-279 | one caret rule, read back, leaves the text as it was |
| Block.ConvertMarkdownToHtml | js/script.js:439-696 | the converter, with the as-written inline processor, returns the rendering of the blocks that the line-by-line specification produces |
| Block.ConvertMarkdownToHtmlCorrected | js/script.js:439-696 | the same converter composed with the corrected inline processor |
| Block.ConvertWith | js/script.js:439-696 | the forward loop over the trimmed lines, for any inline processor, yields `Render(Blocks(text))` |
| Block.ConvertLine | js/script.js:455-674 | one iteration of the loop advances the state exactly as `Step` does |
| Block.RunNext | js/script.js:455-674 | the state after line `i` is one `Step` from the state before it |
| Block.MathBranch | js/script.js:460-494 | the `$$` branch: a one-line formula is written out, a block opens, collects lines, and closes on a line that starts with `$$` |
| Block.CodeBranch | js/script.js:497-527 | the fence branch: the language is taken from `\w*` after the fence, and the content reaches the output only through `escapeHtml` |
| Block.TableBranch | js/script.js:530-549 | table rows are collected and rendered when the next line is no table row or the input ends |
| Block.BlankBranch | js/script.js:557-574 | a blank line counts, flushes an open list, and writes `<p>&nbsp;</p>` only when the counter is 1 |
| Block.TextLine | js/script.js:576-672 | headings, ordered and unordered items, quotes and paragraphs, with the list switches and flushes the source performs |
| Block.EndList | js/script.js:560-568 | flushing writes the open list with its own renderer and closes it |
| Block.EndOfInput | js/script.js:676-693 | at the end an open list is flushed, and a non-empty unterminated code or math block is written |
| Block.HashEnd | js/script.js:579-582 | the end of the leading `#` run: every character before it is `#` and the one at it is not |
| BlockFacts.SevenHashes | js/script.js:579-584 | the heading level is the raw count of `#`, without a cap at six: `####### x` is emitted as a level-7 heading of `x` |
| BlockFacts.RunGood | js/script.js:443-624 | while a list is open its type is `ol` or `ul`, after every line |
| BlockFacts.StepGrows | js/script.js:442-674 | no line ever takes back HTML already written |
| BlockFacts.ListEnds | js/script.js:530-672 | an open list ends on a blank line or a paragraph line and on nothing else; headings, quotes, tables, rules, code and math leave it open |
| BlockFacts.FlushEndsList | js/script.js:560-664 | a flush closes the list and keeps what was written |
| BlockFacts.OrderedItemParts | js/script.js:601-606 | the stored number is the matched marker with its trailing white space, and number plus raw remainder is the trimmed line |
| BlockFacts.MarkerEndsInWhite | js/script.js:602-605 | the stored marker ends in white space and the remainder does not start with any |
| BlockFacts.BlankRun | js/script.js:557-577 | a run of blank lines outside code and math writes what its first line writes and no more: at most one `<p>&nbsp;</p>`; the counter grows by the run's length |
| BlockFacts.BlankDocAgain | js/script.js:572-574 | a blank line with the counter above 1 writes nothing |
| BlockFacts.CounterMoves | js/script.js:557-577 | the counter moves only on blank lines (up by one) and on lines that reach the heading/list/quote/paragraph tests (back to zero) |
| BlockFacts.CodeLineStep | js/script.js:524-527 | inside a code block an ordinary line is appended with a line feed and nothing else changes |
| BlockFacts.DollarLineInCode | js/script.js:460-497 | the math test runs before the fence test, so a `$$` line inside a code block opens math and the code block stays open |
| BlockFacts.MathLineStep | js/script.js:474-494 | a math block closes only on a line that starts with `$$`; any other line is collected and writes nothing |
| BlockFacts.OneLineMath | js/script.js:465-468 | a line that starts and ends with `$$` and is longer than 4 is written verbatim and opens no block |
| BlockFacts.OpenTableHasNextRow | js/script.js:530-549 | a table stays open only while the next line is a table row |
| BlockFacts.NoTableOpenAtEnd | js/script.js:541-545 | no table is left open at the end of input |
| BlockFacts.FinishKeeps | js/script.js:676-693 | the end of input keeps everything written and adds at most three blocks |
| BlockFacts.UnterminatedMathWritten | js/script.js:460-693 | an unterminated math block always has text, so it is always written out last |
| Table.ProcessTableWith | js/script.js:699-754 | the loop over the rows yields the specification's table HTML for any cell renderer |
| Table.ProcessTable | js/script.js:699-754 | `processTable` with the as-written inline processor on the cells |
| Table.RowsAreLayout | js/script.js:725-749 | every separator row is dropped, the first remaining row is rendered with `<th>` and all later rows with `<td>` |
| Table.AllSeparatorsNoData | js/script.js:725-729 | a table renders no row exactly when all its rows are separators |
| Table.RenderRow | js/script.js:731-747 | one row: one cell per non-empty piece of the split, each with its alignment or left |
| Table.Cells | js/script.js:731 | the cells of a row are non-empty and hold no `|` |
| Table.NonEmpty | js/script.js:711-731 | every kept piece is non-empty and comes from the input, and every non-empty piece is kept |
| Table.NonEmptyCounts | js/script.js:711-731 | each non-empty piece is kept as often as it occurs, and the length drops by the number of empty pieces |
| Table.NonEmptyAppend | js/script.js:711-731 | filtering a concatenation is concatenating the filtered parts |
| Table.NonEmptyOrder | js/script.js:711-731 | the kept pieces stay in input order: non-empty piece `k` follows the pieces kept from before it |
| Table.MapAlign | js/script.js:711-722 | each alignment comes from its cell: both colons centre, a trailing colon right, otherwise left |
| Escape.EscapeHtmlSafe | js/script.js:757-764 | the output holds no `<`, `>`, `"` or `'`, and every `&` in it begins one of the five entities it wrote |
| Escape.EscapeRoundTrip | js/script.js:757-764 | decoding the five entities gives back the input |
| Escape.EscapeCharwise | js/script.js:757-764 | the chain of five global replacements, `&` first, escapes each character on its own |
| Inline.PlainLineUnchanged | js/script.js:767-859 | as written, a line without markup and without `$` comes out unchanged |
| LoneFormula.LoneFormulaUnchanged | js/script.js:777-857 | as written, a line with a single `$…$` formula and no other markup comes out unchanged, single `_` inside the formula included: the placeholder survives every emphasis rule, is restored, and the rules after the restoration find nothing |
| LoneFormula.SubscriptFormulaUnchanged | js/script.js:777-857 | as written, `see $x_1$ here` comes out unchanged |
| Inline.FormulaLineUnchanged | js/script.js:777-842 | with the corrected placeholders, a line whose only markup is inline math comes out unchanged |
| Inline.SaveRestoreRoundTrip | js/script.js:777-857 | with the corrected placeholders, restoring what a saving pass produced gives math and tags back verbatim and code spans as `<code>` |
| Inline.RestoreSkipsOthers | js/script.js:835-857 | a restoring pass leaves placeholders of the other kinds alone |
| Inline.RestoreWithoutHead | js/script.js:835-857 | a restoring pass changes nothing where no placeholder head occurs |
| Inline.NoUnderscoreNoHead | js/script.js:779-791 | every as-written placeholder begins with `__` |
| Inline.SaveWithoutOpener | js/script.js:777-792 | a line without the rule's opening character is left as it is and nothing is saved |
| Inline.SaveEnd | js/script.js:777-789 | the end of a saved span: `$…$` lazily on one line, `<…>` with at least one character, a backtick span on one line |
| Inline.TokenAt | js/script.js:835-854 | a placeholder at the front: head, a maximal digit run, and tail |
| Inline.LinkAt | js/script.js:845 | the lazy link pattern: the positions of `](` and of `)` |
| Inline.LinkPassWithoutBracket | js/script.js:845 | a line without `[` passes the link rule unchanged |
| Inline.ImagePassWithoutBracket | js/script.js:848 | a line without `[` passes the image rule unchanged |
| Spans.EmphasisWraps | js/script.js:805-832 | a match after an opening boundary and before a closing one becomes `<em>…</em>` and the rest is copied |
| Spans.EmphasisNeedsBoundary | js/script.js:805-832 | with no delimiter after an opening-boundary character, the emphasis pass changes nothing (`snake_case_name`, `2*3*4`) |
| Spans.EmphasisKept | js/script.js:811-831 | a match after a character outside the opening set is put back as it was |
| Spans.SpanEnd | js/script.js:795-802 | a reported match is a delimiter run, non-empty content without the delimiter or a newline, and a closing run |
| Spans.SpanEndComplete | js/script.js:795-802 | the scan finds every match that starts at an index |
| Spans.SpanEndNone | js/script.js:795-802 | when the lazy content stops at something other than a closing run, nothing matches there |
| Spans.PassIdentityWithoutDelimiter | js/script.js:795-832 | text without the delimiter is left unchanged by its rule |
| Spans.PieceSurvives | js/script.js:795-832 | a piece free of the delimiter and of newlines survives the pass, copied or inside a match's content |
| Spans.UnwrapPass | js/script.js:795-802 | the pass only rewrites delimiters into tags: turning the tags back gives the input |
| InlineFinding.TwoFormulasAsWritten | js/script.js:777-842 | as written, `$a$ and $b$` becomes `__MATH_INLINE_0<strong> and </strong>MATH_INLINE_1__` |
| InlineFinding.TwoFormulasCorrected | js/script.js:777-842 | with the corrected placeholders the same line comes back unchanged |
| InlineFinding.EmphasisBreaks | js/script.js:795-832 | the emphasis rules turn the saved line into the broken one |
| InlineFinding.RestoreFindsNothing | js/script.js:835-857 | no restoring pass finds a whole placeholder in the broken line |
| Cleaners.CleanLineNoBacktick | js/script.js:1680-1681 | `cleanLine` leaves no backtick |
| Cleaners.CleanLinePlain | js/script.js:1663-1684 | a line with no `*`, `_` or backtick and no leading dash, bullet or `>` is kept |
| Cleaners.CleanLineDash | js/script.js:1671-1672 | a dash item loses its dash and the white space after it |
| Cleaners.RemoveLeadingBulletsLines | js/script.js:934-945 | the text keeps its lines; line `k` of the result is line `k` with its bullet removed and trimmed |
| Cleaners.RemoveBulletItem | js/script.js:941 | a bullet item with any indentation gives its trimmed content |
| Cleaners.RemoveBulletPlain | js/script.js:941 | a line with no bullet is only trimmed |
| Cleaners.RemoveBulletNoNewline | js/script.js:939-942 | cleaning a line never introduces a line break |
| Cleaners.SmartLines | js/script.js:948-968 | the same per-line rule, with numbered lines returned untouched |
| Cleaners.BulletEnd | js/script.js:941-963 | the end of `^[\s]*[-\*•]\s+` |
| Numbering.OrderedMarker | js/script.js:602 | the extraction tries the six alternatives in order with trailing white space |
| Numbering.DetectionMatchesExtraction | js/script.js:584-610 | detection and extraction agree, so the fallback at 607-609 never runs |
| Numbering.MarkerShape | js/script.js:602-605 | the stored number is a complete marker of one of the six shapes followed by all the white space after it |
| Numbering.NumberingCharacterised | js/script.js:971-979 | `hasNumberingPattern` holds exactly when the text has a short pattern, a parenthesised number or a `第…章`-style heading |
| Numbering.OrderedItemHasNumbering | js/script.js:584-979 | every line taken as an ordered item also has a numbering pattern |
| Numbering.ShapeEnd | js/script.js:584-586 | where a marker shape ends; `\d` is ASCII only |
| Lists.CreateOrderedList | js/script.js:982-999 | the loop produces the ordered list HTML, with each item's stored number written verbatim |
| Lists.CreateUnorderedList | js/script.js:1002-1015 | the loop produces the unordered list HTML |
| Lists.OrderedItemsAppend | js/script.js:985-995 | each item is rendered independently of its position, so no computed index is shown |
| Lists.UnorderedIgnoresMarkers | js/script.js:1002-1015 | two unordered lists with the same item contents render the same, whatever markers were recorded |
| Roman.ToRoman | js/script.js:1018-1042 | the nested greedy loops compute `Roman(num)` |
| Roman.RomanTable | js/script.js:1019-1039 | the ten numerals for one to ten |
| Roman.RomanValueRoundTrip | js/script.js:1018-1042 | reading the numeral back gives the number, for one to ten |
| Roman.RomanNonPositive | js/script.js:1034-1041 | zero and negative numbers give the empty string |
| Roman.RomanDecimal | js/script.js:1030-1032 | above ten the decimal numeral is returned and reads back as the number |
| Roman.RomanInjective | js/script.js:1018-1042 | no two positive numbers share an output |
| Sheet.MergeTables | js/script.js:1713-1761 | the forEach builds the stacked grid `GridOf` |
| Sheet.Placement | js/script.js:1741-1760 | row `k` of table `t` is grid row `Offset(t)+k`, and the row before each later table is an empty row of the first row's width |
| Sheet.GridSize | js/script.js:1741-1760 | the grid has one row per table row and one separator per table after the first |
| Sheet.ColumnWidths | js/script.js:1766-1784 | one width per column up to the widest row, each `min(max(maxWidth+2,10),60)` |
| Sheet.WidthBounds | js/script.js:1770-1784 | every width lies in [10, 60], covers each cell's display length plus 2 up to the cap, and is no wider than its widest cell needs |
| Sheet.MaxWidthIsMax | js/script.js:1772-1781 | `maxWidth` is at least 8 and every non-empty cell's display length, and equals 8 or one of them; CJK characters count double |
| Sheet.MaxColsIsMax | js/script.js:1767 | every row fits the columns that get a width, and some row attains it |
| Sheet.CellStyle | js/script.js:1827-1857 | Microsoft YaHei 11 with wrapping everywhere; bold exactly on a header row or a bold cell, italic exactly on an italic cell; fill `F2F2F2` and centring on the header row, left and top alignment elsewhere |
| Sheet.StyleOneRow | js/script.js:1822-1859 | the loop over a row's cells gives one style per cell, in column order |
| Sheet.StyleCells | js/script.js:1788-1864 | the styling pass walks the grid as the merge built it, skipping separator rows |
| Sheet.StylesAligned | js/script.js:1788-1864 | the styles cover the same rows as the grid, every cell of a table row, and nothing on a separator row |
| Sheet.RowStyles | js/script.js:1816-1862 | grid row `Offset(t)+k` gets the styles of row `k` of table `t`, header styles on each table's first row |
| Sheet.CellText | js/script.js:1718-1738 | a rendered cell's text is its trimmed HTML turned into text, bold or italic from the flags or the HTML; a plain cell is its trimmed text |
| CellContent.CellContentSpacing | js/script.js:1921-1922 | the result is trimmed and its only white space is single spaces |
| CellContent.PlainCellContent | js/script.js:1891-1925 | a cell without dollars, delimiters or brackets keeps its text up to white space |
| CellContent.DisplayRuleIdle | js/script.js:1893-1894 | the `$$…$$` rule never fires, because the inline rule leaves no `$$` |
| CellContent.DollarPassLeavesNoPair | js/script.js:1893 | after the inline rule no two dollars stand side by side |
| CellContent.FormulaCell | js/script.js:1893 | a formula alone in a cell gives its content |
| CellContent.MarkupIdle | js/script.js:1893-1913 | text without dollars and delimiters passes the formula and delimiter rules |
| CellContent.LinkPassIdle | js/script.js:1916-1919 | text without `[` passes the link and image rules |
| CellContent.LinkAt | js/script.js:1916 | the link pattern: non-empty text up to the first `]`, then `(`, non-empty target up to the first `)` |
| CellContent.ImageKeepsBangAsWritten | js/script.js:1915-1919 | as written, `![alt](url)` gives `!alt` |
| CellContent.ImageCellCorrected | js/script.js:1915-1919 | with the image rule first, `![alt](url)` gives `alt` |
| HtmlText.WrappedIsFormatted | js/script.js:1997-2016 | text holding `<strong>…</strong>` or `<em>…</em>` anywhere is recognised as bold or italic |
| HtmlText.NoTagNoFormatting | js/script.js:1997-2016 | HTML without `<` is neither bold nor italic |
| HtmlText.ExtractPlainTextFromHtml | js/script.js:2055-2076 | the result is trimmed |
| HtmlText.TagsRemoved | js/script.js:2061-2064 | no tag is left before the entities are decoded |
| HtmlText.StripTagsNoTag | js/script.js:2064 | stripping leaves no complete tag and adds no character |
| HtmlText.PlainCellKept | js/script.js:2055-2076 | a cell without markup or entities comes out trimmed and otherwise unchanged |
| HtmlText.UntaggedCell | js/script.js:2055-2076 | a cell without `<` is only decoded and trimmed |
| HtmlText.DoubleDecodeAsWritten | js/script.js:2067-2073 | as written, text `&lt;` written as HTML (`&amp;lt;`) comes out as `<`; decoding once gives `&lt;` |
| HtmlText.ChainDecodesTwice | js/script.js:2067-2073 | the as-written chain turns `&amp;lt;` into `<` |
| HtmlText.CorrectedRoundTrip | js/script.js:2067-2075 | decoding the entities once gives back any encoded text, trimmed |
| HtmlText.DecodeEncode | js/script.js:2067-2073 | single-pass decoding undoes encoding, whatever the text holds |
| MarkdownTables.ExtractTablesFromMarkdown | js/script.js:2079-2123 | the line loop computes `Tables(text)` |
| MarkdownTables.TablesNonEmpty | js/script.js:2109-2120 | every table has at least one row |
| MarkdownTables.TablesKeepDataRows | js/script.js:2085-2115 | the tables hold every data row of the text in order, and nothing else |
| MarkdownTables.TablesBound | js/script.js:2096-2114 | there is at most one table more than there are non-table lines |
| MarkdownTables.DataCellsClean | js/script.js:2102-2104 | each cell is trimmed and holds no bar |
| MarkdownTables.TrimAll | js/script.js:2104 | each cell is trimmed, in place |
| Text.TrimSpec | js/script.js:457 | `trim` leaves no white space at either end |
| Text.TrimIdempotent | js/script.js:457 | trimming twice is trimming once |
| Text.JoinSplit | js/script.js:938-944 | joining the parts of a split gives the text back |
| Text.SplitJoin | js/script.js:938-944 | splitting a join of separator-free parts gives the parts back |
| Text.IndexOf | js/script.js:146-154 | the first occurrence at or after an index, the scan of a lazy `[\s\S]*?` |

## Left out

- MathGuard.ProtectRestoreRoundTrip: requires that the input holds no '【'.
  The source needs only that no token of the same salt occurs in it. The
  stronger condition keeps the proof that restoration never mistakes user
  text for a token short. So text with Chinese 【 brackets is not covered by
  the round trip.
- MathGuard.ProtectRestoreAsWritten: the same '【' condition, for the same
  reason.
- The random salt (`Math.random().toString(36)`, js/script.js:142) is a
  parameter: any string of digits and lower-case letters.
- Inline.SaveRestoreRoundTrip: proved for the corrected placeholders only. The
  as-written placeholders do not round-trip on every line (`$a$ and $b$`,
  under Findings). For them the model proves instead the unchanged plain line
  (`Inline.PlainLineUnchanged`) and the lone formula
  (`LoneFormula.LoneFormulaUnchanged`).
- LoneFormula.LoneFormulaUnchanged: requires that the formula holds no `[`,
  no `~` and no `__`. A `[` in the formula with `](…)` later on the line makes
  a link, and a `__HTML_TAG_n__` in the formula is taken for a tag placeholder;
  the lemma does not describe those lines. A single `_`, as in `x_1`, is covered.
- Sheet.MergeTables: requires that every table after the first has a row. The
  source reads `processedTable[0].length` and throws on an empty table; the
  extractors never produce one.
- Sheet.StyleCells: the styles are gathered row by row in a grid of styles
  rather than set on worksheet cells by address. The test that a worksheet
  cell exists (js/script.js:1824) is not modelled: every cell of a table row
  gets a style.
- The cell flags of the spreadsheet (`isBold`/`isItalic` from
  `hasBoldFormatting`/`hasItalicFormatting`) are inputs. These use
  `getComputedStyle` and the DOM.
- `exportToExcel`'s calls into the XLSX library and `saveAs`
  (js/script.js:1710, 1764, 1868-1877) and its notifications are foreign I/O.
  `extractTablesFromPreviewHtml` walks the DOM; its result is the input of the
  grid model.
- `updatePreview`, its `marked`, DOMPurify and MathJax calls, and the MathJax
  configuration (js/script.js:332-436) are calls into libraries.
- `exportToWord` and `exportToPDF` (js/script.js:1332-1626, 2306-2678) are HTML
  templates handed to `saveAs` and `window.open`.
- `processHtml`, `getFormattedTextContent`, `findFirstTextNode` and
  `getListLevel` walk DOM nodes.
- The event handlers for clipboard, paste, drag and drop, notifications, the
  tutorial and the menu (js/script.js:2126-2931) are UI and asynchronous I/O.
- `formatMathFormulas` / `processMathFormulas` (js/script.js:58-234) are
  template lookups for the preview. `convertSuperscripts`, which they call, is
  modelled.
- `sanitizeUserInput` (js/script.js:1062-1079) is lookahead regular
  expressions whose only point is browser security.
- `cleanInlineMarkdown`, `cleanMarkdown` and `cleanLineForPreview` are
  preview and export cleaners outside the converter core.
- js/ct.js is screenshot plumbing around the DOM and html2canvas, and is not
  part of this model.
- JavaScript strings are UTF-16. The model counts characters, with
  `Sheet.Utf16Length` counting two units for a character outside the Basic
  Multilingual Plane.
- `\s` and `trim` use the JavaScript white-space set, written out in
  `Text.IsWhite`. Letter-case folding for `/<br\s*\/?>/i` covers only the
  ASCII letters `B` and `R`.

## Findings

| source | as written | input that shows it | evidently intended | confidence | as-written member | corrected member |
|---|---|---|---|---|---|---|
| js/script.js:777-842 | inline math is saved as `__MATH_INLINE_n__`, and the `__…__` and `_…_` rules then run over those placeholders | `$a$ and $b$` gives `__MATH_INLINE_0<strong> and </strong>MATH_INLINE_1__`; the formulas are lost | formulas pass through the emphasis rules untouched and come back as `$a$ and $b$` | high; not executed | InlineFinding.TwoFormulasAsWritten | InlineFinding.TwoFormulasCorrected |
| js/script.js:163-175 | each formula is passed to `String.prototype.replace` as a replacement string, so `$$`, `$&`, `` $` `` and `$'` in it are expanded | `\($$\)` comes back as `\($\)` | the formula is put back literally, and protect/restore is a round trip | high; not executed | MathGuard.DollarFormulaMangled | MathGuard.ProtectRestoreRoundTrip |
| js/script.js:2067-2073 | `&amp;` is decoded first, so the `&` it produces starts an entity for the later replacements | `&amp;lt;` (the text `&lt;` written as HTML) comes out as `<` | entities are decoded once, and the text `&lt;` comes back as `&lt;` | high; not executed | HtmlText.DoubleDecodeAsWritten | HtmlText.CorrectedRoundTrip |
| js/script.js:1915-1919 | the link rule runs before the image rule and matches the `[alt](url)` inside `![alt](url)` | `![alt](u)` gives `!alt` | an image gives its alternative text, `alt` | high; not executed | CellContent.ImageKeepsBangAsWritten | CellContent.ImageCellCorrected |
