/** The spreadsheet export of `exportToExcel`: the cells of every table are turned
    into plain text with formatting flags, the tables are stacked into one grid with
    an empty row between two tables, each column gets a width from its longest
    text, and every table's first row is styled as a header. */
module Sheet {
  import opened Text
  import HtmlText

  /** A cell as the export receives it: the HTML of a rendered cell with the
      formatting seen on the element, or a plain string. */
  datatype SourceCell = Formatted(html: string, isBold: bool, isItalic: bool) | Plain(text: string)

  /** A cell as the export writes it. */
  datatype SheetCell = SheetCell(text: string, isBold: bool, isItalic: bool)

  type Table = seq<seq<SourceCell>>

  /** The text `exportToExcel` writes for a rendered cell. */
  function AsWritten(html: string): string {
    HtmlText.ExtractPlainTextFromHtml(html)
  }

  /** The text a rendered cell should give, its entities decoded once. */
  function Corrected(html: string): string {
    HtmlText.ExtractPlainTextCorrected(html)
  }

  /** One cell of `processedTable`, with `extract` turning cell HTML into text. */
  function ProcessCell(extract: string -> string, c: SourceCell): SheetCell {
    match c
    case Formatted(html, b, i) =>
      SheetCell(extract(Trim(html)), b || HtmlText.HasBoldInHtml(html), i || HtmlText.HasItalicInHtml(html))
    case Plain(t) => SheetCell(Trim(t), false, false)
  }

  function ProcessRow(extract: string -> string, row: seq<SourceCell>): seq<SheetCell> {
    seq(|row|, c requires 0 <= c < |row| => ProcessCell(extract, row[c]))
  }

  function Processed(extract: string -> string, table: Table): seq<seq<SheetCell>> {
    seq(|table|, k requires 0 <= k < |table| => ProcessRow(extract, table[k]))
  }

  /** `row.map(cell => cell.text)` */
  function Texts(row: seq<SheetCell>): seq<string> {
    seq(|row|, c requires 0 <= c < |row| => row[c].text)
  }

  function TextRows(rows: seq<seq<SheetCell>>): seq<seq<string>> {
    seq(|rows|, k requires 0 <= k < |rows| => Texts(rows[k]))
  }

  /** `new Array(n).fill('')` */
  function Blank(n: nat): seq<string> {
    seq(n, _ => "")
  }

  /** Every table after the first has a row: the separator row takes the length
      of that row. The tables the export receives all have one. */
  predicate Stackable(tables: seq<Table>) {
    forall t :: 0 < t < |tables| ==> |tables[t]| > 0
  }

  /** The separator row in front of table `t`. */
  function Gap(extract: string -> string, tables: seq<Table>, t: nat): seq<seq<string>>
    requires t < |tables| && Stackable(tables)
  {
    if t > 0 then [Blank(|Processed(extract, tables[t])[0]|)] else []
  }

  /** The grid rows of table `t`, separator row included. */
  function Block(extract: string -> string, tables: seq<Table>, t: nat): seq<seq<string>>
    requires t < |tables| && Stackable(tables)
  {
    Gap(extract, tables, t) + TextRows(Processed(extract, tables[t]))
  }

  /** `allTableData` after the first `n` tables. */
  function GridOf(extract: string -> string, tables: seq<Table>, n: nat): seq<seq<string>>
    requires n <= |tables| && Stackable(tables)
  {
    if n == 0 then [] else GridOf(extract, tables, n - 1) + Block(extract, tables, n - 1)
  }

  method MergeTables(extract: string -> string, tables: seq<Table>) returns (allTableData: seq<seq<string>>)
    requires Stackable(tables)
    ensures allTableData == GridOf(extract, tables, |tables|)
  {
    allTableData := [];
    for t := 0 to |tables|
      invariant allTableData == GridOf(extract, tables, t)
    {
      var processedTable := Processed(extract, tables[t]);
      var before := allTableData;
      if t > 0 {
        var emptyRow := Blank(|processedTable[0]|);
        allTableData := allTableData + [emptyRow];
      }
      for k := 0 to |processedTable|
        invariant allTableData == before + Gap(extract, tables, t) + TextRows(processedTable)[..k]
      {
        var textRow := Texts(processedTable[k]);
        assert TextRows(processedTable)[..k + 1] == TextRows(processedTable)[..k] + [textRow];
        allTableData := allTableData + [textRow];
      }
      assert TextRows(processedTable)[..|processedTable|] == TextRows(processedTable);
    }
  }

  // ---------------------------------------------------------------------
  // Where each table lands
  // ---------------------------------------------------------------------

  /** The grid row that holds row 0 of table `t`. */
  function Offset(extract: string -> string, tables: seq<Table>, t: nat): nat
    requires t < |tables| && Stackable(tables)
  {
    |GridOf(extract, tables, t)| + (if t > 0 then 1 else 0)
  }

  /** The grid of more tables starts with the grid of fewer. */
  lemma {:induction false} GridPrefix(extract: string -> string, tables: seq<Table>, m: nat, n: nat)
    requires m <= n <= |tables| && Stackable(tables)
    ensures GridOf(extract, tables, m) <= GridOf(extract, tables, n)
    decreases n - m
  {
    if m < n {
      GridPrefix(extract, tables, m, n - 1);
    }
  }

  /** Row `k` of table `t` is grid row `Offset(t) + k`, and the row before
      a later table is empty. */
  lemma Placement(extract: string -> string, tables: seq<Table>, t: nat, k: nat)
    requires t < |tables| && Stackable(tables) && k < |tables[t]|
    ensures Offset(extract, tables, t) + k < |GridOf(extract, tables, |tables|)|
    ensures GridOf(extract, tables, |tables|)[Offset(extract, tables, t) + k]
         == Texts(ProcessRow(extract, tables[t][k]))
    ensures t > 0 ==>
      GridOf(extract, tables, |tables|)[Offset(extract, tables, t) - 1] == Blank(|ProcessRow(extract, tables[t][0])|)
  {
    GridPrefix(extract, tables, t + 1, |tables|);
    var g, gap, rows := GridOf(extract, tables, t), Gap(extract, tables, t), TextRows(Processed(extract, tables[t]));
    assert GridOf(extract, tables, t + 1) == g + gap + rows;
    BlockIndex(g, gap, rows, k);
    if t > 0 {
      assert (g + gap + rows)[|g|] == gap[0];
    }
  }

  lemma BlockIndex(g: seq<seq<string>>, gap: seq<seq<string>>, rows: seq<seq<string>>, k: nat)
    requires k < |rows|
    ensures (g + gap + rows)[|g| + |gap| + k] == rows[k]
  {
  }

  /** The grid has one row per table row and one separator row per table after
      the first. */
  lemma {:induction false} GridSize(extract: string -> string, tables: seq<Table>, n: nat)
    requires n <= |tables| && Stackable(tables)
    ensures |GridOf(extract, tables, n)| == RowCount(tables, n) + (if n > 0 then n - 1 else 0)
  {
    if n > 0 {
      GridSize(extract, tables, n - 1);
    }
  }

  function RowCount(tables: seq<Table>, n: nat): nat
    requires n <= |tables|
  {
    if n == 0 then 0 else RowCount(tables, n - 1) + |tables[n - 1]|
  }

  // ---------------------------------------------------------------------
  // Column widths
  // ---------------------------------------------------------------------

  /** `.length`: UTF-16 code units, two for a character outside the Basic
      Multilingual Plane. */
  function Utf16Length(s: string): nat {
    if s == [] then 0 else (if s[0] as int > 0xFFFF then 2 else 1) + Utf16Length(s[1..])
  }

  /** `match(/[一-龥]/g).length`: the common CJK ideographs. */
  function CjkCount(s: string): nat {
    if s == [] then 0 else (if '一' <= s[0] <= '龥' then 1 else 0) + CjkCount(s[1..])
  }

  /** The display length: ideographs count twice. */
  function DisplayLength(s: string): nat {
    Utf16Length(s) + CjkCount(s)
  }

  /** `row[colIndex]`, with a missing cell read as the empty string: both are
      falsy and skipped. */
  function CellAt(row: seq<string>, c: nat): string {
    if c < |row| then row[c] else ""
  }

  /** `maxWidth` after the first `n` rows. */
  function MaxWidth(grid: seq<seq<string>>, c: nat, n: nat): int
    requires n <= |grid|
  {
    if n == 0 then 8
    else
      var w := MaxWidth(grid, c, n - 1);
      var cell := CellAt(grid[n - 1], c);
      if cell != "" && DisplayLength(cell) > w then DisplayLength(cell) else w
  }

  /** `Math.min(Math.max(maxWidth + 2, 10), 60)` */
  function Clamp(x: int): int {
    if x < 10 then 10 else if x > 60 then 60 else x
  }

  function ColumnWidth(grid: seq<seq<string>>, c: nat): int {
    Clamp(MaxWidth(grid, c, |grid|) + 2)
  }

  /** `Math.max(...allTableData.map(row => row.length))`, no columns for no rows. */
  function MaxCols(grid: seq<seq<string>>): nat {
    if grid == [] then 0
    else
      var m := MaxCols(grid[..|grid| - 1]);
      if |grid[|grid| - 1]| > m then |grid[|grid| - 1]| else m
  }

  method ColumnWidths(grid: seq<seq<string>>) returns (colWidths: seq<int>)
    ensures |colWidths| == MaxCols(grid)
    ensures forall c :: 0 <= c < |colWidths| ==> colWidths[c] == ColumnWidth(grid, c)
  {
    var maxCols := MaxCols(grid);
    colWidths := [];
    for colIndex := 0 to maxCols
      invariant |colWidths| == colIndex
      invariant forall c :: 0 <= c < colIndex ==> colWidths[c] == ColumnWidth(grid, c)
    {
      var maxWidth := 8;
      for r := 0 to |grid|
        invariant maxWidth == MaxWidth(grid, colIndex, r)
      {
        var cell := CellAt(grid[r], colIndex);
        if cell != "" {
          var displayLength := Utf16Length(cell) + CjkCount(cell);
          maxWidth := if displayLength > maxWidth then displayLength else maxWidth;
        }
      }
      colWidths := colWidths + [Clamp(maxWidth + 2)];
    }
  }

  /** `maxWidth` is at least 8 and at least the display length of every non-empty
      cell of the column, and it is 8 or one of those lengths. */
  lemma {:induction false} MaxWidthIsMax(grid: seq<seq<string>>, c: nat, n: nat)
    requires n <= |grid|
    ensures MaxWidth(grid, c, n) >= 8
    ensures forall r :: 0 <= r < n && CellAt(grid[r], c) != "" ==>
      DisplayLength(CellAt(grid[r], c)) <= MaxWidth(grid, c, n)
    ensures MaxWidth(grid, c, n) == 8
         || exists r :: 0 <= r < n && CellAt(grid[r], c) != "" && DisplayLength(CellAt(grid[r], c)) == MaxWidth(grid, c, n)
  {
    if n > 0 {
      MaxWidthIsMax(grid, c, n - 1);
    }
  }

  /** Every column is between 10 and 60 wide, wide enough for each of its cells up
      to that cap, and no wider than its widest cell needs. */
  lemma WidthBounds(grid: seq<seq<string>>, c: nat)
    ensures 10 <= ColumnWidth(grid, c) <= 60
    ensures forall r :: 0 <= r < |grid| && CellAt(grid[r], c) != "" ==>
      ColumnWidth(grid, c) >= Clamp(DisplayLength(CellAt(grid[r], c)) + 2)
    ensures ColumnWidth(grid, c) == 10
         || exists r :: 0 <= r < |grid| && CellAt(grid[r], c) != "" && ColumnWidth(grid, c) == Clamp(DisplayLength(CellAt(grid[r], c)) + 2)
  {
    MaxWidthIsMax(grid, c, |grid|);
  }

  /** Every row fits within the columns that get a width. */
  lemma {:induction false} MaxColsIsMax(grid: seq<seq<string>>)
    ensures forall r :: 0 <= r < |grid| ==> |grid[r]| <= MaxCols(grid)
    ensures grid != [] ==> exists r :: 0 <= r < |grid| && |grid[r]| == MaxCols(grid)
  {
    if grid != [] {
      var init := grid[..|grid| - 1];
      MaxColsIsMax(init);
      assert forall r :: 0 <= r < |init| ==> grid[r] == init[r];
      if |grid[|grid| - 1]| < MaxCols(init) {
        var r :| 0 <= r < |init| && |init[r]| == MaxCols(init);
        assert |grid[r]| == MaxCols(grid);
      } else {
        assert |grid[|grid| - 1]| == MaxCols(grid);
      }
    }
  }

  // ---------------------------------------------------------------------
  // Cell styles
  // ---------------------------------------------------------------------

  datatype Style = Style(
    fontName: string, fontSize: nat, bold: bool, italic: bool,
    horizontal: string, vertical: string, wrapText: bool, fill: Option<string>)

  /** The style of a cell in row `rowIndex` of its table: left and top aligned
      with wrapping; the first row of each table bold, centred and grey; bold and
      italic wherever the cell carries them. */
  function CellStyle(rowIndex: nat, cell: SheetCell): (s: Style)
    ensures s.bold <==> rowIndex == 0 || cell.isBold
    ensures s.italic <==> cell.isItalic
    ensures s.fill == (if rowIndex == 0 then Some("F2F2F2") else None)
    ensures s.horizontal == (if rowIndex == 0 then "center" else "left")
    ensures s.vertical == (if rowIndex == 0 then "center" else "top")
    ensures s.wrapText && s.fontName == "Microsoft YaHei" && s.fontSize == 11
  {
    var header := rowIndex == 0;
    Style("Microsoft YaHei", 11, header || cell.isBold, cell.isItalic,
          if header then "center" else "left", if header then "center" else "top",
          true, if header then Some("F2F2F2") else None)
  }

  function StyleRow(rowIndex: nat, row: seq<SheetCell>): seq<Style> {
    seq(|row|, c requires 0 <= c < |row| => CellStyle(rowIndex, row[c]))
  }

  function StyleRows(rows: seq<seq<SheetCell>>): seq<seq<Style>> {
    seq(|rows|, k requires 0 <= k < |rows| => StyleRow(k, rows[k]))
  }

  /** The styles given to the grid rows of table `t`: none on the separator row. */
  function StyleBlock(extract: string -> string, tables: seq<Table>, t: nat): seq<seq<Style>>
    requires t < |tables|
  {
    (if t > 0 then [[]] else []) + StyleRows(Processed(extract, tables[t]))
  }

  /** The styles of the grid rows of the first `n` tables, row by row. */
  function StylesOf(extract: string -> string, tables: seq<Table>, n: nat): seq<seq<Style>>
    requires n <= |tables|
  {
    if n == 0 then [] else StylesOf(extract, tables, n - 1) + StyleBlock(extract, tables, n - 1)
  }

  /** The styling pass: `currentRow` walks the grid as the merge built it, skipping
      the separator rows; `styles[r][c]` is the style set on the cell at row `r`,
      column `c`. */
  method StyleCells(extract: string -> string, tables: seq<Table>) returns (styles: seq<seq<Style>>)
    ensures styles == StylesOf(extract, tables, |tables|)
  {
    styles := [];
    var currentRow := 0;
    for t := 0 to |tables|
      invariant currentRow == |styles|
      invariant styles == StylesOf(extract, tables, t)
    {
      var processedTable := Processed(extract, tables[t]);
      var before := styles;
      if t > 0 {
        styles := styles + [[]];
        currentRow := currentRow + 1;
      }
      for rowIndex := 0 to |processedTable|
        invariant currentRow == |styles|
        invariant styles == before + (if t > 0 then [[]] else []) + StyleRows(processedTable)[..rowIndex]
      {
        var rowStyles := StyleOneRow(rowIndex, processedTable[rowIndex]);
        assert StyleRows(processedTable)[..rowIndex + 1] == StyleRows(processedTable)[..rowIndex] + [rowStyles];
        styles := styles + [rowStyles];
        currentRow := currentRow + 1;
      }
      assert StyleRows(processedTable)[..|processedTable|] == StyleRows(processedTable);
    }
  }

  /** The inner loop of the styling pass: one style per cell of the row. */
  method StyleOneRow(rowIndex: nat, row: seq<SheetCell>) returns (rowStyles: seq<Style>)
    ensures rowStyles == StyleRow(rowIndex, row)
  {
    rowStyles := [];
    for colIndex := 0 to |row|
      invariant rowStyles == StyleRow(rowIndex, row)[..colIndex]
    {
      var cellStyle := CellStyle(rowIndex, row[colIndex]);
      rowStyles := rowStyles + [cellStyle];
    }
  }

  /** Each styled row covers its grid row, and an unstyled row is a separator row. */
  predicate Aligned(styles: seq<seq<Style>>, grid: seq<seq<string>>) {
    && |styles| == |grid|
    && forall r :: 0 <= r < |grid| ==>
      || |styles[r]| == |grid[r]|
      || (styles[r] == [] && forall x :: x in grid[r] ==> x == "")
  }

  /** The styling pass lines up with the merge: it covers the same rows, styles
      every cell of a table row and nothing on a separator row. */
  lemma {:induction false} StylesAligned(extract: string -> string, tables: seq<Table>, n: nat)
    requires n <= |tables| && Stackable(tables)
    ensures Aligned(StylesOf(extract, tables, n), GridOf(extract, tables, n))
  {
    if n > 0 {
      StylesAligned(extract, tables, n - 1);
      BlockAligned(extract, tables, n - 1);
      AppendAligned(StylesOf(extract, tables, n - 1), GridOf(extract, tables, n - 1),
                    StyleBlock(extract, tables, n - 1), Block(extract, tables, n - 1));
    }
  }

  lemma BlockAligned(extract: string -> string, tables: seq<Table>, t: nat)
    requires t < |tables| && Stackable(tables)
    ensures Aligned(StyleBlock(extract, tables, t), Block(extract, tables, t))
  {
    var gb, sb := Block(extract, tables, t), StyleBlock(extract, tables, t);
    var rows := Processed(extract, tables[t]);
    var d := if t > 0 then 1 else 0;
    assert |gb| == |sb| == d + |rows|;
    forall r | 0 <= r < |gb|
      ensures || |sb[r]| == |gb[r]|
              || (sb[r] == [] && forall x :: x in gb[r] ==> x == "")
    {
      if r < d {
        assert sb[r] == [];
      } else {
        assert gb[r] == Texts(rows[r - d]);
        assert sb[r] == StyleRow(r - d, rows[r - d]);
      }
    }
  }

  lemma AppendAligned(s0: seq<seq<Style>>, g0: seq<seq<string>>, s1: seq<seq<Style>>, g1: seq<seq<string>>)
    requires Aligned(s0, g0) && Aligned(s1, g1)
    ensures Aligned(s0 + s1, g0 + g1)
  {
    forall r | 0 <= r < |g0 + g1|
      ensures || |(s0 + s1)[r]| == |(g0 + g1)[r]|
              || ((s0 + s1)[r] == [] && forall x :: x in (g0 + g1)[r] ==> x == "")
    {
      if r < |g0| {
        assert (s0 + s1)[r] == s0[r] && (g0 + g1)[r] == g0[r];
      } else {
        assert (s0 + s1)[r] == s1[r - |g0|] && (g0 + g1)[r] == g1[r - |g0|];
      }
    }
  }

  /** The style pass gives grid row `Offset(t) + k`, which holds row `k` of table
      `t`, the styles of that row: header styles on each table's first row. */
  lemma RowStyles(extract: string -> string, tables: seq<Table>, t: nat, k: nat)
    requires t < |tables| && Stackable(tables) && k < |tables[t]|
    ensures Offset(extract, tables, t) + k < |StylesOf(extract, tables, |tables|)|
    ensures StylesOf(extract, tables, |tables|)[Offset(extract, tables, t) + k]
         == StyleRow(k, ProcessRow(extract, tables[t][k]))
  {
    StylesPrefix(extract, tables, t + 1, |tables|);
    StylesLength(extract, tables, t);
    var st, sep, rows := StylesOf(extract, tables, t), (if t > 0 then [[]] else []), StyleRows(Processed(extract, tables[t]));
    assert StylesOf(extract, tables, t + 1) == st + sep + rows;
    StyleIndex(st, sep, rows, k);
  }

  lemma StyleIndex(st: seq<seq<Style>>, sep: seq<seq<Style>>, rows: seq<seq<Style>>, k: nat)
    requires k < |rows|
    ensures (st + sep + rows)[|st| + |sep| + k] == rows[k]
  {
  }

  lemma {:induction false} StylesLength(extract: string -> string, tables: seq<Table>, n: nat)
    requires n <= |tables| && Stackable(tables)
    ensures |StylesOf(extract, tables, n)| == |GridOf(extract, tables, n)|
  {
    if n > 0 {
      StylesLength(extract, tables, n - 1);
    }
  }

  lemma {:induction false} StylesPrefix(extract: string -> string, tables: seq<Table>, m: nat, n: nat)
    requires m <= n <= |tables|
    ensures StylesOf(extract, tables, m) <= StylesOf(extract, tables, n)
    decreases n - m
  {
    if m < n {
      StylesPrefix(extract, tables, m, n - 1);
    }
  }

  /** A formatted cell's text is its HTML turned into text, bold when the element
      or its HTML is bold, italic when the element or its HTML is italic; a plain
      cell is its trimmed text, unformatted. */
  lemma CellText(c: SourceCell)
    ensures c.Formatted? ==> ProcessCell(AsWritten, c).text == HtmlText.ExtractPlainTextFromHtml(Trim(c.html))
    ensures c.Formatted? && '<' !in c.html && '&' !in c.html ==> ProcessCell(AsWritten, c).text == Trim(c.html)
    ensures c.Formatted? ==> (ProcessCell(AsWritten, c).isBold <==> c.isBold || HtmlText.HasBoldInHtml(c.html))
    ensures c.Formatted? ==> (ProcessCell(AsWritten, c).isItalic <==> c.isItalic || HtmlText.HasItalicInHtml(c.html))
    ensures c.Plain? ==> ProcessCell(AsWritten, c) == SheetCell(Trim(c.text), false, false)
  {
    if c.Formatted? && '<' !in c.html && '&' !in c.html {
      var h := Trim(c.html);
      TrimKeeps(c.html);
      HtmlText.PlainCellKept(h);
      TrimIdempotent(c.html);
    }
  }

}
