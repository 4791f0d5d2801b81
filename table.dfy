/** Pipe tables: the row tests shared by the converter and the Markdown table
    extractor, and `processTable`, which renders the collected rows. */
module Table {
  import opened Text
  import Inline

  /** `^\|(.+)\|$`: a bar, at least one character that is not a line terminator,
      and a bar that ends the line. */
  predicate IsTableRow(line: string) {
    && |line| >= 3 && line[0] == '|' && line[|line| - 1] == '|'
    && forall j :: 1 <= j < |line| - 1 ==> !IsLineTerminator(line[j])
  }

  predicate IsDashOrColon(c: char) { c == '-' || c == ':' }

  /** The end of the run of dashes and colons that starts at `i`. */
  function DashEnd(row: string, i: nat): (r: nat)
    requires i <= |row|
    ensures i <= r <= |row|
    decreases |row| - i
  {
    if i < |row| && IsDashOrColon(row[i]) then DashEnd(row, i + 1) else i
  }

  /** `^\|\s*[-:]+\s*\|`: a bar, optional white space, dashes and colons, optional
      white space and a bar. The classes are disjoint, so greedy runs decide it. */
  predicate IsSeparatorRow(row: string) {
    && |row| >= 1 && row[0] == '|'
    && var a := SkipWhite(row, 1);
       var b := DashEnd(row, a);
       var c := SkipWhite(row, b);
       a < b && c < |row| && row[c] == '|'
  }

  /** `parts.filter(cell => cell !== '')`. */
  function NonEmpty(parts: seq<string>): (r: seq<string>)
    ensures forall k :: 0 <= k < |r| ==> r[k] != [] && r[k] in parts
    ensures forall k :: 0 <= k < |parts| && parts[k] != [] ==> parts[k] in r
  {
    if parts == [] then []
    else if parts[0] == [] then NonEmpty(parts[1..])
    else [parts[0]] + NonEmpty(parts[1..])
  }

  /** The filter keeps each non-empty piece as often as it occurs and drops every
      empty one. */
  lemma {:induction false} NonEmptyCounts(parts: seq<string>)
    ensures multiset(NonEmpty(parts)) == multiset(parts)[[] := 0]
    ensures |NonEmpty(parts)| == |parts| - multiset(parts)[[]]
  {
    if parts != [] {
      assert parts == [parts[0]] + parts[1..];
      NonEmptyCounts(parts[1..]);
    }
  }

  /** The filter distributes over concatenation. */
  lemma {:induction false} NonEmptyAppend(a: seq<string>, b: seq<string>)
    ensures NonEmpty(a + b) == NonEmpty(a) + NonEmpty(b)
  {
    if a != [] {
      assert (a + b)[0] == a[0] && (a + b)[1..] == a[1..] + b;
      NonEmptyAppend(a[1..], b);
    } else {
      assert a + b == b;
    }
  }

  /** The filter keeps the order: the non-empty piece `k` comes right after the
      pieces kept from before it. */
  lemma NonEmptyOrder(parts: seq<string>, k: nat)
    requires k < |parts| && parts[k] != []
    ensures var n := |NonEmpty(parts[..k])|; n < |NonEmpty(parts)| && NonEmpty(parts)[n] == parts[k]
  {
    assert parts == parts[..k] + parts[k..];
    NonEmptyAppend(parts[..k], parts[k..]);
    assert parts[k..] == [parts[k]] + parts[k + 1..];
  }

  /** `row.split('|').filter(cell => cell !== '')`: the cells keep their white space. */
  function Cells(row: string): (r: seq<string>)
    ensures forall k :: 0 <= k < |r| ==> r[k] != [] && '|' !in r[k]
  {
    NonEmpty(Split(row, '|'))
  }

  datatype Align = Left | Center | Right

  function AlignName(a: Align): string {
    match a
    case Left => "left"
    case Center => "center"
    case Right => "right"
  }

  /** The alignment a cell of the separator row asks for. */
  function CellAlign(cell: string): Align {
    var t := Trim(cell);
    if StartsWith(t, ":") && EndsWith(t, ":") then Center
    else if EndsWith(t, ":") then Right
    else Left
  }

  function MapAlign(cells: seq<string>): (r: seq<Align>)
    ensures |r| == |cells|
    ensures forall k :: 0 <= k < |cells| ==> r[k] == CellAlign(cells[k])
  {
    if cells == [] then [] else [CellAlign(cells[0])] + MapAlign(cells[1..])
  }

  /** Column alignments: read from the second row when it is a separator row. */
  function Alignments(rows: seq<string>): seq<Align> {
    if |rows| > 1 && IsSeparatorRow(rows[1]) then MapAlign(Cells(rows[1])) else []
  }

  /** `alignments[index] || 'left'`. */
  function AlignAt(aligns: seq<Align>, k: nat): Align {
    if k < |aligns| then aligns[k] else Left
  }

  const TableOpen: string := "<div class=\"table-container\"><table border=\"1\" style=\"width:100%; border-collapse:collapse;\">"
  const TableClose: string := "</table></div>"

  datatype CellTag = Th | Td

  function TagName(tag: CellTag): string {
    match tag
    case Th => "th"
    case Td => "td"
  }

  function CellHtml(inline: string -> string, tag: CellTag, a: Align, cell: string): string {
    "<" + TagName(tag) + " style=\"border:1px solid #000; padding:5px; text-align:" + AlignName(a) + ";\">"
      + inline(Trim(cell)) + "</" + TagName(tag) + ">"
  }

  /** The cells of one row, each with the alignment of its column. */
  function CellsHtml(inline: string -> string, tag: CellTag, aligns: seq<Align>, cells: seq<string>): string
    decreases |cells|
  {
    if cells == [] then ""
    else
      var n := |cells| - 1;
      CellsHtml(inline, tag, aligns, cells[..n]) + CellHtml(inline, tag, AlignAt(aligns, n), cells[n])
  }

  function RowHtml(inline: string -> string, tag: CellTag, aligns: seq<Align>, row: string): string {
    "<tr>" + CellsHtml(inline, tag, aligns, Cells(row)) + "</tr>"
  }

  /** No row other than separator rows has been rendered yet. */
  predicate AllSeparators(rows: seq<string>) {
    forall k :: 0 <= k < |rows| ==> IsSeparatorRow(rows[k])
  }

  /** The rows, as the loop of `processTable` renders them: separator rows are
      skipped, the first other row is the header. */
  function RowsHtml(inline: string -> string, aligns: seq<Align>, rows: seq<string>): string
    decreases |rows|
  {
    if rows == [] then ""
    else
      var n := |rows| - 1;
      var before := RowsHtml(inline, aligns, rows[..n]);
      if IsSeparatorRow(rows[n]) then before
      else before + RowHtml(inline, if AllSeparators(rows[..n]) then Th else Td, aligns, rows[n])
  }

  /** The table's HTML, with `inline` rendering the text of each cell. */
  function TableHtml(inline: string -> string, rows: seq<string>): string {
    TableOpen + RowsHtml(inline, Alignments(rows), rows) + TableClose
  }

  lemma CellsStep(inline: string -> string, tag: CellTag, aligns: seq<Align>, cells: seq<string>, k: nat)
    requires k < |cells|
    ensures CellsHtml(inline, tag, aligns, cells[..k + 1])
      == CellsHtml(inline, tag, aligns, cells[..k]) + CellHtml(inline, tag, AlignAt(aligns, k), cells[k])
  {
    assert cells[..k + 1][..k] == cells[..k];
  }

  /** One row of `processTable`: the `forEach` over its cells. */
  method RenderRow(inline: string -> string, tag: CellTag, alignments: seq<Align>, line: string) returns (row: string)
    ensures row == RowHtml(inline, tag, alignments, line)
  {
    var cells := Cells(line);
    row := "<tr>";
    var k := 0;
    while k < |cells|
      invariant 0 <= k <= |cells|
      invariant row == "<tr>" + CellsHtml(inline, tag, alignments, cells[..k])
    {
      var cell := CellHtml(inline, tag, AlignAt(alignments, k), cells[k]);
      CellsStep(inline, tag, alignments, cells, k);
      ConcatAssoc("<tr>", CellsHtml(inline, tag, alignments, cells[..k]), cell);
      row := row + cell;
      k := k + 1;
    }
    assert cells[..k] == cells;
    row := row + "</tr>";
  }

  lemma SeparatorsStep(rows: seq<string>, longer: seq<string>)
    requires |longer| == |rows| + 1 && longer[..|rows|] == rows
    ensures AllSeparators(longer) == (AllSeparators(rows) && IsSeparatorRow(longer[|rows|]))
  {
    if AllSeparators(rows) && IsSeparatorRow(longer[|rows|]) {
      forall k | 0 <= k < |longer| ensures IsSeparatorRow(longer[k]) {
        if k < |rows| { assert longer[k] == rows[k]; }
      }
    }
    if AllSeparators(longer) {
      forall k | 0 <= k < |rows| ensures IsSeparatorRow(rows[k]) {
        assert longer[k] == rows[k];
      }
    }
  }

  /** The loop over the rows of `processTable`, with the inline processor that renders
      each cell's text as a parameter. */
  method ProcessTableWith(inline: string -> string, tableRows: seq<string>) returns (html: string)
    ensures html == TableHtml(inline, tableRows)
  {
    html := TableOpen;
    var isHeader := true;
    var alignments := Alignments(tableRows);
    var i := 0;
    while i < |tableRows|
      invariant 0 <= i <= |tableRows|
      invariant html == TableOpen + RowsHtml(inline, alignments, tableRows[..i])
      invariant isHeader == AllSeparators(tableRows[..i])
    {
      var prefix := tableRows[..i + 1];
      assert prefix[..i] == tableRows[..i] && prefix[i] == tableRows[i];
      SeparatorsStep(tableRows[..i], prefix);
      if IsSeparatorRow(tableRows[i]) {
        assert RowsHtml(inline, alignments, prefix) == RowsHtml(inline, alignments, tableRows[..i]);
        i := i + 1;
        continue;
      }
      var row := RenderRow(inline, if isHeader then Th else Td, alignments, tableRows[i]);
      assert RowsHtml(inline, alignments, prefix) == RowsHtml(inline, alignments, tableRows[..i]) + row;
      ConcatAssoc(TableOpen, RowsHtml(inline, alignments, tableRows[..i]), row);
      html := html + row;
      isHeader := false;
      i := i + 1;
    }
    assert tableRows[..i] == tableRows;
    html := html + TableClose;
  }

  /** `processTable`: the cells' text goes through `processInlineMarkdown`. */
  method ProcessTable(tableRows: seq<string>) returns (html: string)
    ensures html == TableHtml(Inline.ProcessInlineMarkdown, tableRows)
  {
    html := ProcessTableWith(Inline.ProcessInlineMarkdown, tableRows);
  }

  // ---------------------------------------------------------------------
  // What the rendering means
  // ---------------------------------------------------------------------

  /** The rows that are not separator rows. */
  function DataRows(rows: seq<string>): (r: seq<string>)
    decreases |rows|
  {
    if rows == [] then []
    else
      var n := |rows| - 1;
      if IsSeparatorRow(rows[n]) then DataRows(rows[..n]) else DataRows(rows[..n]) + [rows[n]]
  }

  /** A reference rendering: the first data row as `<th>` cells, every later one as
      `<td>` cells. */
  function Layout(inline: string -> string, aligns: seq<Align>, data: seq<string>): string
    decreases |data|
  {
    if data == [] then ""
    else
      var n := |data| - 1;
      Layout(inline, aligns, data[..n]) + RowHtml(inline, if n == 0 then Th else Td, aligns, data[n])
  }

  lemma {:induction false} AllSeparatorsNoData(rows: seq<string>)
    ensures AllSeparators(rows) <==> DataRows(rows) == []
    decreases |rows|
  {
    if rows != [] {
      var n := |rows| - 1;
      AllSeparatorsNoData(rows[..n]);
      assert AllSeparators(rows) <==> AllSeparators(rows[..n]) && IsSeparatorRow(rows[n]);
    }
  }

  lemma LayoutStep(inline: string -> string, aligns: seq<Align>, data: seq<string>, row: string)
    ensures Layout(inline, aligns, data + [row]) == Layout(inline, aligns, data) + RowHtml(inline, if data == [] then Th else Td, aligns, row)
  {
    assert (data + [row])[..|data|] == data;
  }

  /** `processTable` drops every separator row, renders the first remaining row as
      the header and all later rows as data rows. */
  lemma {:induction false} RowsAreLayout(inline: string -> string, aligns: seq<Align>, rows: seq<string>)
    ensures RowsHtml(inline, aligns, rows) == Layout(inline, aligns, DataRows(rows))
    decreases |rows|
  {
    if rows != [] {
      var n := |rows| - 1;
      RowsAreLayout(inline, aligns, rows[..n]);
      if !IsSeparatorRow(rows[n]) {
        AllSeparatorsNoData(rows[..n]);
        LayoutStep(inline, aligns, DataRows(rows[..n]), rows[n]);
      }
    }
  }
}
