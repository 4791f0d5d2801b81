/** `extractTablesFromMarkdown`: the pipe tables of a Markdown text, each as rows of
    trimmed cells. Consecutive table lines form one table, separator rows are
    skipped without ending it, and any other line ends it. */
module MarkdownTables {
  import opened Text
  import Table

  type Row = seq<string>
  type Grid = seq<Row>

  /** What one line of the text is to the extractor. */
  datatype LineKind = Data(cells: Row) | Separator | Other

  /** `.map(cell => cell.trim())` */
  function TrimAll(cells: Row): (r: Row)
    ensures |r| == |cells| && forall k :: 0 <= k < |r| ==> r[k] == Trim(cells[k])
  {
    if cells == [] then [] else [Trim(cells[0])] + TrimAll(cells[1..])
  }

  /** The trimmed line is a table row (`^\|(.+)\|$`) and, unless it is a separator
      row, its cells are the non-empty parts between bars, trimmed. */
  function Classify(raw: string): LineKind {
    var line := Trim(raw);
    if !Table.IsTableRow(line) then Other
    else if Table.IsSeparatorRow(line) then Separator
    else Data(TrimAll(Table.Cells(line)))
  }

  /** The extractor's state after some lines: the finished tables and, while a
      table is open, its rows. */
  datatype Scan = Scan(tables: seq<Grid>, current: Option<Grid>)

  /** The finished tables, with the open one added when it has rows. */
  function Flush(sc: Scan): seq<Grid> {
    if sc.current.Some? && |sc.current.value| > 0 then sc.tables + [sc.current.value]
    else sc.tables
  }

  function StepScan(sc: Scan, raw: string): Scan {
    match Classify(raw)
    case Separator => sc
    case Data(cells) =>
      var rows := if sc.current.Some? then sc.current.value else [];
      Scan(sc.tables, Some(rows + [cells]))
    case Other => if sc.current.Some? then Scan(Flush(sc), None) else sc
  }

  function ScanUpTo(lines: seq<string>, n: nat): Scan
    requires n <= |lines|
  {
    if n == 0 then Scan([], None) else StepScan(ScanUpTo(lines, n - 1), lines[n - 1])
  }

  /** The tables of a text. */
  function Tables(text: string): seq<Grid> {
    var lines := Split(text, '\n');
    Flush(ScanUpTo(lines, |lines|))
  }

  method ExtractTablesFromMarkdown(markdownText: string) returns (tables: seq<Grid>)
    ensures tables == Tables(markdownText)
  {
    var lines := Split(markdownText, '\n');
    tables := [];
    var currentTable: Grid := [];
    var isProcessingTable := false;
    for i := 0 to |lines|
      invariant ScanUpTo(lines, i) == Scan(tables, if isProcessingTable then Some(currentTable) else None)
    {
      ScanNext(lines, i);
      var line := Trim(lines[i]);
      if Table.IsTableRow(line) {
        if Table.IsSeparatorRow(line) {
          continue;
        }
        if !isProcessingTable {
          isProcessingTable := true;
          currentTable := [];
        }
        var cells := TrimAll(Table.Cells(line));
        currentTable := currentTable + [cells];
      } else if isProcessingTable {
        if |currentTable| > 0 {
          tables := tables + [currentTable];
        }
        isProcessingTable := false;
        currentTable := [];
      }
    }
    if isProcessingTable && |currentTable| > 0 {
      tables := tables + [currentTable];
    }
  }

  lemma ScanNext(lines: seq<string>, i: nat)
    requires i < |lines|
    ensures ScanUpTo(lines, i + 1) == StepScan(ScanUpTo(lines, i), lines[i])
  {
  }

  // ---------------------------------------------------------------------
  // What the extractor keeps
  // ---------------------------------------------------------------------

  /** The rows of all tables, in order. */
  function Concat(ts: seq<Grid>): Grid {
    if ts == [] then [] else Concat(ts[..|ts| - 1]) + ts[|ts| - 1]
  }

  /** The cells of the data lines among the first `n` lines, in order. */
  function DataRows(lines: seq<string>, n: nat): Grid
    requires n <= |lines|
  {
    if n == 0 then []
    else
      var before := DataRows(lines, n - 1);
      match Classify(lines[n - 1])
      case Data(cells) => before + [cells]
      case _ => before
  }

  /** The number of lines among the first `n` that are not table rows. */
  function Others(lines: seq<string>, n: nat): nat
    requires n <= |lines|
  {
    if n == 0 then 0 else Others(lines, n - 1) + (if Classify(lines[n - 1]).Other? then 1 else 0)
  }

  function Open(sc: Scan): Grid {
    if sc.current.Some? then sc.current.value else []
  }

  /** What the scan keeps at every step: the finished tables are non-empty, they and
      the open table hold exactly the data rows so far, and each finished table was
      closed by a line that is not a table row. */
  predicate Good(lines: seq<string>, n: nat, sc: Scan)
    requires n <= |lines|
  {
    && (forall k :: 0 <= k < |sc.tables| ==> |sc.tables[k]| > 0)
    && Concat(sc.tables) + Open(sc) == DataRows(lines, n)
    && |sc.tables| <= Others(lines, n)
  }

  lemma ConcatAppend(ts: seq<Grid>, t: Grid)
    ensures Concat(ts + [t]) == Concat(ts) + t
  {
    assert (ts + [t])[..|ts|] == ts;
  }

  lemma {:induction false} ScanGood(lines: seq<string>, n: nat)
    requires n <= |lines|
    ensures Good(lines, n, ScanUpTo(lines, n))
  {
    if n > 0 {
      var m := n - 1;
      ScanGood(lines, m);
      ScanNext(lines, m);
      StepGood(lines, m, ScanUpTo(lines, m));
      assert m + 1 == n;
    }
  }

  lemma StepGood(lines: seq<string>, n: nat, sc: Scan)
    requires n < |lines| && Good(lines, n, sc)
    ensures Good(lines, n + 1, StepScan(sc, lines[n]))
  {
    match Classify(lines[n])
    case Separator =>
    case Data(cells) =>
      assert Concat(sc.tables) + (Open(sc) + [cells]) == (Concat(sc.tables) + Open(sc)) + [cells];
    case Other =>
      if sc.current.Some? && |sc.current.value| > 0 {
        ConcatAppend(sc.tables, sc.current.value);
      }
  }

  /** Every table has at least one row. */
  lemma TablesNonEmpty(text: string)
    ensures forall k :: 0 <= k < |Tables(text)| ==> |Tables(text)[k]| > 0
  {
    var lines := Split(text, '\n');
    ScanGood(lines, |lines|);
  }

  /** The tables hold every data row of the text and nothing else, in order:
      separator rows and lines that are not table rows contribute nothing. */
  lemma TablesKeepDataRows(text: string)
    ensures Concat(Tables(text)) == DataRows(Split(text, '\n'), |Split(text, '\n')|)
  {
    var lines := Split(text, '\n');
    var sc := ScanUpTo(lines, |lines|);
    ScanGood(lines, |lines|);
    if sc.current.Some? && |sc.current.value| > 0 {
      ConcatAppend(sc.tables, sc.current.value);
    }
  }

  /** A new table starts only after a line that is not a table row: there is at most
      one table more than there are such lines. */
  lemma TablesBound(text: string)
    ensures |Tables(text)| <= Others(Split(text, '\n'), |Split(text, '\n')|) + 1
  {
    var lines := Split(text, '\n');
    ScanGood(lines, |lines|);
  }

  /** Each cell is trimmed and holds no bar. */
  lemma {:induction false} DataCellsClean(lines: seq<string>, n: nat)
    requires n <= |lines|
    ensures forall r, k :: 0 <= r < |DataRows(lines, n)| && 0 <= k < |DataRows(lines, n)[r]| ==>
      var cell := DataRows(lines, n)[r][k];
      Trim(cell) == cell && '|' !in cell
  {
    if n > 0 {
      DataCellsClean(lines, n - 1);
      match Classify(lines[n - 1])
      case Data(cells) => RowClean(lines[n - 1]);
      case _ =>
    }
  }

  lemma RowClean(raw: string)
    requires Classify(raw).Data?
    ensures forall k :: 0 <= k < |Classify(raw).cells| ==>
      Trim(Classify(raw).cells[k]) == Classify(raw).cells[k] && '|' !in Classify(raw).cells[k]
  {
    var parts := Table.Cells(Trim(raw));
    forall k | 0 <= k < |parts|
      ensures Trim(Trim(parts[k])) == Trim(parts[k]) && '|' !in Trim(parts[k])
    {
      TrimIdempotent(parts[k]);
      TrimKeeps(parts[k]);
    }
  }

}
