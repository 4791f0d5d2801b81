/** Properties of the block parser of `convertMarkdownToHtml`: what its mode flags
    keep invariant, which lines end a list, what a run of blank lines writes, how
    code and math blocks persist, and what the end of input adds. */
module BlockFacts {
  import opened Text
  import opened Block
  import Table
  import Numbering
  import Lists

  // ---------------------------------------------------------------------
  // The invariant of the mode flags
  // ---------------------------------------------------------------------

  /** What holds between any two lines: the code buffers are empty outside a code
      block, a math block is open exactly when its buffer has text, the row buffer
      is empty outside a table, a counted blank line has ended any list, and an open
      list has a type. */
  predicate Good(st: State) {
    && (!st.inCode ==> st.code == "" && st.lang == "")
    && (st.inMath <==> st.math != "")
    && (!st.inTable ==> st.rows == [])
    && (st.emptyLines > 0 ==> !st.doc.inList)
    && (st.doc.inList ==> st.doc.listType != NoType)
  }

  /** The line gets past the `$$` test and the fence test. */
  predicate PastFences(st: State, line: string) {
    !StartsWith(line, "$$") && !st.inMath && !StartsWith(line, "```") && !st.inCode
  }

  lemma MathStepGood(st: State, line: string)
    requires Good(st) && (StartsWith(line, "$$") || st.inMath)
    ensures Good(MathStep(st, line))
  {
    if StartsWith(line, "$$") && !st.inMath {
      assert |line| >= 2;
    }
  }

  lemma CodeStepGood(st: State, line: string)
    requires Good(st) && (StartsWith(line, "```") || st.inCode)
    ensures Good(CodeStep(st, line))
  {
  }

  lemma TableStepGood(st: State, line: string, lines: seq<string>, i: nat)
    requires i < |lines| && Good(st)
    ensures Good(TableStep(st, line, lines, i))
  {
  }

  lemma FlushEndsList(d: Doc)
    ensures !Flush(d).inList && Flush(d).listType == d.listType
    ensures d.out <= Flush(d).out
  {
  }

  lemma BlankStepGood(st: State)
    requires Good(st)
    ensures Good(BlankStep(st))
    ensures !BlankStep(st).doc.inList
  {
    FlushEndsList(st.doc);
  }

  lemma TextStepGood(inline: string -> string, d: Doc, line: string)
    requires d.inList ==> d.listType != NoType
    ensures TextStep(inline, d, line).inList ==> TextStep(inline, d, line).listType != NoType
  {
    FlushEndsList(d);
  }

  /** Every line keeps the invariant. */
  lemma StepGood(inline: string -> string, st: State, lines: seq<string>, i: nat)
    requires i < |lines| && Good(st)
    ensures Good(Step(inline, st, lines, i))
  {
    var line := Trim(lines[i]);
    if StartsWith(line, "$$") || st.inMath {
      MathStepGood(st, line);
    } else if StartsWith(line, "```") || st.inCode {
      CodeStepGood(st, line);
    } else if Table.IsTableRow(line) {
      TableStepGood(st, line, lines, i);
    } else if IsRule(line) {
    } else if line == "" {
      BlankStepGood(st);
    } else {
      TextStepGood(inline, st.doc, line);
    }
  }

  lemma {:induction false} RunGood(inline: string -> string, lines: seq<string>, n: nat)
    requires n <= |lines|
    ensures Good(Run(inline, lines, n))
  {
    if n > 0 {
      var m := n - 1;
      RunGood(inline, lines, m);
      GoodNext(inline, lines, m);
      assert m + 1 == n;
    }
  }

  lemma GoodNext(inline: string -> string, lines: seq<string>, n: nat)
    requires n < |lines| && Good(Run(inline, lines, n))
    ensures Good(Run(inline, lines, n + 1))
  {
    StepGood(inline, Run(inline, lines, n), lines, n);
  }

  // ---------------------------------------------------------------------
  // Output only grows
  // ---------------------------------------------------------------------

  lemma TextStepGrows(inline: string -> string, d: Doc, line: string)
    ensures d.out <= TextStep(inline, d, line).out
  {
    FlushEndsList(d);
  }

  lemma StepGrows(inline: string -> string, st: State, lines: seq<string>, i: nat)
    requires i < |lines|
    ensures st.doc.out <= Step(inline, st, lines, i).doc.out
  {
    var line := Trim(lines[i]);
    if !(StartsWith(line, "$$") || st.inMath) && !(StartsWith(line, "```") || st.inCode)
      && !Table.IsTableRow(line) && !IsRule(line)
    {
      if line == "" {
        FlushEndsList(st.doc);
      } else {
        TextStepGrows(inline, st.doc, line);
      }
    }
  }

  // ---------------------------------------------------------------------
  // Lists
  // ---------------------------------------------------------------------

  /** A line that reaches the paragraph branch. */
  predicate ParagraphLine(line: string) {
    && line != "" && !Table.IsTableRow(line) && !IsRule(line)
    && !IsHeading(line) && !Numbering.IsOrderedItem(line) && !IsBullet(line) && !IsQuote(line)
  }

  lemma TextStepEndsList(inline: string -> string, d: Doc, line: string)
    requires d.inList
    ensures !TextStep(inline, d, line).inList
      <==> !IsHeading(line) && !Numbering.IsOrderedItem(line) && !IsBullet(line) && !IsQuote(line)
  {
  }

  /** An open list ends on a blank line or a paragraph line, and on nothing else:
      headings, quotes, tables, rules and code or math lines leave it open. */
  lemma ListEnds(inline: string -> string, st: State, lines: seq<string>, i: nat)
    requires i < |lines| && st.doc.inList
    ensures var line := Trim(lines[i]);
      !Step(inline, st, lines, i).doc.inList <==> PastFences(st, line) && (line == "" || ParagraphLine(line))
  {
    var line := Trim(lines[i]);
    if PastFences(st, line) && !Table.IsTableRow(line) && !IsRule(line) {
      if line == "" {
        FlushEndsList(st.doc);
        assert !IsRule(line) && !Table.IsTableRow(line);
      } else {
        TextStepEndsList(inline, st.doc, line);
      }
    }
  }

  /** A heading takes the level of its whole run of `#`, with no cap at six:
      `####### x` is written as a level-7 heading of `x`. */
  lemma SevenHashes(inline: string -> string, d: Doc, line: string)
    requires line == "####### x"
    ensures TextStep(inline, d, line).out == d.out + [Heading(7, "x")]
  {
    assert IsWhite(line[7]);
    var h := HashEnd(line, 0);
    assert h == 7;
    assert IsHeading(line);
    assert !IsWhite(line[8]);
    assert SkipWhite(line, 8) == 8;
    assert SkipWhite(line, 7) == 8;
    assert line[8..] == "x";
  }

  /** For a line with an ordered marker the stored number is the marker and the
      white space after it, and the item's text is the inline rendering of the rest. */
  lemma OrderedItemParts(inline: string -> string, line: string)
    requires Numbering.IsOrderedItem(line)
    ensures var item := OrderedItem(inline, line);
      && item.Numbered? && 0 < |item.number| <= |line|
      && item.number + line[|item.number|..] == line
      && IsWhite(item.number[|item.number| - 1])
      && item.content == inline(line[|item.number|..])
  {
    MarkerEndsInWhite(line);
    var n := Numbering.OrderedMarker(line).value;
    OrderedItemOf(inline, line, n);
    var item := OrderedItem(inline, line);
    assert item.number == line[..n] && |item.number| == n;
    assert item.number[n - 1] == line[n - 1];
    assert line[..n] + line[n..] == line;
  }

  lemma OrderedItemOf(inline: string -> string, line: string, n: nat)
    requires Numbering.OrderedMarker(line) == Some(n)
    ensures OrderedItem(inline, line) == Lists.Numbered(line[..n], inline(line[n..]))
  {
  }

  lemma MarkerEndsInWhite(line: string)
    requires Numbering.IsOrderedItem(line)
    ensures var m := Numbering.OrderedMarker(line);
      m.Some? && 0 < m.value <= |line| && IsWhite(line[m.value - 1])
  {
    Numbering.DetectionMatchesExtraction(line);
    Numbering.MarkerShape(line);
  }

  // ---------------------------------------------------------------------
  // Blank lines
  // ---------------------------------------------------------------------

  lemma BlankDocAgain(d: Doc, first: nat, count: nat)
    requires count > 1
    ensures BlankDoc(BlankDoc(d, first), count) == BlankDoc(d, first)
  {
    FlushEndsList(d);
  }

  lemma BlankLineStep(inline: string -> string, st: State, lines: seq<string>, i: nat)
    requires i < |lines| && Trim(lines[i]) == "" && !st.inMath && !st.inCode
    ensures Step(inline, st, lines, i) == BlankStep(st)
  {
    assert !Table.IsTableRow(Trim(lines[i]));
  }

  /** A run of blank lines outside code and math blocks writes what its first line
      writes and nothing more: the open list, if any, and one empty paragraph only
      when the run is not preceded by counted blank lines. The counter grows by the
      length of the run. */
  lemma BlankRun(inline: string -> string, lines: seq<string>, i: nat, j: nat)
    requires i < j <= |lines|
    requires forall k :: i <= k < j ==> Trim(lines[k]) == ""
    requires !Run(inline, lines, i).inMath && !Run(inline, lines, i).inCode
    ensures BlankAfter(Run(inline, lines, i), Run(inline, lines, j), j - i)
  {
    var s := Run(inline, lines, i);
    BlankFirst(inline, lines, i);
    BlankChain(inline, lines, s, i, j);
  }

  /** The induction behind `BlankRun`: the first blank line of the run leaves
      `BlankAfter(s, _, 1)`, and each later blank line moves it from `k` to
      `k + 1` counted lines (`BlankNext`), so after the line before `j` the state
      is `BlankAfter(s, _, j - i)`. */
  lemma {:induction false} BlankChain(inline: string -> string, lines: seq<string>, s: State, i: nat, j: nat)
    requires i < j <= |lines|
    requires forall k :: i <= k < j ==> Trim(lines[k]) == ""
    requires BlankAfter(s, Run(inline, lines, i + 1), 1)
    ensures BlankAfter(s, Run(inline, lines, j), j - i)
    decreases j
  {
    if j > i + 1 {
      BlankChain(inline, lines, s, i, j - 1);
      BlankNext(inline, lines, j, s, j - 1 - i);
    }
  }

  /** `k` blank lines after the state `s` lead to `t`: the first of them wrote the
      open list and, when no blank line was counted before, one empty paragraph;
      the others wrote nothing. */
  predicate BlankAfter(s: State, t: State, k: nat) {
    && t.doc == BlankDoc(s.doc, s.emptyLines + 1)
    && t.emptyLines == s.emptyLines + k
    && !t.inMath && !t.inCode
  }

  lemma BlankFirst(inline: string -> string, lines: seq<string>, i: nat)
    requires i < |lines| && Trim(lines[i]) == ""
    requires !Run(inline, lines, i).inMath && !Run(inline, lines, i).inCode
    ensures BlankAfter(Run(inline, lines, i), Run(inline, lines, i + 1), 1)
  {
    BlankLineStep(inline, Run(inline, lines, i), lines, i);
  }

  lemma BlankNext(inline: string -> string, lines: seq<string>, j: nat, s: State, k: nat)
    requires 0 < j <= |lines| && Trim(lines[j - 1]) == "" && k >= 1
    requires BlankAfter(s, Run(inline, lines, j - 1), k)
    ensures BlankAfter(s, Run(inline, lines, j), k + 1)
  {
    var u := Run(inline, lines, j - 1);
    BlankLineStep(inline, u, lines, j - 1);
    BlankDocAgain(s.doc, s.emptyLines + 1, u.emptyLines + 1);
  }

  /** The blank-line counter moves only on blank lines (up by one) and on lines that
      reach the heading, list, quote and paragraph tests (back to zero). */
  lemma CounterMoves(inline: string -> string, st: State, lines: seq<string>, i: nat)
    requires i < |lines|
    ensures var line := Trim(lines[i]);
      var c := Step(inline, st, lines, i).emptyLines;
      c != st.emptyLines ==>
        PastFences(st, line) && !Table.IsTableRow(line) && !IsRule(line)
        && (if line == "" then c == st.emptyLines + 1 else c == 0)
  {
  }

  // ---------------------------------------------------------------------
  // Code and math blocks
  // ---------------------------------------------------------------------

  /** Inside a code block, a line that starts with neither `$$` nor a fence is
      collected, trimmed and followed by a line feed, and nothing else changes. */
  lemma CodeLineStep(inline: string -> string, st: State, lines: seq<string>, i: nat)
    requires i < |lines| && st.inCode && !st.inMath
    requires !StartsWith(Trim(lines[i]), "$$") && !StartsWith(Trim(lines[i]), "```")
    ensures Step(inline, st, lines, i) == st.(code := st.code + Trim(lines[i]) + "\n")
  {
  }

  /** The math test runs before the fence test, so a `$$` line inside a code block
      opens a math block (or writes a one-line one) and the code block stays open
      without that line. */
  lemma DollarLineInCode(inline: string -> string, st: State, lines: seq<string>, i: nat)
    requires i < |lines| && st.inCode && !st.inMath && StartsWith(Trim(lines[i]), "$$")
    ensures var t := Step(inline, st, lines, i);
      && t.inCode && t.code == st.code
      && (t.inMath || t.doc.out == st.doc.out + [MathBlock(Trim(lines[i]))])
  {
  }

  /** A math block closes only on a line that starts with `$$`: any other line
      leaves it open and writes nothing. */
  lemma MathLineStep(inline: string -> string, st: State, lines: seq<string>, i: nat)
    requires i < |lines| && st.inMath && !StartsWith(Trim(lines[i]), "$$")
    ensures var t := Step(inline, st, lines, i);
      t.inMath && t.doc == st.doc && t.inCode == st.inCode
  {
  }

  /** A line that starts and ends with `$$` and is longer than four characters is
      written out as it stands when no math block is open, and opens none. */
  lemma OneLineMath(inline: string -> string, st: State, lines: seq<string>, i: nat)
    requires i < |lines| && !st.inMath
    requires var line := Trim(lines[i]); StartsWith(line, "$$") && EndsWith(line, "$$") && |line| > 4
    ensures var t := Step(inline, st, lines, i);
      && !t.inMath && t.math == st.math
      && t.doc.out == st.doc.out + [MathBlock(Trim(lines[i]))]
  {
  }

  // ---------------------------------------------------------------------
  // Tables
  // ---------------------------------------------------------------------

  lemma TableRowNoFence(line: string)
    requires Table.IsTableRow(line)
    ensures !StartsWith(line, "$$") && !StartsWith(line, "```")
  {
    assert line[..2][0] == '|';
  }

  /** A table stays open only while the next line is a table row, outside code and
      math blocks. */
  lemma {:induction false} OpenTableHasNextRow(inline: string -> string, lines: seq<string>, n: nat)
    requires n <= |lines|
    ensures var st := Run(inline, lines, n);
      st.inTable ==> n < |lines| && Table.IsTableRow(Trim(lines[n])) && !st.inMath && !st.inCode
  {
    if n > 0 {
      OpenTableHasNextRow(inline, lines, n - 1);
      TableNext(inline, lines, n);
    }
  }

  lemma TableNext(inline: string -> string, lines: seq<string>, n: nat)
    requires 0 < n <= |lines|
    requires Run(inline, lines, n - 1).inTable ==>
      n - 1 < |lines| && Table.IsTableRow(Trim(lines[n - 1])) && !Run(inline, lines, n - 1).inMath && !Run(inline, lines, n - 1).inCode
    ensures var st := Run(inline, lines, n);
      st.inTable ==> n < |lines| && Table.IsTableRow(Trim(lines[n])) && !st.inMath && !st.inCode
  {
    var st := Run(inline, lines, n - 1);
    if st.inTable {
      TableRowNoFence(Trim(lines[n - 1]));
    }
  }

  /** No table is left open at the end of input: the last row of every table is
      written out with it. */
  lemma NoTableOpenAtEnd(inline: string -> string, lines: seq<string>)
    ensures !Run(inline, lines, |lines|).inTable
  {
    OpenTableHasNextRow(inline, lines, |lines|);
  }

  // ---------------------------------------------------------------------
  // End of input
  // ---------------------------------------------------------------------

  /** The end of input keeps every block written and adds at most three: the open
      list, the unterminated code block and the unterminated math block. */
  lemma FinishKeeps(st: State)
    ensures st.doc.out <= Finish(st)
    ensures |Finish(st)| <= |st.doc.out| + 3
  {
    FlushEndsList(st.doc);
  }

  /** An unterminated math block always reaches the output last: the content test at
      the end never drops one, since an open math block always has text. */
  lemma UnterminatedMathWritten(inline: string -> string, text: string)
    ensures var lines := Split(text, '\n');
      var st := Run(inline, lines, |lines|);
      var b := Blocks(inline, text);
      st.inMath ==> st.math != "" && |b| > 0 && b[|b| - 1] == MathBlock(st.math)
  {
    var lines := Split(text, '\n');
    RunGood(inline, lines, |lines|);
  }
}
