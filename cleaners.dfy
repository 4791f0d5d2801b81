/** The line cleaners: `cleanLine`, which strips Markdown markers from one line, and
    `removeLeadingBullets` / `smartRemoveLeadingSymbols`, which strip the bullet
    of every line of a text, the second sparing the numbered lines. */
module Cleaners {
  import opened Text
  import Numbering

  // ---------------------------------------------------------------------
  // cleanLine
  // ---------------------------------------------------------------------

  /** `replace(/^[-•]\s+/, '')` */
  function StripDash(s: string): string {
    if |s| >= 2 && (s[0] == '-' || s[0] == '•') && IsWhite(s[1]) then s[SkipWhite(s, 1)..] else s
  }

  /** A leading `>` and the white space after it: `^>\s*` replaced by nothing. */
  function StripQuote(s: string): string {
    if |s| >= 1 && s[0] == '>' then s[SkipWhite(s, 1)..] else s
  }

  /** `cleanLine`: every `**`, a leading dash or bullet with its white space, a
      leading `>` with its white space, every `__` and every backtick, in that
      order. */
  function CleanLine(line: string): string {
    var a := ReplaceAll(line, "**", "");
    var b := StripDash(a);
    var c := StripQuote(b);
    var d := ReplaceAll(c, "__", "");
    ReplaceAll(d, "`", "")
  }

  /** Removing every copy of a character leaves none. */
  lemma {:induction false} RemoveAllChar(s: string, c: char)
    ensures c !in ReplaceAll(s, [c], "")
    ensures forall x :: x in ReplaceAll(s, [c], "") ==> x in s
    decreases |s|
  {
    if |s| >= 1 {
      RemoveAllChar(s[1..], c);
      if s[..1] != [c] {
        assert s[0] != c;
      }
    }
  }

  /** No backtick is left. */
  lemma CleanLineNoBacktick(line: string)
    ensures '`' !in CleanLine(line)
  {
    var a := ReplaceAll(line, "**", "");
    var d := ReplaceAll(StripQuote(StripDash(a)), "__", "");
    RemoveAllChar(d, '`');
  }

  /** A line with none of the markers and no leading dash, bullet or `>` is kept. */
  lemma CleanLinePlain(line: string)
    requires Avoids(line, "*_`")
    requires line == [] || (line[0] != '-' && line[0] != '•' && line[0] != '>')
    ensures CleanLine(line) == line
  {
    AbsentHead(line, "**");
    ReplaceAllAbsent(line, "**", "");
    AbsentHead(line, "__");
    ReplaceAllAbsent(line, "__", "");
    AbsentHead(line, "`");
    ReplaceAllAbsent(line, "`", "");
  }

  /** The end of the white-space run at `i` when `s[i..j]` is white space and
      `s[j]` is not. */
  lemma {:induction false} SkipWhiteTo(s: string, i: nat, j: nat)
    requires i <= j <= |s|
    requires forall t :: i <= t < j ==> IsWhite(s[t])
    requires j == |s| || !IsWhite(s[j])
    ensures SkipWhite(s, i) == j
    decreases j - i
  {
    if i < j {
      SkipWhiteTo(s, i + 1, j);
    }
  }

  /** A dash item loses its dash and the white space after it. */
  lemma CleanLineDash(space: string, x: string)
    requires space != [] && forall t :: 0 <= t < |space| ==> IsWhite(space[t])
    requires Avoids(x, "*_`>") && (x == [] || !IsWhite(x[0]))
    ensures CleanLine("-" + space + x) == x
  {
    var line := "-" + space + x;
    AbsentHead(line, "**");
    ReplaceAllAbsent(line, "**", "");
    SkipWhiteTo(line, 1, 1 + |space|);
    assert line[1 + |space|..] == x;
    AbsentHead(x, "__");
    ReplaceAllAbsent(x, "__", "");
    AbsentHead(x, "`");
    ReplaceAllAbsent(x, "`", "");
  }

  // ---------------------------------------------------------------------
  // Bullets
  // ---------------------------------------------------------------------

  predicate IsBullet(c: char) { c == '-' || c == '*' || c == '•' }

  /** The end of `^[\s]*[-\*•]\s+` in `line`, if it matches. */
  function BulletEnd(line: string): (r: Option<nat>)
    ensures r.Some? ==> r.value <= |line|
  {
    var j := SkipWhite(line, 0);
    if j + 1 < |line| && IsBullet(line[j]) && IsWhite(line[j + 1]) then Some(SkipWhite(line, j + 1))
    else None
  }

  /** One line of `removeLeadingBullets`: the bullet removed, then trimmed. */
  function RemoveBullet(line: string): string {
    match BulletEnd(line)
    case Some(e) => Trim(line[e..])
    case None => Trim(line)
  }

  /** `removeLeadingBullets` */
  function RemoveLeadingBullets(text: string): string {
    if text == [] then text
    else Join(MapLines(Split(text, '\n'), RemoveBullet), '\n')
  }

  /** `^\s*` followed by one of the five numbering shapes and `\s+`. */
  predicate NumberedLine(line: string) {
    var j := SkipWhite(line, 0);
    exists k :: k in [Numbering.DigitsDot, Numbering.CjkNumeral, Numbering.LetterDot,
                      Numbering.RomanDot, Numbering.Parenthesised]
      && var e := Numbering.ShapeEnd(line, j, k);
         e.Some? && e.value < |line| && IsWhite(line[e.value])
  }

  /** One line of `smartRemoveLeadingSymbols`: a numbered line is kept as it is,
      any other line is treated as by `removeLeadingBullets`. */
  function SmartLine(line: string): string {
    if NumberedLine(line) then line else RemoveBullet(line)
  }

  /** `smartRemoveLeadingSymbols` */
  function SmartRemoveLeadingSymbols(text: string): string {
    if text == [] then text
    else Join(MapLines(Split(text, '\n'), SmartLine), '\n')
  }

  lemma RemoveBulletNoNewline(line: string)
    requires '\n' !in line
    ensures '\n' !in RemoveBullet(line)
  {
    match BulletEnd(line)
    case Some(e) =>
      assert forall c :: c in line[e..] ==> c in line;
      TrimKeeps(line[e..]);
    case None => TrimKeeps(line);
  }

  /** The text keeps its lines: line `k` of the result is line `k` of the input
      with its bullet removed and trimmed. */
  lemma RemoveLeadingBulletsLines(text: string)
    requires text != []
    ensures Split(RemoveLeadingBullets(text), '\n') == MapLines(Split(text, '\n'), RemoveBullet)
  {
    var lines := Split(text, '\n');
    var out := MapLines(lines, RemoveBullet);
    forall k | 0 <= k < |out|
      ensures '\n' !in out[k]
    {
      RemoveBulletNoNewline(lines[k]);
    }
    SplitJoin(out, '\n');
  }

  /** The same for `smartRemoveLeadingSymbols`, where numbered lines come back
      untouched. */
  lemma SmartLines(text: string)
    requires text != []
    ensures Split(SmartRemoveLeadingSymbols(text), '\n') == MapLines(Split(text, '\n'), SmartLine)
    ensures forall k :: 0 <= k < |Split(text, '\n')| && NumberedLine(Split(text, '\n')[k]) ==>
      Split(SmartRemoveLeadingSymbols(text), '\n')[k] == Split(text, '\n')[k]
  {
    var lines := Split(text, '\n');
    var out := MapLines(lines, SmartLine);
    forall k | 0 <= k < |out|
      ensures '\n' !in out[k]
    {
      if !NumberedLine(lines[k]) {
        RemoveBulletNoNewline(lines[k]);
      }
    }
    SplitJoin(out, '\n');
  }

  /** A bullet item, with any indentation, loses its bullet and the white space
      around its content. */
  lemma RemoveBulletItem(indent: string, b: char, space: string, x: string)
    requires forall t :: 0 <= t < |indent| ==> IsWhite(indent[t])
    requires IsBullet(b)
    requires space != [] && forall t :: 0 <= t < |space| ==> IsWhite(space[t])
    requires x == [] || !IsWhite(x[0])
    ensures RemoveBullet(indent + [b] + space + x) == Trim(x)
  {
    var line := indent + [b] + space + x;
    var j := |indent|;
    SkipWhiteTo(line, 0, j);
    SkipWhiteTo(line, j + 1, j + 1 + |space|);
    assert line[j + 1 + |space|..] == x;
  }

  /** A line with no bullet is only trimmed. */
  lemma RemoveBulletPlain(line: string)
    requires var j := SkipWhite(line, 0); j == |line| || !IsBullet(line[j])
    ensures RemoveBullet(line) == Trim(line)
  {
  }
}
