/** `convertSuperscripts`: three caret rules turn `base^digits` into the base
    followed by superscript digits; the passes after them, over `²` and the other
    superscript characters, replace each match by the match itself. */
module Superscripts {
  import opened Text

  /** The superscript of a digit, as the source's `superscripts` table gives it. */
  function SupDigit(d: char): (r: char)
    requires IsDigit(d)
    ensures !IsDigit(r) && r != '^'
  {
    match d
    case '0' => '⁰' case '1' => '¹' case '2' => '²' case '3' => '³' case '4' => '⁴'
    case '5' => '⁵' case '6' => '⁶' case '7' => '⁷' case '8' => '⁸' case _ => '⁹'
  }

  /** The digit a superscript digit stands for; every other character is itself. */
  function Plain(c: char): char {
    match c
    case '⁰' => '0' case '¹' => '1' case '²' => '2' case '³' => '3' case '⁴' => '4'
    case '⁵' => '5' case '⁶' => '6' case '⁷' => '7' case '⁸' => '8' case '⁹' => '9'
    case _ => c
  }

  /** `exp.split('').map(digit => superscripts[digit] || digit).join('')` */
  function Sup(d: string): (r: string)
    requires AllDigits(d)
    ensures |r| == |d| && forall k :: 0 <= k < |r| ==> r[k] == SupDigit(d[k])
  {
    if d == [] then [] else [SupDigit(d[0])] + Sup(d[1..])
  }

  // ---------------------------------------------------------------------
  // The caret rules
  // ---------------------------------------------------------------------

  /** The end of the run of characters satisfying `p` from `j`. */
  function RunEnd(s: string, j: nat, p: char -> bool): (r: nat)
    requires j <= |s|
    ensures j <= r <= |s| && (r < |s| ==> !p(s[r]))
    ensures forall t :: j <= t < r ==> p(s[t])
    decreases |s| - j
  {
    if j == |s| || !p(s[j]) then j else RunEnd(s, j + 1, p)
  }

  /** `[a-zA-Z0-9+\-*` and `/]`: the base of the third rule. */
  predicate IsTermChar(c: char) {
    IsAsciiLetter(c) || IsDigit(c) || c == '+' || c == '-' || c == '*' || c == '/'
  }

  /** The three caret rules, in the order they run:
      `([a-zA-Z])\^(\d+)`, `\(([^)]+)\)\^(\d+)` and `([a-zA-Z0-9+\-*` `/]+)\^(\d+)`. */
  datatype Caret = LetterBase | ParenBase | TermBase

  /** A match at `i`: the index of its caret and the end of its digits. */
  datatype Match = Match(caret: nat, end: nat)

  /** The `^` of a match of `rule` starting at `i`, if there is one. */
  function BaseEnd(rule: Caret, s: string, i: nat): (r: Option<nat>)
    requires i < |s|
    ensures r.Some? ==> i < r.value <= |s|
    ensures rule == LetterBase ==> (r.Some? <==> IsAsciiLetter(s[i])) && (r.Some? ==> r.value == i + 1)
    ensures rule == ParenBase && r.Some? ==>
      && s[i] == '(' && i + 2 < r.value && s[r.value - 1] == ')'
      && forall k :: i < k < r.value - 1 ==> s[k] != ')'
    ensures rule == TermBase ==> (r.Some? <==> IsTermChar(s[i]))
    ensures rule == TermBase && r.Some? ==>
      && (forall k :: i <= k < r.value ==> IsTermChar(s[k]))
      && (r.value < |s| ==> !IsTermChar(s[r.value]))
  {
    match rule
    case LetterBase => if IsAsciiLetter(s[i]) then Some(i + 1) else None
    case ParenBase =>
      if s[i] != '(' then None
      else (match IndexOf(s, ")", i + 1)
        case None => None
        case Some(p) =>
          assert forall k :: i < k < p ==> s[k] != ')' by {
            forall k | i < k < p ensures s[k] != ')' {
              assert !OccursAt(s, ")", k);
              assert s[k..k + 1] == [s[k]];
            }
          }
          if p == i + 1 then None else Some(p + 1))
    case TermBase => if IsTermChar(s[i]) then Some(RunEnd(s, i, IsTermChar)) else None
  }

  /** The base is followed by `^` and at least one digit; the greedy `\d+` takes
      every digit after the caret. */
  function CaretAt(rule: Caret, s: string, i: nat): (r: Option<Match>)
    requires i < |s|
    ensures r.Some? ==>
      && i < r.value.caret && r.value.caret + 1 < r.value.end <= |s|
      && s[r.value.caret] == '^' && AllDigits(s[r.value.caret + 1..r.value.end])
      && (r.value.end < |s| ==> !IsDigit(s[r.value.end]))
    ensures r.Some? ==> BaseEnd(rule, s, i) == Some(r.value.caret)
    ensures BaseEnd(rule, s, i).Some? ==> var c := BaseEnd(rule, s, i).value;
      (r.Some? <==> c + 1 < |s| && s[c] == '^' && IsDigit(s[c + 1]))
  {
    match BaseEnd(rule, s, i)
    case None => None
    case Some(c) =>
      if c + 1 < |s| && s[c] == '^' && IsDigit(s[c + 1]) then
        var e := RunEnd(s, c + 1, IsDigit);
        var d := s[c + 1..e];
        assert forall k :: 0 <= k < |d| ==> d[k] == s[c + 1 + k];
        Some(Match(c, e))
      else None
  }

  /** One caret rule as a global replace on the part of `s` from `i`: the match
      becomes its base and the superscript of its digits. */
  function CaretPass(rule: Caret, s: string, i: nat): string
    requires i <= |s|
    decreases |s| - i
  {
    if i == |s| then []
    else match CaretAt(rule, s, i)
      case Some(m) => s[i..m.caret] + Sup(s[m.caret + 1..m.end]) + CaretPass(rule, s, m.end)
      case None => [s[i]] + CaretPass(rule, s, i + 1)
  }

  function CaretRules(content: string): string {
    var a := CaretPass(LetterBase, content, 0);
    var b := CaretPass(ParenBase, a, 0);
    CaretPass(TermBase, b, 0)
  }

  // ---------------------------------------------------------------------
  // The passes that put back what they match
  // ---------------------------------------------------------------------

  /** A matcher gives the end of its match at `i`; an end not after `i` or beyond
      the text means no match. */
  type Matcher = (string, nat) -> nat

  /** `replace(pattern, replacement)` where the replacement rebuilds the match from
      its groups: every match is replaced by itself. */
  function RebuildPass(s: string, i: nat, m: Matcher): string
    requires i <= |s|
    decreases |s| - i
  {
    if i == |s| then []
    else
      var e := m(s, i);
      if i < e <= |s| then s[i..e] + RebuildPass(s, e, m) else [s[i]] + RebuildPass(s, i + 1, m)
  }

  function Rebuilds(s: string, ms: seq<Matcher>): string
    decreases |ms|
  {
    if ms == [] then s else Rebuilds(RebuildPass(s, 0, ms[0]), ms[1..])
  }

  /** `(\w+)²`, `([a-zA-Z])²` and `(\d+)²`: a run of the class ending just before a `²`. */
  function RunSquare(s: string, i: nat, p: char -> bool): nat {
    if i < |s| && p(s[i]) then
      var e := RunEnd(s, i, p);
      if e < |s| && s[e] == '²' then e + 1 else 0
    else 0
  }

  function WordSquare(s: string, i: nat): nat { RunSquare(s, i, IsWordChar) }

  function LetterSquare(s: string, i: nat): nat {
    if i + 1 < |s| && IsAsciiLetter(s[i]) && s[i + 1] == '²' then i + 2 else 0
  }

  function DigitSquare(s: string, i: nat): nat { RunSquare(s, i, IsDigit) }

  /** `\(([^)]+)\)²`, or with `needSlash`, `\(([^)]+\/[^)]+)\)²`. */
  function ParenSquare(s: string, i: nat, needSlash: bool): nat {
    if i < |s| && s[i] == '(' then
      match IndexOf(s, ")", i + 1)
      case None => 0
      case Some(p) =>
        if p == i + 1 || p + 1 >= |s| || s[p + 1] != '²' then 0
        else if needSlash && (p < i + 4 || '/' !in s[i + 2..p - 1]) then 0
        else p + 2
    else 0
  }

  predicate InRoot(c: char) { c != '√' && !IsWhite(c) }

  /** The last `²` in `s[lo..hi]`, if any. */
  function LastSquare(s: string, lo: nat, hi: nat): (r: Option<nat>)
    requires lo <= hi <= |s|
    ensures r.Some? ==> lo <= r.value < hi
    decreases hi
  {
    if hi == lo then None else if s[hi - 1] == '²' then Some(hi - 1) else LastSquare(s, lo, hi - 1)
  }

  /** `√([^√\s]+)²`: the greedy run gives back characters until it stands before
      its last `²`. */
  function RootSquare(s: string, i: nat): nat {
    if i < |s| && s[i] == '√' then
      var e := RunEnd(s, i + 1, InRoot);
      if i + 2 <= e then
        match LastSquare(s, i + 2, e)
        case Some(q) => q + 1
        case None => 0
      else 0
    else 0
  }

  /** `new RegExp('([a-zA-Z0-9]+)' + sup, 'g')` */
  function AlnumBefore(s: string, i: nat, sup: char): nat {
    if i < |s| && (IsAsciiLetter(s[i]) || IsDigit(s[i])) then
      var e := RunEnd(s, i, c => IsAsciiLetter(c) || IsDigit(c));
      if e < |s| && s[e] == sup then e + 1 else 0
    else 0
  }

  /** The superscript characters of the table in `Object.entries` order (the digit
      keys first), without `²`, which the loop skips. */
  const SupChars: seq<char> :=
    ['⁰', '¹', '³', '⁴', '⁵', '⁶', '⁷', '⁸', '⁹', '⁺', '⁻', '⁼', '⁽', '⁾', 'ⁿ', 'ⁱ', 'ˣ', 'ʸ', 'ᶻ']

  /** The six `²` passes and then one pass per other superscript character. */
  function Rebuilders(): seq<Matcher> {
    [ WordSquare, LetterSquare, DigitSquare,
      (s: string, i: nat) => ParenSquare(s, i, false),
      (s: string, i: nat) => ParenSquare(s, i, true), RootSquare ]
    + seq(|SupChars|, k requires 0 <= k < |SupChars| => (s: string, i: nat) => AlnumBefore(s, i, SupChars[k]))
  }

  /** `convertSuperscripts` */
  function ConvertSuperscripts(content: string): string {
    Rebuilds(CaretRules(content), Rebuilders())
  }

  // ---------------------------------------------------------------------
  // Properties
  // ---------------------------------------------------------------------

  /** A pass that puts back what it matches changes nothing. */
  lemma {:induction false} RebuildPassIdentity(s: string, i: nat, m: Matcher)
    requires i <= |s|
    ensures RebuildPass(s, i, m) == s[i..]
    decreases |s| - i
  {
    if i < |s| {
      var e := m(s, i);
      if i < e <= |s| {
        RebuildPassIdentity(s, e, m);
        assert s[i..] == s[i..e] + s[e..];
      } else {
        RebuildPassIdentity(s, i + 1, m);
        assert s[i..] == [s[i]] + s[i + 1..];
      }
    }
  }

  lemma {:induction false} RebuildsIdentity(s: string, ms: seq<Matcher>)
    ensures Rebuilds(s, ms) == s
    decreases |ms|
  {
    if ms != [] {
      RebuildPassIdentity(s, 0, ms[0]);
      RebuildsIdentity(s, ms[1..]);
    }
  }

  /** Only the three caret rules change the text. */
  lemma CaretRulesOnly(content: string)
    ensures ConvertSuperscripts(content) == CaretRules(content)
  {
    RebuildsIdentity(CaretRules(content), Rebuilders());
  }

  /** The text with every caret dropped and every superscript digit read as its
      digit. */
  function Flatten(s: string): (r: string)
    ensures |r| <= |s|
  {
    if s == [] then [] else FlatChar(s[0]) + Flatten(s[1..])
  }

  function FlatChar(c: char): string {
    if c == '^' then [] else [Plain(c)]
  }

  lemma {:induction false} FlattenConcat(a: string, b: string)
    ensures Flatten(a + b) == Flatten(a) + Flatten(b)
    decreases |a|
  {
    if a == [] {
      assert a + b == b;
    } else {
      FlattenConcat(a[1..], b);
      assert (a + b)[0] == a[0];
      assert (a + b)[1..] == a[1..] + b;
      ConcatAssoc(FlatChar(a[0]), Flatten(a[1..]), Flatten(b));
    }
  }

  lemma {:induction false} FlattenSup(d: string)
    requires AllDigits(d)
    ensures Flatten(Sup(d)) == d && Flatten(d) == d
    decreases |d|
  {
    if d != [] {
      FlattenSup(d[1..]);
      PlainSupDigit(d[0]);
      assert Sup(d)[1..] == Sup(d[1..]);
    }
  }

  lemma PlainSupDigit(d: char)
    requires IsDigit(d)
    ensures Plain(SupDigit(d)) == d && Plain(d) == d
  {
  }

  /** One replacement reads back as the match it replaced. */
  lemma ReplacementFlat(pre: string, d: string, rest: string, restBefore: string)
    requires AllDigits(d) && Flatten(rest) == Flatten(restBefore)
    ensures Flatten(pre + Sup(d) + rest) == Flatten(pre + (['^'] + d) + restBefore)
  {
    var f := Flatten(pre);
    FlattenSup(d);
    FlattenConcat(pre + Sup(d), rest);
    FlattenConcat(pre, Sup(d));
    assert Flatten(pre + Sup(d) + rest) == f + d + Flatten(rest);
    CaretFlat(d);
    FlattenConcat(pre + (['^'] + d), restBefore);
    FlattenConcat(pre, ['^'] + d);
    assert Flatten(pre + (['^'] + d) + restBefore) == f + d + Flatten(restBefore);
  }

  lemma CaretFlat(d: string)
    requires AllDigits(d)
    ensures Flatten(['^'] + d) == d
  {
    FlattenSup(d);
    assert (['^'] + d)[1..] == d;
  }

  lemma Pieces(s: string, i: nat, c: nat, e: nat)
    requires i <= c < e <= |s| && s[c] == '^'
    ensures s[i..] == s[i..c] + (['^'] + s[c + 1..e]) + s[e..]
  {
  }

  /** A copied character reads back as itself. */
  lemma CopyFlat(c: char, rest: string, restBefore: string)
    requires Flatten(rest) == Flatten(restBefore)
    ensures Flatten([c] + rest) == Flatten([c] + restBefore)
  {
    FlattenConcat([c], rest);
    FlattenConcat([c], restBefore);
  }

  /** A caret rule only drops the caret of each match and raises its digits: read
      back, the text is what it was. */
  lemma {:induction false} CaretPassFlat(rule: Caret, s: string, i: nat)
    requires i <= |s|
    ensures Flatten(CaretPass(rule, s, i)) == Flatten(s[i..])
    decreases |s| - i
  {
    if i == |s| {
      EndFlat(rule, s);
    } else if CaretAt(rule, s, i).Some? {
      CaretPassFlat(rule, s, CaretAt(rule, s, i).value.end);
      MatchFlat(rule, s, i);
    } else {
      CaretPassFlat(rule, s, i + 1);
      NoMatchFlat(rule, s, i);
    }
  }

  lemma EndFlat(rule: Caret, s: string)
    ensures Flatten(CaretPass(rule, s, |s|)) == Flatten(s[|s|..])
  {
    assert s[|s|..] == [];
  }

  lemma MatchFlat(rule: Caret, s: string, i: nat)
    requires i < |s| && CaretAt(rule, s, i).Some?
    requires var e := CaretAt(rule, s, i).value.end;
      Flatten(CaretPass(rule, s, e)) == Flatten(s[e..])
    ensures Flatten(CaretPass(rule, s, i)) == Flatten(s[i..])
  {
    var m := CaretAt(rule, s, i).value;
    var pre, d := s[i..m.caret], s[m.caret + 1..m.end];
    ReplacementFlat(pre, d, CaretPass(rule, s, m.end), s[m.end..]);
    Pieces(s, i, m.caret, m.end);
  }

  lemma NoMatchFlat(rule: Caret, s: string, i: nat)
    requires i < |s| && CaretAt(rule, s, i).None?
    requires Flatten(CaretPass(rule, s, i + 1)) == Flatten(s[i + 1..])
    ensures Flatten(CaretPass(rule, s, i)) == Flatten(s[i..])
  {
    CopyFlat(s[i], CaretPass(rule, s, i + 1), s[i + 1..]);
    assert s[i..] == [s[i]] + s[i + 1..];
  }

  /** Read back, the converted text is the original one. */
  lemma ConvertFlat(content: string)
    ensures Flatten(ConvertSuperscripts(content)) == Flatten(content)
  {
    CaretRulesOnly(content);
    var a := CaretPass(LetterBase, content, 0);
    var b := CaretPass(ParenBase, a, 0);
    CaretPassFlat(LetterBase, content, 0);
    CaretPassFlat(ParenBase, a, 0);
    CaretPassFlat(TermBase, b, 0);
  }

  /** A caret rule leaves a text without carets alone. */
  lemma {:induction false} CaretPassIdle(rule: Caret, s: string, i: nat)
    requires i <= |s| && '^' !in s
    ensures CaretPass(rule, s, i) == s[i..]
    decreases |s| - i
  {
    if i < |s| {
      CaretPassIdle(rule, s, i + 1);
      assert s[i..] == [s[i]] + s[i + 1..];
    }
  }

  /** A text without carets comes back unchanged. */
  lemma CaretFree(content: string)
    requires '^' !in content
    ensures ConvertSuperscripts(content) == content
  {
    CaretRulesOnly(content);
    CaretPassIdle(LetterBase, content, 0);
    CaretPassIdle(ParenBase, content, 0);
    CaretPassIdle(TermBase, content, 0);
  }

  /** The first rule takes the whole of `b^digits`. */
  lemma LetterMatch(s: string, b: char, d: string)
    requires IsAsciiLetter(b) && d != [] && AllDigits(d)
    requires s == [b, '^'] + d
    ensures CaretPass(LetterBase, s, 0) == [b] + Sup(d)
  {
    assert forall k :: 2 <= k < |s| ==> s[k] == d[k - 2];
    RunToEnd(s, 2);
    assert CaretAt(LetterBase, s, 0) == Some(Match(1, |s|));
    assert s[0..1] == [b] && s[2..|s|] == d;
    assert CaretPass(LetterBase, s, |s|) == [];
  }

  lemma {:induction false} RunToEnd(s: string, j: nat)
    requires j <= |s| && forall k :: j <= k < |s| ==> IsDigit(s[k])
    ensures RunEnd(s, j, IsDigit) == |s|
    decreases |s| - j
  {
    if j < |s| {
      RunToEnd(s, j + 1);
    }
  }

  /** A letter raised to a number: `x^12` becomes `x¹²`. */
  lemma LetterPower(s: string, b: char, d: string)
    requires IsAsciiLetter(b) && d != [] && AllDigits(d)
    requires s == [b, '^'] + d
    ensures ConvertSuperscripts(s) == [b] + Sup(d)
  {
    CaretRulesOnly(s);
    LetterMatch(s, b, d);
    var r := [b] + Sup(d);
    assert '^' !in r;
    CaretPassIdle(ParenBase, r, 0);
    CaretPassIdle(TermBase, r, 0);
  }
}
