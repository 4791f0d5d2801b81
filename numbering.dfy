/** Recognisers for the numbering patterns of the converter: the six ordered-list
    markers (`1.`, `一、`, `a.`, `iv.`, `(1)`, `第三章`) anchored at the start of a
    line, and `hasNumberingPattern`, which looks for any of them anywhere. */
module Numbering {
  import opened Text

  predicate IsRomanLetter(c: char) {
    c == 'I' || c == 'V' || c == 'X' || c == 'i' || c == 'v' || c == 'x'
  }

  predicate IsOpenParen(c: char) { c == '(' || c == '（' }

  predicate IsCloseParen(c: char) { c == ')' || c == '）' }

  /** `[、\.]` */
  predicate IsCjkSeparator(c: char) { c == '、' || c == '.' }

  /** `[条节章]` */
  predicate IsChapterSuffix(c: char) { c == '条' || c == '节' || c == '章' }

  /** The character classes a marker repeats: `\d`, the Chinese numerals and the
      Roman letters. */
  datatype CharClass = Digits | Numerals | Romans

  predicate InClass(c: char, k: CharClass) {
    match k
    case Digits => IsDigit(c)
    case Numerals => IsCjkNumeral(c)
    case Romans => IsRomanLetter(c)
  }

  /** The end of the run of characters of class `k` that starts at `i`. */
  function RunEnd(s: string, i: nat, k: CharClass): (r: nat)
    requires i <= |s|
    ensures i <= r <= |s|
    ensures forall j :: i <= j < r ==> InClass(s[j], k)
    ensures r < |s| ==> !InClass(s[r], k)
    decreases |s| - i
  {
    if i < |s| && InClass(s[i], k) then RunEnd(s, i + 1, k) else i
  }

  /** The six marker shapes, in the order the source lists them. */
  datatype Shape = DigitsDot | CjkNumeral | LetterDot | RomanDot | Parenthesised | Chapter

  /** Where the marker of shape `k` that starts at `i` ends (exclusive), if one does.
      Each shape is a run of one class followed by one character of a class the
      run cannot contain, so the greedy run decides the match. A marker starts with
      an ASCII digit (`\d` is ASCII only, so `①.` is none), a Chinese numeral, an
      ASCII letter, an opening parenthesis or `第`. */
  function ShapeEnd(s: string, i: nat, k: Shape): (r: Option<nat>)
    requires i <= |s|
    ensures r.Some? ==> i + 2 <= r.value <= |s|
    ensures r.Some? ==>
      IsDigit(s[i]) || IsCjkNumeral(s[i]) || IsAsciiLetter(s[i]) || IsOpenParen(s[i]) || s[i] == '第'
  {
    if i >= |s| then None
    else match k
      case DigitsDot =>
        if !IsDigit(s[i]) then None
        else
          var j := RunEnd(s, i, Digits);
          if j < |s| && s[j] == '.' then Some(j + 1) else None
      case CjkNumeral =>
        if !IsCjkNumeral(s[i]) then None
        else
          var j := RunEnd(s, i, Numerals);
          if j < |s| && IsCjkSeparator(s[j]) then Some(j + 1) else None
      case LetterDot =>
        if i + 1 < |s| && IsAsciiLetter(s[i]) && s[i + 1] == '.' then Some(i + 2) else None
      case RomanDot =>
        if !IsRomanLetter(s[i]) then None
        else
          var j := RunEnd(s, i, Romans);
          if j < |s| && s[j] == '.' then Some(j + 1) else None
      case Parenthesised =>
        if !(IsOpenParen(s[i]) && i + 1 < |s| && IsDigit(s[i + 1])) then None
        else
          var j := RunEnd(s, i + 1, Digits);
          if j < |s| && IsCloseParen(s[j]) then Some(j + 1) else None
      case Chapter =>
        if !(s[i] == '第' && i + 1 < |s| && IsCjkNumeral(s[i + 1])) then None
        else
          var j := RunEnd(s, i + 1, Numerals);
          if j < |s| && IsChapterSuffix(s[j]) then Some(j + 1) else None
  }

  /** `^<shape>\s+`: the marker of shape `k` at the start of `line`, followed by
      white space; the result is the length of the whole match, white space included. */
  function MarkerWithSpace(line: string, k: Shape): (r: Option<nat>)
  {
    var e := ShapeEnd(line, 0, k);
    if e.Some? && e.value < |line| && IsWhite(line[e.value]) then
      Some(SkipWhite(line, e.value))
    else None
  }

  /** The detection test of the converter: one of the six anchored patterns matches. */
  predicate IsOrderedItem(line: string) {
    || MarkerWithSpace(line, DigitsDot).Some?
    || MarkerWithSpace(line, CjkNumeral).Some?
    || MarkerWithSpace(line, LetterDot).Some?
    || MarkerWithSpace(line, RomanDot).Some?
    || MarkerWithSpace(line, Parenthesised).Some?
    || MarkerWithSpace(line, Chapter).Some?
  }

  /** The extraction `^(alt1|...|alt6)\s+`: the alternatives are tried in order and
      the first one that is followed by white space gives the match. */
  function OrderedMarker(line: string): (r: Option<nat>)
    ensures r.Some? ==> 0 < r.value <= |line|
  {
    var shapes := [DigitsDot, CjkNumeral, LetterDot, RomanDot, Parenthesised, Chapter];
    FirstMarker(line, shapes)
  }

  function FirstMarker(line: string, shapes: seq<Shape>): (r: Option<nat>)
    ensures r.Some? ==> 0 < r.value <= |line|
    ensures r.Some? <==> exists k :: k in shapes && MarkerWithSpace(line, k).Some?
    ensures r.Some? ==> exists k :: k in shapes && MarkerWithSpace(line, k) == r
  {
    if shapes == [] then None
    else
      var m := MarkerWithSpace(line, shapes[0]);
      if m.Some? then m
      else
        var r := FirstMarker(line, shapes[1..]);
        assert forall k :: k in shapes[1..] ==> k in shapes;
        assert forall k :: k in shapes ==> k == shapes[0] || k in shapes[1..];
        r
  }

  /** The detection and the extraction agree, so the converter's fallback for an
      ordered item without a marker can never run. */
  lemma DetectionMatchesExtraction(line: string)
    ensures IsOrderedItem(line) <==> OrderedMarker(line).Some?
  {
  }

  /** The stored number is the matched marker with all the white space after it:
      it ends in white space, the rest of the line does not start with any, and
      before the white space lies a complete marker of one of the six shapes. */
  lemma MarkerShape(line: string)
    requires OrderedMarker(line).Some?
    ensures var n := OrderedMarker(line).value;
      && IsWhite(line[n - 1])
      && (n < |line| ==> !IsWhite(line[n]))
      && exists k, e :: ShapeEnd(line, 0, k) == Some(e) && e < n
           && forall j :: e <= j < n ==> IsWhite(line[j])
  {
    var n := OrderedMarker(line).value;
    var shapes := [DigitsDot, CjkNumeral, LetterDot, RomanDot, Parenthesised, Chapter];
    var k :| k in shapes && MarkerWithSpace(line, k) == Some(n);
    var e := ShapeEnd(line, 0, k).value;
    SkipWhiteRun(line, e);
  }

  // ---------------------------------------------------------------------
  // hasNumberingPattern
  // ---------------------------------------------------------------------

  /** One of the six unanchored patterns matches starting at index `i`. */
  predicate NumberingAt(t: string, i: nat)
    requires i <= |t|
  {
    exists k: Shape :: ShapeEnd(t, i, k).Some?
  }

  /** `hasNumberingPattern`: any of the six patterns occurs anywhere in the text. */
  predicate HasNumberingPattern(t: string) {
    exists i :: 0 <= i < |t| && NumberingAt(t, i)
  }

  /** The first four patterns need no more than their last two characters: a digit,
      a Chinese numeral or an ASCII letter followed by the right separator. */
  predicate ShortNumberingAt(t: string, i: nat) {
    i + 1 < |t| && (
      || (IsDigit(t[i]) && t[i + 1] == '.')
      || (IsCjkNumeral(t[i]) && IsCjkSeparator(t[i + 1]))
      || (IsAsciiLetter(t[i]) && t[i + 1] == '.'))
  }

  /** Where a run pattern matches, its last two characters form a short pattern. */
  lemma RunPatternIsShort(t: string, i: nat, k: Shape)
    requires i <= |t| && k != Parenthesised && k != Chapter && ShapeEnd(t, i, k).Some?
    ensures ShortNumberingAt(t, ShapeEnd(t, i, k).value - 2)
  {
  }

  /** A short pattern is itself a match of the first, second or third pattern. */
  lemma ShortIsPattern(t: string, i: nat)
    requires ShortNumberingAt(t, i)
    ensures NumberingAt(t, i)
  {
    if IsDigit(t[i]) && t[i + 1] == '.' {
      assert RunEnd(t, i, Digits) == i + 1;
      assert ShapeEnd(t, i, DigitsDot).Some?;
    } else if IsCjkNumeral(t[i]) && IsCjkSeparator(t[i + 1]) {
      assert !IsCjkNumeral(t[i + 1]);
      assert RunEnd(t, i, Numerals) == i + 1;
      assert ShapeEnd(t, i, CjkNumeral).Some?;
    } else {
      assert ShapeEnd(t, i, LetterDot).Some?;
    }
  }

  /** `hasNumberingPattern` holds exactly when the text has a short pattern, a
      parenthesised number or a `第…章`-style heading somewhere. */
  lemma NumberingCharacterised(t: string)
    ensures HasNumberingPattern(t) <==>
      exists i :: 0 <= i < |t| && (ShortNumberingAt(t, i)
        || ShapeEnd(t, i, Parenthesised).Some? || ShapeEnd(t, i, Chapter).Some?)
  {
    if HasNumberingPattern(t) {
      var i, k :| 0 <= i < |t| && ShapeEnd(t, i, k).Some?;
      if k != Parenthesised && k != Chapter {
        RunPatternIsShort(t, i, k);
        var j := ShapeEnd(t, i, k).value - 2;
        assert 0 <= j < |t| && ShortNumberingAt(t, j);
      } else {
        assert 0 <= i < |t|;
      }
    }
    if exists i :: 0 <= i < |t| && (ShortNumberingAt(t, i)
        || ShapeEnd(t, i, Parenthesised).Some? || ShapeEnd(t, i, Chapter).Some?) {
      var i :| 0 <= i < |t| && (ShortNumberingAt(t, i)
        || ShapeEnd(t, i, Parenthesised).Some? || ShapeEnd(t, i, Chapter).Some?);
      if ShortNumberingAt(t, i) {
        ShortIsPattern(t, i);
      }
      assert NumberingAt(t, i);
    }
  }

  /** Every line the converter takes for an ordered item also has a numbering pattern. */
  lemma OrderedItemHasNumbering(line: string)
    requires OrderedMarker(line).Some?
    ensures HasNumberingPattern(line)
  {
    var shapes := [DigitsDot, CjkNumeral, LetterDot, RomanDot, Parenthesised, Chapter];
    var k :| k in shapes && MarkerWithSpace(line, k).Some?;
    assert NumberingAt(line, 0);
  }
}
