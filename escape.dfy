/** `escapeHtml`: the five global replacements that make text safe inside HTML,
    `&` first so that the ampersands of the later entities are not escaped again. */
module Escape {
  import opened Text

  /** The chain of replacements as written: `&`, `<`, `>`, `"`, `'`. */
  function EscapeHtml(text: string): string {
    var a := ReplaceAll(text, "&", "&amp;");
    var b := ReplaceAll(a, "<", "&lt;");
    var c := ReplaceAll(b, ">", "&gt;");
    var d := ReplaceAll(c, "\"", "&quot;");
    ReplaceAll(d, "'", "&#039;")
  }

  /** What one character becomes. */
  function EscapeChar(x: char): string {
    if x == '&' then "&amp;"
    else if x == '<' then "&lt;"
    else if x == '>' then "&gt;"
    else if x == '"' then "&quot;"
    else if x == '\'' then "&#039;"
    else [x]
  }

  /** The characters `escapeHtml` removes from text. */
  const Specials: string := "<>\"'"

  /** The five entities `escapeHtml` writes. */
  predicate EntityAt(t: string, i: nat) {
    || OccursAt(t, "&amp;", i) || OccursAt(t, "&lt;", i) || OccursAt(t, "&gt;", i)
    || OccursAt(t, "&quot;", i) || OccursAt(t, "&#039;", i)
  }

  /** The entity `escapeHtml` may have written at the front of `t`: the character
      it stands for and its length. */
  function LeadingEntity(t: string): (r: Option<(char, nat)>)
    ensures r.Some? ==> 4 <= r.value.1 <= |t| && t[0] == '&'
  {
    if StartsWith(t, "&amp;") then Some(('&', 5))
    else if StartsWith(t, "&lt;") then Some(('<', 4))
    else if StartsWith(t, "&gt;") then Some(('>', 4))
    else if StartsWith(t, "&quot;") then Some(('"', 6))
    else if StartsWith(t, "&#039;") then Some(('\'', 6))
    else None
  }

  /** `t` splits into entities and characters that need no escaping. */
  predicate EscapedForm(t: string)
    decreases |t|
  {
    if t == [] then true
    else
      var e := LeadingEntity(t);
      if e.Some? then EscapedForm(t[e.value.1..])
      else t[0] != '&' && t[0] !in Specials && EscapedForm(t[1..])
  }

  /** Decoding of exactly the entities `escapeHtml` writes, one at a time from the left. */
  function UnescapeHtml(t: string): string
    decreases |t|
  {
    if t == [] then []
    else
      var e := LeadingEntity(t);
      if e.Some? then [e.value.0] + UnescapeHtml(t[e.value.1..])
      else [t[0]] + UnescapeHtml(t[1..])
  }

  // ---------------------------------------------------------------------
  // The chain is a character-wise rewriting
  // ---------------------------------------------------------------------

  /** The five stages, each as a character-wise rewriting. */
  function Stages(s: string): string {
    LaterStages(MapChars(s, Swap('&', "&amp;")))
  }

  /** The four stages after the one for `&`. */
  function LaterStages(a: string): string {
    var b := MapChars(a, Swap('<', "&lt;"));
    var c := MapChars(b, Swap('>', "&gt;"));
    var d := MapChars(c, Swap('"', "&quot;"));
    MapChars(d, Swap('\'', "&#039;"))
  }

  lemma StagesAreChain(s: string)
    ensures EscapeHtml(s) == Stages(s)
  {
    ReplaceCharIsMap(s, '&', "&amp;");
    var a := MapChars(s, Swap('&', "&amp;"));
    ReplaceCharIsMap(a, '<', "&lt;");
    var b := MapChars(a, Swap('<', "&lt;"));
    ReplaceCharIsMap(b, '>', "&gt;");
    var c := MapChars(b, Swap('>', "&gt;"));
    ReplaceCharIsMap(c, '"', "&quot;");
    var d := MapChars(c, Swap('"', "&quot;"));
    ReplaceCharIsMap(d, '\'', "&#039;");
  }

  lemma StagesAppend(x: string, y: string)
    ensures Stages(x + y) == Stages(x) + Stages(y)
  {
    MapCharsAppend(x, y, Swap('&', "&amp;"));
    var a1, a2 := MapChars(x, Swap('&', "&amp;")), MapChars(y, Swap('&', "&amp;"));
    MapCharsAppend(a1, a2, Swap('<', "&lt;"));
    var b1, b2 := MapChars(a1, Swap('<', "&lt;")), MapChars(a2, Swap('<', "&lt;"));
    MapCharsAppend(b1, b2, Swap('>', "&gt;"));
    var c1, c2 := MapChars(b1, Swap('>', "&gt;")), MapChars(b2, Swap('>', "&gt;"));
    MapCharsAppend(c1, c2, Swap('"', "&quot;"));
    var d1, d2 := MapChars(c1, Swap('"', "&quot;")), MapChars(c2, Swap('"', "&quot;"));
    MapCharsAppend(d1, d2, Swap('\'', "&#039;"));
  }

  /** A stage for character `c` leaves a string without `c` alone. */
  lemma StageKeeps(t: string, c: char, rep: string)
    requires c !in t
    ensures MapChars(t, Swap(c, rep)) == t
  {
    MapCharsKeeps(t, Swap(c, rep));
  }

  lemma StageOne(x: char, c: char, rep: string)
    ensures MapChars([x], Swap(c, rep)) == if x == c then rep else [x]
  {
    assert [x][1..] == [];
  }

  lemma StagesOne(x: char)
    ensures Stages([x]) == EscapeChar(x)
  {
    StageOne(x, '&', "&amp;");
    if x == '&' {
      LaterStagesKeepAmp();
    } else {
      LaterStagesOne(x);
    }
  }

  /** The entity written for `&` contains none of the later characters. */
  lemma LaterStagesKeepAmp()
    ensures LaterStages("&amp;") == "&amp;"
  {
    var a := "&amp;";
    assert a[1] == 'a';
    StageKeeps(a, '<', "&lt;");
    StageKeeps(a, '>', "&gt;");
    StageKeeps(a, '"', "&quot;");
    StageKeeps(a, '\'', "&#039;");
  }

  lemma LaterStagesOne(x: char)
    requires x != '&'
    ensures LaterStages([x]) == EscapeChar(x)
  {
    StageOne(x, '<', "&lt;");
    if x == '<' {
      var b := "&lt;";
      StageKeeps(b, '>', "&gt;");
      StageKeeps(b, '"', "&quot;");
      StageKeeps(b, '\'', "&#039;");
    } else {
      StageOne(x, '>', "&gt;");
      if x == '>' {
        var c := "&gt;";
        StageKeeps(c, '"', "&quot;");
        StageKeeps(c, '\'', "&#039;");
      } else {
        StageOne(x, '"', "&quot;");
        if x == '"' {
          StageKeeps("&quot;", '\'', "&#039;");
        } else {
          StageOne(x, '\'', "&#039;");
        }
      }
    }
  }

  lemma {:induction false} StagesCharwise(s: string)
    ensures Stages(s) == MapChars(s, EscapeChar)
  {
    if s == [] {
      assert MapChars(s, Swap('&', "&amp;")) == [];
    } else {
      StagesCharwise(s[1..]);
      StagesOne(s[0]);
      assert [s[0]] + s[1..] == s;
      StagesAppend([s[0]], s[1..]);
    }
  }

  /** The chain of five replacements escapes each character on its own. */
  lemma EscapeCharwise(s: string)
    ensures EscapeHtml(s) == MapChars(s, EscapeChar)
  {
    StagesAreChain(s);
    StagesCharwise(s);
  }

  // ---------------------------------------------------------------------
  // What escaped text looks like, and that it can be decoded
  // ---------------------------------------------------------------------

  lemma AmpFront(t: string)
    requires StartsWith(t, "&amp;")
    ensures LeadingEntity(t) == Some(('&', 5))
  {
  }

  lemma LtFront(t: string)
    requires StartsWith(t, "&lt;")
    ensures LeadingEntity(t) == Some(('<', 4))
  {
    assert t[1] == 'l';
    assert !StartsWith(t, "&amp;");
  }

  lemma GtFront(t: string)
    requires StartsWith(t, "&gt;")
    ensures LeadingEntity(t) == Some(('>', 4))
  {
    assert t[1] == 'g';
    assert !StartsWith(t, "&amp;") && !StartsWith(t, "&lt;");
  }

  lemma QuotFront(t: string)
    requires StartsWith(t, "&quot;")
    ensures LeadingEntity(t) == Some(('"', 6))
  {
    assert t[1] == 'q';
    assert !StartsWith(t, "&amp;") && !StartsWith(t, "&lt;") && !StartsWith(t, "&gt;");
  }

  lemma AposFront(t: string)
    requires StartsWith(t, "&#039;")
    ensures LeadingEntity(t) == Some(('\'', 6))
  {
    assert t[1] == '#';
    assert !StartsWith(t, "&amp;") && !StartsWith(t, "&lt;") && !StartsWith(t, "&gt;");
    assert !StartsWith(t, "&quot;");
  }

  /** An escaped character at the front of `t` is recognised as what it stands for. */
  lemma EscapedFront(x: char, rest: string)
    ensures var t := EscapeChar(x) + rest;
      && t[|EscapeChar(x)|..] == rest
      && LeadingEntity(t) == (if |EscapeChar(x)| == 1 then None else Some((x, |EscapeChar(x)|)))
  {
    var e := EscapeChar(x);
    var t := e + rest;
    assert t[..|e|] == e;
    if x == '&' { AmpFront(t); }
    else if x == '<' { LtFront(t); }
    else if x == '>' { GtFront(t); }
    else if x == '"' { QuotFront(t); }
    else if x == '\'' { AposFront(t); }
    else { assert t[0] == x; }
  }

  lemma EscapedFormAppend(x: char, rest: string)
    requires EscapedForm(rest)
    ensures EscapedForm(EscapeChar(x) + rest)
  {
    EscapedFront(x, rest);
  }

  lemma EscapeCharAvoids(x: char)
    ensures Avoids(EscapeChar(x), Specials)
  {
    var e := EscapeChar(x);
    if |e| > 1 {
      forall j | 0 <= j < |e| ensures e[j] !in Specials {
        assert e[j] == '&' || IsAsciiLetter(e[j]) || IsDigit(e[j]) || e[j] == '#' || e[j] == ';';
      }
    }
  }

  lemma {:induction false} CharwiseAvoids(s: string)
    ensures Avoids(MapChars(s, EscapeChar), Specials)
  {
    if s != [] {
      CharwiseAvoids(s[1..]);
      EscapeCharAvoids(s[0]);
      AvoidsConcat(EscapeChar(s[0]), MapChars(s[1..], EscapeChar), Specials);
    }
  }

  lemma {:induction false} CharwiseForm(s: string)
    ensures EscapedForm(MapChars(s, EscapeChar))
  {
    if s != [] {
      CharwiseForm(s[1..]);
      EscapedFormAppend(s[0], MapChars(s[1..], EscapeChar));
    }
  }

  /** `escapeHtml` leaves no `<`, `>`, `"` or `'`, and its output splits into the
      five entities and characters that need no escaping, so every `&` in it
      begins an entity it wrote. */
  lemma EscapeHtmlSafe(text: string)
    ensures Avoids(EscapeHtml(text), Specials)
    ensures EscapedForm(EscapeHtml(text))
  {
    EscapeCharwise(text);
    CharwiseAvoids(text);
    CharwiseForm(text);
  }

  lemma {:induction false} UnescapeCharwise(s: string)
    ensures UnescapeHtml(MapChars(s, EscapeChar)) == s
  {
    if s != [] {
      UnescapeCharwise(s[1..]);
      EscapedFront(s[0], MapChars(s[1..], EscapeChar));
      assert [s[0]] + s[1..] == s;
    }
  }

  /** Nothing is lost: decoding the five entities gives back the text. */
  lemma EscapeRoundTrip(text: string)
    ensures UnescapeHtml(EscapeHtml(text)) == text
  {
    EscapeCharwise(text);
    UnescapeCharwise(text);
  }
}
