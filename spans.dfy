/** The delimited-span rewrites of the inline processor: `***x***`, `___x___`,
    `**x**`, `__x__`, `~~x~~`, the `` `x` `` code spans, and the boundary-checked
    emphasis rules `*x*` and `_x_`. Each is a global `replace` of a pattern
    `d([^c\n]+?)d`, where `d` is `k` copies of the delimiter `c`: a left-to-right
    scan that rewrites the leftmost match and resumes after it. */
module Spans {
  import opened Text

  /** `s` holds `k` copies of `c` from index `i`. */
  predicate RunAt(s: string, i: nat, c: char, k: nat) {
    i + k <= |s| && forall t :: i <= t < i + k ==> s[t] == c
  }

  /** A match of `d([^c\n]+?)d` at `i` whose content ends at `p`: a run of `k`
      delimiters, a non-empty content free of `c` and newlines, and another run. */
  predicate SpanShape(s: string, i: nat, p: nat, c: char, k: nat) {
    && RunAt(s, i, c, k) && i + k < p && RunAt(s, p, c, k)
    && forall t :: i + k <= t < p ==> s[t] != c && s[t] != '\n'
  }

  /** The first index at or after `j` holding `c` or a newline, `|s|` if none does:
      where the lazy `[^c\n]+?` must stop. */
  function ContentEnd(s: string, j: nat, c: char): (r: nat)
    ensures j <= |s| ==> j <= r <= |s|
    ensures j > |s| ==> r == j
    ensures r < |s| ==> s[r] == c || s[r] == '\n'
    ensures forall t :: j <= t < r && t < |s| ==> s[t] != c && s[t] != '\n'
    decreases |s| - j
  {
    if j >= |s| || s[j] == c || s[j] == '\n' then j else ContentEnd(s, j + 1, c)
  }

  /** Where the content of the match at `i` ends, if the pattern matches at `i`. The
      lazy content stops at the first delimiter or newline, so there is at most one. */
  function SpanEnd(s: string, i: nat, c: char, k: nat): (r: Option<nat>)
    ensures r.Some? ==> SpanShape(s, i, r.value, c, k)
  {
    if !RunAt(s, i, c, k) then None
    else
      var p := ContentEnd(s, i + k, c);
      if p > i + k && RunAt(s, p, c, k) then Some(p)
      else None
  }

  /** The scan finds every match: a match at `i` ending at `p` is the one found. */
  lemma SpanEndComplete(s: string, i: nat, p: nat, c: char, k: nat)
    requires SpanShape(s, i, p, c, k) && k > 0
    ensures SpanEnd(s, i, c, k) == Some(p)
  {
    var q := ContentEnd(s, i + k, c);
    assert s[p] == c;
    assert !(p < q);
    assert !(q < p);
  }

  /** The scan's other half: when the first delimiter or newline after the opening
      run does not start a closing run behind some content, there is no match at `i`. */
  lemma SpanEndNone(s: string, i: nat, q: nat, c: char, k: nat)
    requires RunAt(s, i, c, k) && i + k <= q <= |s|
    requires forall t :: i + k <= t < q ==> s[t] != c && s[t] != '\n'
    requires q < |s| ==> s[q] == c || s[q] == '\n'
    requires !(q > i + k && RunAt(s, q, c, k))
    ensures SpanEnd(s, i, c, k).None?
  {
    var p := ContentEnd(s, i + k, c);
    assert !(q < p);
    assert !(p < q);
  }

  /** `/[\s\(\[\{\>\.\,\'\"\!\?\;\:\-]/`: what may stand before an emphasis. */
  predicate OpensEmphasis(ch: char) {
    || IsWhite(ch) || ch == '(' || ch == '[' || ch == '{' || ch == '>' || ch == '.' || ch == ','
    || ch == '\'' || ch == '"' || ch == '!' || ch == '?' || ch == ';' || ch == ':' || ch == '-'
  }

  /** `/[\s\)\]\}\.\,\'\"\!\?\;\:\-]/`: what may stand after an emphasis. */
  predicate ClosesEmphasis(ch: char) {
    || IsWhite(ch) || ch == ')' || ch == ']' || ch == '}' || ch == '.' || ch == ','
    || ch == '\'' || ch == '"' || ch == '!' || ch == '?' || ch == ';' || ch == ':' || ch == '-'
  }

  /** The character before index `i`, a space at the start. */
  function Before(s: string, i: nat): char {
    if 0 < i <= |s| then s[i - 1] else ' '
  }

  /** The character at index `j`, a space past the end. */
  function After(s: string, j: nat): char {
    if j < |s| then s[j] else ' '
  }

  datatype Rule =
    | Wrap(delim: char, width: nat, open: string, close: string)
    | Emphasis(delim: char)

  function Width(r: Rule): nat {
    match r
    case Wrap(_, k, _, _) => k
    case Emphasis(_) => 1
  }

  function OpenTag(r: Rule): string {
    match r
    case Wrap(_, _, o, _) => o
    case Emphasis(_) => "<em>"
  }

  function CloseTag(r: Rule): string {
    match r
    case Wrap(_, _, _, cl) => cl
    case Emphasis(_) => "</em>"
  }

  /** The replacement of one match: a wrapping rule always wraps the content; the
      emphasis rule wraps it only between boundary characters and otherwise puts the
      match back as it was. */
  function Rewrite(r: Rule, s: string, i: nat, p: nat): string
    requires SpanShape(s, i, p, r.delim, Width(r))
  {
    match r
    case Wrap(_, k, o, cl) => o + s[i + k..p] + cl
    case Emphasis(_) =>
      if OpensEmphasis(Before(s, i)) && ClosesEmphasis(After(s, p + 1)) then "<em>" + s[i + 1..p] + "</em>"
      else s[i..p + 1]
  }

  /** `s.replace(pattern, replacement)` on the part of `s` from index `i`. */
  function SpanPass(s: string, i: nat, r: Rule): string
    requires i <= |s|
    decreases |s| - i
  {
    if i == |s| then []
    else
      var e := SpanEnd(s, i, r.delim, Width(r));
      if e.Some? then Rewrite(r, s, i, e.value) + SpanPass(s, e.value + Width(r), r)
      else [s[i]] + SpanPass(s, i + 1, r)
  }

  // ---------------------------------------------------------------------
  // What passes through unchanged
  // ---------------------------------------------------------------------

  /** A stretch without the delimiter is copied as it is. */
  lemma {:induction false} PassKeepsPlain(s: string, i: nat, j: nat, r: Rule)
    requires i <= j <= |s| && Width(r) > 0
    requires forall t :: i <= t < j ==> s[t] != r.delim
    ensures SpanPass(s, i, r) == s[i..j] + SpanPass(s, j, r)
    decreases j - i
  {
    if i < j {
      NoSpanWithoutDelimiter(s, i, r);
      PassStepCopy(s, i, r);
      PassKeepsPlain(s, i + 1, j, r);
      ConcatAssoc([s[i]], s[i + 1..j], SpanPass(s, j, r));
      HeadSlice(s, i, j);
    }
  }

  lemma NoSpanWithoutDelimiter(s: string, i: nat, r: Rule)
    requires i < |s| && s[i] != r.delim && Width(r) > 0
    ensures SpanEnd(s, i, r.delim, Width(r)).None?
  {
    assert !RunAt(s, i, r.delim, Width(r));
  }

  /** A stretch in which no full delimiter run starts is copied as it is. */
  lemma {:induction false} PassSkipsShortRuns(s: string, i: nat, j: nat, r: Rule)
    requires i <= j <= |s|
    requires forall t :: i <= t < j ==> !RunAt(s, t, r.delim, Width(r))
    ensures SpanPass(s, i, r) == s[i..j] + SpanPass(s, j, r)
    decreases j - i
  {
    if i < j {
      PassStepCopy(s, i, r);
      PassSkipsShortRuns(s, i + 1, j, r);
      HeadSlice(s, i, j);
      ConcatAssoc([s[i]], s[i + 1..j], SpanPass(s, j, r));
    }
  }

  /** A pass that leaves the text from `j` alone leaves it alone from `i` when no
      delimiter run starts in between. */
  lemma KeepsSkip(s: string, i: nat, j: nat, r: Rule)
    requires i <= j <= |s| && SpanPass(s, j, r) == s[j..]
    requires forall t :: i <= t < j ==> !RunAt(s, t, r.delim, Width(r))
    ensures SpanPass(s, i, r) == s[i..]
  {
    PassSkipsShortRuns(s, i, j, r);
    SliceJoin(s, i, j);
  }

  /** One more character before the part left alone, where no match starts. */
  lemma KeepsCopy(s: string, i: nat, r: Rule)
    requires i < |s| && SpanEnd(s, i, r.delim, Width(r)).None? && SpanPass(s, i + 1, r) == s[i + 1..]
    ensures SpanPass(s, i, r) == s[i..]
  {
    PassStepCopy(s, i, r);
    HeadJoin(s, i);
  }

  /** Text without the delimiter is left unchanged. */
  lemma PassIdentityWithoutDelimiter(s: string, r: Rule)
    requires Width(r) > 0 && r.delim !in s
    ensures SpanPass(s, 0, r) == s
  {
    PassKeepsPlain(s, 0, |s|, r);
  }

  /** Emphasis between boundaries: in a line holding the delimiter only around a
      non-empty content, after an opening character (or at the start) and before a
      closing one (or at the end), the emphasis pass wraps the content in `<em>` and
      copies the rest, so `see *this*.` becomes `see <em>this</em>.`. */
  lemma EmphasisWraps(a: string, m: string, b: string, c: char)
    requires c !in a && c !in b && m != [] && c !in m && '\n' !in m
    requires OpensEmphasis(Before(a, |a|)) && ClosesEmphasis(After(b, 0))
    ensures SpanPass(a + [c] + m + [c] + b, 0, Emphasis(c)) == a + "<em>" + m + "</em>" + b
  {
    var s := a + [c] + m + [c] + b;
    var i, p := |a|, |a| + 1 + |m|;
    var r := Emphasis(c);
    LoneParts(a, m, b, c);
    PassKeepsPlain(s, 0, i, r);
    WrapsAt(s, i, p, c, m, b);
    var x := "<em>" + m + "</em>";
    assert s[0..i] == a;
    assert SpanPass(s, 0, r) == a + (x + b);
    Assemble(a, m, b);
  }

  /** The emphasis match at `i` is rewritten and the pass resumes after it. */
  lemma WrapsAt(s: string, i: nat, p: nat, c: char, m: string, b: string)
    requires SpanShape(s, i, p, c, 1) && OpensEmphasis(Before(s, i)) && ClosesEmphasis(After(s, p + 1))
    requires s[i + 1..p] == m && s[p + 1..] == b && forall t :: p + 1 <= t < |s| ==> s[t] != c
    ensures SpanPass(s, i, Emphasis(c)) == ("<em>" + m + "</em>") + b
  {
    SpanEndComplete(s, i, p, c, 1);
    PassStepMatch(s, i, p, Emphasis(c));
    PassRestPlain(s, p + 1, Emphasis(c));
  }

  /** A delimiter-free rest of the text is copied. */
  lemma PassRestPlain(s: string, j: nat, r: Rule)
    requires j <= |s| && Width(r) > 0 && forall t :: j <= t < |s| ==> s[t] != r.delim
    ensures SpanPass(s, j, r) == s[j..]
  {
    PassKeepsPlain(s, j, |s|, r);
    assert s[j..|s|] == s[j..];
  }

  lemma Assemble(a: string, m: string, b: string)
    ensures a + (("<em>" + m + "</em>") + b) == a + "<em>" + m + "</em>" + b
  {
  }

  /** Where the parts of `a + [c] + m + [c] + b` lie. */
  lemma LoneParts(a: string, m: string, b: string, c: char)
    requires c !in a && c !in b && m != [] && c !in m && '\n' !in m
    ensures var s := a + [c] + m + [c] + b;
      var i, p := |a|, |a| + 1 + |m|;
      && s[..i] == a && s[i + 1..p] == m && s[p + 1..] == b
      && SpanShape(s, i, p, c, 1) && Before(s, i) == Before(a, |a|) && After(s, p + 1) == After(b, 0)
      && (forall t :: 0 <= t < i ==> s[t] != c) && (forall t :: p + 1 <= t < |s| ==> s[t] != c)
  {
    var s := a + [c] + m + [c] + b;
    var i, p := |a|, |a| + 1 + |m|;
    forall t | i + 1 <= t < p ensures s[t] != c && s[t] != '\n' {
      assert s[t] == m[t - i - 1];
    }
    forall t | p + 1 <= t < |s| ensures s[t] != c {
      assert s[t] == b[t - p - 1];
    }
  }

  /** Emphasis needs an opening boundary: when no delimiter stands after a character
      of the opening set (or at the start), the emphasis pass changes nothing, so
      `snake_case_name` and `2*3*4` stay as they are. */
  lemma {:induction false} EmphasisNeedsBoundary(s: string, i: nat, c: char)
    requires i <= |s|
    requires forall t :: i <= t < |s| && s[t] == c ==> !OpensEmphasis(Before(s, t))
    ensures SpanPass(s, i, Emphasis(c)) == s[i..]
    decreases |s| - i
  {
    if i < |s| {
      match SpanEnd(s, i, c, 1)
      case Some(p) =>
        EmphasisKept(s, i, p, c);
        PassStepMatch(s, i, p, Emphasis(c));
        EmphasisNeedsBoundary(s, p + 1, c);
        SliceJoin(s, i, p + 1);
      case None =>
        PassStepCopy(s, i, Emphasis(c));
        EmphasisNeedsBoundary(s, i + 1, c);
        HeadJoin(s, i);
    }
  }

  /** An emphasis match after a character outside the opening set is put back. */
  lemma EmphasisKept(s: string, i: nat, p: nat, c: char)
    requires i < |s| && SpanEnd(s, i, c, 1) == Some(p) && !OpensEmphasis(Before(s, i))
    ensures Width(Emphasis(c)) == 1 && Rewrite(Emphasis(c), s, i, p) == s[i..p + 1]
  {
  }

  lemma ContainsAfter(a: string, b: string, piece: string)
    requires Contains(b, piece)
    ensures Contains(a + b, piece)
  {
    var j: nat :| j <= |b| && OccursAt(b, piece, j);
    assert (a + b)[|a| + j..|a| + j + |piece|] == b[j..j + |piece|];
    assert OccursAt(a + b, piece, |a| + j);
  }

  lemma ContainsBefore(a: string, b: string, piece: string)
    requires Contains(a, piece)
    ensures Contains(a + b, piece)
  {
    var j: nat :| j <= |a| && OccursAt(a, piece, j);
    assert (a + b)[j..j + |piece|] == a[j..j + |piece|];
    assert OccursAt(a + b, piece, j);
  }

  /** A piece of text free of the delimiter and of newlines survives the pass: it is
      either copied or lies inside a rewritten match's content. */
  lemma {:induction false} PieceSurvives(s: string, i: nat, q: nat, piece: string, r: Rule)
    requires i <= q && OccursAt(s, piece, q) && |piece| > 0 && Width(r) > 0
    requires r.delim !in piece && '\n' !in piece
    ensures Contains(SpanPass(s, i, r), piece)
    decreases |s| - i
  {
    var k := Width(r);
    if i == q {
      PieceAtStart(s, q, piece, r);
    } else if SpanEnd(s, i, r.delim, k).Some? {
      var p := SpanEnd(s, i, r.delim, k).value;
      if p + k <= q {
        PieceSurvives(s, p + k, q, piece, r);
        SurvivesMatch(s, i, p, piece, r);
      } else {
        PieceInMatch(s, i, p, q, piece, r);
      }
    } else {
      PieceSurvives(s, i + 1, q, piece, r);
      SurvivesCopy(s, i, piece, r);
    }
  }

  lemma PieceInMatch(s: string, i: nat, p: nat, q: nat, piece: string, r: Rule)
    requires i < q && i < |s| && SpanEnd(s, i, r.delim, Width(r)) == Some(p) && q < p + Width(r)
    requires OccursAt(s, piece, q) && |piece| > 0 && Width(r) > 0 && r.delim !in piece
    ensures Contains(SpanPass(s, i, r), piece)
  {
    PieceInside(s, i, p, q, piece, r);
    PieceInContent(s, i, p, q, piece, r);
    SurvivesInMatch(s, i, p, piece, r);
  }

  lemma SurvivesMatch(s: string, i: nat, p: nat, piece: string, r: Rule)
    requires i < |s| && SpanEnd(s, i, r.delim, Width(r)) == Some(p)
    requires Contains(SpanPass(s, p + Width(r), r), piece)
    ensures Contains(SpanPass(s, i, r), piece)
  {
    ContainsAfter(Rewrite(r, s, i, p), SpanPass(s, p + Width(r), r), piece);
  }

  lemma SurvivesInMatch(s: string, i: nat, p: nat, piece: string, r: Rule)
    requires i < |s| && SpanEnd(s, i, r.delim, Width(r)) == Some(p)
    requires Contains(Rewrite(r, s, i, p), piece)
    ensures Contains(SpanPass(s, i, r), piece)
  {
    ContainsBefore(Rewrite(r, s, i, p), SpanPass(s, p + Width(r), r), piece);
  }

  lemma SurvivesCopy(s: string, i: nat, piece: string, r: Rule)
    requires i < |s| && SpanEnd(s, i, r.delim, Width(r)).None?
    requires Contains(SpanPass(s, i + 1, r), piece)
    ensures Contains(SpanPass(s, i, r), piece)
  {
    ContainsAfter([s[i]], SpanPass(s, i + 1, r), piece);
  }

  lemma PieceAtStart(s: string, q: nat, piece: string, r: Rule)
    requires OccursAt(s, piece, q) && Width(r) > 0 && r.delim !in piece
    ensures Contains(SpanPass(s, q, r), piece)
  {
    assert s[q..q + |piece|] == piece;
    assert forall t :: q <= t < q + |piece| ==> s[t] == piece[t - q];
    PassKeepsPlain(s, q, q + |piece|, r);
    assert OccursAt(SpanPass(s, q, r), piece, 0);
  }

  /** A delimiter-free piece that overlaps a match lies inside its content. */
  lemma PieceInside(s: string, i: nat, p: nat, q: nat, piece: string, r: Rule)
    requires SpanShape(s, i, p, r.delim, Width(r)) && Width(r) > 0 && i < q < p + Width(r)
    requires OccursAt(s, piece, q) && |piece| > 0 && r.delim !in piece
    ensures i + Width(r) <= q && q + |piece| <= p
  {
    forall t | q <= t < q + |piece| ensures s[t] != r.delim {
      assert s[t] == s[q..q + |piece|][t - q] == piece[t - q];
      assert piece[t - q] in piece;
    }
    assert s[q] != r.delim;
    assert q <= p ==> s[p] == r.delim;
  }

  /** Inside a rewritten match, the content is copied whole. */
  lemma PieceInContent(s: string, i: nat, p: nat, q: nat, piece: string, r: Rule)
    requires SpanShape(s, i, p, r.delim, Width(r)) && Width(r) > 0
    requires i + Width(r) <= q && q + |piece| <= p && OccursAt(s, piece, q)
    ensures Contains(Rewrite(r, s, i, p), piece)
  {
    var k := Width(r);
    var o := q - (i + k);
    SliceSlice(s, i + k, p, o, |piece|);
    match r
    case Wrap(_, _, op, cl) =>
      OccursInMiddle(op, s[i + k..p], cl, piece, o);
    case Emphasis(_) =>
      if OpensEmphasis(Before(s, i)) && ClosesEmphasis(After(s, p + 1)) {
        OccursInMiddle("<em>", s[i + 1..p], "</em>", piece, o);
      } else {
        SliceSlice(s, i, p + 1, q - i, |piece|);
        assert OccursAt(s[i..p + 1], piece, q - i);
      }
  }

  // ---------------------------------------------------------------------
  // Only delimiters change: putting them back recovers the input
  // ---------------------------------------------------------------------

  function Repeat(c: char, k: nat): (d: string)
    ensures |d| == k && forall t :: 0 <= t < k ==> d[t] == c
  {
    if k == 0 then [] else [c] + Repeat(c, k - 1)
  }

  /** Every '<' in `t` is followed, inside `t`, by something other than `follow`. */
  predicate LtFollowedByOther(t: string, follow: char) {
    forall j :: 0 <= j < |t| && t[j] == '<' ==> j + 1 < |t| && t[j + 1] != follow
  }

  /** An opening tag such as `<strong><em>` and a closing tag such as `</em></strong>`. */
  predicate TagPair(open: string, close: string) {
    && |open| >= 2 && open[0] == '<' && open[1] != '/' && LtFollowedByOther(open, '/')
    && |close| >= 2 && close[0] == '<' && close[1] == '/'
    && forall j :: 0 <= j < |close| && close[j] == '<' ==> j + 1 < |close| && close[j + 1] == '/'
  }

  predicate GoodRule(r: Rule) {
    && Width(r) > 0 && r.delim != '<'
    && TagPair(OpenTag(r), CloseTag(r))
  }

  /** Turning the tags back into delimiters. */
  function Unwrap(x: string, r: Rule): string
    requires GoodRule(r)
  {
    var d := Repeat(r.delim, Width(r));
    ReplaceAll(ReplaceAll(x, CloseTag(r), d), OpenTag(r), d)
  }

  lemma UnwrapPlain(x: string, y: string, r: Rule)
    requires GoodRule(r) && '<' !in x
    ensures Unwrap(x + y, r) == x + Unwrap(y, r)
  {
    var d := Repeat(r.delim, Width(r));
    ReplaceAllKeepsGuarded(x, y, CloseTag(r), d);
    ReplaceAllKeepsGuarded(x, ReplaceAll(y, CloseTag(r), d), OpenTag(r), d);
  }

  lemma UnwrapWrapped(content: string, y: string, r: Rule)
    requires GoodRule(r) && '<' !in content
    ensures Unwrap(OpenTag(r) + content + CloseTag(r) + y, r)
      == Repeat(r.delim, Width(r)) + content + Repeat(r.delim, Width(r)) + Unwrap(y, r)
  {
    var o, cl, d := OpenTag(r), CloseTag(r), Repeat(r.delim, Width(r));
    assert '<' !in d;
    ConcatAssoc(o + content, cl, y);
    ConcatAssoc(o, content, cl + y);
    ReplaceAllKeepsGuarded(o, content + (cl + y), cl, d);
    ReplaceAllKeepsGuarded(content, cl + y, cl, d);
    ReplaceAllAtFront(y, cl, d);
    var y1 := ReplaceAll(y, cl, d);
    ReplaceAllAtFront(content + (d + y1), o, d);
    ConcatAssoc(content, d, y1);
    ReplaceAllKeepsGuarded(content + d, y1, o, d);
    ConcatAssoc(d + content, d, ReplaceAll(y1, o, d));
    ConcatAssoc(d, content, d + ReplaceAll(y1, o, d));
  }

  /** The pass only rewrites delimiters into tags: on text without '<', turning the
      tags back into delimiters gives back the input. */
  lemma {:induction false} UnwrapPass(s: string, i: nat, r: Rule)
    requires GoodRule(r) && i <= |s|
    requires forall t :: i <= t < |s| ==> s[t] != '<'
    ensures Unwrap(SpanPass(s, i, r), r) == s[i..]
    decreases |s| - i
  {
    var k := Width(r);
    if i == |s| {
      assert ReplaceAll([], CloseTag(r), Repeat(r.delim, k)) == [];
      assert ReplaceAll([], OpenTag(r), Repeat(r.delim, k)) == [];
    } else if SpanEnd(s, i, r.delim, k).Some? {
      var p := SpanEnd(s, i, r.delim, k).value;
      UnwrapPass(s, p + k, r);
      UnwrapMatch(s, i, p, r);
    } else {
      UnwrapPass(s, i + 1, r);
      PassStepCopy(s, i, r);
      UnwrapPlain([s[i]], SpanPass(s, i + 1, r), r);
      HeadJoin(s, i);
    }
  }

  lemma PassStepCopy(s: string, i: nat, r: Rule)
    requires i < |s| && SpanEnd(s, i, r.delim, Width(r)).None?
    ensures SpanPass(s, i, r) == [s[i]] + SpanPass(s, i + 1, r)
  {
  }

  lemma UnwrapMatch(s: string, i: nat, p: nat, r: Rule)
    requires GoodRule(r) && i < |s| && SpanEnd(s, i, r.delim, Width(r)) == Some(p)
    requires forall t :: i <= t < |s| ==> s[t] != '<'
    requires Unwrap(SpanPass(s, p + Width(r), r), r) == s[p + Width(r)..]
    ensures Unwrap(SpanPass(s, i, r), r) == s[i..]
  {
    var k := Width(r);
    var content := s[i + k..p];
    NoLtInSlice(s, i, i + k, p);
    RewriteShape(s, i, p, r);
    PassStepMatch(s, i, p, r);
    UnwrapHead(Rewrite(r, s, i, p), content, SpanPass(s, p + k, r), r);
    MatchSlices(s, i, p, r.delim, k);
  }

  lemma NoLtInSlice(s: string, i: nat, a: nat, b: nat)
    requires i <= a <= b <= |s|
    requires forall t :: i <= t < |s| ==> s[t] != '<'
    ensures '<' !in s[a..b]
  {
    forall t | 0 <= t < b - a ensures s[a..b][t] != '<' {
      assert s[a..b][t] == s[a + t];
    }
  }

  lemma PassStepMatch(s: string, i: nat, p: nat, r: Rule)
    requires i < |s| && SpanEnd(s, i, r.delim, Width(r)) == Some(p)
    ensures SpanPass(s, i, r) == Rewrite(r, s, i, p) + SpanPass(s, p + Width(r), r)
  {
  }

  /** A match is its delimiters around its content. */
  lemma MatchSlices(s: string, i: nat, p: nat, c: char, k: nat)
    requires SpanShape(s, i, p, c, k)
    ensures s[i..] == Repeat(c, k) + s[i + k..p] + Repeat(c, k) + s[p + k..]
  {
    var d := Repeat(c, k);
    assert s[i..i + k] == d;
    assert s[p..p + k] == d;
    assert s[i..] == s[i..i + k] + s[i + k..p] + s[p..p + k] + s[p + k..];
  }

  /** A rewritten match is the content between tags, or between its delimiters. */
  lemma RewriteShape(s: string, i: nat, p: nat, r: Rule)
    requires SpanShape(s, i, p, r.delim, Width(r))
    ensures var content := s[i + Width(r)..p];
      || Rewrite(r, s, i, p) == OpenTag(r) + content + CloseTag(r)
      || Rewrite(r, s, i, p) == Repeat(r.delim, Width(r)) + content + Repeat(r.delim, Width(r))
  {
    if r.Emphasis? && !(OpensEmphasis(Before(s, i)) && ClosesEmphasis(After(s, p + 1))) {
      var d := Repeat(r.delim, 1);
      assert d == [r.delim];
      assert s[i..p + 1] == [s[i]] + s[i + 1..p] + [s[p]];
    }
  }

  lemma UnwrapHead(head: string, content: string, rest: string, r: Rule)
    requires GoodRule(r) && '<' !in content
    requires || head == OpenTag(r) + content + CloseTag(r)
             || head == Repeat(r.delim, Width(r)) + content + Repeat(r.delim, Width(r))
    ensures Unwrap(head + rest, r) == Repeat(r.delim, Width(r)) + content + Repeat(r.delim, Width(r)) + Unwrap(rest, r)
  {
    var d := Repeat(r.delim, Width(r));
    if head == OpenTag(r) + content + CloseTag(r) {
      UnwrapWrapped(content, rest, r);
    } else {
      assert '<' !in d;
      UnwrapPlain(head, rest, r);
    }
  }
}
