/** Character classes and string operations shared by the converter:
    the JavaScript `\s`, `\d`, `\w` classes, `trim`, `split`/`join`,
    literal global `replace`, and decimal numerals. */
module Text {

  datatype Option<+T> = None | Some(value: T)

  // ---------------------------------------------------------------------
  // Character classes
  // ---------------------------------------------------------------------

  /** JavaScript line terminators: what `.` in a regular expression does not match. */
  predicate IsLineTerminator(c: char) {
    c == '\n' || c == '\r' || c == '\U{2028}' || c == '\U{2029}'
  }

  /** JavaScript `\s`, which is also the set `String.prototype.trim` removes. */
  predicate IsWhite(c: char) {
    || c == '\t' || c == '\U{000B}' || c == '\U{000C}' || c == ' '
    || c == '\U{00A0}' || c == '\U{FEFF}' || c == '\U{1680}'
    || ('\U{2000}' <= c <= '\U{200A}')
    || c == '\U{202F}' || c == '\U{205F}' || c == '\U{3000}'
    || IsLineTerminator(c)
  }

  /** JavaScript `\d`: ASCII digits only. */
  predicate IsDigit(c: char) { '0' <= c <= '9' }

  predicate IsAsciiLetter(c: char) { ('a' <= c <= 'z') || ('A' <= c <= 'Z') }

  /** JavaScript `\w`. */
  predicate IsWordChar(c: char) { IsAsciiLetter(c) || IsDigit(c) || c == '_' }

  /** The class `[一二三四五六七八九十]` of the numbering patterns. */
  predicate IsCjkNumeral(c: char) {
    c == '一' || c == '二' || c == '三' || c == '四' || c == '五'
    || c == '六' || c == '七' || c == '八' || c == '九' || c == '十'
  }

  predicate AllDigits(s: string) { forall i :: 0 <= i < |s| ==> IsDigit(s[i]) }

  // ---------------------------------------------------------------------
  // Prefixes, suffixes, occurrences
  // ---------------------------------------------------------------------

  predicate StartsWith(s: string, p: string) { |p| <= |s| && s[..|p|] == p }

  predicate EndsWith(s: string, p: string) { |p| <= |s| && s[|s| - |p|..] == p }

  /** `pat` occurs in `s` at index `i`. */
  predicate OccursAt(s: string, pat: string, i: nat) {
    i + |pat| <= |s| && s[i..i + |pat|] == pat
  }

  /** `String.prototype.includes`. */
  predicate Contains(s: string, pat: string) {
    exists i: nat :: i <= |s| && OccursAt(s, pat, i)
  }

  /** The first index at or after `from` where `pat` occurs (the scan of a
      non-greedy `[\s\S]*?` followed by `pat`). */
  function IndexOf(s: string, pat: string, from: nat): (r: Option<nat>)
    requires |pat| > 0
    ensures r.Some? ==> from <= r.value && OccursAt(s, pat, r.value)
    ensures r.Some? ==> forall j: nat :: from <= j < r.value ==> !OccursAt(s, pat, j)
    ensures r.None? ==> forall j: nat :: from <= j ==> !OccursAt(s, pat, j)
    decreases |s| - from
  {
    if from + |pat| > |s| then None
    else if OccursAt(s, pat, from) then Some(from)
    else IndexOf(s, pat, from + 1)
  }

  // ---------------------------------------------------------------------
  // trim
  // ---------------------------------------------------------------------

  /** The end of the run of word characters (`\w`) that starts at `i`. */
  function WordEnd(s: string, i: nat): (r: nat)
    requires i <= |s|
    ensures i <= r <= |s| && (r == |s| || !IsWordChar(s[r]))
    decreases |s| - i
  {
    if i < |s| && IsWordChar(s[i]) then WordEnd(s, i + 1) else i
  }

  /** The end of the white-space run that starts at `i`. */
  function SkipWhite(s: string, i: nat): (r: nat)
    requires i <= |s|
    ensures i <= r <= |s| && (r == |s| || !IsWhite(s[r]))
    decreases |s| - i
  {
    if i < |s| && IsWhite(s[i]) then SkipWhite(s, i + 1) else i
  }

  /** Every character the run skips is white space. */
  lemma {:induction false} SkipWhiteRun(s: string, i: nat)
    requires i <= |s|
    ensures forall j :: i <= j < SkipWhite(s, i) ==> IsWhite(s[j])
    decreases |s| - i
  {
    if i < |s| && IsWhite(s[i]) {
      SkipWhiteRun(s, i + 1);
    }
  }

  /** The input without its leading white space. */
  function TrimStart(s: string): (r: string)
    ensures r == [] || !IsWhite(r[0])
  {
    s[SkipWhite(s, 0)..]
  }

  /** The length of `s[..n]` without its trailing white space. */
  function UnwhiteLength(s: string, n: nat): (k: nat)
    requires n <= |s|
    ensures k <= n && (k == 0 || !IsWhite(s[k - 1]))
  {
    if n > 0 && IsWhite(s[n - 1]) then UnwhiteLength(s, n - 1) else n
  }

  /** The input without its trailing white space. */
  function TrimEnd(s: string): (r: string)
    ensures r == [] || !IsWhite(r[|r| - 1])
  {
    s[..UnwhiteLength(s, |s|)]
  }

  /** `String.prototype.trim`: the input without its leading and trailing white space. */
  function Trim(s: string): (r: string)
  {
    TrimEnd(TrimStart(s))
  }

  /** A trimmed string neither starts nor ends with white space. */
  lemma TrimSpec(s: string)
    ensures Trim(s) == [] || (!IsWhite(Trim(s)[0]) && !IsWhite(Trim(s)[|Trim(s)| - 1]))
  {
    var t := TrimStart(s);
    var r := TrimEnd(t);
    if r != [] {
      assert r[0] == t[0];
    }
  }

  /** Trimming keeps only characters of its input. */
  lemma TrimKeeps(s: string)
    ensures forall c :: c in Trim(s) ==> c in s
  {
    var t := TrimStart(s);
    assert forall c :: c in t ==> c in s;
    assert forall c :: c in TrimEnd(t) ==> c in t;
  }

  /** Trimming twice is trimming once. */
  lemma TrimIdempotent(s: string)
    ensures Trim(Trim(s)) == Trim(s)
  {
    TrimSpec(s);
  }

  // ---------------------------------------------------------------------
  // split / join
  // ---------------------------------------------------------------------

  /** `String.prototype.split` with a one-character separator: "" gives [""],
      and a trailing separator gives a trailing empty part. */
  function Split(s: string, sep: char): (parts: seq<string>)
    ensures |parts| >= 1
    ensures forall k :: 0 <= k < |parts| ==> sep !in parts[k]
  {
    if s == [] then [[]]
    else
      var rest := Split(s[1..], sep);
      if s[0] == sep then [[]] + rest
      else [[s[0]] + rest[0]] + rest[1..]
  }

  /** `Array.prototype.join` with a one-character separator. */
  function Join(parts: seq<string>, sep: char): string
  {
    if |parts| == 0 then []
    else if |parts| == 1 then parts[0]
    else parts[0] + [sep] + Join(parts[1..], sep)
  }

  lemma {:induction false} JoinSplit(s: string, sep: char)
    ensures Join(Split(s, sep), sep) == s
  {
    if s != [] {
      JoinSplit(s[1..], sep);
      var rest := Split(s[1..], sep);
      if s[0] != sep {
        if |rest| > 1 {
          assert Join(rest, sep) == rest[0] + [sep] + Join(rest[1..], sep);
        }
      }
    }
  }

  lemma {:induction false} SplitJoin(parts: seq<string>, sep: char)
    requires |parts| >= 1
    requires forall k :: 0 <= k < |parts| ==> sep !in parts[k]
    ensures Split(Join(parts, sep), sep) == parts
  {
    if |parts| == 1 {
      SplitNoSep(parts[0], sep);
    } else {
      SplitJoin(parts[1..], sep);
      SplitPrefix(parts[0], Join(parts[1..], sep), sep);
    }
  }

  lemma {:induction false} SplitNoSep(s: string, sep: char)
    requires sep !in s
    ensures Split(s, sep) == [s]
  {
    if s != [] {
      SplitNoSep(s[1..], sep);
      assert [s[0]] + s[1..] == s;
    }
  }

  lemma {:induction false} SplitPrefix(a: string, b: string, sep: char)
    requires sep !in a
    ensures Split(a + [sep] + b, sep) == [a] + Split(b, sep)
  {
    if a == [] {
      assert a + [sep] + b == [sep] + b;
      assert ([sep] + b)[1..] == b;
    } else {
      SplitPrefix(a[1..], b, sep);
      assert (a + [sep] + b)[1..] == a[1..] + [sep] + b;
      assert [a[0]] + a[1..] == a;
    }
  }

  /** Mapping a line function over the lines of a text. */
  function MapLines(lines: seq<string>, f: string -> string): (r: seq<string>)
    ensures |r| == |lines|
    ensures forall k :: 0 <= k < |lines| ==> r[k] == f(lines[k])
  {
    if lines == [] then [] else [f(lines[0])] + MapLines(lines[1..], f)
  }

  // ---------------------------------------------------------------------
  // Literal global replacement
  // ---------------------------------------------------------------------

  /** `s.replace(/pat/g, rep)` for a pattern without metacharacters and a
      replacement without `$`: leftmost, non-overlapping occurrences. */
  function ReplaceAll(s: string, pat: string, rep: string): string
    requires |pat| > 0
    decreases |s|
  {
    if |s| < |pat| then s
    else if s[..|pat|] == pat then rep + ReplaceAll(s[|pat|..], pat, rep)
    else [s[0]] + ReplaceAll(s[1..], pat, rep)
  }

  /** A pattern whose first character does not occur does not occur. */
  lemma AbsentHead(t: string, pat: string)
    requires |pat| > 0 && pat[0] !in t
    ensures !Contains(t, pat)
  {
    forall i: nat | i + |pat| <= |t|
      ensures !OccursAt(t, pat, i)
    {
      assert t[i..i + |pat|][0] == t[i];
    }
  }

  /** Nothing changes where the pattern does not occur. */
  lemma {:induction false} ReplaceAllAbsent(s: string, pat: string, rep: string)
    requires |pat| > 0
    requires !Contains(s, pat)
    ensures ReplaceAll(s, pat, rep) == s
  {
    if |s| >= |pat| {
      assert !OccursAt(s, pat, 0);
      assert s[..|pat|] != pat;
      forall i: nat ensures !OccursAt(s[1..], pat, i) {
        if OccursAt(s[1..], pat, i) {
          assert s[1..][i..i + |pat|] == s[i + 1..i + 1 + |pat|];
          assert OccursAt(s, pat, i + 1);
        }
      }
      ReplaceAllAbsent(s[1..], pat, rep);
    }
  }

  /** A leading piece that cannot begin an occurrence is copied unchanged. */
  lemma {:induction false} ReplaceAllKeepsPrefix(x: string, y: string, pat: string, rep: string)
    requires |pat| > 0
    requires pat[0] !in x
    ensures ReplaceAll(x + y, pat, rep) == x + ReplaceAll(y, pat, rep)
  {
    if x != [] {
      var s := x + y;
      if |s| < |pat| {
        assert ReplaceAll(y, pat, rep) == y;
        assert ReplaceAll(s, pat, rep) == s;
      } else {
        assert x[0] != pat[0];
        assert s[..|pat|][0] == x[0];
        assert s[..|pat|] != pat;
        assert ReplaceAll(s, pat, rep) == [s[0]] + ReplaceAll(s[1..], pat, rep);
        assert s[1..] == x[1..] + y;
        ReplaceAllKeepsPrefix(x[1..], y, pat, rep);
        assert [x[0]] + x[1..] == x;
        assert ReplaceAll(s, pat, rep) == [x[0]] + (x[1..] + ReplaceAll(y, pat, rep));
      }
    } else {
      assert x + y == y;
    }
  }

  /** `ReplaceAll` copies a first character that does not begin an occurrence. */
  lemma ReplaceAllSkip(w: string, pat: string, rep: string)
    requires |pat| > 0 && |w| > 0
    requires !StartsWith(w, pat)
    ensures ReplaceAll(w, pat, rep) == [w[0]] + ReplaceAll(w[1..], pat, rep)
  {
    if |w| < |pat| {
      assert ReplaceAll(w[1..], pat, rep) == w[1..];
    }
  }

  /** A piece in which every occurrence of the pattern's first character is followed
      by something other than its second character is copied by `ReplaceAll`. */
  lemma {:induction false} ReplaceAllKeepsGuarded(x: string, y: string, pat: string, rep: string)
    requires |pat| >= 2
    requires forall j :: 0 <= j < |x| && x[j] == pat[0] ==> j + 1 < |x| && x[j + 1] != pat[1]
    ensures ReplaceAll(x + y, pat, rep) == x + ReplaceAll(y, pat, rep)
    decreases |x|
  {
    if x == [] {
      assert x + y == y;
    } else {
      var w := x + y;
      if x[0] != pat[0] {
        assert w[0] != pat[0];
      } else {
        assert w[1] == x[1] != pat[1];
      }
      assert !StartsWith(w, pat) by {
        if |pat| <= |w| {
          assert w[..|pat|][0] == w[0] && w[..|pat|][1] == w[1];
        }
      }
      ReplaceAllSkip(w, pat, rep);
      TailOfConcat(x, y);
      var t := x[1..];
      forall j | 0 <= j < |t| && t[j] == pat[0] ensures j + 1 < |t| && t[j + 1] != pat[1] {
        assert t[j] == x[j + 1];
      }
      ReplaceAllKeepsGuarded(t, y, pat, rep);
      ConcatAssoc([x[0]], t, ReplaceAll(y, pat, rep));
      HeadJoin(x, 0);
    }
  }

  /** An occurrence at the front is replaced, and the scan goes on after it. */
  lemma ReplaceAllMatch(w: string, pat: string, rep: string)
    requires |pat| > 0 && StartsWith(w, pat)
    ensures ReplaceAll(w, pat, rep) == rep + ReplaceAll(w[|pat|..], pat, rep)
  {
  }

  /** The pattern itself at the front is replaced. */
  lemma ReplaceAllAtFront(y: string, pat: string, rep: string)
    requires |pat| > 0
    ensures ReplaceAll(pat + y, pat, rep) == rep + ReplaceAll(y, pat, rep)
  {
    assert (pat + y)[..|pat|] == pat;
    assert (pat + y)[|pat|..] == y;
  }

  // ---------------------------------------------------------------------
  // Character-wise rewriting
  // ---------------------------------------------------------------------

  /** No character of `t` is one of `bad`. */
  predicate Avoids(t: string, bad: string) {
    forall j :: 0 <= j < |t| ==> t[j] !in bad
  }

  lemma AvoidsConcat(a: string, b: string, bad: string)
    requires Avoids(a, bad) && Avoids(b, bad)
    ensures Avoids(a + b, bad)
  {
    forall j | 0 <= j < |a + b| ensures (a + b)[j] !in bad {
      if j >= |a| {
        assert (a + b)[j] == b[j - |a|];
      }
    }
  }

  lemma TailOfConcat(x: string, y: string)
    requires x != []
    ensures (x + y)[1..] == x[1..] + y
  {
  }

  /** A suffix is its first part followed by the rest. */
  lemma SliceJoin(s: string, i: nat, j: nat)
    requires i <= j <= |s|
    ensures s[i..j] + s[j..] == s[i..]
  {
  }

  /** A text is its prefix followed by the rest. */
  lemma TakeDrop(s: string, i: nat)
    requires i <= |s|
    ensures s[..i] + s[i..] == s
  {
  }

  /** A suffix of a suffix. */
  lemma DropDrop(s: string, i: nat, k: nat)
    requires i + k <= |s|
    ensures s[i..][k..] == s[i + k..]
  {
  }

  /** A slice of a slice. */
  lemma SliceSlice(s: string, a: nat, b: nat, o: nat, n: nat)
    requires a <= b <= |s| && o + n <= b - a
    ensures s[a..b][o..o + n] == s[a + o..a + o + n]
  {
    var t := s[a..b][o..o + n];
    assert forall k :: 0 <= k < |t| ==> t[k] == s[a + o + k];
  }

  /** An occurrence inside the middle part of a concatenation. */
  lemma OccursInMiddle(a: string, m: string, b: string, pat: string, o: nat)
    requires OccursAt(m, pat, o)
    ensures OccursAt(a + m + b, pat, |a| + o)
  {
    assert (a + m + b)[|a| + o..|a| + o + |pat|] == m[o..o + |pat|];
  }

  /** The first character of a slice followed by the rest of it. */
  lemma HeadSlice(s: string, i: nat, j: nat)
    requires i < j <= |s|
    ensures [s[i]] + s[i + 1..j] == s[i..j]
  {
  }

  /** An occurrence at `i` is a prefix of the suffix from `i`. */
  lemma OccursAtSuffix(s: string, pat: string, i: nat)
    requires i <= |s|
    ensures OccursAt(s, pat, i) <==> StartsWith(s[i..], pat)
  {
    if i + |pat| <= |s| {
      assert s[i..][..|pat|] == s[i..i + |pat|];
    }
  }

  /** A non-empty suffix is its first character followed by the rest. */
  lemma HeadJoin(s: string, i: nat)
    requires i < |s|
    ensures [s[i]] + s[i + 1..] == s[i..]
  {
  }

  /** Concatenation regrouped; stated once so that long literals need no
      element-wise reasoning. */
  lemma ConcatAssoc(a: string, b: string, c: string)
    ensures (a + b) + c == a + (b + c)
  {
  }

  /** Every character of `s` rewritten to a string by `f`, in order. */
  function MapChars(s: string, f: char -> string): string
  {
    if s == [] then [] else f(s[0]) + MapChars(s[1..], f)
  }

  lemma {:induction false} MapCharsAppend(a: string, b: string, f: char -> string)
    ensures MapChars(a + b, f) == MapChars(a, f) + MapChars(b, f)
  {
    if a != [] {
      assert (a + b)[1..] == a[1..] + b;
      MapCharsAppend(a[1..], b, f);
    } else {
      assert a + b == b;
    }
  }

  /** A rewriting that keeps every character of `s` keeps `s`. */
  lemma {:induction false} MapCharsKeeps(s: string, f: char -> string)
    requires forall j :: 0 <= j < |s| ==> f(s[j]) == [s[j]]
    ensures MapChars(s, f) == s
  {
    if s != [] {
      MapCharsKeeps(s[1..], f);
      assert [s[0]] + s[1..] == s;
    }
  }

  /** The rewriting of a single character `c` to `rep`. */
  function Swap(c: char, rep: string): char -> string {
    x => if x == c then rep else [x]
  }

  /** A global replacement of one character is a character-wise rewriting. */
  lemma {:induction false} ReplaceCharIsMap(s: string, c: char, rep: string)
    ensures ReplaceAll(s, [c], rep) == MapChars(s, Swap(c, rep))
  {
    if s != [] {
      ReplaceCharIsMap(s[1..], c, rep);
    }
  }

  // ---------------------------------------------------------------------
  // Decimal numerals (`Number.prototype.toString`, `parseInt`)
  // ---------------------------------------------------------------------

  function DigitChar(d: nat): (c: char)
    requires d < 10
    ensures IsDigit(c)
  {
    ['0', '1', '2', '3', '4', '5', '6', '7', '8', '9'][d]
  }

  function DigitValue(c: char): nat
    requires IsDigit(c)
  {
    (c as int - '0' as int) as nat
  }

  /** The decimal numeral of `n`, without leading zeros. */
  function NatToString(n: nat): (s: string)
    ensures |s| >= 1 && AllDigits(s)
  {
    if n < 10 then [DigitChar(n)] else NatToString(n / 10) + [DigitChar(n % 10)]
  }

  /** The value of a string of decimal digits (`parseInt` on `\d+`). */
  function DigitsValue(s: string): nat
    requires AllDigits(s)
  {
    if s == [] then 0 else DigitsValue(s[..|s| - 1]) * 10 + DigitValue(s[|s| - 1])
  }

  lemma {:induction false} DigitsValueOfNatToString(n: nat)
    ensures DigitsValue(NatToString(n)) == n
  {
    if n >= 10 {
      DigitsValueOfNatToString(n / 10);
      var s := NatToString(n);
      assert s[..|s| - 1] == NatToString(n / 10);
    }
  }

  lemma NatToStringInjective(m: nat, n: nat)
    requires NatToString(m) == NatToString(n)
    ensures m == n
  {
    DigitsValueOfNatToString(m);
    DigitsValueOfNatToString(n);
  }
}
