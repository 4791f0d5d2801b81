/** `toRoman`: lower-case Roman numerals for one to ten, the decimal numeral above
    ten, by the greedy walk down a table of five values. */
module Roman {
  import opened Text

  const Values: seq<int> := [1, 4, 5, 9, 10]
  const Symbols: seq<string> := ["i", "iv", "v", "ix", "x"]

  /** The numeral the greedy walk writes for `n` with the first `k` table entries,
      taking the largest entry first and as often as it fits. */
  function Greedy(n: int, k: nat): (r: string)
    requires k <= 5
    ensures n <= 0 ==> r == ""
    decreases k, n
  {
    if k == 0 then ""
    else if n >= Values[k - 1] then Symbols[k - 1] + Greedy(n - Values[k - 1], k)
    else Greedy(n, k - 1)
  }

  /** What `toRoman(num)` returns. */
  function Roman(num: int): string {
    if num > 10 then NatToString(num) else Greedy(num, 5)
  }

  method ToRoman(num: int) returns (result: string)
    ensures result == Roman(num)
  {
    if num > 10 {
      return NatToString(num);
    }
    result := "";
    var n := num;
    var i := 5;
    while i > 0
      invariant 0 <= i <= 5
      invariant result + Greedy(n, i) == Greedy(num, 5)
    {
      i := i - 1;
      while n >= Values[i]
        invariant result + Greedy(n, i + 1) == Greedy(num, 5)
        decreases n
      {
        assert Greedy(n, i + 1) == Symbols[i] + Greedy(n - Values[i], i + 1);
        assert (result + Symbols[i]) + Greedy(n - Values[i], i + 1)
            == result + (Symbols[i] + Greedy(n - Values[i], i + 1));
        result := result + Symbols[i];
        n := n - Values[i];
      }
    }
  }

  /** The value of one numeral letter. */
  function LetterValue(c: char): int {
    if c == 'i' then 1 else if c == 'v' then 5 else if c == 'x' then 10 else 0
  }

  /** The value a reader gives a Roman numeral: each letter counts, and counts
      negatively when a larger letter follows it. */
  function NumeralValue(s: string): int
  {
    if s == [] then 0
    else if |s| >= 2 && LetterValue(s[0]) < LetterValue(s[1]) then NumeralValue(s[1..]) - LetterValue(s[0])
    else NumeralValue(s[1..]) + LetterValue(s[0])
  }

  predicate IsNumeralLetter(c: char) { c == 'i' || c == 'v' || c == 'x' }

  /** The ten numerals `toRoman` writes for one to ten. */
  lemma RomanTable(n: int)
    requires 1 <= n <= 10
    ensures Roman(n) == ["i", "ii", "iii", "iv", "v", "vi", "vii", "viii", "ix", "x"][n - 1]
  {
    assert Greedy(0, 5) == "";
    assert Greedy(1, 1) == "i" by { assert Greedy(0, 1) == ""; }
    assert Greedy(2, 1) == "ii";
    assert Greedy(3, 1) == "iii";
    assert Greedy(1, 5) == "i" by { assert Greedy(1, 4) == Greedy(1, 3) == Greedy(1, 2) == Greedy(1, 1); }
    assert Greedy(2, 5) == "ii" by { assert Greedy(2, 4) == Greedy(2, 3) == Greedy(2, 2) == Greedy(2, 1); }
    assert Greedy(3, 5) == "iii" by { assert Greedy(3, 4) == Greedy(3, 3) == Greedy(3, 2) == Greedy(3, 1); }
    assert Greedy(0, 2) == "";
    assert Greedy(4, 5) == "iv" by { assert Greedy(4, 4) == Greedy(4, 3) == Greedy(4, 2); }
    assert Greedy(5, 5) == "v" by { assert Greedy(5, 4) == Greedy(5, 3); }
    assert Greedy(6, 5) == "vi" by { assert Greedy(6, 4) == Greedy(6, 3); assert Greedy(1, 3) == "i"; }
    assert Greedy(7, 5) == "vii" by { assert Greedy(7, 4) == Greedy(7, 3); assert Greedy(2, 3) == "ii"; }
    assert Greedy(8, 5) == "viii" by { assert Greedy(8, 4) == Greedy(8, 3); assert Greedy(3, 3) == "iii"; }
    assert Greedy(9, 5) == "ix" by { assert Greedy(9, 4) == "ix"; }
    assert Greedy(10, 5) == "x";
  }

  /** Reading a numeral back gives the number: `toRoman` writes valid numerals on
      its whole Roman range. */
  lemma RomanValueRoundTrip(n: int)
    requires 1 <= n <= 10
    ensures NumeralValue(Roman(n)) == n
    ensures forall k :: 0 <= k < |Roman(n)| ==> IsNumeralLetter(Roman(n)[k])
  {
    RomanTable(n);
  }

  /** Zero and negative numbers give the empty string. */
  lemma RomanNonPositive(n: int)
    requires n <= 0
    ensures Roman(n) == ""
  {
  }

  /** Above ten the decimal numeral comes back, and it reads back as the number. */
  lemma RomanDecimal(n: int)
    requires n > 10
    ensures AllDigits(Roman(n)) && DigitsValue(Roman(n)) == n
  {
    DigitsValueOfNatToString(n);
  }

  /** No two positive numbers share an output. */
  lemma RomanInjective(m: int, n: int)
    requires 1 <= m && 1 <= n && Roman(m) == Roman(n)
    ensures m == n
  {
    if m > 10 && n > 10 {
      NatToStringInjective(m, n);
    } else if m <= 10 && n <= 10 {
      RomanValueRoundTrip(m);
      RomanValueRoundTrip(n);
    } else if m <= 10 {
      RomanValueRoundTrip(m);
    } else {
      RomanValueRoundTrip(n);
    }
  }
}
