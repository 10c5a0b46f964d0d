/** Decimal numerals: every word of digits, also with one dot in it, can run together with the odds around it. */
module Decimals {
  import opened Common
  import Consistency
  import opened SnapshotFeed

  const DIGITS: Alphabet := set c: char | '0' <= c <= '9'

  const NUMERIC: Alphabet := DIGITS + {'.'}

  /** A decimal number from one on, without superfluous zeros. */
  datatype Numeral = Numeral(whole: string, fraction: string)

  predicate WellFormed(n: Numeral) {
    && Over(n.whole, DIGITS) && n.whole != "" && n.whole[0] != '0'
    && Over(n.fraction, DIGITS) && (n.fraction != "" ==> n.fraction[|n.fraction| - 1] != '0')
  }

  function Printed(n: Numeral): string {
    if n.fraction == "" then n.whole else n.whole + "." + n.fraction
  }

  /** Each of these numbers is a possible odd, and printed like that. */
  ghost predicate PrintsNumerals(show: real -> string, nums: Numbers) {
    forall n :: WellFormed(n) ==> exists x :: x in nums && show(x) == Printed(n)
  }

  /** A word of digits, with at most one dot. */
  ghost predicate NumericWord(word: string) {
    Over(word, DIGITS) || exists p, q :: Over(p, DIGITS) && Over(q, DIGITS) && word == p + "." + q
  }

  /** The numeral that has the word between two twos. */
  lemma BetweenTwos(word: string) returns (n: Numeral)
    requires NumericWord(word)
    ensures WellFormed(n) && Printed(n) == "2" + word + "2"
  {
    if Over(word, DIGITS) {
      n := Numeral("2" + word + "2", "");
    } else {
      var p, q :| Over(p, DIGITS) && Over(q, DIGITS) && word == p + "." + q;
      n := Numeral("2" + p, q + "2");
    }
  }

  lemma {:induction false} NumericWordRunsTogether(word: string, show: real -> string, nums: Numbers)
    requires PrintsNumerals(show, nums) && NumericWord(word)
    ensures RunsTogether(word, show, nums)
  {
    var n := BetweenTwos(word);
    var two := Numeral("2", "");
    assert WellFormed(two) && Printed(two) == "2";
    var z :| z in nums && show(z) == "2";
    var zz :| zz in nums && show(zz) == Printed(n);
    assert show(zz) == show(z) + word + show(z);
  }

  lemma RunsTogetherIsOver(word: string, show: real -> string, nums: Numbers, d: Alphabet)
    requires Prints(show, nums, d) && RunsTogether(word, show, nums)
    ensures Over(word, d)
  {
    var z, zz :| z in nums && zz in nums && show(zz) == show(z) + word + show(z);
    forall i | 0 <= i < |word| ensures word[i] in d { assert show(zz)[|show(z)| + i] == word[i]; }
  }

  /**
   * With such a printing, whatever else it prints: where every word between two odds is numeric, or has a character
   * that no number is printed with, the feed tells all odds apart exactly when none of these words is numeric.
   */
  lemma {:induction false} FeedTellsOddsApartUnlessNumeric(
      layout: Layout, show: real -> string, nums: Numbers, d: Alphabet)
    requires Prints(show, nums, d) && PrintsNumerals(show, nums)
    requires forall i :: 1 <= i < |WordsOf(layout, "")| ==>
               Separates(WordsOf(layout, "")[i], d) || NumericWord(WordsOf(layout, "")[i])
    ensures TellsOddsApart(layout, show, nums) <==>
              forall i :: 1 <= i < |WordsOf(layout, "")| ==> !NumericWord(WordsOf(layout, "")[i])
  {
    var words := WordsOf(layout, "");
    forall i | 1 <= i < |words|
      ensures Separates(words[i], d) <==> !NumericWord(words[i])
      ensures Separates(words[i], d) || RunsTogether(words[i], show, nums)
    {
      if NumericWord(words[i]) {
        NumericWordRunsTogether(words[i], show, nums);
        RunsTogetherIsOver(words[i], show, nums, d);
      }
    }
    FeedTellsOddsApartIff(layout, show, nums, d);
  }

  // ----- The decimal numbers and their printing -----

  function DigitValue(c: char): (i: nat)
    requires c in DIGITS
    ensures i < 10
  {
    c as int - '0' as int
  }

  /** The number that a word of digits stands for. */
  function Value(s: string): nat
    requires Over(s, DIGITS)
  {
    if s == "" then 0 else 10 * Value(s[..|s| - 1]) + DigitValue(s[|s| - 1])
  }

  lemma {:induction false} ValueIsPositive(s: string)
    requires Over(s, DIGITS) && s != "" && s[0] != '0'
    ensures Value(s) > 0
  {
    if |s| > 1 { ValueIsPositive(s[..|s| - 1]); }
  }

  lemma SameEnds(x: int, c: char, y: int, e: char)
    requires c in DIGITS && e in DIGITS && 10 * x + DigitValue(c) == 10 * y + DigitValue(e)
    ensures x == y && c == e
  {
  }

  predicate NoLeadingZero(s: string) {
    Over(s, DIGITS) && (s != "" ==> s[0] != '0')
  }

  /** Different words without a leading zero stand for different numbers. */
  lemma {:induction false} ValueTells(s: string, t: string)
    requires NoLeadingZero(s) && NoLeadingZero(t) && Value(s) == Value(t)
    ensures s == t
    decreases |s|
  {
    if s != "" && t != "" {
      var i, j := |s| - 1, |t| - 1;
      var p, q := s[..i], t[..j];
      SameEnds(Value(p), s[i], Value(q), t[j]);
      ValueTells(p, q);
      assert s == p + [s[i]] && t == q + [t[j]];
    } else if s != "" {
      ValueIsPositive(s);
    } else if t != "" {
      ValueIsPositive(t);
    }
  }

  function ValueOf(n: Numeral): real
    requires WellFormed(n)
  {
    Consistency.Pow10Positive(|n.fraction|);
    Value(n.whole + n.fraction) as real / Consistency.Pow10(|n.fraction|) as real
  }

  lemma {:induction false} Pow10Sum(a: nat, b: nat)
    ensures Consistency.Pow10(a + b) == Consistency.Pow10(a) * Consistency.Pow10(b)
  {
    if a > 0 { Pow10Sum(a - 1, b); }
  }

  lemma QuotientsEqual(x: int, a: int, y: int, b: int)
    requires a > 0 && b > 0 && x as real / a as real == y as real / (a * b) as real
    ensures x * b == y
  {
    var q := x as real / a as real;
    assert q * a as real == x as real;
    assert q * (a * b) as real == y as real;
    assert (a * b) as real == a as real * b as real;
    assert x as real * b as real == y as real;
  }

  lemma LastDigit(t: string, x: int, c: int)
    requires Over(t, DIGITS) && t != "" && Value(t) == x * (10 * c)
    ensures t[|t| - 1] == '0'
  {
    assert x * (10 * c) == 10 * (x * c);
  }

  /** A numeral with more decimals than another one, and none of them superfluous, is another number. */
  lemma {:induction false} LongerFractionTells(m: Numeral, n: Numeral)
    requires WellFormed(m) && WellFormed(n) && ValueOf(m) == ValueOf(n)
    ensures |m.fraction| >= |n.fraction|
  {
    if |m.fraction| < |n.fraction| {
      var more := |n.fraction| - |m.fraction|;
      var a, b := Consistency.Pow10(|m.fraction|), Consistency.Pow10(more);
      Consistency.Pow10Positive(|m.fraction|);
      Consistency.Pow10Positive(more);
      Pow10Sum(|m.fraction|, more);
      var s, t := m.whole + m.fraction, n.whole + n.fraction;
      QuotientsEqual(Value(s), a, Value(t), b);
      LastDigit(t, Value(s), Consistency.Pow10(more - 1));
    }
  }

  lemma {:induction false} ValueOfTells(m: Numeral, n: Numeral)
    requires WellFormed(m) && WellFormed(n) && ValueOf(m) == ValueOf(n)
    ensures m == n
  {
    LongerFractionTells(m, n);
    LongerFractionTells(n, m);
    var s, t := m.whole + m.fraction, n.whole + n.fraction;
    Consistency.Pow10Positive(|m.fraction|);
    QuotientsEqual(Value(s), Consistency.Pow10(|m.fraction|), Value(t), 1);
    ValueTells(s, t);
    SameLength(m.whole, m.fraction, n.whole, n.fraction);
  }

  lemma DotShows(n: Numeral)
    requires WellFormed(n)
    ensures n.fraction != "" <==> '.' in Printed(n)
    ensures Over(Printed(n), NUMERIC) && Printed(n) != ""
  {
    if n.fraction != "" { assert Printed(n)[|n.whole|] == '.'; }
  }

  lemma PrintedTells(m: Numeral, n: Numeral)
    requires WellFormed(m) && WellFormed(n) && Printed(m) == Printed(n)
    ensures m == n
  {
    DotShows(m);
    DotShows(n);
    if m.fraction != "" {
      Regroup(m.whole, ".", m.fraction);
      Regroup(n.whole, ".", n.fraction);
      assert Separates(".", DIGITS) by { assert "."[0] !in DIGITS; }
      SplitAtWord(m.whole, n.whole, ".", m.fraction, n.fraction, DIGITS);
    }
  }

  ghost const DECIMALS: Numbers := iset n: Numeral | WellFormed(n) :: ValueOf(n)

  ghost function Show(x: real): string {
    if x in DECIMALS then
      var n :| WellFormed(n) && ValueOf(n) == x;
      Printed(n)
    else ""
  }

  lemma {:induction false} ShowOfValue(n: Numeral)
    requires WellFormed(n)
    ensures ValueOf(n) in DECIMALS && Show(ValueOf(n)) == Printed(n)
  {
    forall m | WellFormed(m) && ValueOf(m) == ValueOf(n) ensures m == n { ValueOfTells(m, n); }
  }

  lemma {:induction false} ShowPrints()
    ensures Prints(Show, DECIMALS, NUMERIC) && PrintsNumerals(Show, DECIMALS)
  {
    forall x | x in DECIMALS ensures Show(x) != "" && Over(Show(x), NUMERIC) {
      var n :| WellFormed(n) && ValueOf(n) == x;
      ShowOfValue(n);
      DotShows(n);
    }
    forall x, y | x in DECIMALS && y in DECIMALS && Show(x) == Show(y) ensures x == y {
      var m, n :| WellFormed(m) && ValueOf(m) == x && WellFormed(n) && ValueOf(n) == y;
      ShowOfValue(m);
      ShowOfValue(n);
      PrintedTells(m, n);
    }
    forall n | WellFormed(n) ensures exists x :: x in DECIMALS && Show(x) == Printed(n) {
      ShowOfValue(n);
    }
  }

  /** For decimal odds: all odds are told apart if and only if no word between two odds is made of digits and a dot. */
  lemma {:induction false} DecimalOddsToldApartIff(layout: Layout)
    requires forall i :: 1 <= i < |WordsOf(layout, "")| ==>
               Separates(WordsOf(layout, "")[i], NUMERIC) || NumericWord(WordsOf(layout, "")[i])
    ensures TellsOddsApart(layout, Show, DECIMALS) <==>
              forall i :: 1 <= i < |WordsOf(layout, "")| ==> !NumericWord(WordsOf(layout, "")[i])
  {
    ShowPrints();
    FeedTellsOddsApartUnlessNumeric(layout, Show, DECIMALS, NUMERIC);
  }
}
