/**
 * Which snapshots the ingester's hash input tells apart. It puts nothing between a name and an odd,
 * so this depends on the names: an odd must not run into the name behind it.
 */
module SnapshotFeed {
  import opened Common
  import opened SnapshotText

  type Alphabet = set<char>

  predicate Over(s: string, d: Alphabet) {
    forall i :: 0 <= i < |s| ==> s[i] in d
  }

  predicate FreeOf(s: string, d: Alphabet) {
    forall i :: 0 <= i < |s| ==> s[i] !in d
  }

  /** The values that an odd can have: not every real number is one. */
  type Numbers = iset<real>

  /** Numbers are printed in the characters `d`, and different numbers differently. */
  ghost predicate Prints(show: real -> string, nums: Numbers, d: Alphabet) {
    && (forall x :: x in nums ==> show(x) != "" && Over(show(x), d))
    && (forall x, y :: x in nums && y in nums && show(x) == show(y) ==> x == y)
  }

  ghost predicate AllIn(odds: seq<real>, nums: Numbers) {
    forall i :: 0 <= i < |odds| ==> odds[i] in nums
  }

  // ----- The same kinds and names -----

  /** A list of markets without its odds: the kinds, and the names of their outcomes. */
  type Layout = seq<(string, seq<string>)>

  function NamesOf(s: Record<real>): (names: seq<string>)
    ensures |names| == |s|
  {
    if s == [] then [] else [s[0].0] + NamesOf(s[1..])
  }

  function ValuesOf(s: Record<real>): (odds: seq<real>)
    ensures |odds| == |s|
  {
    if s == [] then [] else [s[0].1] + ValuesOf(s[1..])
  }

  function LayoutOf(s: seq<Market>): Layout {
    if s == [] then [] else [(s[0].0, NamesOf(s[0].1))] + LayoutOf(s[1..])
  }

  function OddsOf(s: seq<Market>): seq<real> {
    if s == [] then [] else ValuesOf(s[0].1) + OddsOf(s[1..])
  }

  /** What stands in front of each odd: kinds and a name for the first one of a market, a name for the others. */
  function WordsOf(layout: Layout, before: string): seq<string> {
    if layout == [] then []
    else if layout[0].1 == [] then WordsOf(layout[1..], before + layout[0].0)
    else [before + layout[0].0 + layout[0].1[0]] + layout[0].1[1..] + WordsOf(layout[1..], "")
  }

  /** The kinds behind the last odd. */
  function TailOf(layout: Layout, before: string): string {
    if layout == [] then before
    else if layout[0].1 == [] then TailOf(layout[1..], before + layout[0].0)
    else TailOf(layout[1..], "")
  }

  /** Words and odds in turn, and the tail. */
  function Text(words: seq<string>, odds: seq<real>, tail: string, show: real -> string): string
    requires |words| == |odds|
  {
    if words == [] then tail else words[0] + show(odds[0]) + Text(words[1..], odds[1..], tail, show)
  }

  lemma {:induction false} TextCons(
      w: string, ws: seq<string>, x: real, xs: seq<real>, tail: string, show: real -> string)
    requires |ws| == |xs|
    ensures Text([w] + ws, [x] + xs, tail, show) == w + show(x) + Text(ws, xs, tail, show)
  {
    assert ([w] + ws)[1..] == ws && ([x] + xs)[1..] == xs;
  }

  /** The outcomes of a market in front of a text. */
  lemma {:induction false} OutcomesThenText(
      s: Record<real>, ws: seq<string>, xs: seq<real>, tail: string, show: real -> string)
    requires |ws| == |xs|
    ensures FeedOutcomes(s, show) + Text(ws, xs, tail, show) == Text(NamesOf(s) + ws, ValuesOf(s) + xs, tail, show)
  {
    if s == [] {
      assert NamesOf(s) + ws == ws && ValuesOf(s) + xs == xs;
    } else {
      OutcomesThenText(s[1..], ws, xs, tail, show);
      TextCons(s[0].0, NamesOf(s[1..]) + ws, s[0].1, ValuesOf(s[1..]) + xs, tail, show);
      Regroup([s[0].0], NamesOf(s[1..]), ws);
      Regroup([s[0].1], ValuesOf(s[1..]), xs);
      Regroup(s[0].0 + show(s[0].1), FeedOutcomes(s[1..], show), Text(ws, xs, tail, show));
    }
  }

  lemma {:induction false} SameNumber(s: seq<Market>, before: string)
    ensures |WordsOf(LayoutOf(s), before)| == |OddsOf(s)|
  {
    if s != [] {
      assert LayoutOf(s)[1..] == LayoutOf(s[1..]);
      SameNumber(s[1..], if s[0].1 == [] then before + s[0].0 else "");
    }
  }

  lemma FiveParts(a: string, b: string, c: string, d: string, e: string)
    ensures a + (b + c + d) + e == (a + b) + c + (d + e)
  {
  }

  /** A market with outcomes in front of a text: its first name is one word with what comes before it. */
  lemma {:induction false} MarketThenText(
      lead: string, s: Record<real>, ws: seq<string>, xs: seq<real>, tail: string, show: real -> string)
    requires s != [] && |ws| == |xs|
    ensures lead + FeedOutcomes(s, show) + Text(ws, xs, tail, show)
            == Text([lead + NamesOf(s)[0]] + NamesOf(s)[1..] + ws, ValuesOf(s) + xs, tail, show)
  {
    var name, x, more := s[0].0, s[0].1, s[1..];
    OutcomesThenText(more, ws, xs, tail, show);
    assert NamesOf(s) == [name] + NamesOf(more) && ValuesOf(s) == [x] + ValuesOf(more);
    Regroup([lead + name], NamesOf(more), ws);
    Regroup([x], ValuesOf(more), xs);
    TextCons(lead + name, NamesOf(more) + ws, x, ValuesOf(more) + xs, tail, show);
    FiveParts(lead, name, show(x), FeedOutcomes(more, show), Text(ws, xs, tail, show));
  }

  lemma FourParts(a: string, b: string, c: string, d: string)
    ensures a + (b + c + d) == a + b + c + d
  {
  }

  lemma {:induction false} FeedIsText(s: seq<Market>, before: string, show: real -> string)
    ensures |WordsOf(LayoutOf(s), before)| == |OddsOf(s)|
    ensures before + FeedMarkets(s, show)
            == Text(WordsOf(LayoutOf(s), before), OddsOf(s), TailOf(LayoutOf(s), before), show)
    decreases |s|
  {
    SameNumber(s, before);
    if s == [] {
      assert before + "" == before;
    } else {
      var kind, more, layout := s[0].0, s[1..], LayoutOf(s[1..]);
      assert LayoutOf(s)[1..] == layout;
      if s[0].1 == [] {
        FeedIsText(more, before + kind, show);
        assert ValuesOf(s[0].1) + OddsOf(more) == OddsOf(more);
        assert before + (kind + "" + FeedMarkets(more, show)) == before + kind + FeedMarkets(more, show);
      } else {
        FeedIsText(more, "", show);
        assert "" + FeedMarkets(more, show) == FeedMarkets(more, show);
        MarketThenText(before + kind, s[0].1, WordsOf(layout, ""), OddsOf(more), TailOf(layout, ""), show);
        FourParts(before, kind, FeedOutcomes(s[0].1, show), FeedMarkets(more, show));
      }
    }
  }

  lemma {:induction false} NamesAndValues(x: Record<real>, y: Record<real>)
    requires NamesOf(x) == NamesOf(y) && ValuesOf(x) == ValuesOf(y)
    ensures x == y
  {
    if x != [] {
      assert NamesOf(x)[0] == NamesOf(y)[0] && ValuesOf(x)[0] == ValuesOf(y)[0];
      assert NamesOf(x)[1..] == NamesOf(x[1..]) && NamesOf(y)[1..] == NamesOf(y[1..]);
      assert ValuesOf(x)[1..] == ValuesOf(x[1..]) && ValuesOf(y)[1..] == ValuesOf(y[1..]);
      NamesAndValues(x[1..], y[1..]);
      assert x == [x[0]] + x[1..] && y == [y[0]] + y[1..];
    }
  }

  /** Layout and odds are all there is to a list of markets. */
  lemma {:induction false} LayoutAndOdds(a: seq<Market>, b: seq<Market>)
    requires LayoutOf(a) == LayoutOf(b) && OddsOf(a) == OddsOf(b)
    ensures a == b
    decreases |a|
  {
    if a != [] {
      assert b != [];
      var x, y := a[0].1, b[0].1;
      assert LayoutOf(a)[0] == LayoutOf(b)[0];
      assert LayoutOf(a)[1..] == LayoutOf(a[1..]) && LayoutOf(b)[1..] == LayoutOf(b[1..]);
      assert OddsOf(a)[..|x|] == ValuesOf(x) && OddsOf(b)[..|y|] == ValuesOf(y);
      assert OddsOf(a)[|x|..] == OddsOf(a[1..]) && OddsOf(b)[|y|..] == OddsOf(b[1..]);
      NamesAndValues(x, y);
      LayoutAndOdds(a[1..], b[1..]);
      assert a == [a[0]] + a[1..] && b == [b[0]] + b[1..];
    }
  }

  /** A word that shows where the odd in front of it ends: not all of its characters can stand in a number. */
  predicate Separates(word: string, d: Alphabet) {
    !Over(word, d)
  }

  predicate Separated(words: seq<string>, d: Alphabet) {
    forall i :: 1 <= i < |words| ==> Separates(words[i], d)
  }

  lemma FirstOutside(word: string, d: Alphabet) returns (k: nat)
    requires Separates(word, d)
    ensures k < |word| && word[k] !in d && forall j :: 0 <= j < k ==> word[j] in d
  {
    k := 0;
    while word[k] in d
      invariant k < |word| && forall j :: 0 <= j < k ==> word[j] in d
      decreases |word| - k
    {
      assert exists j :: 0 <= j < |word| && word[j] !in d;
      k := k + 1;
    }
  }

  lemma StillInside(q: string, word: string, t: string, d: Alphabet, k: nat, n: nat)
    requires Over(q, d) && k < |word| && n < |q| + k && forall j :: 0 <= j < k ==> word[j] in d
    ensures (q + (word + t))[n] in d
  {
    if n >= |q| { assert (q + (word + t))[n] == word[n - |q|]; }
  }

  lemma NotShorter(p: string, q: string, word: string, r: string, t: string, d: Alphabet)
    requires Over(p, d) && Over(q, d) && Separates(word, d)
    requires p + (word + r) == q + (word + t)
    ensures |p| >= |q|
  {
    var k := FirstOutside(word, d);
    var whole := p + (word + r);
    assert whole[|p| + k] == word[k];
    if |p| < |q| { StillInside(q, word, t, d, k, |p| + k); }
  }

  /** Two numbers in front of the same separating word end at the same place. */
  lemma SplitAtWord(p: string, q: string, word: string, r: string, t: string, d: Alphabet)
    requires Over(p, d) && Over(q, d) && Separates(word, d)
    requires p + (word + r) == q + (word + t)
    ensures p == q && r == t
  {
    if |p| < |q| {
      NotShorter(p, q, word, r, t, d);
    } else if |q| < |p| {
      NotShorter(q, p, word, t, r, d);
    }
    var whole := p + (word + r);
    assert whole[..|p|] == p && whole[..|q|] == q;
    assert whole[|p| + |word|..] == r && whole[|q| + |word|..] == t;
  }

  lemma PrintsTwo(show: real -> string, nums: Numbers, d: Alphabet, x: real, y: real)
    requires Prints(show, nums, d) && x in nums && y in nums
    ensures show(x) != "" && show(y) != "" && Over(show(x), d) && Over(show(y), d)
    ensures show(x) == show(y) <==> x == y
  {
  }

  lemma SeparatedRest(words: seq<string>, d: Alphabet)
    requires words != [] && Separated(words, d)
    ensures Separated(words[1..], d)
  {
    var rest := words[1..];
    forall i | 1 <= i < |rest| ensures Separates(rest[i], d) {
      assert rest[i] == words[i + 1];
    }
  }

  function AfterWord(words: seq<string>, odds: seq<real>, tail: string, show: real -> string): string
    requires |words| == |odds| && words != []
  {
    show(odds[0]) + Text(words[1..], odds[1..], tail, show)
  }

  lemma NextWord(words: seq<string>, odds: seq<real>, tail: string, show: real -> string)
    requires |words| == |odds| && words != []
    ensures Text(words, odds, tail, show) == words[0] + AfterWord(words, odds, tail, show)
  {
    Regroup(words[0], show(odds[0]), Text(words[1..], odds[1..], tail, show));
  }

  lemma SameSuffix<T>(a: seq<T>, b: seq<T>, c: seq<T>)
    ensures a + c == b + c <==> a == b
  {
    if a + c == b + c {
      assert |a + c| == |b + c|;
      assert (a + c)[..|a|] == a && (b + c)[..|b|] == b;
    }
  }

  lemma {:induction false} TextTells(
      words: seq<string>, x: seq<real>, y: seq<real>, tail: string, show: real -> string, nums: Numbers, d: Alphabet)
    requires |words| == |x| == |y| && Prints(show, nums, d) && Separated(words, d)
    requires AllIn(x, nums) && AllIn(y, nums)
    requires Text(words, x, tail, show) == Text(words, y, tail, show)
    ensures x == y
  {
    if words != [] {
      var rest, xs, ys := words[1..], x[1..], y[1..];
      var r, t := Text(rest, xs, tail, show), Text(rest, ys, tail, show);
      PrintsTwo(show, nums, d, x[0], y[0]);
      Regroup(words[0], show(x[0]), r);
      Regroup(words[0], show(y[0]), t);
      SamePrefix(words[0], show(x[0]) + r, show(y[0]) + t);
      if rest == [] {
        SameSuffix(show(x[0]), show(y[0]), tail);
      } else {
        NextWord(rest, xs, tail, show);
        NextWord(rest, ys, tail, show);
        assert rest[0] == words[1] && Separates(words[1], d);
        SplitAtWord(show(x[0]), show(y[0]), rest[0],
                    AfterWord(rest, xs, tail, show), AfterWord(rest, ys, tail, show), d);
        SeparatedRest(words, d);
        TextTells(rest, xs, ys, tail, show, nums, d);
      }
      assert x == [x[0]] + xs && y == [y[0]] + ys;
    }
  }

  /** Some number is printed as another one on both sides of the word. */
  ghost predicate RunsTogether(word: string, show: real -> string, nums: Numbers) {
    exists z, zz :: z in nums && zz in nums && show(zz) == show(z) + word + show(z)
  }

  function Filled(n: nat, i: nat, z: real, zz: real): (odds: seq<real>)
    ensures |odds| == n && forall j :: 0 <= j < n ==> odds[j] == if j == i then zz else z
  {
    seq(n, j => if j == i then zz else z)
  }

  lemma CollidingHeads(w0: string, w1: string, c: string, cc: string, rest: string)
    requires cc == c + w1 + c
    ensures w0 + c + (w1 + cc + rest) == w0 + cc + (w1 + c + rest)
  {
    var middle := c + w1 + c + w1 + c;
    assert w0 + c + (w1 + cc + rest) == w0 + middle + rest;
    assert w0 + cc + (w1 + c + rest) == w0 + middle + rest;
  }

  /** Then the odds in front of that word and behind it can be exchanged. */
  lemma {:induction false} TextCollides(
      words: seq<string>, i: nat, z: real, zz: real, tail: string, show: real -> string)
    requires 1 <= i < |words| && show(zz) == show(z) + words[i] + show(z)
    ensures Text(words, Filled(|words|, i, z, zz), tail, show) == Text(words, Filled(|words|, i - 1, z, zz), tail, show)
    decreases i
  {
    var n := |words|;
    var x, y := Filled(n, i, z, zz), Filled(n, i - 1, z, zz);
    if i > 1 {
      TextCollides(words[1..], i - 1, z, zz, tail, show);
      assert x[1..] == Filled(n - 1, i - 1, z, zz) && y[1..] == Filled(n - 1, i - 2, z, zz);
    } else {
      var rest := Text(words[2..], x[2..], tail, show);
      assert x[2..] == y[2..] && words[1..][1..] == words[2..] && x[1..][1..] == x[2..] && y[1..][1..] == y[2..];
      CollidingHeads(words[0], words[1], show(z), show(zz), rest);
    }
  }

  function Zip(names: seq<string>, odds: seq<real>): (s: Record<real>)
    requires |names| == |odds|
    ensures |s| == |names|
  {
    if names == [] then [] else [(names[0], odds[0])] + Zip(names[1..], odds[1..])
  }

  lemma {:induction false} ZipIsBoth(names: seq<string>, odds: seq<real>)
    requires |names| == |odds|
    ensures NamesOf(Zip(names, odds)) == names && ValuesOf(Zip(names, odds)) == odds
  {
    if names != [] {
      ZipIsBoth(names[1..], odds[1..]);
      assert names == [names[0]] + names[1..] && odds == [odds[0]] + odds[1..];
    }
  }

  function Outcomes(layout: Layout): nat {
    if layout == [] then 0 else |layout[0].1| + Outcomes(layout[1..])
  }

  lemma {:induction false} WordCount(layout: Layout, before: string)
    ensures |WordsOf(layout, before)| == Outcomes(layout)
    decreases |layout|
  {
    if layout != [] { WordCount(layout[1..], if layout[0].1 == [] then before + layout[0].0 else ""); }
  }

  function Fill(layout: Layout, odds: seq<real>): seq<Market>
    requires |odds| == Outcomes(layout)
  {
    if layout == [] then []
    else
      var n := |layout[0].1|;
      [(layout[0].0, Zip(layout[0].1, odds[..n]))] + Fill(layout[1..], odds[n..])
  }

  lemma {:induction false} MarketInFront(m: Market, s: seq<Market>)
    ensures LayoutOf([m] + s) == [(m.0, NamesOf(m.1))] + LayoutOf(s)
    ensures OddsOf([m] + s) == ValuesOf(m.1) + OddsOf(s)
  {
    assert ([m] + s)[1..] == s;
  }

  lemma {:induction false} FillIsBoth(layout: Layout, odds: seq<real>)
    requires |odds| == Outcomes(layout)
    ensures LayoutOf(Fill(layout, odds)) == layout && OddsOf(Fill(layout, odds)) == odds
    decreases |layout|
  {
    if layout != [] {
      var (kind, names) := layout[0];
      var first, more, rest := odds[..|names|], odds[|names|..], layout[1..];
      FillIsBoth(rest, more);
      ZipIsBoth(names, first);
      MarketInFront((kind, Zip(names, first)), Fill(rest, more));
      assert layout == [(kind, names)] + rest && odds == first + more;
    }
  }

  ghost predicate HasLayout(s: seq<Market>, layout: Layout, nums: Numbers) {
    LayoutOf(s) == layout && AllIn(OddsOf(s), nums)
  }

  /** Different lists of markets with this layout feed different texts. */
  ghost predicate TellsOddsApart(layout: Layout, show: real -> string, nums: Numbers) {
    forall a, b ::
      HasLayout(a, layout, nums) && HasLayout(b, layout, nums) && a != b ==>
        FeedMarkets(a, show) != FeedMarkets(b, show)
  }

  lemma {:induction false} FeedOfLayout(s: seq<Market>, layout: Layout, show: real -> string)
    requires LayoutOf(s) == layout
    ensures |WordsOf(layout, "")| == |OddsOf(s)|
    ensures FeedMarkets(s, show) == Text(WordsOf(layout, ""), OddsOf(s), TailOf(layout, ""), show)
  {
    FeedIsText(s, "", show);
    assert "" + FeedMarkets(s, show) == FeedMarkets(s, show);
  }

  lemma {:induction false} SeparatedTells(
      a: seq<Market>, b: seq<Market>, layout: Layout, show: real -> string, nums: Numbers, d: Alphabet)
    requires Prints(show, nums, d) && Separated(WordsOf(layout, ""), d)
    requires HasLayout(a, layout, nums) && HasLayout(b, layout, nums)
    ensures FeedMarkets(a, show) == FeedMarkets(b, show) <==> a == b
  {
    if FeedMarkets(a, show) == FeedMarkets(b, show) {
      FeedOfLayout(a, layout, show);
      FeedOfLayout(b, layout, show);
      TextTells(WordsOf(layout, ""), OddsOf(a), OddsOf(b), TailOf(layout, ""), show, nums, d);
      LayoutAndOdds(a, b);
    }
  }

  lemma {:induction false} FilledMarkets(layout: Layout, odds: seq<real>, show: real -> string, nums: Numbers)
    requires |odds| == Outcomes(layout) && AllIn(odds, nums)
    ensures HasLayout(Fill(layout, odds), layout, nums) && OddsOf(Fill(layout, odds)) == odds
    ensures |WordsOf(layout, "")| == |odds|
    ensures FeedMarkets(Fill(layout, odds), show) == Text(WordsOf(layout, ""), odds, TailOf(layout, ""), show)
  {
    FillIsBoth(layout, odds);
    FeedOfLayout(Fill(layout, odds), layout, show);
  }

  lemma {:induction false} UnseparatedCollides(layout: Layout, i: nat, show: real -> string, nums: Numbers, d: Alphabet)
    requires Prints(show, nums, d)
    requires 1 <= i < |WordsOf(layout, "")| && RunsTogether(WordsOf(layout, "")[i], show, nums)
    ensures !TellsOddsApart(layout, show, nums)
  {
    var words := WordsOf(layout, "");
    var z, zz :| z in nums && zz in nums && show(zz) == show(z) + words[i] + show(z);
    PrintsTwo(show, nums, d, z, zz);
    var x, y := Filled(|words|, i, z, zz), Filled(|words|, i - 1, z, zz);
    WordCount(layout, "");
    FilledMarkets(layout, x, show, nums);
    FilledMarkets(layout, y, show, nums);
    TextCollides(words, i, z, zz, TailOf(layout, ""), show);
    assert |show(zz)| > |show(z)| && x[i] != y[i];
  }

  /**
   * With given kinds and names the feed tells all odds apart if and only if every word between two odds has a
   * character that no number is printed with. (Of every other word it is enough to know that some number is
   * printed as another one on both sides of the word, as 212 is 2 on both sides of the word 1.)
   */
  lemma {:induction false} FeedTellsOddsApartIff(layout: Layout, show: real -> string, nums: Numbers, d: Alphabet)
    requires Prints(show, nums, d)
    requires forall i :: 1 <= i < |WordsOf(layout, "")| ==>
               Separates(WordsOf(layout, "")[i], d) || RunsTogether(WordsOf(layout, "")[i], show, nums)
    ensures TellsOddsApart(layout, show, nums) <==> Separated(WordsOf(layout, ""), d)
  {
    var words := WordsOf(layout, "");
    if Separated(words, d) {
      forall a, b |
        HasLayout(a, layout, nums) && HasLayout(b, layout, nums) && FeedMarkets(a, show) == FeedMarkets(b, show)
        ensures a == b
      {
        SeparatedTells(a, b, layout, show, nums, d);
      }
    } else {
      var i :| 1 <= i < |words| && !Separates(words[i], d);
      UnseparatedCollides(layout, i, show, nums, d);
    }
  }

  /** For whole snapshots: under that condition the same text means the same markets and odds, in whatever order. */
  lemma {:induction false} FeedEqualIffReordered(
      byKind: Less, byName: Less, a: seq<Market>, b: seq<Market>, show: real -> string, nums: Numbers, d: Alphabet)
    requires ProperSnapshot(byKind, byName, a) && ProperSnapshot(byKind, byName, b)
    requires Orders(byKind, Names(a) + Names(b)) && Prints(show, nums, d)
    requires var layout := LayoutOf(Canonical(byKind, byName, a));
             && HasLayout(Canonical(byKind, byName, a), layout, nums)
             && HasLayout(Canonical(byKind, byName, b), layout, nums)
             && Separated(WordsOf(layout, ""), d)
    ensures Feed(byKind, byName, a, show) == Feed(byKind, byName, b, show) <==> Reordered(a, b)
  {
    var ca, cb := Canonical(byKind, byName, a), Canonical(byKind, byName, b);
    SeparatedTells(ca, cb, LayoutOf(ca), show, nums, d);
    CanonicalIffReordered(byKind, byName, a, b);
  }

  // ----- Different names -----

  /** A text that no number can go on into. */
  predicate Clear(s: string, d: Alphabet) {
    s == "" || s[0] !in d
  }

  /** A name without any character of a number in it. */
  predicate ClearName(name: string, d: Alphabet) {
    name != "" && FreeOf(name, d)
  }

  lemma NotLongerName(n: string, m: string, x: string, r: string, t: string, d: Alphabet)
    requires FreeOf(n, d) && FreeOf(m, d) && x != "" && Over(x, d)
    requires n + (x + r) == m + t
    ensures |m| <= |n|
  {
    var whole := n + (x + r);
    assert whole[|n|] == x[0];
    assert forall i :: 0 <= i < |m| ==> whole[i] == m[i];
  }

  lemma NotLongerNumber(x: string, y: string, r: string, t: string, d: Alphabet)
    requires Over(x, d) && Over(y, d) && Clear(r, d) && x + r == y + t
    ensures |y| <= |x|
  {
    var whole := x + r;
    assert r != "" ==> whole[|x|] == r[0];
    assert forall i :: 0 <= i < |y| ==> whole[i] == y[i];
    assert |whole| >= |y|;
  }

  lemma SameLength<T>(a: seq<T>, r: seq<T>, b: seq<T>, t: seq<T>)
    requires a + r == b + t && |a| == |b|
    ensures a == b && r == t
  {
    assert (a + r)[..|a|] == a && (b + t)[..|b|] == b && (a + r)[|a|..] == r && (b + t)[|b|..] == t;
  }

  /** A clear name, a number and a clear text can be read off their concatenation. */
  lemma SplitOutcome(n: string, m: string, x: string, y: string, r: string, t: string, d: Alphabet)
    requires FreeOf(n, d) && FreeOf(m, d) && x != "" && y != "" && Over(x, d) && Over(y, d)
    requires Clear(r, d) && Clear(t, d)
    requires n + (x + r) == m + (y + t)
    ensures n == m && x == y && r == t
  {
    NotLongerName(n, m, x, r, y + t, d);
    NotLongerName(m, n, y, t, x + r, d);
    SameLength(n, x + r, m, y + t);
    NotLongerNumber(x, y, r, t, d);
    NotLongerNumber(y, x, t, r, d);
    SameLength(x, r, y, t);
  }

  ghost predicate ClearOutcomes(s: Record<real>, nums: Numbers, d: Alphabet) {
    forall i :: 0 <= i < |s| ==> ClearName(s[i].0, d) && s[i].1 in nums
  }

  lemma {:induction false} OutcomesAreClear(
      s: Record<real>, r: string, show: real -> string, nums: Numbers, d: Alphabet)
    requires ClearOutcomes(s, nums, d) && Clear(r, d)
    ensures Clear(FeedOutcomes(s, show) + r, d)
  {
    if s == [] {
      assert "" + r == r;
    } else {
      assert ClearName(s[0].0, d);
      assert (FeedOutcomes(s, show) + r)[0] == s[0].0[0];
    }
  }

  lemma ClearRest(s: Record<real>, nums: Numbers, d: Alphabet)
    requires s != [] && ClearOutcomes(s, nums, d)
    ensures ClearOutcomes(s[1..], nums, d)
  {
    var t := s[1..];
    forall i | 0 <= i < |t| ensures ClearName(t[i].0, d) && t[i].1 in nums {
      assert t[i] == s[i + 1];
    }
  }

  lemma ThreeParts(a: string, b: string, c: string, r: string)
    ensures (a + b + c) + r == a + (b + (c + r))
  {
  }

  lemma {:induction false} OutcomesTell(
      a: Record<real>, b: Record<real>, r: string, t: string, show: real -> string, nums: Numbers, d: Alphabet)
    requires |a| == |b| && ClearOutcomes(a, nums, d) && ClearOutcomes(b, nums, d)
    requires Clear(r, d) && Clear(t, d) && Prints(show, nums, d)
    requires FeedOutcomes(a, show) + r == FeedOutcomes(b, show) + t
    ensures a == b && r == t
  {
    if a == [] {
      assert "" + r == r && "" + t == t;
    } else {
      var x, y, as_, bs := a[0], b[0], a[1..], b[1..];
      assert ClearName(x.0, d) && ClearName(y.0, d) && x.1 in nums && y.1 in nums;
      PrintsTwo(show, nums, d, x.1, y.1);
      ThreeParts(x.0, show(x.1), FeedOutcomes(as_, show), r);
      ThreeParts(y.0, show(y.1), FeedOutcomes(bs, show), t);
      ClearRest(a, nums, d);
      ClearRest(b, nums, d);
      OutcomesAreClear(as_, r, show, nums, d);
      OutcomesAreClear(bs, t, show, nums, d);
      SplitOutcome(x.0, y.0, show(x.1), show(y.1), FeedOutcomes(as_, show) + r, FeedOutcomes(bs, show) + t, d);
      OutcomesTell(as_, bs, r, t, show, nums, d);
      assert a == [x] + as_ && b == [y] + bs;
    }
  }

  predicate ClearKind(kind: string, d: Alphabet) {
    kind != "" && kind[0] !in d
  }

  /** The same kinds, each with the same number of outcomes, and kinds and names from which numbers are told apart. */
  ghost predicate ClearMarkets(a: seq<Market>, b: seq<Market>, nums: Numbers, d: Alphabet)
    decreases |a|
  {
    |a| == |b| && (a != [] ==>
      && a[0].0 == b[0].0 && ClearKind(a[0].0, d) && |a[0].1| == |b[0].1|
      && ClearOutcomes(a[0].1, nums, d) && ClearOutcomes(b[0].1, nums, d)
      && ClearMarkets(a[1..], b[1..], nums, d))
  }

  lemma {:induction false} MarketsAreClear(
      a: seq<Market>, b: seq<Market>, show: real -> string, nums: Numbers, d: Alphabet)
    requires ClearMarkets(a, b, nums, d)
    ensures Clear(FeedMarkets(a, show), d) && Clear(FeedMarkets(b, show), d)
  {
    if a != [] {
      assert FeedMarkets(a, show)[0] == a[0].0[0] && FeedMarkets(b, show)[0] == b[0].0[0];
    }
  }

  /**
   * Where names may differ: names without characters of numbers, and kinds that do not start with one, are
   * told apart as well, provided that each kind has the same number of outcomes on both sides.
   */
  lemma {:induction false} FeedTellsNamesApart(
      a: seq<Market>, b: seq<Market>, show: real -> string, nums: Numbers, d: Alphabet)
    requires Prints(show, nums, d) && ClearMarkets(a, b, nums, d)
    ensures FeedMarkets(a, show) == FeedMarkets(b, show) <==> a == b
    decreases |a|
  {
    if a != [] && FeedMarkets(a, show) == FeedMarkets(b, show) {
      var kind, r, t := a[0].0, FeedMarkets(a[1..], show), FeedMarkets(b[1..], show);
      Regroup(kind, FeedOutcomes(a[0].1, show), r);
      Regroup(kind, FeedOutcomes(b[0].1, show), t);
      SamePrefix(kind, FeedOutcomes(a[0].1, show) + r, FeedOutcomes(b[0].1, show) + t);
      MarketsAreClear(a[1..], b[1..], show, nums, d);
      OutcomesTell(a[0].1, b[0].1, r, t, show, nums, d);
      FeedTellsNamesApart(a[1..], b[1..], show, nums, d);
      assert a == [a[0]] + a[1..] && b == [b[0]] + b[1..];
    }
  }

  // ----- Snapshots that feed the same text -----

  lemma {:induction false} FeedOfTwo(kind: string, n: string, x: real, m: string, y: real, show: real -> string)
    ensures FeedMarkets([(kind, [(n, x), (m, y)])], show) == kind + (n + show(x) + (m + show(y)))
  {
    var s: Record<real> := [(n, x), (m, y)];
    var market: Market := (kind, s);
    assert s[1..] == [(m, y)] && s[1..][1..] == [] && [market][1..] == [];
    assert FeedOutcomes(s[1..], show) == m + show(y) + "" == m + show(y);
    assert FeedMarkets([market], show) == kind + FeedOutcomes(s, show) + "";
  }

  lemma {:induction false} CanonicalOfTwo(
      byKind: Less, byName: Less, kind: string, n: string, x: real, m: string, y: real)
    requires !byName(m, n)
    ensures Canonical(byKind, byName, [(kind, [(n, x), (m, y)])]) == [(kind, [(n, x), (m, y)])]
  {
    var s: Record<real> := [(n, x), (m, y)];
    var market: Market := (kind, s);
    assert s[1..] == [(m, y)] && s[1..][1..] == [] && [market][1..] == [];
    assert Sort(byName, s[1..]) == s[1..];
    assert Sort(byName, s) == [(n, x)] + s[1..] == s;
    assert Sort(byKind, [market]) == [market];
    assert Normals(byName, [market]) == [market];
  }

  /** One market, the same outcomes 1 and 2: odds of 2 and 25, and odds of 22 and 5, feed the same text. */
  lemma {:induction false} DigitNamesRunTogether(byKind: Less, byName: Less, kind: string, show: real -> string)
    requires byName("1", "2") && !byName("2", "1")
    requires show(2.0) == "2" && show(25.0) == "25" && show(22.0) == "22" && show(5.0) == "5"
    ensures Feed(byKind, byName, [(kind, [("1", 2.0), ("2", 25.0)])], show) == kind + "12225"
    ensures Feed(byKind, byName, [(kind, [("1", 22.0), ("2", 5.0)])], show) == kind + "12225"
  {
    CanonicalOfTwo(byKind, byName, kind, "1", 2.0, "2", 25.0);
    CanonicalOfTwo(byKind, byName, kind, "1", 22.0, "2", 5.0);
    FeedOfTwo(kind, "1", 2.0, "2", 25.0, show);
    FeedOfTwo(kind, "1", 22.0, "2", 5.0, show);
    assert "1" + "2" + ("2" + "25") == "12225" && "1" + "22" + ("2" + "5") == "12225";
  }

  lemma {:induction false} OutcomesOfOne(n: string, x: real, show: real -> string)
    ensures FeedOutcomes([(n, x)], show) == n + show(x)
  {
    assert [(n, x)][1..] == [];
    assert n + show(x) + "" == n + show(x);
  }

  lemma {:induction false} OutcomesOfTwo(n: string, x: real, m: string, y: real, show: real -> string)
    ensures FeedOutcomes([(n, x), (m, y)], show) == n + show(x) + (m + show(y))
  {
    OutcomesOfOne(m, y, show);
    assert [(n, x), (m, y)][1..] == [(m, y)];
  }

  lemma {:induction false} FeedOfOneMarket(l: string, p: string, z: real, show: real -> string)
    ensures FeedMarkets([(l, [(p, z)])], show) == l + (p + show(z))
  {
    var market: Market := (l, [(p, z)]);
    OutcomesOfOne(p, z, show);
    assert [market][1..] == [];
    assert l + (p + show(z)) + "" == l + (p + show(z));
  }

  lemma SevenParts(k: string, n: string, x: string, l: string, m: string, y: string, p: string, z: string)
    ensures k + (n + x + (l + m + y)) + (l + (p + z)) == k + (n + x) + (l + (m + y + (l + p + z)))
  {
  }

  /**
   * Nor does the feed show where a market begins: its kind and first name may belong to one name of the market
   * before.
   */
  lemma {:induction false} MarketsRunTogether(k: string, l: string, n: string, m: string, p: string,
                                              x: real, y: real, z: real, show: real -> string)
    ensures FeedMarkets([(k, [(n, x), (l + m, y)]), (l, [(p, z)])], show)
            == FeedMarkets([(k, [(n, x)]), (l, [(m, y), (l + p, z)])], show)
  {
    var a, b := [(k, [(n, x), (l + m, y)]), (l, [(p, z)])], [(k, [(n, x)]), (l, [(m, y), (l + p, z)])];
    assert a[1..] == [(l, [(p, z)])] && b[1..] == [(l, [(m, y), (l + p, z)])];
    FeedOfTwo(l, m, y, l + p, z, show);
    FeedOfOneMarket(l, p, z, show);
    OutcomesOfTwo(n, x, l + m, y, show);
    OutcomesOfOne(n, x, show);
    SevenParts(k, n, show(x), l, m, show(y), p, show(z));
  }
}
