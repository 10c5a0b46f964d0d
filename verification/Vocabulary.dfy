/** Over which kinds and names the ingester's hash input tells all lists of markets apart. */
module Vocabulary {
  import opened Common
  import opened SnapshotText
  import opened SnapshotFeed

  type Words = iset<string>

  ghost predicate OutcomesOver(s: Record<real>, names: Words, nums: Numbers) {
    s != [] && forall i :: 0 <= i < |s| ==> s[i].0 in names && s[i].1 in nums
  }

  /** Markets with outcomes, all in the vocabulary. */
  ghost predicate ListOver(s: seq<Market>, kinds: Words, names: Words, nums: Numbers) {
    forall i :: 0 <= i < |s| ==> s[i].0 in kinds && OutcomesOver(s[i].1, names, nums)
  }

  /** Kinds and names without characters of numbers; kinds may be empty. */
  ghost predicate ClearVocabulary(kinds: Words, names: Words, d: Alphabet) {
    (forall k :: k in kinds ==> FreeOf(k, d)) && (forall n :: n in names ==> ClearName(n, d))
  }

  /** A kind and a name written together are no name, and are another word for every other kind and name. */
  ghost predicate Unambiguous(kinds: Words, names: Words) {
    && (forall k, n :: k in kinds && n in names ==> k + n !in names)
    && (forall k, n, l, m ::
          k in kinds && n in names && l in kinds && m in names && k + n == l + m ==> k == l && n == m)
  }

  ghost predicate TellsListsApart(kinds: Words, names: Words, show: real -> string, nums: Numbers) {
    forall a, b ::
      ListOver(a, kinds, names, nums) && ListOver(b, kinds, names, nums) && a != b ==>
        FeedMarkets(a, show) != FeedMarkets(b, show)
  }

  // ----- A list of markets as words in front of odds -----

  /** A word in front of an odd: a kind and the name of its first outcome, or the name of a later outcome. */
  datatype Token = Token(kind: Option<string>, name: string)

  function WordOf(t: Token): string {
    t.kind.GetOr("") + t.name
  }

  type Entry = (Token, real)

  function Later(s: Record<real>): (r: seq<Entry>)
    ensures |r| == |s| && forall i :: 0 <= i < |s| ==> r[i] == (Token(None, s[i].0), s[i].1)
  {
    seq(|s|, i requires 0 <= i < |s| => (Token(None, s[i].0), s[i].1))
  }

  function EntriesOf(s: seq<Market>): seq<Entry> {
    if s == [] then []
    else if s[0].1 == [] then EntriesOf(s[1..])
    else [(Token(Some(s[0].0), s[0].1[0].0), s[0].1[0].1)] + Later(s[0].1[1..]) + EntriesOf(s[1..])
  }

  function Spell(entries: seq<Entry>, show: real -> string): string {
    if entries == [] then ""
    else WordOf(entries[0].0) + (show(entries[0].1) + Spell(entries[1..], show))
  }

  lemma {:induction false} SpellAppend(a: seq<Entry>, b: seq<Entry>, show: real -> string)
    ensures Spell(a + b, show) == Spell(a, show) + Spell(b, show)
  {
    if a == [] {
      assert a + b == b;
    } else {
      assert (a + b)[1..] == a[1..] + b;
      SpellAppend(a[1..], b, show);
      var w, x := WordOf(a[0].0), show(a[0].1);
      Regroup(x, Spell(a[1..], show), Spell(b, show));
      Regroup(w, x + Spell(a[1..], show), Spell(b, show));
    }
  }

  lemma {:induction false} LaterIsFed(s: Record<real>, show: real -> string)
    ensures Spell(Later(s), show) == FeedOutcomes(s, show)
  {
    if s != [] {
      assert Later(s)[1..] == Later(s[1..]);
      LaterIsFed(s[1..], show);
      assert "" + s[0].0 == s[0].0;
      Regroup(s[0].0, show(s[0].1), FeedOutcomes(s[1..], show));
    }
  }

  lemma {:induction false} SpellMarket(kind: string, s: Record<real>, show: real -> string)
    requires s != []
    ensures Spell([(Token(Some(kind), s[0].0), s[0].1)] + Later(s[1..]), show) == kind + FeedOutcomes(s, show)
  {
    var entries := [(Token(Some(kind), s[0].0), s[0].1)] + Later(s[1..]);
    assert entries[1..] == Later(s[1..]);
    LaterIsFed(s[1..], show);
    Regroup(kind, s[0].0, show(s[0].1) + FeedOutcomes(s[1..], show));
    Regroup(s[0].0, show(s[0].1), FeedOutcomes(s[1..], show));
  }

  lemma RestOver(s: seq<Market>, kinds: Words, names: Words, nums: Numbers)
    requires s != [] && ListOver(s, kinds, names, nums)
    ensures ListOver(s[1..], kinds, names, nums)
    ensures s[0].0 in kinds && OutcomesOver(s[0].1, names, nums)
  {
    var t := s[1..];
    forall i | 0 <= i < |t| ensures t[i].0 in kinds && OutcomesOver(t[i].1, names, nums) { assert t[i] == s[i + 1]; }
  }

  /** The feed spells the entries. */
  lemma {:induction false} FeedIsSpelled(
      s: seq<Market>, kinds: Words, names: Words, show: real -> string, nums: Numbers)
    requires ListOver(s, kinds, names, nums)
    ensures FeedMarkets(s, show) == Spell(EntriesOf(s), show)
  {
    if s != [] {
      RestOver(s, kinds, names, nums);
      FeedIsSpelled(s[1..], kinds, names, show, nums);
      SpellMarket(s[0].0, s[0].1, show);
      SpellAppend([(Token(Some(s[0].0), s[0].1[0].0), s[0].1[0].1)] + Later(s[0].1[1..]), EntriesOf(s[1..]), show);
    }
  }

  ghost predicate EntryOver(e: Entry, kinds: Words, names: Words, nums: Numbers) {
    (e.0.kind.Some? ==> e.0.kind.value in kinds) && e.0.name in names && e.1 in nums
  }

  ghost predicate EntriesOver(entries: seq<Entry>, kinds: Words, names: Words, nums: Numbers) {
    forall i :: 0 <= i < |entries| ==> EntryOver(entries[i], kinds, names, nums)
  }

  lemma {:induction false} EntriesAreOver(s: seq<Market>, kinds: Words, names: Words, nums: Numbers)
    requires ListOver(s, kinds, names, nums)
    ensures EntriesOver(EntriesOf(s), kinds, names, nums)
  {
    if s != [] {
      RestOver(s, kinds, names, nums);
      EntriesAreOver(s[1..], kinds, names, nums);
      var o := s[0].1;
      forall i | 0 <= i < |o[1..]| ensures EntryOver(Later(o[1..])[i], kinds, names, nums) {
        assert o[1..][i] == o[i + 1];
      }
    }
  }

  // ----- Spelled entries can be read off -----

  lemma WordIsClear(t: Token, kinds: Words, names: Words, d: Alphabet)
    requires ClearVocabulary(kinds, names, d) && (t.kind.Some? ==> t.kind.value in kinds) && t.name in names
    ensures ClearName(WordOf(t), d)
  {
    assert ClearName(t.name, d);
    if t.kind.Some? { assert FreeOf(t.kind.value, d); }
  }

  lemma {:induction false} SpelledIsClear(
      entries: seq<Entry>, kinds: Words, names: Words, show: real -> string, nums: Numbers, d: Alphabet)
    requires ClearVocabulary(kinds, names, d) && EntriesOver(entries, kinds, names, nums)
    ensures Clear(Spell(entries, show), d)
    ensures entries != [] ==> Spell(entries, show) != ""
  {
    if entries != [] {
      assert EntryOver(entries[0], kinds, names, nums);
      WordIsClear(entries[0].0, kinds, names, d);
      assert Spell(entries, show)[0] == WordOf(entries[0].0)[0];
    }
  }

  ghost predicate InVocabulary(t: Token, kinds: Words, names: Words) {
    (t.kind.Some? ==> t.kind.value in kinds) && t.name in names
  }

  ghost predicate TokensTold(kinds: Words, names: Words) {
    forall t, u: Token ::
      InVocabulary(t, kinds, names) && InVocabulary(u, kinds, names) && WordOf(t) == WordOf(u) ==> t == u
  }

  lemma UnambiguousTells(kinds: Words, names: Words)
    requires Unambiguous(kinds, names)
    ensures TokensTold(kinds, names)
  {
    forall t, u: Token | InVocabulary(t, kinds, names) && InVocabulary(u, kinds, names) && WordOf(t) == WordOf(u)
      ensures t == u
    {
      assert "" + t.name == t.name && "" + u.name == u.name;
    }
  }

  lemma RestOfEntries(a: seq<Entry>, kinds: Words, names: Words, nums: Numbers)
    requires a != [] && EntriesOver(a, kinds, names, nums)
    ensures EntriesOver(a[1..], kinds, names, nums) && EntryOver(a[0], kinds, names, nums)
  {
    var t := a[1..];
    forall i | 0 <= i < |t| ensures EntryOver(t[i], kinds, names, nums) { assert t[i] == a[i + 1]; }
  }

  lemma {:induction false} SpelledTells(a: seq<Entry>, b: seq<Entry>, kinds: Words, names: Words, show: real -> string,
                                        nums: Numbers, d: Alphabet)
    requires Prints(show, nums, d) && ClearVocabulary(kinds, names, d) && TokensTold(kinds, names)
    requires EntriesOver(a, kinds, names, nums) && EntriesOver(b, kinds, names, nums)
    requires Spell(a, show) == Spell(b, show)
    ensures a == b
  {
    SpelledIsClear(a, kinds, names, show, nums, d);
    SpelledIsClear(b, kinds, names, show, nums, d);
    if a != [] {
      var x, y := a[0], b[0];
      RestOfEntries(a, kinds, names, nums);
      RestOfEntries(b, kinds, names, nums);
      WordIsClear(x.0, kinds, names, d);
      WordIsClear(y.0, kinds, names, d);
      SpelledIsClear(a[1..], kinds, names, show, nums, d);
      SpelledIsClear(b[1..], kinds, names, show, nums, d);
      PrintsTwo(show, nums, d, x.1, y.1);
      SplitOutcome(WordOf(x.0), WordOf(y.0), show(x.1), show(y.1), Spell(a[1..], show), Spell(b[1..], show), d);
      assert InVocabulary(x.0, kinds, names) && InVocabulary(y.0, kinds, names);
      SpelledTells(a[1..], b[1..], kinds, names, show, nums, d);
      assert a == [x] + a[1..] && b == [y] + b[1..];
    }
  }

  // ----- The entries are the list -----

  lemma {:induction false} EntriesStart(s: seq<Market>, kinds: Words, names: Words, nums: Numbers)
    requires ListOver(s, kinds, names, nums)
    ensures EntriesOf(s) != [] <==> s != []
    ensures s != [] ==> EntriesOf(s)[0].0.kind.Some?
  {
    if s != [] { RestOver(s, kinds, names, nums); }
  }

  lemma LaterIsNotLonger(x: Record<real>, y: Record<real>, r: seq<Entry>, t: seq<Entry>)
    requires Later(x) + r == Later(y) + t
    requires r != [] ==> r[0].0.kind.Some?
    ensures |y| <= |x|
  {
    var whole := Later(x) + r;
    assert |whole| >= |y|;
    assert forall i :: 0 <= i < |y| ==> whole[i] == Later(y)[i];
    assert r != [] ==> whole[|x|] == r[0];
  }

  lemma SameLater(x: Record<real>, y: Record<real>, r: seq<Entry>, t: seq<Entry>)
    requires Later(x) + r == Later(y) + t
    requires (r != [] ==> r[0].0.kind.Some?) && (t != [] ==> t[0].0.kind.Some?)
    ensures x == y && r == t
  {
    LaterIsNotLonger(x, y, r, t);
    LaterIsNotLonger(y, x, t, r);
    SameLength(Later(x), r, Later(y), t);
    forall i | 0 <= i < |x| ensures x[i] == y[i] { assert Later(x)[i] == Later(y)[i]; }
  }

  lemma FirstAndRest(kind: string, x: Record<real>, r: seq<Entry>)
    requires x != []
    ensures var entries := [(Token(Some(kind), x[0].0), x[0].1)] + Later(x[1..]) + r;
            entries[0] == (Token(Some(kind), x[0].0), x[0].1) && entries[1..] == Later(x[1..]) + r
  {
  }

  lemma {:induction false} EntriesTell(a: seq<Market>, b: seq<Market>, kinds: Words, names: Words, nums: Numbers)
    requires ListOver(a, kinds, names, nums) && ListOver(b, kinds, names, nums)
    requires EntriesOf(a) == EntriesOf(b)
    ensures a == b
  {
    EntriesStart(a, kinds, names, nums);
    EntriesStart(b, kinds, names, nums);
    if a != [] {
      RestOver(a, kinds, names, nums);
      RestOver(b, kinds, names, nums);
      var x, y, r, t := a[0].1, b[0].1, EntriesOf(a[1..]), EntriesOf(b[1..]);
      FirstAndRest(a[0].0, x, r);
      FirstAndRest(b[0].0, y, t);
      EntriesStart(a[1..], kinds, names, nums);
      EntriesStart(b[1..], kinds, names, nums);
      SameLater(x[1..], y[1..], r, t);
      EntriesTell(a[1..], b[1..], kinds, names, nums);
      assert x == [x[0]] + x[1..] && y == [y[0]] + y[1..];
      assert a == [a[0]] + a[1..] && b == [b[0]] + b[1..];
    }
  }

  // ----- Lists that feed the same text -----

  lemma {:induction false} OneOutcome(kind: string, name: string, x: real, kinds: Words, names: Words, nums: Numbers)
    requires kind in kinds && name in names && x in nums
    ensures ListOver([(kind, [(name, x)])], kinds, names, nums)
  {
    assert OutcomesOver([(name, x)], names, nums);
  }

  lemma {:induction false} SameWordCollides(k: string, n: string, l: string, m: string, x: real,
                                            kinds: Words, names: Words, show: real -> string, nums: Numbers)
    requires k in kinds && l in kinds && n in names && m in names && x in nums
    requires k + n == l + m && !(k == l && n == m)
    ensures !TellsListsApart(kinds, names, show, nums)
  {
    var a, b: seq<Market> := [(k, [(n, x)])], [(l, [(m, x)])];
    OneOutcome(k, n, x, kinds, names, nums);
    OneOutcome(l, m, x, kinds, names, nums);
    FeedOfOneMarket(k, n, x, show);
    FeedOfOneMarket(l, m, x, show);
    Regroup(k, n, show(x));
    Regroup(l, m, show(x));
    assert a[0] != b[0];
  }

  lemma TwoMarkets(k: string, n: string, x: string)
    ensures k + (n + x) + (k + (n + x)) == k + (n + x + (k + n + x))
  {
  }

  /** A later outcome named like a kind with its first outcome: does the market go on, or does the next one begin? */
  lemma {:induction false} NameCollides(
      k: string, n: string, x: real, kinds: Words, names: Words, show: real -> string, nums: Numbers)
    requires k in kinds && n in names && k + n in names && x in nums
    ensures !TellsListsApart(kinds, names, show, nums)
  {
    var m := k + n;
    var a, b: seq<Market> := [(k, [(n, x)]), (k, [(n, x)])], [(k, [(n, x), (m, x)])];
    OneOutcome(k, n, x, kinds, names, nums);
    assert ListOver(a, kinds, names, nums);
    assert OutcomesOver([(n, x), (m, x)], names, nums);
    assert ListOver(b, kinds, names, nums);
    assert a[1..] == [(k, [(n, x)])] && b[1..] == [];
    FeedOfOneMarket(k, n, x, show);
    OutcomesOfOne(n, x, show);
    FeedOfTwo(k, n, x, m, x, show);
    TwoMarkets(k, n, show(x));
    assert |a| != |b|;
  }

  lemma {:induction false} UnambiguousListsTell(
      a: seq<Market>, b: seq<Market>, kinds: Words, names: Words, show: real -> string, nums: Numbers, d: Alphabet)
    requires Prints(show, nums, d) && ClearVocabulary(kinds, names, d) && Unambiguous(kinds, names)
    requires ListOver(a, kinds, names, nums) && ListOver(b, kinds, names, nums)
    ensures FeedMarkets(a, show) == FeedMarkets(b, show) <==> a == b
  {
    if FeedMarkets(a, show) == FeedMarkets(b, show) {
      FeedIsSpelled(a, kinds, names, show, nums);
      FeedIsSpelled(b, kinds, names, show, nums);
      EntriesAreOver(a, kinds, names, nums);
      EntriesAreOver(b, kinds, names, nums);
      UnambiguousTells(kinds, names);
      SpelledTells(EntriesOf(a), EntriesOf(b), kinds, names, show, nums, d);
      EntriesTell(a, b, kinds, names, nums);
    }
  }

  /**
   * For kinds and names without characters of numbers: the feed tells all lists of markets with outcomes over this
   * vocabulary apart, names, numbers of outcomes and odds included, if and only if the vocabulary is unambiguous.
   */
  lemma {:induction false} FeedTellsListsApartIff(
      kinds: Words, names: Words, show: real -> string, nums: Numbers, d: Alphabet)
    requires Prints(show, nums, d) && ClearVocabulary(kinds, names, d) && exists x :: x in nums
    ensures TellsListsApart(kinds, names, show, nums) <==> Unambiguous(kinds, names)
  {
    if Unambiguous(kinds, names) {
      forall a, b |
        && ListOver(a, kinds, names, nums) && ListOver(b, kinds, names, nums)
        && FeedMarkets(a, show) == FeedMarkets(b, show)
        ensures a == b
      {
        UnambiguousListsTell(a, b, kinds, names, show, nums, d);
      }
    } else {
      var x :| x in nums;
      if k, n :| k in kinds && n in names && k + n in names {
        NameCollides(k, n, x, kinds, names, show, nums);
      } else {
        var k, n, l, m :| k in kinds && n in names && l in kinds && m in names && k + n == l + m && !(k == l && n == m);
        SameWordCollides(k, n, l, m, x, kinds, names, show, nums);
      }
    }
  }

  lemma {:induction false} SortedOutcomesOver(s: Record<real>, byName: Less, names: Words, nums: Numbers)
    requires OutcomesOver(s, names, nums)
    ensures OutcomesOver(Sort(byName, s), names, nums)
  {
    var t := Sort(byName, s);
    SortKeeps(byName, s);
    assert s[0] in multiset(t);
    forall i | 0 <= i < |t| ensures t[i].0 in names && t[i].1 in nums {
      assert t[i] in multiset(s);
    }
  }

  lemma {:induction false} CanonicalOver(
      byKind: Less, byName: Less, s: seq<Market>, kinds: Words, names: Words, nums: Numbers)
    requires ListOver(s, kinds, names, nums)
    ensures ListOver(Canonical(byKind, byName, s), kinds, names, nums)
  {
    var t := Sort(byKind, s);
    SortKeeps(byKind, s);
    forall i | 0 <= i < |t| ensures t[i].0 in kinds && OutcomesOver(Sort(byName, t[i].1), names, nums) {
      assert t[i] in multiset(s);
      SortedOutcomesOver(t[i].1, byName, names, nums);
    }
  }

  /**
   * For whole snapshots over an unambiguous vocabulary the same text means the same markets and odds, in
   * whatever order.
   */
  lemma {:induction false} VocabularyFeedIffReordered(
      byKind: Less, byName: Less, a: seq<Market>, b: seq<Market>, kinds: Words, names: Words, show: real -> string,
      nums: Numbers, d: Alphabet)
    requires ProperSnapshot(byKind, byName, a) && ProperSnapshot(byKind, byName, b)
    requires Orders(byKind, Names(a) + Names(b))
    requires Prints(show, nums, d) && ClearVocabulary(kinds, names, d) && Unambiguous(kinds, names)
    requires ListOver(a, kinds, names, nums) && ListOver(b, kinds, names, nums)
    ensures Feed(byKind, byName, a, show) == Feed(byKind, byName, b, show) <==> Reordered(a, b)
  {
    var ca, cb := Canonical(byKind, byName, a), Canonical(byKind, byName, b);
    CanonicalOver(byKind, byName, a, kinds, names, nums);
    CanonicalOver(byKind, byName, b, kinds, names, nums);
    UnambiguousListsTell(ca, cb, kinds, names, show, nums, d);
    CanonicalIffReordered(byKind, byName, a, b);
  }
}
