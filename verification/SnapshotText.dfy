/** The text that is fed to the snapshot hash, and its independence from the order of markets and outcomes. */
module SnapshotText {
  import opened Common

  type Market = (string, Record<real>)

  /** The comparison that a sort is called with. */
  type Less = (string, string) -> bool

  /** On the given names the comparison is a strict total order. */
  ghost predicate Orders(less: Less, names: set<string>) {
    && (forall a :: a in names ==> !less(a, a))
    && (forall a, b :: a in names && b in names && a != b ==> less(a, b) || less(b, a))
    && (forall a, b, c :: a in names && b in names && c in names && less(a, b) && less(b, c) ==> less(a, c))
  }

  ghost function Names<V>(s: Record<V>): set<string> {
    set i | 0 <= i < |s| :: s[i].0
  }

  ghost predicate Sorted<V>(less: Less, s: Record<V>) {
    forall i, j :: 0 <= i < j < |s| ==> less(s[i].0, s[j].0)
  }

  function Insert<V>(less: Less, x: (string, V), s: Record<V>): Record<V> {
    if s == [] || !less(s[0].0, x.0) then [x] + s else [s[0]] + Insert(less, x, s[1..])
  }

  /** A stable sort by name; any other stable sort with the same comparison gives the same list. */
  function Sort<V>(less: Less, s: Record<V>): (r: Record<V>) {
    if s == [] then [] else Insert(less, s[0], Sort(less, s[1..]))
  }

  lemma {:induction false} InsertKeeps<V>(less: Less, x: (string, V), s: Record<V>)
    ensures multiset(Insert(less, x, s)) == multiset(s) + multiset{x}
  {
    if s != [] && less(s[0].0, x.0) {
      InsertKeeps(less, x, s[1..]);
      assert s == [s[0]] + s[1..];
    }
  }

  lemma {:induction false} SortKeeps<V>(less: Less, s: Record<V>)
    ensures multiset(Sort(less, s)) == multiset(s)
  {
    if s != [] {
      SortKeeps(less, s[1..]);
      InsertKeeps(less, s[0], Sort(less, s[1..]));
      assert s == [s[0]] + s[1..];
    }
  }

  lemma HeadBeforeInserted<V>(less: Less, x: (string, V), s: Record<V>)
    requires s != [] && Sorted(less, s) && less(s[0].0, x.0)
    ensures forall j :: 0 <= j < |Insert(less, x, s[1..])| ==> less(s[0].0, Insert(less, x, s[1..])[j].0)
  {
    var t, r := s[1..], Insert(less, x, s[1..]);
    InsertKeeps(less, x, t);
    forall j | 0 <= j < |r| ensures less(s[0].0, r[j].0) {
      assert r[j] in multiset(r);
      if r[j] != x {
        assert r[j] in multiset(t);
        var i :| 0 <= i < |t| && t[i] == r[j];
        assert s[i + 1] == r[j];
      }
    }
  }

  lemma {:induction false} InsertSorts<V>(less: Less, x: (string, V), s: Record<V>, names: set<string>)
    requires Orders(less, names) && x.0 in names && Names(s) <= names
    requires Sorted(less, s) && forall i :: 0 <= i < |s| ==> s[i].0 != x.0
    ensures Sorted(less, Insert(less, x, s))
  {
    if s != [] {
      assert s[0].0 in Names(s);
      var t := s[1..];
      assert Names(t) <= names by {
        forall n | n in Names(t) ensures n in names {
          var i :| 0 <= i < |t| && t[i].0 == n;
          assert s[i + 1].0 in Names(s);
        }
      }
      if less(s[0].0, x.0) {
        InsertSorts(less, x, t, names);
        HeadBeforeInserted(less, x, s);
      } else {
        forall j | 0 <= j < |s| ensures less(x.0, s[j].0) {
          assert s[j].0 in Names(s);
        }
      }
    }
  }

  lemma NamesOfTail<V>(s: Record<V>)
    requires s != []
    ensures Names(s[1..]) <= Names(s) && (DistinctKeys(s) ==> DistinctKeys(s[1..]))
  {
    forall n | n in Names(s[1..]) ensures n in Names(s) {
      var i :| 0 <= i < |s[1..]| && s[1..][i].0 == n;
      assert s[i + 1].0 == n;
    }
  }

  lemma {:induction false} SortSorts<V>(less: Less, s: Record<V>, names: set<string>)
    requires Orders(less, names) && Names(s) <= names && DistinctKeys(s)
    ensures Sorted(less, Sort(less, s))
  {
    if s != [] {
      var t := s[1..];
      NamesOfTail(s);
      SortSorts(less, t, names);
      SortKeeps(less, t);
      var r := Sort(less, t);
      assert s[0].0 in Names(s);
      forall i | 0 <= i < |r| ensures r[i].0 != s[0].0 && r[i].0 in Names(t) {
        assert r[i] in multiset(r);
        var j :| 0 <= j < |t| && t[j] == r[i];
        assert s[j + 1] == r[i];
      }
      InsertSorts(less, s[0], r, names);
    }
  }

  lemma CancelOne<T>(a: multiset<T>, b: multiset<T>, x: T)
    ensures a + multiset{x} == b + multiset{x} <==> a == b
  {
    if a + multiset{x} == b + multiset{x} {
      assert a == (a + multiset{x}) - multiset{x};
      assert b == (b + multiset{x}) - multiset{x};
    }
  }

  function Without<T>(s: seq<T>, k: nat): (r: seq<T>)
    requires k < |s|
    ensures |r| == |s| - 1
    ensures forall j :: 0 <= j < |r| ==> r[j] == s[if j < k then j else j + 1]
  {
    s[..k] + s[k + 1..]
  }

  lemma {:induction false} MultisetWithout<T>(s: seq<T>, k: nat)
    requires k < |s|
    ensures multiset(s) == multiset(Without(s, k)) + multiset{s[k]}
  {
    assert s == s[..k] + [s[k]] + s[k + 1..];
  }

  lemma IndexIn<T>(s: seq<T>, x: T) returns (k: nat)
    requires x in multiset(s)
    ensures k < |s| && s[k] == x
  {
    k :| 0 <= k < |s| && s[k] == x;
  }

  lemma {:induction false} WithoutEqual<T>(a: seq<T>, i: nat, b: seq<T>, k: nat)
    requires i < |a| && k < |b| && a[i] == b[k]
    ensures multiset(a) == multiset(b) <==> multiset(Without(a, i)) == multiset(Without(b, k))
  {
    MultisetWithout(a, i);
    MultisetWithout(b, k);
    CancelOne(multiset(Without(a, i)), multiset(Without(b, k)), a[i]);
  }

  /** Equal entries of the first two lists stand where the other two have equal entries. */
  ghost predicate Carries<U(!new), V(!new)>(a: seq<U>, b: seq<U>, c: seq<V>, d: seq<V>) {
    && |a| == |c| && |b| == |d|
    && forall i, j :: 0 <= i < |a| && 0 <= j < |b| && a[i] == b[j] ==> c[i] == d[j]
  }

  lemma {:induction false} CarryOver<U(!new), V(!new)>(a: seq<U>, b: seq<U>, c: seq<V>, d: seq<V>)
    requires Carries(a, b, c, d)
    requires multiset(a) == multiset(b)
    ensures multiset(c) == multiset(d)
    decreases |a|
  {
    assert |multiset(a)| == |a| && |multiset(b)| == |b|;
    if a != [] {
      assert a[0] in multiset(a);
      var k := IndexIn(b, a[0]);
      WithoutEqual(a, 0, b, k);
      WithoutEqual(c, 0, d, k);
      CarryOver(Without(a, 0), Without(b, k), Without(c, 0), Without(d, k));
    }
  }

  lemma FirstIsLeast<V>(less: Less, s: Record<V>, k: nat)
    requires Sorted(less, s) && k < |s|
    ensures k == 0 || less(s[0].0, s[k].0)
    ensures s[0].0 in Names(s)
  {
  }

  lemma SortedHeadsAgree<V>(less: Less, a: Record<V>, b: Record<V>, names: set<string>)
    requires Orders(less, names) && Names(a) <= names && Names(b) <= names
    requires Sorted(less, a) && Sorted(less, b) && multiset(a) == multiset(b)
    requires a != [] && b != []
    ensures a[0] == b[0]
  {
    assert a[0] in multiset(a) && b[0] in multiset(b);
    var k := IndexIn(b, a[0]);
    var m := IndexIn(a, b[0]);
    FirstIsLeast(less, a, m);
    FirstIsLeast(less, b, k);
  }

  lemma SortedTail<V>(less: Less, s: Record<V>)
    requires s != [] && Sorted(less, s)
    ensures Sorted(less, s[1..])
  {
    var t := s[1..];
    forall i, j | 0 <= i < j < |t| ensures less(t[i].0, t[j].0) {
      assert t[i] == s[i + 1] && t[j] == s[j + 1];
    }
  }

  lemma SortedRests<V>(less: Less, a: Record<V>, b: Record<V>)
    requires a != [] && b != [] && a[0] == b[0]
    requires Sorted(less, a) && Sorted(less, b) && multiset(a) == multiset(b)
    ensures Sorted(less, a[1..]) && Sorted(less, b[1..]) && multiset(a[1..]) == multiset(b[1..])
  {
    SortedTail(less, a);
    SortedTail(less, b);
    WithoutEqual(a, 0, b, 0);
    assert Without(a, 0) == a[1..] && Without(b, 0) == b[1..];
  }

  /** Two sorted lists of the same entries are the same list. */
  lemma {:induction false} SortedIsUnique<V>(less: Less, a: Record<V>, b: Record<V>, names: set<string>)
    requires Orders(less, names) && Names(a) <= names && Names(b) <= names
    requires Sorted(less, a) && Sorted(less, b) && multiset(a) == multiset(b)
    ensures a == b
    decreases |a|
  {
    assert |multiset(a)| == |a| && |multiset(b)| == |b|;
    if a != [] {
      SortedHeadsAgree(less, a, b, names);
      SortedRests(less, a, b);
      NamesOfTail(a);
      NamesOfTail(b);
      SortedIsUnique(less, a[1..], b[1..], names);
      assert a == [a[0]] + a[1..] && b == [b[0]] + b[1..];
    }
  }

  /** A market with its outcomes in sorted order. */
  function Normal(byName: Less, m: Market): Market {
    (m.0, Sort(byName, m.1))
  }

  function Normals(byName: Less, s: seq<Market>): (r: seq<Market>)
    ensures |r| == |s| && forall i :: 0 <= i < |s| ==> r[i] == Normal(byName, s[i])
  {
    seq(|s|, i requires 0 <= i < |s| => Normal(byName, s[i]))
  }

  /** The order in which the hash input lists a snapshot: markets by kind, outcomes by name. */
  function Canonical(byKind: Less, byName: Less, s: seq<Market>): seq<Market> {
    Normals(byName, Sort(byKind, s))
  }

  /** What of a market does not depend on the order of its outcomes. */
  ghost function Shape(m: Market): (string, multiset<(string, real)>) {
    (m.0, multiset(m.1))
  }

  ghost function Shapes(s: seq<Market>): (r: seq<(string, multiset<(string, real)>)>)
    ensures |r| == |s| && forall i :: 0 <= i < |s| ==> r[i] == Shape(s[i])
  {
    seq(|s|, i requires 0 <= i < |s| => Shape(s[i]))
  }

  /** The same markets with the same outcomes, both in any order. */
  ghost predicate Reordered(a: seq<Market>, b: seq<Market>) {
    multiset(Shapes(a)) == multiset(Shapes(b))
  }

  ghost predicate Proper(byName: Less, m: Market) {
    DistinctKeys(m.1) && Orders(byName, Names(m.1))
  }

  /** A snapshot as the sorts need it: kinds and outcome names are told apart by the comparisons. */
  ghost predicate ProperSnapshot(byKind: Less, byName: Less, s: seq<Market>) {
    DistinctKeys(s) && Orders(byKind, Names(s)) && forall i :: 0 <= i < |s| ==> Proper(byName, s[i])
  }

  lemma NamesOfSame<V>(a: Record<V>, b: Record<V>)
    requires multiset(a) == multiset(b)
    ensures Names(a) == Names(b)
  {
    forall n | n in Names(a) ensures n in Names(b) {
      var i :| 0 <= i < |a| && a[i].0 == n;
      assert a[i] in multiset(b);
    }
    forall n | n in Names(b) ensures n in Names(a) {
      var i :| 0 <= i < |b| && b[i].0 == n;
      assert b[i] in multiset(a);
    }
  }

  /** Sorting forgets the order of the outcomes and nothing else. */
  lemma {:induction false} NormalIffShape(byName: Less, m: Market, n: Market)
    requires Proper(byName, m) && Proper(byName, n)
    ensures Normal(byName, m) == Normal(byName, n) <==> Shape(m) == Shape(n)
  {
    SortKeeps(byName, m.1);
    SortKeeps(byName, n.1);
    if multiset(m.1) == multiset(n.1) {
      NamesOfSame(m.1, n.1);
      NamesOfSame(Sort(byName, m.1), m.1);
      NamesOfSame(Sort(byName, n.1), n.1);
      SortSorts(byName, m.1, Names(m.1));
      SortSorts(byName, n.1, Names(n.1));
      SortedIsUnique(byName, Sort(byName, m.1), Sort(byName, n.1), Names(m.1));
    }
  }

  /** Markets of the same shapes have the same normal forms, counted with multiplicity, and the other way round. */
  lemma NormalsIffShapes(byName: Less, a: seq<Market>, b: seq<Market>)
    requires forall i :: 0 <= i < |a| ==> Proper(byName, a[i])
    requires forall i :: 0 <= i < |b| ==> Proper(byName, b[i])
    ensures multiset(Normals(byName, a)) == multiset(Normals(byName, b)) <==> Reordered(a, b)
  {
    var na, nb, sa, sb := Normals(byName, a), Normals(byName, b), Shapes(a), Shapes(b);
    forall i, j | 0 <= i < |a| && 0 <= j < |b| ensures na[i] == nb[j] <==> sa[i] == sb[j] {
      NormalIffShape(byName, a[i], b[j]);
    }
    if multiset(na) == multiset(nb) { CarryOver(na, nb, sa, sb); }
    if multiset(sa) == multiset(sb) { CarryOver(sa, sb, na, nb); }
  }

  lemma NormalsKeepNames(byKind: Less, byName: Less, t: seq<Market>)
    ensures Names(Normals(byName, t)) == Names(t)
    ensures Sorted(byKind, t) ==> Sorted(byKind, Normals(byName, t))
  {
    var c := Normals(byName, t);
    forall n | n in Names(c) ensures n in Names(t) {
      var i :| 0 <= i < |c| && c[i].0 == n;
      assert t[i].0 == n;
    }
    forall n | n in Names(t) ensures n in Names(c) {
      var i :| 0 <= i < |t| && t[i].0 == n;
      assert c[i].0 == n;
    }
  }

  lemma {:induction false} CanonicalOfSorted(byKind: Less, byName: Less, s: seq<Market>)
    requires ProperSnapshot(byKind, byName, s)
    ensures var t := Sort(byKind, s);
            && multiset(t) == multiset(s) && |t| == |s|
            && (forall i :: 0 <= i < |t| ==> Proper(byName, t[i]))
            && Sorted(byKind, Normals(byName, t))
            && Names(Normals(byName, t)) == Names(s)
  {
    var t := Sort(byKind, s);
    SortKeeps(byKind, s);
    SortSorts(byKind, s, Names(s));
    NamesOfSame(t, s);
    assert |multiset(t)| == |t| && |multiset(s)| == |s|;
    forall i | 0 <= i < |t| ensures Proper(byName, t[i]) {
      assert t[i] in multiset(s);
    }
    NormalsKeepNames(byKind, byName, t);
  }

  lemma PermutedIsReordered(a: seq<Market>, b: seq<Market>)
    requires multiset(a) == multiset(b)
    ensures Reordered(a, b)
  {
    CarryOver(a, b, Shapes(a), Shapes(b));
  }

  /** The canonical order is a normal form: two snapshots share it exactly when they differ in order only. */
  lemma {:induction false} CanonicalIffReordered(byKind: Less, byName: Less, a: seq<Market>, b: seq<Market>)
    requires ProperSnapshot(byKind, byName, a) && ProperSnapshot(byKind, byName, b)
    requires Orders(byKind, Names(a) + Names(b))
    ensures Canonical(byKind, byName, a) == Canonical(byKind, byName, b) <==> Reordered(a, b)
  {
    var ta, tb := Sort(byKind, a), Sort(byKind, b);
    CanonicalOfSorted(byKind, byName, a);
    CanonicalOfSorted(byKind, byName, b);
    NormalsIffShapes(byName, ta, tb);
    PermutedIsReordered(ta, a);
    PermutedIsReordered(tb, b);
    if Reordered(a, b) {
      SortedIsUnique(byKind, Canonical(byKind, byName, a), Canonical(byKind, byName, b), Names(a) + Names(b));
    }
  }

  // ----- The two texts -----

  function Join(parts: seq<string>, sep: string): string {
    if parts == [] then "" else if |parts| == 1 then parts[0] else parts[0] + sep + Join(parts[1..], sep)
  }

  function Members(s: Record<real>, quote: string -> string, show: real -> string): seq<string> {
    if s == [] then [] else [quote(s[0].0) + ":" + show(s[0].1)] + Members(s[1..], quote, show)
  }

  function Sections(s: seq<Market>, quote: string -> string, show: real -> string): seq<string> {
    if s == [] then []
    else [s[0].0 + ":{" + Join(Members(s[0].1, quote, show), ",") + "}"] + Sections(s[1..], quote, show)
  }

  /** The worker's text: `kind:{"name":odd,...}` for each market, joined by bars. */
  function WorkerText(
      byKind: Less, byName: Less, s: seq<Market>, quote: string -> string, show: real -> string): string {
    Join(Sections(Canonical(byKind, byName, s), quote, show), "|")
  }

  function FeedOutcomes(s: Record<real>, show: real -> string): string {
    if s == [] then "" else s[0].0 + show(s[0].1) + FeedOutcomes(s[1..], show)
  }

  function FeedMarkets(s: seq<Market>, show: real -> string): string {
    if s == [] then "" else s[0].0 + FeedOutcomes(s[0].1, show) + FeedMarkets(s[1..], show)
  }

  /** The ingester's feed: kind, then name and odd of each outcome, without anything in between. */
  function Feed(byKind: Less, byName: Less, s: seq<Market>, show: real -> string): string {
    FeedMarkets(Canonical(byKind, byName, s), show)
  }

  method FeedOneMarket(fed0: string, outcomes: Record<real>, show: real -> string) returns (fed: string)
    ensures fed == fed0 + FeedOutcomes(outcomes, show)
  {
    fed := fed0;
    for j := 0 to |outcomes|
      invariant fed + FeedOutcomes(outcomes[j..], show) == fed0 + FeedOutcomes(outcomes, show)
    {
      ghost var rest := FeedOutcomes(outcomes[j + 1..], show);
      assert outcomes[j..][0] == outcomes[j] && outcomes[j..][1..] == outcomes[j + 1..];
      assert fed + (outcomes[j].0 + show(outcomes[j].1) + rest) == fed + outcomes[j].0 + show(outcomes[j].1) + rest;
      fed := fed + outcomes[j].0;
      fed := fed + show(outcomes[j].1);
    }
    assert outcomes[|outcomes|..] == [];
  }

  lemma FeedStep(s: seq<Market>, i: nat, fed: string, show: real -> string)
    requires i < |s|
    ensures fed + FeedMarkets(s[i..], show)
            == fed + s[i].0 + FeedOutcomes(s[i].1, show) + FeedMarkets(s[i + 1..], show)
  {
    assert s[i..][0] == s[i] && s[i..][1..] == s[i + 1..];
    Regroup(fed, s[i].0, FeedOutcomes(s[i].1, show));
    Regroup(fed, s[i].0 + FeedOutcomes(s[i].1, show), FeedMarkets(s[i + 1..], show));
  }

  /** The ingester feeds the hash piece by piece. */
  method ComputeOddsFeed(byKind: Less, byName: Less, markets: seq<Market>, show: real -> string) returns (fed: string)
    ensures fed == Feed(byKind, byName, markets, show)
  {
    fed := "";
    var sorted := Sort(byKind, markets);
    ghost var canonical := Normals(byName, sorted);
    for i := 0 to |sorted|
      invariant fed + FeedMarkets(canonical[i..], show) == FeedMarkets(canonical, show)
    {
      FeedStep(canonical, i, fed, show);
      fed := fed + sorted[i].0;
      fed := FeedOneMarket(fed, Sort(byName, sorted[i].1), show);
    }
    assert canonical[|sorted|..] == [];
  }

  /** Reordering markets and outcomes changes neither text. */
  lemma TextsIgnoreOrder(byKind: Less, byName: Less, a: seq<Market>, b: seq<Market>,
                         quote: string -> string, show: real -> string)
    requires ProperSnapshot(byKind, byName, a) && ProperSnapshot(byKind, byName, b)
    requires Orders(byKind, Names(a) + Names(b))
    requires Reordered(a, b)
    ensures WorkerText(byKind, byName, a, quote, show) == WorkerText(byKind, byName, b, quote, show)
    ensures Feed(byKind, byName, a, show) == Feed(byKind, byName, b, show)
  {
    CanonicalIffReordered(byKind, byName, a, b);
  }

  lemma FeedOfOne(byKind: Less, byName: Less, kind: string, name: string, odd: real, show: real -> string)
    ensures Feed(byKind, byName, [(kind, [(name, odd)])], show) == kind + (name + show(odd))
  {
    var m: Market := (kind, [(name, odd)]);
    assert [(name, odd)][1..] == [] && [m][1..] == [];
    assert Sort(byName, m.1) == m.1 && Sort(byKind, [m]) == [m];
    assert Normals(byName, [m]) == [m];
    assert FeedOutcomes(m.1, show) == name + show(odd) + "" == name + show(odd);
    assert FeedMarkets([m], show) == kind + FeedOutcomes(m.1, show) + "";
  }

  /**
   * The feed puts nothing between a name and an odd, so it does not tell every two snapshots apart:
   * "a" at 12 and "a1" at 2 feed the hash the same text.
   */
  lemma FeedRunsTogether(byKind: Less, byName: Less, kind: string, show: real -> string)
    requires show(12.0) == "12" && show(2.0) == "2"
    ensures Feed(byKind, byName, [(kind, [("a", 12.0)])], show) == Feed(byKind, byName, [(kind, [("a1", 2.0)])], show)
    ensures !Reordered([(kind, [("a", 12.0)])], [(kind, [("a1", 2.0)])])
  {
    FeedOfOne(byKind, byName, kind, "a", 12.0, show);
    FeedOfOne(byKind, byName, kind, "a1", 2.0, show);
    var a: seq<Market>, b: seq<Market> := [(kind, [("a", 12.0)])], [(kind, [("a1", 2.0)])];
    assert ("a", 12.0) in multiset(a[0].1) && ("a", 12.0) !in multiset(b[0].1);
    assert Shapes(a)[0] in multiset(Shapes(a)) && Shapes(a)[0] != Shapes(b)[0];
    if Shapes(a)[0] in multiset(Shapes(b)) {
      var k := IndexIn(Shapes(b), Shapes(a)[0]);
    }
  }

  lemma {:induction false} SortOfTwo<V>(less: Less, a: (string, V), b: (string, V))
    requires less(a.0, b.0)
    ensures Sort(less, [b, a]) == [a, b]
  {
    assert [b, a][1..] == [a] && [a][1..] == [];
    assert Sort(less, [a]) == [a];
    assert Insert(less, b, [a]) == [a] + Insert(less, b, [a][1..]) == [a, b];
  }

  lemma {:induction false} SortOfOne<V>(less: Less, a: (string, V))
    ensures Sort(less, [a]) == [a]
  {
    assert [a][1..] == [];
  }

  lemma {:induction false} MembersOfTwo(
      n: string, x: real, m: string, y: real, quote: string -> string, show: real -> string)
    ensures Join(Members([(n, x), (m, y)], quote, show), ",")
         == quote(n) + ":" + show(x) + "," + (quote(m) + ":" + show(y))
  {
    var s: Record<real> := [(n, x), (m, y)];
    assert s[1..] == [(m, y)] && s[1..][1..] == [];
    var a, b := quote(n) + ":" + show(x), quote(m) + ":" + show(y);
    assert Members(s[1..], quote, show) == [b] + Members(s[1..][1..], quote, show) == [b];
    assert Members(s, quote, show) == [a] + [b] == [a, b];
    assert [a, b][1..] == [b];
  }

  lemma {:induction false} MembersOfOne(n: string, x: real, quote: string -> string, show: real -> string)
    ensures Join(Members([(n, x)], quote, show), ",") == quote(n) + ":" + show(x)
  {
    var s: Record<real> := [(n, x)];
    assert s[1..] == [];
    assert Members(s, quote, show) == [quote(n) + ":" + show(x)] + [];
  }

  lemma {:induction false} SectionsOfTwo(a: Market, b: Market, quote: string -> string, show: real -> string)
    ensures Join(Sections([a, b], quote, show), "|")
         == a.0 + ":{" + Join(Members(a.1, quote, show), ",") + "}" + "|"
          + (b.0 + ":{" + Join(Members(b.1, quote, show), ",") + "}")
  {
    var x := a.0 + ":{" + Join(Members(a.1, quote, show), ",") + "}";
    var y := b.0 + ":{" + Join(Members(b.1, quote, show), ",") + "}";
    assert [a, b][1..] == [b] && [b][1..] == [];
    assert Sections([b], quote, show) == [y] + Sections([b][1..], quote, show) == [y];
    assert Sections([a, b], quote, show) == [x] + [y] == [x, y];
    assert [x, y][1..] == [y];
  }

  /** The form of the worker's text, spelled out for two markets that come in the wrong order. */
  lemma {:induction false} WorkerTextOfTwo(
      byKind: Less, byName: Less, k: string, n: string, x: real, m: string, y: real, l: string, p: string, z: real,
      quote: string -> string, show: real -> string)
    requires byKind(k, l) && byName(n, m)
    ensures WorkerText(byKind, byName, [(l, [(p, z)]), (k, [(m, y), (n, x)])], quote, show)
         == k + ":{" + (quote(n) + ":" + show(x) + "," + (quote(m) + ":" + show(y))) + "}" + "|"
          + (l + ":{" + (quote(p) + ":" + show(z)) + "}")
  {
    var a, b: Market := (k, [(m, y), (n, x)]), (l, [(p, z)]);
    var one: Record<real> := [(p, z)];
    SortOfTwo(byKind, a, b);
    SortOfTwo(byName, (n, x), (m, y));
    SortOfOne(byName, one[0]);
    assert Normals(byName, [a, b]) == [(k, [(n, x), (m, y)]), (l, one)];
    SectionsOfTwo((k, [(n, x), (m, y)]), (l, one), quote, show);
    MembersOfTwo(n, x, m, y, quote, show);
    MembersOfOne(p, z, quote, show);
  }
}
