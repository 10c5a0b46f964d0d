/** The stake tables that the check and the stake calculator return, entry by entry. */
module Stakes {
  import opened Common
  import opened Market
  import opened Consistency
  import opened Arbitrage

  /** All entries of a table in a row. */
  function Entries(table: Record<Record<real>>): Record<real> {
    if table == [] then [] else table[0].1 + Entries(table[1..])
  }

  lemma {:induction false} EntriesSnoc(table: Record<Record<real>>, key: string, r: Record<real>)
    ensures Entries(table + [(key, r)]) == Entries(table) + r
  {
    if table == [] {
      assert [(key, r)][1..] == [];
    } else {
      assert (table + [(key, r)])[1..] == table[1..] + [(key, r)];
      EntriesSnoc(table[1..], key, r);
      Regroup(table[0].1, Entries(table[1..]), r);
    }
  }

  ghost predicate DistinctKinds(markets: seq<MarketOdds>) {
    forall i, j :: 0 <= i < j < |markets| ==> markets[i].kind != markets[j].kind
  }

  lemma {:induction false} MapValuesAppend(a: Record<real>, b: Record<real>, f: real -> real)
    ensures MapValues(a + b, f) == MapValues(a, f) + MapValues(b, f)
  {
  }

  /** With distinct kinds the table holds one stake for every outcome, in order. */
  lemma {:induction false} TableOfDistinctKinds(probs: seq<MarketOdds>, stake: real -> real)
    requires DistinctKinds(probs)
    ensures |StakeTable(probs, stake)| == |probs|
    ensures forall i :: 0 <= i < |probs| ==> StakeTable(probs, stake)[i].0 == probs[i].kind
    ensures Entries(StakeTable(probs, stake)) == MapValues(Flat(probs), stake)
  {
    if probs != [] {
      var n := |probs| - 1;
      var before, last := StakeTable(probs[..n], stake), probs[n];
      TableOfDistinctKinds(probs[..n], stake);
      forall i | 0 <= i < n ensures before[i].0 != last.kind {
        assert probs[..n][i] == probs[i];
      }
      PutNew(before, last.kind, MapValues(last.outcomes, stake));
      EntriesSnoc(before, last.kind, MapValues(last.outcomes, stake));
      FlatSnoc(probs, n);
      assert probs[..n + 1] == probs;
      MapValuesAppend(Flat(probs[..n]), last.outcomes, stake);
    }
  }

  /** For distinct market kinds the check's stakes are the best allocation: one unit in all, each outcome paying 1/S. */
  lemma CheckReturnsBestStakes(markets: seq<MarketOdds>, kinds: seq<string>)
    requires var odds := SelectedOdds(markets, kinds); ImpliedSum(odds) < 1.0 && odds != []
    requires DistinctKinds(Selected(markets, kinds))
    ensures var odds := SelectedOdds(markets, kinds);
            var x := Entries(StakeTable(Probabilities(Selected(markets, kinds)), Share(ImpliedSum(odds))));
            && SureProfit(x, odds) && ImpliedSum(odds) > 0.0
            && (forall i :: 0 <= i < |odds| ==> x[i].0 == odds[i].0 && Payoff(x, odds, i) == 1.0 / ImpliedSum(odds))
            && (forall y :: UnitAllocation(y, odds) ==>
                  exists i :: 0 <= i < |odds| && Payoff(y, odds, i) <= 1.0 / ImpliedSum(odds))
  {
    var selected := Selected(markets, kinds);
    var odds := Flat(selected);
    var probs := Probabilities(selected);
    TableOfDistinctKinds(probs, Share(ImpliedSum(odds)));
    ImpliedFlat(selected, probs);
    ProportionalIsUnit(odds);
    var x := Entries(StakeTable(probs, Share(ImpliedSum(odds))));
    assert x == Proportional(odds);
    SumIsPositive(odds);
    forall i | 0 <= i < |odds|
      ensures Payoff(x, odds, i) == 1.0 / ImpliedSum(odds) && Payoff(x, odds, i) > 1.0
    {
      ProportionalPaysEvenly(odds, i);
    }
    forall y | UnitAllocation(y, odds)
      ensures exists i :: 0 <= i < |odds| && Payoff(y, odds, i) <= 1.0 / ImpliedSum(odds)
    {
      NoAllocationDoesBetter(odds, y);
    }
  }

  /** The market at k is shadowed: a later one of the same kind takes its place in the table. */
  predicate Shadowed(markets: seq<MarketOdds>, k: nat)
    requires k < |markets|
  {
    exists j :: k < j < |markets| && markets[j].kind == markets[k].kind
  }

  /** The probability that the table accounts for: that of the markets that are not shadowed. */
  function Kept(probs: seq<MarketOdds>): real {
    if probs == [] then 0.0
    else (if Shadowed(probs, 0) then 0.0 else Total(probs[0].outcomes)) + Kept(probs[1..])
  }

  /** The total of the last market of a kind. */
  function LastOf(probs: seq<MarketOdds>, kind: string): real {
    if probs == [] then 0.0
    else if probs[|probs| - 1].kind == kind then Total(probs[|probs| - 1].outcomes)
    else LastOf(probs[..|probs| - 1], kind)
  }

  lemma {:induction false} LastOfAbsent(probs: seq<MarketOdds>, kind: string)
    requires forall j :: 0 <= j < |probs| ==> probs[j].kind != kind
    ensures LastOf(probs, kind) == 0.0
  {
    if probs != [] { LastOfAbsent(probs[..|probs| - 1], kind); }
  }

  lemma {:induction false} LastOfBehindFirst(probs: seq<MarketOdds>, kind: string)
    requires probs != []
    ensures LastOf(probs, kind)
         == if (exists j :: 1 <= j < |probs| && probs[j].kind == kind) || probs[0].kind != kind
            then LastOf(probs[1..], kind) else Total(probs[0].outcomes)
  {
    var n := |probs| - 1;
    if n > 0 {
      assert probs[..n][1..] == probs[1..][..n - 1];
      LastOfBehindFirst(probs[..n], kind);
    }
  }

  lemma ShadowedSnoc(probs: seq<MarketOdds>, m: MarketOdds)
    requires probs != []
    ensures Shadowed(probs + [m], 0) <==> Shadowed(probs, 0) || probs[0].kind == m.kind
  {
    var all := probs + [m];
    assert all[|probs|] == m;
    if j :| 0 < j < |probs| && probs[j].kind == probs[0].kind { assert all[j].kind == all[0].kind; }
  }

  lemma {:induction false} KeptSnoc(probs: seq<MarketOdds>, m: MarketOdds)
    ensures Kept(probs + [m]) == Kept(probs) - LastOf(probs, m.kind) + Total(m.outcomes)
  {
    var all := probs + [m];
    if probs == [] {
      assert all[1..] == [];
    } else {
      assert all[1..] == probs[1..] + [m];
      KeptSnoc(probs[1..], m);
      LastOfBehindFirst(probs, m.kind);
      assert all[|probs|] == m;
      assert forall j :: 0 <= j < |probs| ==> all[j] == probs[j];
      if probs[0].kind == m.kind && !Shadowed(probs, 0) {
        forall j | 0 <= j < |probs[1..]| ensures probs[1..][j].kind != m.kind {
          assert probs[1..][j] == probs[j + 1];
        }
        LastOfAbsent(probs[1..], m.kind);
      }
      ShadowedSnoc(probs, m);
    }
  }

  /** The total that a table holds under a key. */
  function TotalAt(table: Record<Record<real>>, key: string): real {
    if table == [] then 0.0
    else if table[0].0 == key then Total(table[0].1)
    else TotalAt(table[1..], key)
  }

  lemma {:induction false} PutReplaces(table: Record<Record<real>>, key: string, r: Record<real>, other: string)
    ensures Total(Entries(Put(table, key, r))) == Total(Entries(table)) - TotalAt(table, key) + Total(r)
    ensures TotalAt(Put(table, key, r), other) == if other == key then Total(r) else TotalAt(table, other)
  {
    var put := Put(table, key, r);
    TotalAppend(put[0].1, Entries(put[1..]));
    if table == [] {
      assert put[1..] == [];
    } else {
      TotalAppend(table[0].1, Entries(table[1..]));
      if table[0].0 == key {
        assert put[1..] == table[1..];
      } else {
        assert put[1..] == Put(table[1..], key, r);
        PutReplaces(table[1..], key, r, other);
      }
    }
  }

  lemma ShareTotal(r: Record<real>, s: real)
    requires s > 0.0
    ensures Total(MapValues(r, Share(s))) == Total(r) / s
  {
    forall i | 0 <= i < |r| ensures r[i].1 / s == Times(r[i].1, 1.0 / s) { DivideIsScale(r[i].1, s); }
    assert MapValues(r, Share(s)) == Scale(r, 1.0 / s);
    TotalScale(r, 1.0 / s);
    DivideIsScale(Total(r), s);
  }

  lemma {:induction false} LastOfSnoc(before: seq<MarketOdds>, last: MarketOdds, kind: string)
    ensures LastOf(before + [last], kind) == if last.kind == kind then Total(last.outcomes) else LastOf(before, kind)
  {
    assert (before + [last])[..|before|] == before;
  }

  lemma QuotientSum(a: real, b: real, c: real, s: real)
    requires s > 0.0
    ensures a / s - b / s + c / s == (a - b + c) / s
  {
  }

  lemma {:induction false} TableSnoc(
      before: seq<MarketOdds>, last: MarketOdds, table: Record<Record<real>>, s: real, kind: string)
    requires s > 0.0 && Total(Entries(table)) == Kept(before) / s
    requires TotalAt(table, last.kind) == LastOf(before, last.kind) / s
    requires TotalAt(table, kind) == LastOf(before, kind) / s
    ensures var more := Put(table, last.kind, MapValues(last.outcomes, Share(s)));
            && Total(Entries(more)) == Kept(before + [last]) / s
            && TotalAt(more, kind) == LastOf(before + [last], kind) / s
  {
    PutReplaces(table, last.kind, MapValues(last.outcomes, Share(s)), kind);
    ShareTotal(last.outcomes, s);
    KeptSnoc(before, last);
    QuotientSum(Kept(before), LastOf(before, last.kind), Total(last.outcomes), s);
    LastOfSnoc(before, last, kind);
  }

  lemma {:induction false} TableTotal(probs: seq<MarketOdds>, s: real, kind: string)
    requires s > 0.0
    ensures Total(Entries(StakeTable(probs, Share(s)))) == Kept(probs) / s
    ensures TotalAt(StakeTable(probs, Share(s)), kind) == LastOf(probs, kind) / s
  {
    if probs != [] {
      var before, last := probs[..|probs| - 1], probs[|probs| - 1];
      assert probs == before + [last];
      TableTotal(before, s, kind);
      TableTotal(before, s, last.kind);
      TableSnoc(before, last, StakeTable(before, Share(s)), s, kind);
    }
  }

  ghost predicate Positive(probs: seq<MarketOdds>) {
    forall i, j :: 0 <= i < |probs| && 0 <= j < |probs[i].outcomes| ==> probs[i].outcomes[j].1 > 0.0
  }

  ghost predicate ShadowedAreEmpty(probs: seq<MarketOdds>) {
    forall k :: 0 <= k < |probs| && Shadowed(probs, k) ==> probs[k].outcomes == []
  }

  lemma RestIsPositive(probs: seq<MarketOdds>)
    requires probs != [] && Positive(probs)
    ensures Positive(probs[1..])
  {
    var rest := probs[1..];
    forall i, j | 0 <= i < |rest| && 0 <= j < |rest[i].outcomes| ensures rest[i].outcomes[j].1 > 0.0 {
      assert rest[i] == probs[i + 1];
    }
  }

  lemma FirstIsPositive(probs: seq<MarketOdds>)
    requires probs != [] && Positive(probs)
    ensures forall j :: 0 <= j < |probs[0].outcomes| ==> probs[0].outcomes[j].1 > 0.0
  {
  }

  lemma ShadowedInRest(probs: seq<MarketOdds>, k: nat)
    requires k + 1 < |probs|
    ensures Shadowed(probs[1..], k) <==> Shadowed(probs, k + 1)
  {
    var rest := probs[1..];
    if j :| k < j < |rest| && rest[j].kind == rest[k].kind { assert probs[j + 1].kind == probs[k + 1].kind; }
    if j :| k + 1 < j < |probs| && probs[j].kind == probs[k + 1].kind { assert rest[j - 1].kind == rest[k].kind; }
  }

  lemma {:induction false} KeptIsAllIff(probs: seq<MarketOdds>)
    requires Positive(probs)
    ensures Kept(probs) <= Total(Flat(probs))
    ensures Kept(probs) == Total(Flat(probs)) <==> ShadowedAreEmpty(probs)
  {
    if probs != [] {
      var rest := probs[1..];
      RestIsPositive(probs);
      KeptIsAllIff(rest);
      TotalAppend(probs[0].outcomes, Flat(rest));
      FirstIsPositive(probs);
      TotalOfPositive(probs[0].outcomes);
      forall k | 0 <= k < |rest| ensures Shadowed(rest, k) <==> Shadowed(probs, k + 1) {
        ShadowedInRest(probs, k);
      }
      if ShadowedAreEmpty(probs) {
        forall k | 0 <= k < |rest| && Shadowed(rest, k) ensures rest[k].outcomes == [] {
          assert rest[k] == probs[k + 1] && Shadowed(probs, k + 1);
        }
      }
      if ShadowedAreEmpty(rest) && (Shadowed(probs, 0) ==> probs[0].outcomes == []) {
        forall k | 0 <= k < |probs| && Shadowed(probs, k) ensures probs[k].outcomes == [] {
          if k > 0 { assert rest[k - 1] == probs[k] && Shadowed(rest, k - 1); }
        }
      }
    }
  }

  lemma QuotientIsOne(a: real, s: real)
    requires s > 0.0
    ensures a / s == 1.0 <==> a == s
  {
    if a / s == 1.0 { assert a == (a / s) * s; }
  }

  lemma ShadowedOfProbabilities(markets: seq<MarketOdds>)
    ensures ShadowedAreEmpty(Probabilities(markets)) <==> ShadowedAreEmpty(markets)
  {
    var probs := Probabilities(markets);
    forall k | 0 <= k < |markets|
      ensures Shadowed(probs, k) <==> Shadowed(markets, k)
      ensures probs[k].outcomes == [] <==> markets[k].outcomes == []
    {
      if j :| k < j < |markets| && markets[j].kind == markets[k].kind { assert probs[j].kind == probs[k].kind; }
      if j :| k < j < |probs| && probs[j].kind == probs[k].kind { assert markets[j].kind == markets[k].kind; }
    }
  }

  lemma {:induction false} StakedTotal(selected: seq<MarketOdds>)
    requires Flat(selected) != []
    ensures var probs, s := Probabilities(selected), ImpliedSum(Flat(selected));
            Total(Entries(StakeTable(probs, Share(s)))) == 1.0 <==> ShadowedAreEmpty(selected)
  {
    var probs, s := Probabilities(selected), ImpliedSum(Flat(selected));
    ImpliedFlat(selected, probs);
    SumIsPositive(Flat(selected));
    TableTotal(probs, s, "");
    KeptIsAllIff(probs);
    ShadowedOfProbabilities(selected);
    QuotientIsOne(Kept(probs), s);
  }

  lemma {:induction false} PutEmpty(table: Record<Record<real>>, key: string)
    requires forall i :: 0 <= i < |table| ==> table[i].1 == []
    ensures forall i :: 0 <= i < |Put(table, key, [])| ==> Put(table, key, [])[i].1 == []
    ensures Entries(Put(table, key, [])) == [] && Entries(table) == []
  {
    if table != [] {
      PutEmpty(table[1..], key);
      if table[0].0 != key { assert Put(table, key, [])[1..] == Put(table[1..], key, []); }
    } else {
      assert Put(table, key, [])[1..] == [];
    }
  }

  lemma {:induction false} NothingToStake(probs: seq<MarketOdds>, stake: real -> real)
    requires Flat(probs) == []
    ensures Total(Entries(StakeTable(probs, stake))) == 0.0
    ensures forall i :: 0 <= i < |StakeTable(probs, stake)| ==> StakeTable(probs, stake)[i].1 == []
  {
    if probs != [] {
      var n := |probs| - 1;
      assert probs[..n + 1] == probs;
      FlatSnoc(probs, n);
      NothingToStake(probs[..n], stake);
      PutEmpty(StakeTable(probs[..n], stake), probs[n].kind);
      assert MapValues(probs[n].outcomes, stake) == [];
    }
  }

  /**
   * For flagged markets the returned stakes sum to one exactly when there is an outcome to stake on
   * and every market that a later one of the same kind replaces in the table is without outcomes.
   */
  lemma StakesSumToOneIff(markets: seq<MarketOdds>, kinds: seq<string>)
    requires ImpliedSum(SelectedOdds(markets, kinds)) < 1.0
    ensures var selected := Selected(markets, kinds);
            var odds := Flat(selected);
            var stakes := Entries(StakeTable(Probabilities(selected), Share(ImpliedSum(odds))));
            Total(stakes) == 1.0 <==> odds != [] && ShadowedAreEmpty(selected)
  {
    var selected := Selected(markets, kinds);
    if Flat(selected) != [] {
      StakedTotal(selected);
    } else {
      ImpliedFlat(selected, Probabilities(selected));
      NothingToStake(Probabilities(selected), Share(ImpliedSum([])));
    }
  }

  lemma TwoQuarters(odds: Record<real>)
    requires odds == [("a", 4.0), ("b", 4.0)]
    ensures ImpliedSum(odds) == 0.5
  {
    var p := ImpliedRecord(odds);
    assert p[1..] == [("b", 0.25)] && p[1..][1..] == [];
    assert Total(p[1..]) == 0.25 + Total(p[1..][1..]);
  }

  /** Two markets of one type: the second takes the place of the first, and half of the stake is missing. */
  lemma {:induction false} RepeatedTypeLosesStake()
    ensures var first, second := MarketOdds("m", [("a", 4.0)]), MarketOdds("m", [("b", 4.0)]);
            var selected := Selected([first, second], ["m"]);
            var s := ImpliedSum(Flat(selected));
            s == 0.5 && StakeTable(Probabilities(selected), Share(s)) == [("m", [("b", 0.5)])]
  {
    var first, second := MarketOdds("m", [("a", 4.0)]), MarketOdds("m", [("b", 4.0)]);
    var both := [first, second];
    assert both[1..] == [second] && [second][1..] == [];
    assert Selected([second], ["m"]) == [second];
    assert Selected(both, ["m"]) == both;
    assert Flat([second]) == second.outcomes + [];
    assert Flat(both) == [("a", 4.0), ("b", 4.0)];
    TwoQuarters(Flat(both));
    var probs := Probabilities(both);
    assert probs[..1] == [probs[0]] && probs[..1][..0] == [];
    var x := MapValues(probs[0].outcomes, Share(0.5));
    assert StakeTable(probs[..1], Share(0.5)) == [("m", x)];
    assert MapValues(probs[1].outcomes, Share(0.5)) == [("b", 0.5)];
    assert Put([("m", x)], "m", [("b", 0.5)]) == [("m", [("b", 0.5)])] + [("m", x)][1..];
  }

  // ----- What the returned stakes pay on each outcome -----

  function Get<V>(r: Record<V>, key: string): Option<V> {
    if r == [] then None else if r[0].0 == key then Some(r[0].1) else Get(r[1..], key)
  }

  lemma {:induction false} GetPut<V>(r: Record<V>, key: string, value: V, other: string)
    ensures Get(Put(r, key, value), other) == if other == key then Some(value) else Get(r, other)
  {
    if r != [] && r[0].0 != key {
      assert Put(r, key, value)[1..] == Put(r[1..], key, value);
      GetPut(r[1..], key, value, other);
    }
  }

  /** The stake that the table holds for an outcome of a market. */
  function StakeOn(table: Record<Record<real>>, kind: string, name: string): real {
    Get(Get(table, kind).GetOr([]), name).GetOr(0.0)
  }

  /** The outcomes of the last market of a kind. */
  function LastMarket(markets: seq<MarketOdds>, kind: string): Record<real> {
    if markets == [] then []
    else if markets[|markets| - 1].kind == kind then markets[|markets| - 1].outcomes
    else LastMarket(markets[..|markets| - 1], kind)
  }

  lemma {:induction false} TableHasLast(markets: seq<MarketOdds>, stake: real -> real, kind: string)
    ensures Get(StakeTable(Probabilities(markets), stake), kind).GetOr([])
         == MapValues(ImpliedRecord(LastMarket(markets, kind)), stake)
  {
    if markets != [] {
      var n := |markets| - 1;
      assert Probabilities(markets)[..n] == Probabilities(markets[..n]);
      TableHasLast(markets[..n], stake, kind);
      GetPut(StakeTable(Probabilities(markets[..n]), stake), markets[n].kind,
             MapValues(ImpliedRecord(markets[n].outcomes), stake), kind);
    }
  }

  lemma {:induction false} GetMapped(r: Record<real>, stake: real -> real, name: string)
    ensures Get(MapValues(ImpliedRecord(r), stake), name)
         == match Get(r, name) case None => None case Some(o) => Some(stake(Implied(o)))
  {
    if r != [] {
      assert MapValues(ImpliedRecord(r), stake)[1..] == MapValues(ImpliedRecord(r[1..]), stake);
      GetMapped(r[1..], stake, name);
    }
  }

  lemma {:induction false} InFlat(markets: seq<MarketOdds>, i: nat, j: nat)
    requires i < |markets| && j < |markets[i].outcomes|
    ensures markets[i].outcomes[j] in Flat(markets)
  {
    if i > 0 { InFlat(markets[1..], i - 1, j); }
  }

  lemma {:induction false} GetIsEntry(r: Record<real>, name: string)
    requires Get(r, name).Some?
    ensures (name, Get(r, name).value) in r
  {
    if r[0].0 != name { GetIsEntry(r[1..], name); }
  }

  lemma {:induction false} LastMarketIn(markets: seq<MarketOdds>, kind: string)
    ensures forall e :: e in LastMarket(markets, kind) ==> e in Flat(markets)
  {
    if markets != [] {
      var n := |markets| - 1;
      LastMarketIn(markets[..n], kind);
      FlatSnoc(markets, n);
      assert markets[..n + 1] == markets;
    }
  }

  lemma {:induction false} EntryExceedsOne(odds: Record<real>, e: (string, real))
    requires ImpliedSum(odds) < 1.0 && e in odds
    ensures e.1 > 1.0 && ImpliedSum(odds) > 0.0
  {
    var i :| 0 <= i < |odds| && odds[i] == e;
    InconsistentOddsExceedOne(odds, i);
    SumIsPositive(odds);
  }

  /** What comes back from a table of stakes if outcome j of market i happens. */
  function Return(table: Record<Record<real>>, markets: seq<MarketOdds>, i: nat, j: nat): real
    requires i < |markets| && j < |markets[i].outcomes|
  {
    Times(StakeOn(table, markets[i].kind, markets[i].outcomes[j].0), markets[i].outcomes[j].1)
  }

  /** The odds that the outcome has in the last market of its kind. */
  function LastOdds(markets: seq<MarketOdds>, i: nat, j: nat): Option<real>
    requires i < |markets| && j < |markets[i].outcomes|
  {
    Get(LastMarket(markets, markets[i].kind), markets[i].outcomes[j].0)
  }

  /** The table of the check for these markets. */
  function CheckTable(markets: seq<MarketOdds>): Record<Record<real>> {
    StakeTable(Probabilities(markets), Share(ImpliedSum(Flat(markets))))
  }

  lemma QuotientTimes(t: real, p: real, s: real)
    requires s > 0.0
    ensures Times(t, p) / s == Times(p / s, t)
  {
  }

  lemma ShareTimes(last: real, s: real, odd: real)
    requires last > 1.0 && s > 0.0
    ensures Times((1.0 / last) / s, odd) == odd / last / s
  {
    assert (1.0 / last) * odd == odd / last;
    QuotientTimes(odd, 1.0 / last, s);
    assert Times(odd, 1.0 / last) == odd / last;
  }

  /**
   * An outcome pays 1/S times its odds over its odds in the last market of its kind, and nothing where it is
   * not in there.
   */
  lemma {:induction false} OutcomePays(markets: seq<MarketOdds>, i: nat, j: nat)
    requires ImpliedSum(Flat(markets)) < 1.0 && i < |markets| && j < |markets[i].outcomes|
    ensures var s := ImpliedSum(Flat(markets));
            && s > 0.0 && (LastOdds(markets, i, j).Some? ==> LastOdds(markets, i, j).value > 1.0)
            && Return(CheckTable(markets), markets, i, j)
               == match LastOdds(markets, i, j) case None => 0.0 case Some(last) => markets[i].outcomes[j].1 / last / s
  {
    var s, kind := ImpliedSum(Flat(markets)), markets[i].kind;
    var (name, odd) := markets[i].outcomes[j];
    InFlat(markets, i, j);
    EntryExceedsOne(Flat(markets), (name, odd));
    TableHasLast(markets, Share(s), kind);
    GetMapped(LastMarket(markets, kind), Share(s), name);
    if LastOdds(markets, i, j).Some? {
      var last := LastOdds(markets, i, j).value;
      GetIsEntry(LastMarket(markets, kind), name);
      LastMarketIn(markets, kind);
      EntryExceedsOne(Flat(markets), (name, last));
      ShareTimes(last, s, odd);
    }
  }

  lemma {:induction false} KeptIsNotNegative(probs: seq<MarketOdds>)
    requires Positive(probs)
    ensures Kept(probs) >= 0.0
  {
    if probs != [] {
      RestIsPositive(probs);
      KeptIsNotNegative(probs[1..]);
      FirstIsPositive(probs);
      TotalOfPositive(probs[0].outcomes);
    }
  }

  ghost predicate IsOutcome(markets: seq<MarketOdds>, i: int, j: int) {
    0 <= i < |markets| && 0 <= j < |markets[i].outcomes|
  }

  /** Whatever happens, more comes back than has been staked. */
  ghost predicate PaysMoreThanStaked(table: Record<Record<real>>, markets: seq<MarketOdds>) {
    forall i, j :: IsOutcome(markets, i, j) ==> Return(table, markets, i, j) > Total(Entries(table))
  }

  /** Every outcome is in the last market of its kind, with odds not much better than its own. */
  ghost predicate LastMarketsCarry(markets: seq<MarketOdds>) {
    forall i, j :: IsOutcome(markets, i, j) ==>
      && LastOdds(markets, i, j).Some?
      && markets[i].outcomes[j].1 > Times(LastOdds(markets, i, j).value, Kept(Probabilities(markets)))
  }

  lemma LessByPositive(a: real, b: real, c: real)
    requires c > 0.0
    ensures a < b <==> Times(a, c) < Times(b, c)
  {
  }

  lemma QuotientsOrder(x: real, y: real, k: real, s: real)
    requires y > 0.0 && s > 0.0
    ensures x / y / s > k / s <==> x > Times(y, k)
  {
    var q := x / y;
    assert q * y == x;
    LessByPositive(k, q, 1.0 / s);
    LessByPositive(k, q, y);
    DivideIsScale(q, s);
    DivideIsScale(k, s);
  }

  lemma {:induction false} PaysIff(markets: seq<MarketOdds>, i: nat, j: nat)
    requires ImpliedSum(Flat(markets)) < 1.0 && IsOutcome(markets, i, j)
    ensures Return(CheckTable(markets), markets, i, j) > Total(Entries(CheckTable(markets))) <==>
              && LastOdds(markets, i, j).Some?
              && markets[i].outcomes[j].1 > Times(LastOdds(markets, i, j).value, Kept(Probabilities(markets)))
  {
    var s, kept := ImpliedSum(Flat(markets)), Kept(Probabilities(markets));
    OutcomePays(markets, i, j);
    TableTotal(Probabilities(markets), s, "");
    KeptIsNotNegative(Probabilities(markets));
    match LastOdds(markets, i, j)
    case None => QuotientsOrder(0.0, 1.0, kept, s);
    case Some(last) => QuotientsOrder(markets[i].outcomes[j].1, last, kept, s);
  }

  /**
   * With repeated kinds the stakes of a flagged check are still a sure profit if and only if every outcome is in
   * the last market of its kind and its own odds exceed those times the implied sum of the markets in the table.
   */
  lemma {:induction false} StakesAreSureProfitIff(markets: seq<MarketOdds>, kinds: seq<string>)
    requires ImpliedSum(SelectedOdds(markets, kinds)) < 1.0
    ensures var selected := Selected(markets, kinds);
            PaysMoreThanStaked(CheckTable(selected), selected) <==> LastMarketsCarry(selected)
  {
    var selected := Selected(markets, kinds);
    forall i, j | IsOutcome(selected, i, j)
      ensures Return(CheckTable(selected), selected, i, j) > Total(Entries(CheckTable(selected))) <==>
                && LastOdds(selected, i, j).Some?
                && selected[i].outcomes[j].1 > Times(LastOdds(selected, i, j).value, Kept(Probabilities(selected)))
    {
      PaysIff(selected, i, j);
    }
  }

  /** Rounding to four decimals moves a value by at most half of the last place. */
  lemma RoundedIsNear(x: real)
    ensures x - 0.00005 <= RoundTo(x, 4) <= x + 0.00005
  {
    Powers();
    RoundIsNear(Times(x, 10000.0));
  }

  lemma {:induction false} TotalsAreNear(a: Record<real>, b: Record<real>)
    requires |a| == |b| && forall i :: 0 <= i < |a| ==> a[i].1 - 0.00005 <= b[i].1 <= a[i].1 + 0.00005
    ensures Total(a) - 0.00005 * |a| as real <= Total(b) <= Total(a) + 0.00005 * |a| as real
  {
    if a != [] {
      TotalsAreNear(a[1..], b[1..]);
    }
  }

  /** The stakes for a given amount before rounding. */
  function ExactStakes(odds: Record<real>, totalStake: real): (x: Record<real>)
    ensures |x| == |odds|
  {
    Scale(Proportional(odds), totalStake)
  }

  lemma RoundedStakesAreNear(markets: seq<MarketOdds>, totalStake: real)
    requires var odds := Flat(markets); ImpliedSum(odds) < 1.0 && odds != []
    requires DistinctKinds(markets)
    ensures var odds := Flat(markets);
            var r := Entries(StakeTable(Probabilities(markets), RoundedStake(totalStake, ImpliedSum(odds))));
            && |r| == |odds|
            && forall i :: 0 <= i < |r| ==>
                 ExactStakes(odds, totalStake)[i].1 - 0.00005 <= r[i].1 <= ExactStakes(odds, totalStake)[i].1 + 0.00005
  {
    var odds := Flat(markets);
    var s, probs := ImpliedSum(odds), Probabilities(markets);
    SumIsPositive(odds);
    ImpliedFlat(markets, probs);
    TableOfDistinctKinds(probs, RoundedStake(totalStake, s));
    var r := Entries(StakeTable(probs, RoundedStake(totalStake, s)));
    assert r == MapValues(ImpliedRecord(odds), RoundedStake(totalStake, s));
    forall i | 0 <= i < |odds|
      ensures ExactStakes(odds, totalStake)[i].1 - 0.00005 <= r[i].1 <= ExactStakes(odds, totalStake)[i].1 + 0.00005
    {
      var p := Implied(odds[i].1);
      RoundedIsNear(Times(totalStake, p) / s);
      QuotientTimes(totalStake, p, s);
    }
  }

  /** The rounded stakes miss the given amount by at most half a ten-thousandth for each outcome. */
  lemma RoundedStakesSum(markets: seq<MarketOdds>, totalStake: real)
    requires var odds := Flat(markets); ImpliedSum(odds) < 1.0 && odds != []
    requires DistinctKinds(markets)
    ensures var odds := Flat(markets);
            var r := Entries(StakeTable(Probabilities(markets), RoundedStake(totalStake, ImpliedSum(odds))));
            totalStake - 0.00005 * |odds| as real <= Total(r) <= totalStake + 0.00005 * |odds| as real
  {
    var odds := Flat(markets);
    var r := Entries(StakeTable(Probabilities(markets), RoundedStake(totalStake, ImpliedSum(odds))));
    RoundedStakesAreNear(markets, totalStake);
    ProportionalIsUnit(odds);
    TotalScale(Proportional(odds), totalStake);
    TotalsAreNear(ExactStakes(odds, totalStake), r);
  }

  lemma ScaledPayoff(u: real, t: real, o: real, s: real)
    requires s > 0.0 && Times(u, o) == 1.0 / s
    ensures Times(Times(u, t), o) == t / s
  {
    assert u * t * o == t * (u * o);
  }

  lemma ProductIsNonNegative(a: real, b: real)
    requires a >= 0.0 && b >= 0.0
    ensures a * b >= 0.0
  {
  }

  lemma NearPayoff(x: real, r: real, o: real)
    requires o > 1.0 && r >= x - 0.00005
    ensures Times(r, o) >= Times(x, o) - 0.00005 * o
  {
    var d := r - (x - 0.00005);
    ProductIsNonNegative(d, o);
    assert d * o == r * o - x * o + 0.00005 * o;
  }

  /** And whatever happens they return at least what the exact stakes would, less the rounding of one stake. */
  lemma RoundedStakesPay(markets: seq<MarketOdds>, totalStake: real, i: nat)
    requires var odds := Flat(markets); ImpliedSum(odds) < 1.0 && i < |odds|
    requires DistinctKinds(markets)
    ensures var odds := Flat(markets);
            var r := Entries(StakeTable(Probabilities(markets), RoundedStake(totalStake, ImpliedSum(odds))));
            && |r| == |odds| && ImpliedSum(odds) > 0.0
            && Payoff(r, odds, i) >= totalStake / ImpliedSum(odds) - 0.00005 * odds[i].1
  {
    var odds := Flat(markets);
    var s, x := ImpliedSum(odds), ExactStakes(odds, totalStake);
    var r := Entries(StakeTable(Probabilities(markets), RoundedStake(totalStake, s)));
    RoundedStakesAreNear(markets, totalStake);
    ProportionalPaysEvenly(odds, i);
    InconsistentOddsExceedOne(odds, i);
    var u := Proportional(odds)[i].1;
    assert Times(u, odds[i].1) == 1.0 / s;
    ScaledPayoff(u, totalStake, odds[i].1, s);
    NearPayoff(Times(u, totalStake), r[i].1, odds[i].1);
  }

  /** A number with at most four decimals. */
  predicate FourDecimals(x: real) {
    Times(x, 10000.0) == Times(x, 10000.0).Floor as real
  }

  ghost predicate AllFourDecimals(r: Record<real>) {
    forall j :: 0 <= j < |r| ==> FourDecimals(r[j].1)
  }

  lemma RoundedHasFourDecimals(totalStake: real, total: real, p: real)
    ensures FourDecimals(RoundedStake(totalStake, total)(p))
  {
    Powers();
    if total != 0.0 {
      var k := Round(Times(Times(totalStake, p) / total, 10000.0));
      assert RoundedStake(totalStake, total)(p) == k as real / 10000.0;
      assert Times(k as real / 10000.0, 10000.0) == k as real;
    }
  }

  lemma MappedHasFourDecimals(r: Record<real>, totalStake: real, total: real)
    ensures AllFourDecimals(MapValues(r, RoundedStake(totalStake, total)))
  {
    var q := MapValues(r, RoundedStake(totalStake, total));
    forall j | 0 <= j < |q| ensures FourDecimals(q[j].1) {
      RoundedHasFourDecimals(totalStake, total, r[j].1);
    }
  }

  ghost predicate TableFourDecimals(table: Record<Record<real>>) {
    forall i :: 0 <= i < |table| ==> AllFourDecimals(table[i].1)
  }

  lemma {:induction false} PutKeeps(table: Record<Record<real>>, key: string, r: Record<real>)
    requires AllFourDecimals(r) && TableFourDecimals(table)
    ensures TableFourDecimals(Put(table, key, r))
  {
    if table != [] && table[0].0 != key {
      PutKeeps(table[1..], key, r);
      assert Put(table, key, r) == [table[0]] + Put(table[1..], key, r);
    }
  }

  /** The stakes that the calculator returns are all rounded to four decimals, for any markets. */
  lemma {:induction false} StakesHaveFourDecimals(probs: seq<MarketOdds>, totalStake: real, total: real)
    ensures TableFourDecimals(StakeTable(probs, RoundedStake(totalStake, total)))
  {
    if probs != [] {
      var before, last := probs[..|probs| - 1], probs[|probs| - 1];
      StakesHaveFourDecimals(before, totalStake, total);
      MappedHasFourDecimals(last.outcomes, totalStake, total);
      PutKeeps(StakeTable(before, RoundedStake(totalStake, total)), last.kind,
               MapValues(last.outcomes, RoundedStake(totalStake, total)));
    }
  }
}
