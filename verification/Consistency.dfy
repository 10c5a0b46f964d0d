/** The consistency check and the stakes it proposes when the odds leave room for a sure profit. */
module Consistency {
  import opened Common
  import opened Market

  datatype CheckResult = CheckResult(
    fixtureId: string,
    marketSet: seq<string>,
    sum: real,
    isConsistent: bool,
    margin: real,
    stakes: Option<Record<Record<real>>>,
    snapshotHash: string,
    proofRef: Option<string>)

  /** `Math.round`: halves go up. */
  function Round(x: real): int {
    (x + 0.5).Floor
  }

  lemma RoundIsNear(x: real)
    ensures x - 0.5 < Round(x) as real <= x + 0.5
  {
  }

  function Pow10(n: nat): int {
    if n == 0 then 1 else 10 * Pow10(n - 1)
  }

  lemma Pow10Positive(n: nat)
    ensures Pow10(n) >= 1
  {
  }

  function RoundTo(value: real, decimals: nat): real {
    Pow10Positive(decimals);
    Round(Times(value, Pow10(decimals) as real)) as real / Pow10(decimals) as real
  }

  lemma Powers()
    ensures Pow10(4) == 10000 && Pow10(6) == 1000000
  {
    assert Pow10(2) == 100 && Pow10(3) == 1000 && Pow10(5) == 10 * Pow10(4);
  }

  function Selected(markets: seq<MarketOdds>, kinds: seq<string>): seq<MarketOdds> {
    if markets == [] then []
    else (if markets[0].kind in kinds then [markets[0]] else []) + Selected(markets[1..], kinds)
  }

  /** The odds of all outcomes that take part in the check. */
  function SelectedOdds(markets: seq<MarketOdds>, kinds: seq<string>): Record<real> {
    Flat(Selected(markets, kinds))
  }

  /** The summed implied probability. */
  function ImpliedSum(odds: Record<real>): real {
    Total(ImpliedRecord(odds))
  }

  lemma {:induction false} SelectedAppend(a: seq<MarketOdds>, b: seq<MarketOdds>, kinds: seq<string>)
    ensures Selected(a + b, kinds) == Selected(a, kinds) + Selected(b, kinds)
  {
    if a == [] {
      assert a + b == b;
    } else {
      assert (a + b)[1..] == a[1..] + b;
      SelectedAppend(a[1..], b, kinds);
      var first := if a[0].kind in kinds then [a[0]] else [];
      Regroup(first, Selected(a[1..], kinds), Selected(b, kinds));
    }
  }

  /** One more market at the end is selected if its kind is wanted, and changes nothing if it is not. */
  lemma {:induction false} SelectedSnoc(markets: seq<MarketOdds>, m: MarketOdds, kinds: seq<string>)
    ensures Selected([], kinds) == []
    ensures Selected(markets + [m], kinds) == Selected(markets, kinds) + if m.kind in kinds then [m] else []
  {
    SelectedAppend(markets, [m], kinds);
    assert [m][1..] == [];
    assert Selected([m], kinds) == (if m.kind in kinds then [m] else []) + Selected([m][1..], kinds);
  }

  /** The selection has the markets of wanted kinds, each as often as it is in the list, and no others. */
  lemma {:induction false} SelectedHas(markets: seq<MarketOdds>, kinds: seq<string>, m: MarketOdds)
    ensures multiset(Selected(markets, kinds))[m] == if m.kind in kinds then multiset(markets)[m] else 0
    ensures m in Selected(markets, kinds) <==> m in markets && m.kind in kinds
    decreases |markets|
  {
    if markets != [] {
      var n := |markets| - 1;
      assert markets == markets[..n] + [markets[n]];
      SelectedHas(markets[..n], kinds, m);
      SelectedSnoc(markets[..n], markets[n], kinds);
    }
  }

  /** The sum over the outcomes of all markets whose kind is wanted, market by market. */
  function WantedSum(markets: seq<MarketOdds>, kinds: seq<string>): real {
    if markets == [] then 0.0
    else
      var last := markets[|markets| - 1];
      WantedSum(markets[..|markets| - 1], kinds) + if last.kind in kinds then ImpliedSum(last.outcomes) else 0.0
  }

  lemma {:induction false} ImpliedSumAppend(a: Record<real>, b: Record<real>)
    ensures ImpliedSum(a + b) == ImpliedSum(a) + ImpliedSum(b)
  {
    assert ImpliedRecord(a + b) == ImpliedRecord(a) + ImpliedRecord(b);
    TotalAppend(ImpliedRecord(a), ImpliedRecord(b));
  }

  lemma {:induction false} FlatOneMore(markets: seq<MarketOdds>, m: MarketOdds)
    ensures Flat(markets + [m]) == Flat(markets) + m.outcomes
  {
    FlatSnoc(markets + [m], |markets|);
    assert (markets + [m])[..|markets| + 1] == markets + [m] && (markets + [m])[..|markets|] == markets;
  }

  lemma {:induction false} OddsSnoc(markets: seq<MarketOdds>, m: MarketOdds, kinds: seq<string>)
    ensures ImpliedSum(SelectedOdds(markets + [m], kinds))
         == ImpliedSum(SelectedOdds(markets, kinds)) + if m.kind in kinds then ImpliedSum(m.outcomes) else 0.0
  {
    SelectedSnoc(markets, m, kinds);
    var before := Selected(markets, kinds);
    if m.kind in kinds {
      FlatOneMore(before, m);
      ImpliedSumAppend(Flat(before), m.outcomes);
    } else {
      assert before + [] == before;
    }
  }

  lemma {:induction false} WantedSnoc(markets: seq<MarketOdds>, m: MarketOdds, kinds: seq<string>)
    ensures WantedSum([], kinds) == 0.0
    ensures WantedSum(markets + [m], kinds)
         == WantedSum(markets, kinds) + if m.kind in kinds then ImpliedSum(m.outcomes) else 0.0
  {
    assert (markets + [m])[..|markets|] == markets;
  }

  /** What the check sums is what the markets of wanted kinds add up to. */
  lemma {:induction false} SelectedSum(markets: seq<MarketOdds>, kinds: seq<string>)
    ensures ImpliedSum(SelectedOdds(markets, kinds)) == WantedSum(markets, kinds)
    decreases |markets|
  {
    if markets != [] {
      var before, last := markets[..|markets| - 1], markets[|markets| - 1];
      assert markets == before + [last];
      SelectedSum(before, kinds);
      OddsSnoc(before, last, kinds);
      WantedSnoc(before, last, kinds);
    }
  }

  function Probabilities(markets: seq<MarketOdds>): (p: seq<MarketOdds>)
    ensures |p| == |markets|
    ensures forall i :: 0 <= i < |p| ==> p[i] == ProbabilityOf(markets[i])
  {
    seq(|markets|, i requires 0 <= i < |markets| => ProbabilityOf(markets[i]))
  }

  lemma SumOfProbabilities(markets: seq<MarketOdds>)
    ensures Total(Flat(Probabilities(markets))) == ImpliedSum(Flat(markets))
  {
    ImpliedFlat(markets, Probabilities(markets));
  }

  function MapValues(r: Record<real>, f: real -> real): (q: Record<real>)
    ensures |q| == |r|
    ensures forall i :: 0 <= i < |r| ==> q[i] == (r[i].0, f(r[i].1))
  {
    seq(|r|, i requires 0 <= i < |r| => (r[i].0, f(r[i].1)))
  }

  /**
   * Market by market, the stakes are put under the market's kind; a later market of the same kind replaces an
   * earlier one.
   */
  function StakeTable(probs: seq<MarketOdds>, stake: real -> real): Record<Record<real>> {
    if probs == [] then []
    else
      var last := probs[|probs| - 1];
      Put(StakeTable(probs[..|probs| - 1], stake), last.kind, MapValues(last.outcomes, stake))
  }

  method FillStakes(probs: seq<MarketOdds>, stake: real -> real) returns (stakes: Record<Record<real>>)
    requires forall i :: 0 <= i < |probs| ==> DistinctKeys(probs[i].outcomes)
    ensures stakes == StakeTable(probs, stake)
  {
    stakes := [];
    for i := 0 to |probs|
      invariant stakes == StakeTable(probs[..i], stake)
    {
      var outcomes := probs[i].outcomes;
      var marketStakes: Record<real> := [];
      for j := 0 to |outcomes|
        invariant marketStakes == MapValues(outcomes, stake)[..j]
      {
        PutNew(marketStakes, outcomes[j].0, stake(outcomes[j].1));
        marketStakes := Put(marketStakes, outcomes[j].0, stake(outcomes[j].1));
      }
      assert marketStakes == MapValues(outcomes, stake);
      assert probs[..i + 1][..i] == probs[..i];
      stakes := Put(stakes, probs[i].kind, marketStakes);
    }
    assert probs[..|probs|] == probs;
  }

  ghost predicate ProperMarkets(markets: seq<MarketOdds>) {
    forall i :: 0 <= i < |markets| ==> DistinctKeys(markets[i].outcomes)
  }

  lemma SelectedIsProper(markets: seq<MarketOdds>, kinds: seq<string>)
    requires ProperMarkets(markets)
    ensures ProperMarkets(Selected(markets, kinds))
  {
  }

  method ToProbabilities(markets: seq<MarketOdds>) returns (probs: seq<MarketOdds>)
    requires ProperMarkets(markets)
    ensures probs == Probabilities(markets)
    ensures ProperMarkets(probs)
  {
    probs := [];
    for i := 0 to |markets|
      invariant probs == Probabilities(markets)[..i]
    {
      var p := OddsToProbability(markets[i]);
      probs := probs + [p];
    }
    forall i | 0 <= i < |probs| ensures DistinctKeys(probs[i].outcomes) {
      assert DistinctKeys(markets[i].outcomes);
    }
  }

  /** The share of one unit of stake that an outcome gets. Without outcomes the sum is 0 and nothing is divided. */
  function Share(total: real): real -> real {
    p => if total == 0.0 then 0.0 else p / total
  }

  method CheckConsistency(fixtureId: string, markets: seq<MarketOdds>, kinds: seq<string>, hash: string,
                          proofRef: Option<string>)
    returns (r: CheckResult)
    requires ProperMarkets(markets)
    ensures var s := WantedSum(markets, kinds);
            && r.isConsistent == (s >= 1.0)
            && r.sum == RoundTo(s, 6) && r.margin == RoundTo(s - 1.0, 6)
            && r.stakes == (if s >= 1.0 then None
                            else Some(StakeTable(Probabilities(Selected(markets, kinds)), Share(s))))
    ensures r.fixtureId == fixtureId && r.marketSet == kinds && r.snapshotHash == hash && r.proofRef == proofRef
  {
    var selected := Selected(markets, kinds);
    SelectedIsProper(markets, kinds);
    var probabilities := ToProbabilities(selected);
    var sum := SumOutcomes(probabilities);
    SumOfProbabilities(selected);
    SelectedSum(markets, kinds);
    var margin := sum - 1.0;
    var isConsistent := sum >= 1.0;
    var stakes := None;
    if !isConsistent {
      var table := FillStakes(probabilities, Share(sum));
      stakes := Some(table);
    }
    r := CheckResult(fixtureId, kinds, RoundTo(sum, 6), isConsistent, RoundTo(margin, 6), stakes, hash, proofRef);
  }

  /** The stake on one outcome, rounded to four decimals. */
  function RoundedStake(totalStake: real, total: real): real -> real {
    p => if total == 0.0 then 0.0 else RoundTo(Times(totalStake, p) / total, 4)
  }

  method ComputeArbitrageStakes(markets: seq<MarketOdds>, totalStake: real := 100.0)
    returns (stakes: Record<Record<real>>)
    requires ProperMarkets(markets)
    ensures var s := ImpliedSum(Flat(markets));
            stakes == if s >= 1.0 then [] else StakeTable(Probabilities(markets), RoundedStake(totalStake, s))
  {
    var probabilities := ToProbabilities(markets);
    var summed := SumOutcomes(probabilities);
    SumOfProbabilities(markets);
    if summed >= 1.0 { return []; }
    stakes := FillStakes(probabilities, RoundedStake(totalStake, summed));
  }
}
