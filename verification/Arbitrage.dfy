/** What the flag and the stakes mean for a bettor: a sure profit exists, and the stakes are the best one. */
module Arbitrage {
  import opened Common
  import opened Market
  import opened Consistency

  /** A way to divide one unit of stake over the outcomes. */
  ghost predicate UnitAllocation(x: Record<real>, odds: Record<real>) {
    |x| == |odds| && Total(x) == 1.0 && forall i :: 0 <= i < |x| ==> x[i].1 >= 0.0
  }

  /** What comes back if outcome i happens. */
  function Payoff(x: Record<real>, odds: Record<real>, i: nat): real
    requires i < |x| && i < |odds|
  {
    Times(x[i].1, odds[i].1)
  }

  ghost predicate SureProfit(x: Record<real>, odds: Record<real>) {
    UnitAllocation(x, odds) && forall i :: 0 <= i < |odds| ==> Payoff(x, odds, i) > 1.0
  }

  /** The stakes in proportion to the implied probabilities. */
  function Proportional(odds: Record<real>): (x: Record<real>)
    ensures |x| == |odds|
  {
    MapValues(ImpliedRecord(odds), Share(ImpliedSum(odds)))
  }

  lemma SumIsPositive(odds: Record<real>)
    requires odds != []
    ensures ImpliedSum(odds) > 0.0
    ensures forall i :: 0 <= i < |odds| ==> Implied(odds[i].1) <= ImpliedSum(odds)
  {
    var p := ImpliedRecord(odds);
    TotalOfPositive(p);
    forall i | 0 <= i < |odds| ensures Implied(odds[i].1) <= ImpliedSum(odds) {
      assert p[i].1 == Implied(odds[i].1);
    }
  }

  lemma ProportionalIsUnit(odds: Record<real>)
    requires odds != []
    ensures UnitAllocation(Proportional(odds), odds)
  {
    SumIsPositive(odds);
    var s, p, x := ImpliedSum(odds), ImpliedRecord(odds), Proportional(odds);
    forall i | 0 <= i < |p| ensures x[i] == (p[i].0, Times(p[i].1, 1.0 / s)) && x[i].1 >= 0.0 {
      DivideIsScale(p[i].1, s);
    }
    assert x == Scale(p, 1.0 / s);
    TotalScale(p, 1.0 / s);
    DivideIsScale(s, s);
  }

  lemma {:induction false} InconsistentOddsExceedOne(odds: Record<real>, i: nat)
    requires ImpliedSum(odds) < 1.0 && i < |odds|
    ensures odds[i].1 > 1.0
  {
    SumIsPositive(odds);
  }

  lemma EvenPayoff(o: real, s: real)
    requires o > 1.0 && s > 0.0
    ensures Times((1.0 / o) / s, o) == 1.0 / s
  {
    DivideIsScale(1.0 / o, s);
    assert (1.0 / o) * (1.0 / s) * o == (1.0 / s) * ((1.0 / o) * o);
  }

  lemma InverseIsProbability2(s: real)
    requires 0.0 < s < 1.0
    ensures 1.0 / s > 1.0
  {
  }

  /** With inconsistent odds every outcome pays the proportional stakes back with the same profit. */
  lemma ProportionalPaysEvenly(odds: Record<real>, i: nat)
    requires ImpliedSum(odds) < 1.0 && i < |odds|
    ensures ImpliedSum(odds) > 0.0
    ensures Payoff(Proportional(odds), odds, i) == 1.0 / ImpliedSum(odds) > 1.0
  {
    SumIsPositive(odds);
    InconsistentOddsExceedOne(odds, i);
    var s, o := ImpliedSum(odds), odds[i].1;
    InverseIsProbability(o);
    EvenPayoff(o, s);
    InverseIsProbability2(s);
  }

  /** Staking more than the implied probability times c everywhere costs more than c times their sum. */
  lemma PayingMoreCostsMore(x: Record<real>, odds: Record<real>, c: real)
    requires |x| == |odds| && odds != []
    requires forall i :: 0 <= i < |x| ==> x[i].1 > Times(Implied(odds[i].1), c)
    ensures Total(x) > Times(ImpliedSum(odds), c)
  {
    var p := Scale(ImpliedRecord(odds), c);
    TotalScale(ImpliedRecord(odds), c);
    assert p[0].1 < x[0].1;
    TotalIsMonotone(p, x);
  }

  lemma StakeForPayoff(x: real, o: real, c: real)
    requires o > 1.0 && Times(x, o) > c
    ensures x > Times(1.0 / o, c)
  {
    InverseIsProbability(o);
    assert (1.0 / o) * (x * o) == x * ((1.0 / o) * o);
    assert (1.0 / o) * (x * o) > (1.0 / o) * c;
  }

  /** A stake that returns more than one unit is larger than the implied probability, even for odds of one and less. */
  lemma StakeForProfit(x: real, o: real)
    requires x >= 0.0 && Times(x, o) > 1.0
    ensures x > Implied(o)
  {
    if o > 1.0 {
      StakeForPayoff(x, o, 1.0);
    } else {
      assert o > 0.0;
      assert x * o <= x;
    }
  }

  /**
   * The Dutch-book theorem: the check flags a non-empty selection exactly when some division of one
   * unit of stake pays back more than the unit whatever happens.
   */
  lemma FlaggedIffSureProfit(markets: seq<MarketOdds>, kinds: seq<string>)
    ensures var odds := SelectedOdds(markets, kinds);
            (ImpliedSum(odds) < 1.0 && odds != []) <==> exists x: Record<real> :: SureProfit(x, odds)
  {
    var odds := SelectedOdds(markets, kinds);
    if ImpliedSum(odds) < 1.0 && odds != [] {
      ProportionalIsUnit(odds);
      forall i | 0 <= i < |odds| ensures Payoff(Proportional(odds), odds, i) > 1.0 {
        ProportionalPaysEvenly(odds, i);
      }
      assert SureProfit(Proportional(odds), odds);
    }
    if x: Record<real> :| SureProfit(x, odds) {
      assert odds != [];
      forall i | 0 <= i < |x| ensures x[i].1 > Times(Implied(odds[i].1), 1.0) {
        assert Payoff(x, odds, i) > 1.0;
        StakeForProfit(x[i].1, odds[i].1);
      }
      PayingMoreCostsMore(x, odds, 1.0);
    }
  }

  /** Without any outcome the sum is zero: the check flags the market although nothing can be staked. */
  lemma EmptySelectionIsFlagged(odds: Record<real>)
    ensures odds == [] ==> ImpliedSum(odds) < 1.0 && forall x: Record<real> :: !UnitAllocation(x, odds)
  {
  }

  /** No division of one unit has a larger worst payoff than the proportional stakes. */
  lemma NoAllocationDoesBetter(odds: Record<real>, y: Record<real>)
    requires ImpliedSum(odds) < 1.0 && UnitAllocation(y, odds)
    ensures odds != [] && ImpliedSum(odds) > 0.0
    ensures exists i :: 0 <= i < |odds| && Payoff(y, odds, i) <= 1.0 / ImpliedSum(odds)
  {
    assert odds != [];
    SumIsPositive(odds);
    var s := ImpliedSum(odds);
    if forall i :: 0 <= i < |odds| ==> Payoff(y, odds, i) > 1.0 / s {
      forall i | 0 <= i < |y| ensures y[i].1 > Times(Implied(odds[i].1), 1.0 / s) {
        InconsistentOddsExceedOne(odds, i);
        assert Payoff(y, odds, i) > 1.0 / s;
        StakeForPayoff(y[i].1, odds[i].1, 1.0 / s);
      }
      PayingMoreCostsMore(y, odds, 1.0 / s);
      DivideIsScale(s, s);
    }
  }

  lemma PayoffOrdersStakes(x: real, y: real, o: real)
    requires o > 1.0 && Times(x, o) <= Times(y, o)
    ensures x <= y
  {
  }

  /** And only the proportional stakes reach that worst payoff. */
  lemma BestAllocationIsUnique(odds: Record<real>, y: Record<real>)
    requires ImpliedSum(odds) < 1.0 && odds != [] && UnitAllocation(y, odds)
    requires ImpliedSum(odds) > 0.0
    requires forall i :: 0 <= i < |odds| ==> Payoff(y, odds, i) >= 1.0 / ImpliedSum(odds)
    ensures forall i :: 0 <= i < |odds| ==> y[i].1 == Proportional(odds)[i].1
  {
    var s, x := ImpliedSum(odds), Proportional(odds);
    ProportionalIsUnit(odds);
    forall i | 0 <= i < |odds| ensures x[i].1 <= y[i].1 {
      InconsistentOddsExceedOne(odds, i);
      ProportionalPaysEvenly(odds, i);
      assert Payoff(y, odds, i) >= Payoff(x, odds, i);
      PayoffOrdersStakes(x[i].1, y[i].1, odds[i].1);
    }
    TotalIsMonotone(x, y);
  }
}
