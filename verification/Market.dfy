/** Odds, implied probabilities and sums over them, in exact arithmetic. */
module Market {
  import opened Common

  /** Assignment to a key: an existing entry keeps its place, a new one goes to the end. */
  function Put<V>(r: Record<V>, key: string, value: V): Record<V> {
    if r == [] then [(key, value)]
    else if r[0].0 == key then [(key, value)] + r[1..]
    else [r[0]] + Put(r[1..], key, value)
  }

  lemma {:induction false} PutNew<V>(r: Record<V>, key: string, value: V)
    requires forall i :: 0 <= i < |r| ==> r[i].0 != key
    ensures Put(r, key, value) == r + [(key, value)]
  {
    if r != [] {
      PutNew(r[1..], key, value);
      assert [r[0]] + (r[1..] + [(key, value)]) == r + [(key, value)];
    }
  }

  datatype MarketOdds = MarketOdds(kind: string, outcomes: Record<real>)

  lemma InverseIsProbability(odds: real)
    requires odds > 1.0
    ensures 0.0 < 1.0 / odds < 1.0
    ensures (1.0 / odds) * odds == 1.0
  {
  }

  function Implied(odds: real): (p: real)
    ensures 0.0 < p <= 1.0
  {
    if odds <= 1.0 then 1.0 else InverseIsProbability(odds); 1.0 / odds
  }

  function ImpliedRecord(r: Record<real>): (p: Record<real>)
    ensures |p| == |r|
    ensures forall i :: 0 <= i < |r| ==> p[i] == (r[i].0, Implied(r[i].1))
  {
    seq(|r|, i requires 0 <= i < |r| => (r[i].0, Implied(r[i].1)))
  }

  function ProbabilityOf(m: MarketOdds): MarketOdds {
    MarketOdds(m.kind, ImpliedRecord(m.outcomes))
  }

  method OddsToProbability(m: MarketOdds) returns (r: MarketOdds)
    requires DistinctKeys(m.outcomes)
    ensures r == ProbabilityOf(m)
  {
    var outcomes: Record<real> := [];
    for i := 0 to |m.outcomes|
      invariant outcomes == ImpliedRecord(m.outcomes)[..i]
    {
      var (outcome, odd) := m.outcomes[i];
      PutNew(outcomes, outcome, Implied(odd));
      outcomes := Put(outcomes, outcome, Implied(odd));
    }
    r := MarketOdds(m.kind, outcomes);
  }

  /** The sum of all values of a record. */
  function Total(r: Record<real>): real {
    if r == [] then 0.0 else r[0].1 + Total(r[1..])
  }

  lemma {:induction false} TotalAppend(a: Record<real>, b: Record<real>)
    ensures Total(a + b) == Total(a) + Total(b)
  {
    if a == [] {
      assert a + b == b;
    } else {
      TotalAppend(a[1..], b);
      assert (a + b)[1..] == a[1..] + b;
    }
  }

  lemma {:induction false} TotalSnoc(r: Record<real>, n: nat)
    requires n < |r|
    ensures Total(r[..n + 1]) == Total(r[..n]) + r[n].1
  {
    TotalAppend(r[..n], [r[n]]);
    assert r[..n + 1] == r[..n] + [r[n]];
  }

  /** All outcomes of the markets in a row, in the order the loops visit them. */
  function Flat(markets: seq<MarketOdds>): Record<real> {
    if markets == [] then [] else markets[0].outcomes + Flat(markets[1..])
  }

  lemma {:induction false} FlatAppend(a: seq<MarketOdds>, b: seq<MarketOdds>)
    ensures Flat(a + b) == Flat(a) + Flat(b)
  {
    if a == [] {
      assert a + b == b;
    } else {
      FlatAppend(a[1..], b);
      assert (a + b)[1..] == a[1..] + b;
      Regroup(a[0].outcomes, Flat(a[1..]), Flat(b));
    }
  }

  lemma FlatSnoc(ms: seq<MarketOdds>, n: nat)
    requires n < |ms|
    ensures Flat(ms[..n + 1]) == Flat(ms[..n]) + ms[n].outcomes
  {
    FlatAppend(ms[..n], [ms[n]]);
    assert ms[..n + 1] == ms[..n] + [ms[n]];
    assert [ms[n]][1..] == [];
  }

  /** The accumulation loop over all markets and outcomes. */
  method SumOutcomes(markets: seq<MarketOdds>) returns (sum: real)
    ensures sum == Total(Flat(markets))
  {
    sum := 0.0;
    for i := 0 to |markets|
      invariant sum == Total(Flat(markets[..i]))
    {
      var outcomes := markets[i].outcomes;
      for j := 0 to |outcomes|
        invariant sum == Total(Flat(markets[..i])) + Total(outcomes[..j])
      {
        TotalSnoc(outcomes, j);
        sum := sum + outcomes[j].1;
      }
      assert outcomes[..|outcomes|] == outcomes;
      FlatSnoc(markets, i);
      TotalAppend(Flat(markets[..i]), outcomes);
    }
    assert markets[..|markets|] == markets;
  }

  function Times(x: real, factor: real): real {
    x * factor
  }

  function Scale(r: Record<real>, factor: real): (q: Record<real>)
    ensures |q| == |r|
    ensures forall i :: 0 <= i < |r| ==> q[i] == (r[i].0, Times(r[i].1, factor))
  {
    seq(|r|, i requires 0 <= i < |r| => (r[i].0, Times(r[i].1, factor)))
  }

  lemma {:induction false} TotalScale(r: Record<real>, factor: real)
    ensures Total(Scale(r, factor)) == Times(Total(r), factor)
  {
    if r != [] {
      assert Scale(r, factor)[1..] == Scale(r[1..], factor);
      TotalScale(r[1..], factor);
      assert Times(r[0].1 + Total(r[1..]), factor) == Times(r[0].1, factor) + Times(Total(r[1..]), factor);
    }
  }

  lemma {:induction false} TotalOfPositive(r: Record<real>)
    requires forall i :: 0 <= i < |r| ==> r[i].1 > 0.0
    ensures Total(r) >= 0.0 && (r != [] ==> Total(r) > 0.0)
    ensures forall i :: 0 <= i < |r| ==> r[i].1 <= Total(r)
  {
    if r != [] {
      TotalOfPositive(r[1..]);
      forall i | 0 <= i < |r| ensures r[i].1 <= Total(r) {
        if i > 0 { assert r[i] == r[1..][i - 1]; }
      }
    }
  }

  lemma {:induction false} TotalIsMonotone(a: Record<real>, b: Record<real>)
    requires |a| == |b| && forall i :: 0 <= i < |a| ==> a[i].1 <= b[i].1
    ensures Total(a) <= Total(b)
    ensures (exists i :: 0 <= i < |a| && a[i].1 < b[i].1) ==> Total(a) < Total(b)
  {
    if a != [] {
      TotalIsMonotone(a[1..], b[1..]);
      if i :| 0 <= i < |a| && a[i].1 < b[i].1 {
        if i > 0 { assert a[1..][i - 1].1 < b[1..][i - 1].1; }
      }
    }
  }

  lemma {:induction false} ImpliedFlat(markets: seq<MarketOdds>, probs: seq<MarketOdds>)
    requires |probs| == |markets| && forall i :: 0 <= i < |markets| ==> probs[i] == ProbabilityOf(markets[i])
    ensures Flat(probs) == ImpliedRecord(Flat(markets))
  {
    if markets != [] {
      ImpliedFlat(markets[1..], probs[1..]);
    }
  }

  lemma DivideIsScale(x: real, y: real)
    requires y > 0.0
    ensures x / y == Times(x, 1.0 / y) && (x / y) * y == x
  {
  }

  /** Scaling probabilities to sum to one: the margin is gone and all ratios are kept. */
  method NormalizeMargin(p: Record<real>) returns (r: Record<real>)
    requires DistinctKeys(p)
    ensures Total(p) <= 0.0 ==> r == p
    ensures Total(p) > 0.0 ==> |r| == |p| && Total(r) == 1.0
    ensures Total(p) > 0.0 ==> forall i :: 0 <= i < |p| ==> r[i].0 == p[i].0 && r[i].1 * Total(p) == p[i].1
  {
    var total := Total(p);
    if total <= 0.0 { return p; }
    r := [];
    for i := 0 to |p|
      invariant r == Scale(p, 1.0 / total)[..i]
    {
      PutNew(r, p[i].0, p[i].1 / total);
      DivideIsScale(p[i].1, total);
      r := Put(r, p[i].0, p[i].1 / total);
    }
    TotalScale(p, 1.0 / total);
    forall i | 0 <= i < |p| ensures r[i].1 * total == p[i].1 {
      DivideIsScale(p[i].1, total);
    }
    DivideIsScale(total, total);
    assert r == Scale(p, 1.0 / total);
  }
}
