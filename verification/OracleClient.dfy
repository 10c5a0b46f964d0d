/** The backend's side of a submission: the margin in basis points and the instruction bytes. */
module OracleClient {
  import opened Common
  import opened Market
  import opened Consistency
  import opened Arbitrage
  import opened OracleProgram

  function MarginToBps(margin: real): (bps: I32)
    ensures -10000 <= bps <= 10000
  {
    Max(-10000, Min(10000, Round(Times(margin, 10000.0))))
  }

  /** The margin that the check reports for a sum of implied probabilities. */
  function ReportedMargin(s: real): real {
    RoundTo(s - 1.0, 6)
  }

  lemma RoundToMillionth(x: real)
    ensures RoundTo(x, 6) == Round(Times(x, 1000000.0)) as real / 1000000.0
  {
    Powers();
  }

  lemma RoundShifted(x: real, n: int)
    ensures Round(x - n as real) == Round(x) - n
  {
    assert x - n as real + 0.5 == (x + 0.5) - n as real;
  }

  /** The reported margin is the reported sum less one, although both are rounded on their own. */
  lemma MarginMatchesSum(s: real)
    ensures ReportedMargin(s) == RoundTo(s, 6) - 1.0
  {
    RoundToMillionth(s);
    RoundToMillionth(s - 1.0);
    assert Times(s - 1.0, 1000000.0) == Times(s, 1000000.0) - 1000000.0;
    RoundShifted(Times(s, 1000000.0), 1000000);
  }

  lemma ReportedMarginIsNear(s: real)
    ensures s - 1.0 - 0.0000005 < ReportedMargin(s) <= s - 1.0 + 0.0000005
  {
    RoundToMillionth(s - 1.0);
    RoundIsNear(Times(s - 1.0, 1000000.0));
  }

  lemma ReportedMarginKeepsOrder(s: real)
    ensures s >= 1.0 ==> ReportedMargin(s) >= 0.0
    ensures s < 1.0 ==> ReportedMargin(s) <= 0.0
    ensures s >= 0.0 ==> ReportedMargin(s) >= -1.0
    ensures s <= 2.0 ==> ReportedMargin(s) <= 1.0
  {
    RoundToMillionth(s - 1.0);
  }

  /** The lower clamp never acts, and the upper one only for sums above two. */
  lemma LowerClampIsIdle(s: real)
    requires s >= 0.0
    ensures var x := Round(Times(ReportedMargin(s), 10000.0));
            x >= -10000 && (s <= 2.0 ==> x <= 10000 && MarginToBps(ReportedMargin(s)) == x)
  {
    ReportedMarginKeepsOrder(s);
    RoundIsNear(Times(ReportedMargin(s), 10000.0));
  }

  /** The value on chain has the sign of the flag, and for sums up to two it is off by little more than half a point. */
  lemma BpsTellsTheFlag(s: real)
    requires s >= 0.0
    ensures var bps := MarginToBps(ReportedMargin(s));
            && (s >= 1.0 ==> bps >= 0)
            && (s < 1.0 ==> bps <= 0)
            && (s <= 2.0 ==> -0.505 <= bps as real - 10000.0 * (s - 1.0) <= 0.505)
  {
    var m := ReportedMargin(s);
    ReportedMarginKeepsOrder(s);
    ReportedMarginIsNear(s);
    RoundIsNear(Times(m, 10000.0));
    LowerClampIsIdle(s);
  }

  /** From a sum of two on, the upper clamp always does. */
  lemma UpperClampActs(s: real)
    requires s >= 2.0
    ensures MarginToBps(ReportedMargin(s)) == 10000
  {
    RoundToMillionth(s - 1.0);
    assert Times(s - 1.0, 1000000.0) >= 1000000.0;
    assert ReportedMargin(s) >= 1.0;
    assert Times(ReportedMargin(s), 10000.0) >= 10000.0;
  }

  /** A flagged market whose sum is close to one goes on chain with margin zero; exactly these do. */
  lemma FlaggedWithZeroMarginIff(s: real)
    requires 0.0 <= s < 1.0
    ensures MarginToBps(ReportedMargin(s)) == 0 <==> s >= 1.0 - 0.0000505
  {
    var m := ReportedMargin(s);
    BpsTellsTheFlag(s);
    LowerClampIsIdle(s);
    RoundToMillionth(s - 1.0);
    var k := Round(Times(s - 1.0, 1000000.0));
    assert m == k as real / 1000000.0;
    assert Times(m, 10000.0) == k as real / 100.0;
    assert Round(k as real / 100.0) >= 0 <==> k >= -50;
    assert k >= -50 <==> Times(s - 1.0, 1000000.0) + 0.5 >= -50.0;
  }

  // ----- The instruction bytes -----

  function Unsigned(x: I32): int {
    if x < 0 then x + 0x1_0000_0000 else x
  }

  function Signed(u: int): int {
    if u >= 0x8000_0000 then u - 0x1_0000_0000 else u
  }

  /** Four bytes, the least significant one first. */
  function Int32LE(x: I32): (b: Bytes)
    ensures |b| == 4
  {
    var u := Unsigned(x);
    [u % 256, u / 256 % 256, u / 256 / 256 % 256, u / 256 / 256 / 256]
  }

  /** The bytes are those of the two's complement, the lowest first. */
  lemma LittleEndian(x: I32)
    ensures var b := Int32LE(x);
            var u: int := b[0] as int + 0x100 * (b[1] as int) + 0x1_0000 * (b[2] as int) + 0x100_0000 * (b[3] as int);
            u == if x < 0 then 0x1_0000_0000 + x else x
  {
  }

  function FromBytes(b0: int, b1: int, b2: int, b3: int): int {
    b0 + 256 * (b1 + 256 * (b2 + 256 * b3))
  }

  function ReadInt32LE(b: Bytes): I32
    requires |b| == 4
  {
    Signed(FromBytes(b[0], b[1], b[2], b[3]))
  }

  datatype Args = Args(fixtureId: Bytes, isConsistent: bool, marginBps: I32, proofRef: Bytes)

  ghost predicate WellSized(discriminator: Bytes, a: Args) {
    |discriminator| == 8 && |a.fixtureId| == 32 && |a.proofRef| == 32
  }

  function Layout(discriminator: Bytes, a: Args): Bytes {
    discriminator + a.fixtureId + [if a.isConsistent then 1 else 0] + Int32LE(a.marginBps) + a.proofRef
  }

  /** How the program reads the data: a flag byte other than 0 and 1 is refused. */
  function Decode(discriminator: Bytes, b: Bytes): Option<Args> {
    if |b| != 77 || b[..8] != discriminator || b[40] > 1 then None
    else Some(Args(b[8..40], b[40] == 1, ReadInt32LE(b[41..45]), b[45..]))
  }

  method CopyInto(src: Bytes, dst: array<Byte>, at: nat)
    requires at + |src| <= dst.Length
    modifies dst
    ensures forall k :: at <= k < at + |src| ==> dst[k] == src[k - at]
    ensures forall k :: 0 <= k < at || at + |src| <= k < dst.Length ==> dst[k] == old(dst[k])
  {
    for i := 0 to |src|
      invariant forall k :: at <= k < at + i ==> dst[k] == src[k - at]
      invariant forall k :: 0 <= k < at || at + i <= k < dst.Length ==> dst[k] == old(dst[k])
    {
      dst[at + i] := src[i];
    }
  }

  lemma Int32RoundTrip(x: I32)
    ensures ReadInt32LE(Int32LE(x)) == x
  {
  }

  /** Reading what was written gives the arguments back. */
  lemma DecodeLayout(discriminator: Bytes, a: Args)
    requires WellSized(discriminator, a)
    ensures |Layout(discriminator, a)| == 77
    ensures Decode(discriminator, Layout(discriminator, a)) == Some(a)
  {
    var b := Layout(discriminator, a);
    assert b[..8] == discriminator && b[8..40] == a.fixtureId;
    assert b[41..45] == Int32LE(a.marginBps) && b[45..] == a.proofRef;
    Int32RoundTrip(a.marginBps);
  }

  lemma LayoutAt(discriminator: Bytes, a: Args, k: nat)
    requires WellSized(discriminator, a) && k < 77
    ensures |Layout(discriminator, a)| == 77
    ensures Layout(discriminator, a)[k]
         == if k < 8 then discriminator[k]
            else if k < 40 then a.fixtureId[k - 8]
            else if k == 40 then (if a.isConsistent then 1 else 0)
            else if k < 45 then Int32LE(a.marginBps)[k - 41]
            else a.proofRef[k - 45]
  {
  }

  method BuildInstruction(discriminator: Bytes, a: Args) returns (data: array<Byte>)
    requires WellSized(discriminator, a)
    ensures fresh(data) && data.Length == 77
    ensures data[..] == Layout(discriminator, a)
    ensures Decode(discriminator, data[..]) == Some(a)
  {
    data := new Byte[77](_ => 0);
    CopyInto(discriminator, data, 0);
    CopyInto(a.fixtureId, data, 8);
    data[40] := if a.isConsistent then 1 else 0;
    CopyInto(Int32LE(a.marginBps), data, 41);
    CopyInto(a.proofRef, data, 45);
    DecodeLayout(discriminator, a);
    forall k | 0 <= k < 77 ensures data[k] == Layout(discriminator, a)[k] {
      LayoutAt(discriminator, a, k);
    }
    assert data[..] == Layout(discriminator, a);
  }

  lemma ReadThenWrite(b: Bytes)
    requires |b| == 4
    ensures Int32LE(ReadInt32LE(b)) == b
  {
    var q3: int := b[3];
    var q2 := b[2] as int + 256 * q3;
    var q1 := b[1] as int + 256 * q2;
    var u := b[0] as int + 256 * q1;
    assert Unsigned(ReadInt32LE(b)) == u;
    assert u / 256 == q1 && q1 / 256 == q2 && q2 / 256 == q3;
    assert u % 256 == b[0] && q1 % 256 == b[1] && q2 % 256 == b[2];
  }

  /** Writing what was read gives the bytes back: no two byte strings mean the same submission. */
  lemma LayoutDecode(discriminator: Bytes, b: Bytes)
    requires |discriminator| == 8 && Decode(discriminator, b).Some?
    ensures Layout(discriminator, Decode(discriminator, b).value) == b
  {
    ReadThenWrite(b[41..45]);
    assert b == b[..8] + b[8..40] + [b[40]] + b[41..45] + b[45..];
  }

  // ----- From the odds to the agent's decision -----

  /** The submission that the worker makes for a check of the given sum. */
  function SubmissionOf(signer: Bytes, fixtureId: Bytes, s: real, proofRef: Bytes): Instruction {
    Submit(signer, fixtureId, s >= 1.0, MarginToBps(ReportedMargin(s)), proofRef)
  }

  /** Whatever the odds, the submission of a check is refused only for its signer or for full counters. */
  lemma {:induction false} CheckAcceptedIff(
      txs: seq<(Instruction, Clock)>, signer: Bytes, fixtureId: Bytes, s: real, proofRef: Bytes, clock: Clock)
    ensures var (t, r) := Exec(Run(txs), SubmissionOf(signer, fixtureId, s, proofRef), clock);
            && (r.Ok? <==>
                  && Run(txs).config.Some? && signer == Run(txs).config.value.backendSigner
                  && Count(Run(txs).log, ForFixture(fixtureId)) < 1000000
                  && Count(Run(txs).log, Any()) < 0xFFFF_FFFF_FFFF_FFFF)
            && (r.Ok? ==> fixtureId in t.trust && t.trust[fixtureId].proofRef == proofRef
                          && t.trust[fixtureId].isConsistent == (s >= 1.0))
  {
    SubmitAcceptedIff(txs, SubmissionOf(signer, fixtureId, s, proofRef), clock);
  }

  ghost predicate SomeSureProfit(odds: Record<real>) {
    exists x: Record<real> :: SureProfit(x, odds)
  }

  lemma {:induction false} OneMarket(market: MarketOdds)
    ensures SelectedOdds([market], [market.kind]) == market.outcomes
  {
    assert [market][1..] == [];
    assert Selected([market], [market.kind]) == [market] + [] == [market];
    assert Flat([market]) == market.outcomes + [] == market.outcomes;
  }

  lemma {:induction false} SumOfTwo(odds: Record<real>, n: string, x: real, m: string, y: real)
    requires odds == [(n, x), (m, y)]
    ensures ImpliedSum(odds) == Implied(x) + Implied(y)
  {
    var p := ImpliedRecord(odds);
    assert p[1..] == [(m, Implied(y))] && p[1..][1..] == [];
    assert Total(p[1..]) == Implied(y) + Total(p[1..][1..]);
  }

  /** There are such markets: odds of 2 and 2.0001 leave a sure profit, and their margin on chain is zero. */
  lemma {:induction false} ZeroMarginMarket(kind: string, n: string, m: string)
    ensures var odds := SelectedOdds([MarketOdds(kind, [(n, 2.0), (m, 2.0001)])], [kind]);
            && odds == [(n, 2.0), (m, 2.0001)]
            && ImpliedSum(odds) < 1.0 && SomeSureProfit(odds)
            && MarginToBps(ReportedMargin(ImpliedSum(odds))) == 0
  {
    var market := MarketOdds(kind, [(n, 2.0), (m, 2.0001)]);
    OneMarket(market);
    SumOfTwo(market.outcomes, n, 2.0, m, 2.0001);
    InverseIsProbability(2.0001);
    var s := ImpliedSum(market.outcomes);
    assert 0.9999495 <= s < 1.0;
    FlaggedIffSureProfit([market], [kind]);
    FlaggedWithZeroMarginIff(s);
    assert SomeSureProfit(market.outcomes);
  }

  /**
   * In every reachable state: the submission of a check is never refused for its margin, and once it
   * is accepted an agent asking about the fixture is told to execute exactly when no division of a
   * unit of stake would have given a sure profit on the selected odds. The margin it is told is within 0.505
   * basis points of what these odds have, up to 10000.
   */
  lemma AgentExecutesIffNoSureProfit(
      txs: seq<(Instruction, Clock)>, signer: Bytes, fixtureId: Bytes, proofRef: Bytes,
      markets: seq<MarketOdds>, kinds: seq<string>, clock: Clock, later: Clock)
    requires SelectedOdds(markets, kinds) != []
    ensures var odds := SelectedOdds(markets, kinds);
            var i := SubmissionOf(signer, fixtureId, ImpliedSum(odds), proofRef);
            var (t, r) := Exec(Run(txs), i, clock);
            && r != Err(MarginOutOfRange)
            && (r.Ok? ==>
                  var answer := Exec(t, AgentCheck(fixtureId), later).1;
                  && answer.Ok? && (answer.event.decision == Executed <==> !SomeSureProfit(odds))
                  && var bps, s := answer.event.marginBps, ImpliedSum(odds);
                     if s >= 2.0 then bps == 10000 else -0.505 <= bps as real - 10000.0 * (s - 1.0) <= 0.505)
  {
    var odds := SelectedOdds(markets, kinds);
    var i := SubmissionOf(signer, fixtureId, ImpliedSum(odds), proofRef);
    FlaggedIffSureProfit(markets, kinds);
    SumIsPositive(odds);
    BpsTellsTheFlag(ImpliedSum(odds));
    if ImpliedSum(odds) >= 2.0 { UpperClampActs(ImpliedSum(odds)); }
    var (t, r) := Exec(Run(txs), i, clock);
    if r.Ok? {
      var all := txs + [(i, clock)];
      assert all[..|all| - 1] == txs;
      assert Run(all) == t;
      assert t.trust[fixtureId] == r.event.check;
    }
  }
}
