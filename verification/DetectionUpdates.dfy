/**
 * What the pipeline does for the updates it is given: which markets it checks, what it records, and whom it
 * refuses.
 */
module DetectionUpdates {
  import opened Consistency
  import opened Detection
  import opened DetectionLaws
  import opened DetectionResults

  // ----- Which markets an update has checked -----

  const CHECKED := [
    "match_winner", "double_chance", "over_under_0.5", "over_under_1.5", "over_under_2.5",
    "over_under_3.5", "over_under_4.5", "both_teams_score"]

  const CHECKED_FIRST := ["match_winner", "double_chance", "both_teams_score"]

  predicate Offers(o: Odds, kind: string) {
    exists i :: 0 <= i < |o.markets| && o.markets[i].kind == kind
  }

  /** Each of these kinds that the update offers, as a market set of its own. */
  function Offered(o: Odds, kinds: seq<string>): seq<seq<string>> {
    if kinds == [] then []
    else (if Offers(o, kinds[0]) then [[kinds[0]]] else []) + Offered(o, kinds[1..])
  }

  function Singles(kinds: seq<string>): (sets: seq<seq<string>>)
    ensures |sets| == |kinds| && forall i :: 0 <= i < |sets| ==> sets[i] == [kinds[i]]
  {
    seq(|kinds|, i requires 0 <= i < |kinds| => [kinds[i]])
  }

  lemma OffersIff(o: Odds, kind: string)
    ensures Offers(o, kind) <==> kind in Kinds(o.markets)
    ensures Offers(o, kind) <==> Covers(Kinds(o.markets), [kind])
  {
    if Offers(o, kind) {
      var i :| 0 <= i < |o.markets| && o.markets[i].kind == kind;
      assert Kinds(o.markets)[i] == kind;
    }
    assert kind in [kind];
  }

  lemma {:induction false} CoveredSingles(o: Odds, kinds: seq<string>)
    ensures Covered(Singles(kinds), Kinds(o.markets)) == Offered(o, kinds)
  {
    if kinds != [] {
      OffersIff(o, kinds[0]);
      assert Singles(kinds)[1..] == Singles(kinds[1..]);
      CoveredSingles(o, kinds[1..]);
    }
  }

  lemma SetsAreSingles()
    ensures COVERING_SETS == Singles(CHECKED) && SINGLE_OUTCOME_SETS == Singles(CHECKED_FIRST)
  {
  }

  /**
   * The market sets of an update, in order: three kinds go first, and once more with the rest, where
   * match_winner is offered.
   */
  lemma {:induction false} WorkIsOffered(o: Odds)
    ensures Work(o) == (if Offers(o, "match_winner") then Offered(o, CHECKED_FIRST) else []) + Offered(o, CHECKED)
  {
    SetsAreSingles();
    OffersIff(o, "match_winner");
    var available := Kinds(o.markets);
    CoveredAppend(SINGLE_OUTCOME_SETS, COVERING_SETS, available);
    CoveredSingles(o, CHECKED_FIRST);
    CoveredSingles(o, CHECKED);
    assert Covered(COVERING_SETS, available) == Offered(o, CHECKED);
    assert [] + Offered(o, CHECKED) == Offered(o, CHECKED);
  }

  lemma {:induction false} OfferedHas(o: Odds, kinds: seq<string>, m: seq<string>)
    ensures m in Offered(o, kinds) <==> |m| == 1 && m[0] in kinds && Offers(o, m[0])
  {
    if kinds != [] {
      OfferedHas(o, kinds[1..], m);
      assert kinds == [kinds[0]] + kinds[1..];
      assert m == [kinds[0]] <==> |m| == 1 && m[0] == kinds[0];
    }
  }

  /** Exactly the offered ones of the eight kinds are checked, each as a set of its own. */
  lemma {:induction false} WorkHas(o: Odds, m: seq<string>)
    ensures m in Work(o) <==> |m| == 1 && m[0] in CHECKED && Offers(o, m[0])
  {
    WorkIsOffered(o);
    OfferedHas(o, CHECKED, m);
    OfferedHas(o, CHECKED_FIRST, m);
    assert forall k :: k in CHECKED_FIRST ==> k in CHECKED;
  }

  // ----- What is recorded -----

  /** The row is for this update and this kind of market. */
  predicate RowFor(r: CheckRow, o: Odds, kind: string) {
    r.key.fixtureId == o.fixtureId && r.key.marketSet == [kind] && r.key.snapshotHash == o.snapshotHash
  }

  /** It says what the odds of that kind in the update sum up to. */
  ghost predicate RowSays(r: CheckRow, o: Odds, kind: string) {
    var s := WantedSum(o.markets, [kind]);
    RowFor(r, o, kind) && r.sum == RoundTo(s, 6) && r.isConsistent == (s >= 1.0) && r.margin == RoundTo(s - 1.0, 6)
  }

  lemma RowOfSays(o: Odds, kind: string)
    ensures RowSays(RowOf(o, [kind]), o, kind)
  {
    SelectedSum(o.markets, [kind]);
  }

  /** The updates that have arrived, in order. */
  function Arrived(events: seq<Event>): seq<Odds> {
    if events == [] then []
    else
      var e := events[|events| - 1];
      Arrived(events[..|events| - 1]) + if e.Arrive? then [e.odds] else []
  }

  /** There is one call for each of them. */
  lemma {:induction false} CallsAreArrivals(events: seq<Event>)
    ensures |Run(events).calls| == |Arrived(events)|
    ensures forall i :: 0 <= i < |Arrived(events)| ==> Run(events).calls[i].odds == Arrived(events)[i]
  {
    if events != [] {
      var s, e := Run(events[..|events| - 1]), events[|events| - 1];
      CallsAreArrivals(events[..|events| - 1]);
      forall i | 0 <= i < |s.calls|
        ensures |Apply(s, e).calls| >= |s.calls| && Apply(s, e).calls[i].odds == s.calls[i].odds
      {
        CallsStay(s, e, i);
      }
      if e.Advance? && CanAdvance(s, e.i) { CallStaysItself(s, e.i, e.ok, e.applied, e.i); }
    }
  }

  lemma InMultiset(rows: seq<CheckRow>, k: Key) returns (n: nat)
    requires multiset(RowKeys(rows))[k] >= 1
    ensures n < |rows| && rows[n].key == k
  {
    assert k in multiset(RowKeys(rows));
    n :| 0 <= n < |RowKeys(rows)| && RowKeys(rows)[n] == k;
  }

  /**
   * When nothing has failed and all calls are done, there is a row for every update that has arrived and every one
   * of the eight kinds that it offers; and no other one as long as its key has not expired.
   */
  lemma {:induction false} EveryUpdateIsRecorded(events: seq<Event>, i: nat, kind: string)
    requires NoFailures(events) && AllDone(Run(events)) && i < |Arrived(events)|
    requires kind in CHECKED && Offers(Arrived(events)[i], kind)
    ensures var o, checks := Arrived(events)[i], Run(events).checks;
            && (exists n :: 0 <= n < |checks| && RowFor(checks[n], o, kind))
            && (Key(o.fixtureId, [kind], o.snapshotHash) !in Run(events).expired ==>
                  forall m, n :: 0 <= m < n < |checks| ==> !(RowFor(checks[m], o, kind) && RowFor(checks[n], o, kind)))
  {
    var o, s := Arrived(events)[i], Run(events);
    CallsAreArrivals(events);
    WorkHas(o, [kind]);
    var j :| 0 <= j < |Work(o)| && Work(o)[j] == [kind];
    FinishedRunCoversAll(events, i, j);
    var k := KeyOf(o, [kind]);
    var n := InMultiset(s.checks, k);
    if k !in s.expired { AtMostOnceWhileKeyLives(events, k); }
  }

  /** Every row, in every run, says what an update that has arrived adds up to, for a kind that it offers. */
  lemma {:induction false} RowsSayUpdates(events: seq<Event>, n: nat)
    requires n < |Run(events).checks|
    ensures exists i, kind :: 0 <= i < |Arrived(events)| && kind in CHECKED && Offers(Arrived(events)[i], kind)
              && RowSays(Run(events).checks[n], Arrived(events)[i], kind)
  {
    RowsAreResults(events, n);
    CallsAreArrivals(events);
    var s := Run(events);
    var i, j :| 0 <= i < |s.calls| && 0 <= j < |Work(s.calls[i].odds)|
                && s.checks[n] == RowOf(s.calls[i].odds, Work(s.calls[i].odds)[j]);
    var o := s.calls[i].odds;
    var m := Work(o)[j];
    WorkHas(o, m);
    assert m == [m[0]];
    RowOfSays(o, m[0]);
  }

  // ----- Who is refused -----

  /** The call has come past this claim, or has failed at it. */
  predicate HasVisited(c: Call, a: int) {
    0 <= a < |c.work| && (a < c.next || (a == c.next && !c.pc.Claim?))
  }

  ghost predicate VisitedBy(s: State, k: Key) {
    exists i, a :: 0 <= i < |s.calls| && HasVisited(s.calls[i], a) && s.calls[i].work[a].key == k
  }

  ghost predicate ClaimsVisited(s: State) {
    forall k :: k in s.claims ==> VisitedBy(s, k)
  }

  lemma {:induction false} VisitedStays(s: State, e: Event, k: Key)
    requires VisitedBy(s, k)
    ensures VisitedBy(Apply(s, e), k)
  {
    var i, a :| 0 <= i < |s.calls| && HasVisited(s.calls[i], a) && s.calls[i].work[a].key == k;
    CallsStay(s, e, i);
    if e.Advance? && CanAdvance(s, e.i) { StepReplacesOne(s, e.i, e.ok, e.applied); }
    assert HasVisited(Apply(s, e).calls[i], a);
  }

  lemma {:induction false} NewClaim(s: State, e: Event, k: Key)
    requires k in Apply(s, e).claims && k !in s.claims
    ensures VisitedBy(Apply(s, e), k)
  {
    assert e.Advance? && CanAdvance(s, e.i);
    CallStaysItself(s, e.i, e.ok, e.applied, e.i);
    if !s.calls[e.i].pc.Claim? { OthersKeepResults(s, e.i, e.ok, e.applied); }
    var t := Apply(s, e);
    assert HasVisited(t.calls[e.i], s.calls[e.i].next);
  }

  lemma {:induction false} ClaimsAreVisited(events: seq<Event>)
    ensures ClaimsVisited(Run(events))
  {
    if events != [] {
      var s, e := Run(events[..|events| - 1]), events[|events| - 1];
      ClaimsAreVisited(events[..|events| - 1]);
      forall k | k in Apply(s, e).claims ensures VisitedBy(Apply(s, e), k) {
        if k in s.claims { VisitedStays(s, e, k); } else { NewClaim(s, e, k); }
      }
    }
  }

  lemma WorkSays(c: Call, a: nat)
    requires c.work == Results(c.odds) && a < |c.work|
    ensures a < |Work(c.odds)|
    ensures var k := c.work[a].key; |k.marketSet| == 1 && RowFor(c.work[a], c.odds, k.marketSet[0])
    ensures Work(c.odds)[a] == c.work[a].key.marketSet && Offers(c.odds, c.work[a].key.marketSet[0])
  {
    var m := Work(c.odds)[a];
    WorkHas(c.odds, m);
    assert m == [m[0]];
    RowOfSays(c.odds, m[0]);
  }

  /**
   * A claim is refused only where an update of the same fixture with the same snapshot hash has offered the same
   * kind: another one, or the same update earlier in its loop.
   */
  lemma {:induction false} RefusalHasCause(events: seq<Event>, i: nat)
    requires CanAdvance(Run(events), i) && Run(events).calls[i].pc.Claim?
    requires Current(Run(events).calls[i]).key in Run(events).redis
    ensures i < |Arrived(events)|
    ensures var c, o := Run(events).calls[i], Arrived(events)[i];
            var kind := Current(c).key.marketSet;
            && |kind| == 1 && RowFor(Current(c), o, kind[0])
            && ((exists a :: 0 <= a < c.next && a < |Work(o)| && Work(o)[a] == kind)
                || exists j :: 0 <= j < |Arrived(events)| && j != i && Arrived(events)[j].fixtureId == o.fixtureId
                            && Arrived(events)[j].snapshotHash == o.snapshotHash && Offers(Arrived(events)[j], kind[0]))
  {
    var s := Run(events);
    var c := s.calls[i];
    CallsAreArrivals(events);
    WorkHolds(events);
    SeenHolds(events);
    ClaimsAreVisited(events);
    WorkSays(c, c.next);
    assert VisitedBy(s, Current(c).key);
    var j, a :| 0 <= j < |s.calls| && HasVisited(s.calls[j], a) && s.calls[j].work[a].key == Current(c).key;
    WorkSays(s.calls[j], a);
    if j == i { assert a < c.next && Work(c.odds)[a] == Current(c).key.marketSet; }
  }

  /** Updates of different fixtures or with different hashes never share a key, so neither has the other refused. */
  lemma {:induction false} HashesKeepApart(o: Odds, p: Odds, a: nat, b: nat)
    requires a < |Results(o)| && b < |Results(p)| && (o.fixtureId != p.fixtureId || o.snapshotHash != p.snapshotHash)
    ensures Results(o)[a].key != Results(p)[b].key
  {
    WorkSays(NewCall(o), a);
    WorkSays(NewCall(p), b);
  }

  /** A claim that is answered is granted exactly where its key is not in Redis; then the result is the call's. */
  lemma {:induction false} GrantedIffFree(s: State, i: nat, applied: bool)
    requires CanAdvance(s, i) && s.calls[i].pc.Claim?
    ensures var c, t := s.calls[i], StepCall(s, i, true, applied);
            var key := Current(c).key;
            && |t.calls| == |s.calls| && key in t.redis
            && if key in s.redis then
                 t.redis == s.redis && t.calls[i].next == c.next + 1 && t.calls[i].results == c.results
               else
                 t.redis == s.redis + {key} && t.calls[i].pc.Snapshot? && t.calls[i].results == c.results + [Current(c)]
  {
  }

  /** An expired key is free again. */
  lemma {:induction false} ExpiredIsFree(events: seq<Event>, k: Key)
    ensures var s, t := Run(events), Run(events + [Expire(k)]);
            && t.redis == s.redis - {k} && t.calls == s.calls && t.checks == s.checks
            && t.expired == s.expired + if k in s.redis then [k] else []
  {
    assert (events + [Expire(k)])[..|events|] == events;
  }

  // ----- The order of the awaits of one call -----

  /** A snapshot is stored before its row is written, and only for a claimed key. */
  ghost predicate SnapshotsFirst(s: State) {
    && (forall n :: 0 <= n < |s.checks| ==> s.checks[n].key in s.snapshots)
    && (forall i :: 0 <= i < |s.calls| && s.calls[i].pc.Check? && s.calls[i].next < |s.calls[i].work| ==>
          Current(s.calls[i]).key in s.snapshots)
    && (forall k :: k in s.snapshots ==> k in s.claims)
  }

  lemma {:induction false} SnapshotTaken(s: State, i: nat, ok: bool, applied: bool)
    requires CanAdvance(s, i)
    ensures var t := StepCall(s, i, ok, applied);
            && s.snapshots <= t.snapshots && |t.calls| == |s.calls|
            && (forall k :: k in t.snapshots && k !in s.snapshots ==>
                  BetweenClaimAndNext(s.calls[i]) && k == Current(s.calls[i]).key)
            && (t.calls[i].pc.Check? ==> t.calls[i].next == s.calls[i].next < |t.calls[i].work|
                                         && Current(t.calls[i]).key in t.snapshots)
  {
    CallStaysItself(s, i, ok, applied, i);
  }

  lemma {:induction false} SnapshotsStep(s: State, i: nat, ok: bool, applied: bool)
    requires SnapshotsFirst(s) && CanAdvance(s, i) && DealtWith(s.claims, s.calls[i])
    ensures SnapshotsFirst(StepCall(s, i, ok, applied))
  {
    var t := StepCall(s, i, ok, applied);
    StepReplacesOne(s, i, ok, applied);
    SnapshotTaken(s, i, ok, applied);
    ClaimsGrow(s, Advance(i, ok, applied));
    NewRow(s, Advance(i, ok, applied));
    assert t.checks != s.checks ==> s.calls[i].pc.Check?;
  }

  lemma {:induction false} SnapshotsComeFirst(events: seq<Event>)
    ensures SnapshotsFirst(Run(events))
  {
    if events != [] {
      var s, e := Run(events[..|events| - 1]), events[|events| - 1];
      SnapshotsComeFirst(events[..|events| - 1]);
      SeenHolds(events[..|events| - 1]);
      if e.Advance? && CanAdvance(s, e.i) { SnapshotsStep(s, e.i, e.ok, e.applied); }
    }
  }

  /** A failed await ends its call: it keeps the results it has, and nothing else happens to it. */
  lemma {:induction false} FailureEndsCall(s: State, i: nat, applied: bool)
    requires CanAdvance(s, i)
    ensures |StepCall(s, i, false, applied).calls| == |s.calls|
    ensures StepCall(s, i, false, applied).calls[i] == s.calls[i].(pc := Failed)
  {
  }

  /** A failed await that has had no effect leaves all stores alone; one that has had it leaves them as success does. */
  lemma {:induction false} FailureKeepsStores(s: State, i: nat)
    requires CanAdvance(s, i)
    ensures var t := StepCall(s, i, false, false);
            && t.redis == s.redis && t.snapshots == s.snapshots && t.checks == s.checks
            && t.proofs == s.proofs && t.pending == s.pending && t.queue == s.queue
    ensures var t, u := StepCall(s, i, false, true), StepCall(s, i, true, true);
            && t.redis == u.redis && t.snapshots == u.snapshots && t.checks == u.checks
            && t.proofs == u.proofs && t.pending == s.pending && t.queue == s.queue == u.queue
  {
  }

  /** How many awaits a call can still go through. */
  function Left(c: Call): int {
    var sets := 6 * (|c.work| - c.next);
    match c.pc
    case Claim => sets + 1
    case Snapshot => sets
    case Check => sets - 1
    case Proof => sets - 2
    case Publish => sets - 3
    case Cache => sets - 4
    case Latest => 1
    case Done => 0
    case Failed => 0
  }

  /** How many of the events let call i go on since it has been there. */
  function Moves(events: seq<Event>, i: nat): nat {
    if events == [] then 0
    else
      var before, e := events[..|events| - 1], events[|events| - 1];
      Moves(before, i) + if e.Advance? && e.i == i && i < |Run(before).calls| then 1 else 0
  }

  lemma {:induction false} EachMoveCounts(s: State, i: nat, ok: bool, applied: bool)
    requires CanAdvance(s, i) && CallOk(s.checks, s.calls[i])
    ensures |StepCall(s, i, ok, applied).calls| == |s.calls|
    ensures Left(s.calls[i]) > 0 && Left(StepCall(s, i, ok, applied).calls[i]) < Left(s.calls[i])
  {
  }

  ghost predicate Bounded(c: Call, moves: nat) {
    Left(c) == 0 || Left(c) + moves <= 6 * |c.work| + 1
  }

  lemma {:induction false} OwnMove(s: State, i: nat, ok: bool, applied: bool, moves: nat)
    requires i < |s.calls| && CallOk(s.checks, s.calls[i]) && Bounded(s.calls[i], moves)
    ensures var t := Apply(s, Advance(i, ok, applied));
            |t.calls| == |s.calls| && Bounded(t.calls[i], moves + 1)
  {
    if CanAdvance(s, i) {
      EachMoveCounts(s, i, ok, applied);
      CallStaysItself(s, i, ok, applied, i);
    }
  }

  lemma {:induction false} OtherMove(s: State, e: Event, i: nat)
    requires i < |s.calls| && !(e.Advance? && e.i == i)
    ensures i < |Apply(s, e).calls| && Apply(s, e).calls[i] == s.calls[i]
  {
    if e.Advance? && CanAdvance(s, e.i) { StepReplacesOne(s, e.i, e.ok, e.applied); }
  }

  lemma {:induction false} NewCallIsBounded(s: State, e: Event)
    requires |Apply(s, e).calls| > |s.calls|
    ensures |Apply(s, e).calls| == |s.calls| + 1 && Bounded(Apply(s, e).calls[|s.calls|], 0)
  {
    if e.Advance? && CanAdvance(s, e.i) { StepReplacesOne(s, e.i, e.ok, e.applied); }
  }

  /** The moves of call i, which has none before it is there. */
  ghost predicate MovesOf(s: State, i: nat, moves: nat) {
    if i < |s.calls| then Bounded(s.calls[i], moves) else moves == 0
  }

  lemma {:induction false} MovesStep(s: State, e: Event, i: nat, moves: nat)
    requires CallsOk(s) && MovesOf(s, i, moves)
    ensures MovesOf(Apply(s, e), i, moves + if e.Advance? && e.i == i && i < |s.calls| then 1 else 0)
  {
    if i < |s.calls| {
      if e.Advance? && e.i == i {
        OwnMove(s, i, e.ok, e.applied, moves);
      } else {
        OtherMove(s, e, i);
      }
    } else if i < |Apply(s, e).calls| {
      NewCallIsBounded(s, e);
    }
  }

  lemma {:induction false} MovesAreBounded(events: seq<Event>, i: nat)
    ensures MovesOf(Run(events), i, Moves(events, i))
  {
    if events != [] {
      var before, e := events[..|events| - 1], events[|events| - 1];
      MovesAreBounded(before, i);
      InvHolds(before);
      MovesStep(Run(before), e, i, Moves(before, i));
    }
  }

  lemma NothingLeft(checks: seq<CheckRow>, c: Call, moves: nat)
    requires CallOk(checks, c) && Bounded(c, moves) && moves > 6 * |c.work|
    ensures c.pc.Done? || c.pc.Failed?
  {
  }

  /**
   * Every call ends: whatever goes on around it, after at most six awaits for each of its market sets and one more
   * it is done or has failed.
   */
  lemma {:induction false} EveryCallEnds(events: seq<Event>, i: nat)
    requires i < |Run(events).calls| && Moves(events, i) > 6 * |Work(Run(events).calls[i].odds)|
    ensures Run(events).calls[i].pc.Done? || Run(events).calls[i].pc.Failed?
    ensures NoFailures(events) ==> Run(events).calls[i].pc.Done?
  {
    MovesAreBounded(events, i);
    WorkHolds(events);
    InvHolds(events);
    NothingLeft(Run(events).checks, Run(events).calls[i], Moves(events, i));
    if NoFailures(events) { NothingIsLost(events); }
  }

  lemma {:induction false} EndedStep(s: State, e: Event, i: nat)
    requires i < |s.calls| && (s.calls[i].pc.Failed? || s.calls[i].pc.Done?)
    ensures i < |Apply(s, e).calls| && Apply(s, e).calls[i] == s.calls[i]
  {
    if !(e.Advance? && e.i == i) { OtherMove(s, e, i); }
  }

  lemma {:induction false} EndedStays(events: seq<Event>, more: seq<Event>, i: nat)
    requires i < |Run(events).calls| && (Run(events).calls[i].pc.Failed? || Run(events).calls[i].pc.Done?)
    ensures i < |Run(events + more).calls| && Run(events + more).calls[i] == Run(events).calls[i]
    decreases |more|
  {
    if more == [] {
      assert events + more == events;
    } else {
      var n := |more| - 1;
      EndedStays(events, more[..n], i);
      assert (events + more)[..|events + more| - 1] == events + more[..n];
      EndedStep(Run(events + more[..n]), more[n], i);
    }
  }
}
