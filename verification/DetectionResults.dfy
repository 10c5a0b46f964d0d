/** What the conservation laws say about rows, proofs and jobs in every run of the detection pipeline. */
module DetectionResults {
  import opened Common
  import opened Detection
  import opened DetectionLaws

  lemma {:induction false} OccursOnce<T>(s: seq<T>, i: nat, j: nat)
    requires i < j < |s| && s[i] == s[j]
    ensures multiset(s)[s[i]] >= 2
  {
    assert s == s[..j] + s[j..];
    assert s[..j][i] in multiset(s[..j]) && s[j..][0] in multiset(s[j..]);
  }

  lemma PartIsLess<T>(a: multiset<T>, b: multiset<T>, c: multiset<T>, x: T)
    ensures a[x] <= (a + b + c)[x]
  {
  }

  lemma {:induction false} IdsOccurOnce(checks: seq<CheckRow>, id: nat)
    ensures Ids(checks)[id] == if id < |checks| then 1 else 0
    ensures FlaggedIds(checks)[id] == if id < |checks| && !checks[id].isConsistent then 1 else 0
  {
    if checks != [] {
      IdsOccurOnce(checks[..|checks| - 1], id);
    }
  }

  /** The number of rows for a key. */
  function RowCount(s: State, k: Key): nat {
    multiset(RowKeys(s.checks))[k]
  }

  /**
   * Under every interleaving, with failures at any await, a market set of a snapshot gets at most one row
   * for each life of its dedup key, and each row at most one job and at most one proof.
   */
  lemma {:induction false} AtMostOnePerLife(events: seq<Event>, k: Key)
    ensures RowCount(Run(events), k) <= multiset(Run(events).expired)[k] + if k in Run(events).redis then 1 else 0
  {
    InvHolds(events);
    var s := Run(events);
    PartIsLess(multiset(RowKeys(s.checks)), Held(s.calls, ClaimHeld), multiset(s.lostClaims), k);
  }

  lemma {:induction false} JobsAreDistinct(events: seq<Event>, i: nat, j: nat)
    requires i < j < |Run(events).queue|
    ensures Run(events).queue[i].checkId != Run(events).queue[j].checkId
  {
    InvHolds(events);
    var s := Run(events);
    IdsOccurOnce(s.checks, s.queue[i].checkId);
    PartIsLess(Jobs(s), Held(s.calls, RowHeld), multiset(s.lostJobs), s.queue[i].checkId);
    if s.queue[i].checkId == s.queue[j].checkId { OccursOnce(JobIds(s.queue), i, j); }
  }

  lemma {:induction false} ProofsAreDistinct(events: seq<Event>, i: nat, j: nat)
    requires i < j < |Run(events).proofs|
    ensures Run(events).proofs[i].checkId != Run(events).proofs[j].checkId
  {
    InvHolds(events);
    var s := Run(events);
    IdsOccurOnce(s.checks, s.proofs[i].checkId);
    PartIsLess(multiset(ProofIds(s.proofs)), Held(s.calls, ProofHeld), multiset(s.lostProofs), s.proofs[i].checkId);
    if s.proofs[i].checkId == s.proofs[j].checkId { OccursOnce(ProofIds(s.proofs), i, j); }
  }

  /** The key that a job was queued for. */
  function JobKey(s: State, i: nat): Key
    requires i < |s.queue| && s.queue[i].checkId < |s.checks|
  {
    s.checks[s.queue[i].checkId].key
  }

  /** As long as a dedup key has not expired, no two rows and no two jobs exist for it. */
  lemma {:induction false} AtMostOnceWhileKeyLives(events: seq<Event>, k: Key)
    requires k !in Run(events).expired
    ensures var s := Run(events);
            && (forall i, j :: 0 <= i < j < |s.checks| ==> !(s.checks[i].key == k && s.checks[j].key == k))
            && (forall i :: 0 <= i < |s.queue| ==> s.queue[i].checkId < |s.checks|)
            && (forall i, j :: 0 <= i < j < |s.queue| ==> !(JobKey(s, i) == k && JobKey(s, j) == k))
  {
    var s := Run(events);
    AtMostOnePerLife(events, k);
    InvHolds(events);
    forall i, j | 0 <= i < j < |s.checks|
      ensures !(s.checks[i].key == k && s.checks[j].key == k)
    {
      if s.checks[i].key == k && s.checks[j].key == k { OccursOnce(RowKeys(s.checks), i, j); }
    }
    forall i | 0 <= i < |s.queue| ensures s.queue[i].checkId < |s.checks| {
      assert JobOk(s.checks, s.queue[i]);
    }
    forall i, j | 0 <= i < j < |s.queue|
      ensures !(JobKey(s, i) == k && JobKey(s, j) == k)
    {
      JobsAreDistinct(events, i, j);
    }
  }

  /** Every proof and every job points to a row that is already there, and says what that row says. */
  lemma {:induction false} ProofsAndJobsCopyTheirRow(events: seq<Event>)
    ensures var s := Run(events);
            && (forall i :: 0 <= i < |s.proofs| ==>
                  && s.proofs[i].checkId < |s.checks|
                  && var r := s.checks[s.proofs[i].checkId];
                     !r.isConsistent && s.proofs[i].fixtureId == r.key.fixtureId && s.proofs[i].margin == r.margin)
            && (forall i :: 0 <= i < |s.queue| ==>
                  && s.queue[i].checkId < |s.checks|
                  && var r := s.checks[s.queue[i].checkId];
                     s.queue[i].isConsistent == r.isConsistent && s.queue[i].margin == r.margin
                     && s.queue[i].sum == r.sum
                     && s.queue[i].fixtureId == r.key.fixtureId && s.queue[i].marketSet == r.key.marketSet)
  {
    InvHolds(events);
    var s := Run(events);
    forall i | 0 <= i < |s.proofs| ensures ProofOk(s.checks, s.proofs[i]) {}
    forall i | 0 <= i < |s.queue| ensures JobOk(s.checks, s.queue[i]) {}
  }

  lemma {:induction false} CoveredAppend(a: seq<seq<string>>, b: seq<seq<string>>, available: seq<string>)
    ensures Covered(a + b, available) == Covered(a, available) + Covered(b, available)
  {
    if a == [] {
      assert a + b == b;
    } else {
      assert (a + b)[1..] == a[1..] + b;
      CoveredAppend(a[1..], b, available);
      var first := if Covers(available, a[0]) then [a[0]] else [];
      Regroup(first, Covered(a[1..], available), Covered(b, available));
    }
  }

  lemma {:induction false} CoveredStarts(kind: string, more: seq<seq<string>>, available: seq<string>)
    requires kind in available
    ensures Covered([[kind]] + more, available) == [[kind]] + Covered(more, available)
  {
    assert ([[kind]] + more)[1..] == more;
  }

  lemma {:induction false} CoveredIn(sets: seq<seq<string>>, available: seq<string>)
    ensures forall m :: m in Covered(sets, available) ==> m in sets
  {
    if sets != [] { CoveredIn(sets[1..], available); }
  }

  lemma RestIsDistinct(sets: seq<seq<string>>)
    requires sets != [] && Distinct(sets)
    ensures Distinct(sets[1..]) && sets[0] !in sets[1..]
  {
  }

  lemma {:induction false} CoveredIsDistinct(sets: seq<seq<string>>, available: seq<string>)
    requires Distinct(sets)
    ensures Distinct(Covered(sets, available))
  {
    if sets != [] {
      RestIsDistinct(sets);
      CoveredIsDistinct(sets[1..], available);
      CoveredIn(sets[1..], available);
    }
  }

  lemma CoveringSetsAreDistinct()
    ensures Distinct(COVERING_SETS)
  {
    forall i, j | 0 <= i < j < |COVERING_SETS| ensures COVERING_SETS[i] != COVERING_SETS[j] {
      assert COVERING_SETS[i][0] != COVERING_SETS[j][0];
    }
  }

  lemma {:induction false} TwoVisits(o: Odds) returns (j: nat)
    requires "match_winner" in Kinds(o.markets)
    ensures 0 < j < |Work(o)| && Work(o)[0] == Work(o)[j] == ["match_winner"]
  {
    var kind, available := "match_winner", Kinds(o.markets);
    var single, covering := SINGLE_OUTCOME_SETS[1..], COVERING_SETS[1..];
    assert SINGLE_OUTCOME_SETS == [[kind]] + single && COVERING_SETS == [[kind]] + covering;
    CoveredAppend(SINGLE_OUTCOME_SETS, COVERING_SETS, available);
    CoveredStarts(kind, single, available);
    CoveredStarts(kind, covering, available);
    j := 1 + |Covered(single, available)|;
  }

  lemma ResultKey(o: Odds, j: nat)
    requires j < |Work(o)|
    ensures Results(o)[j].key == KeyOf(o, Work(o)[j])
  {
  }

  lemma {:induction false} RepeatedKey(o: Odds, i: nat, j: nat)
    requires i < j < |Work(o)| && Work(o)[i] == Work(o)[j]
    ensures Results(o)[i].key == Results(o)[j].key
  {
    ResultKey(o, i);
    ResultKey(o, j);
  }

  /**
   * The protocol has to cope with it: an update visits some market set twice, under one key, if and only if it
   * offers match_winner, and then this set is one of them.
   */
  lemma {:induction false} MatchWinnerIsVisitedTwice(o: Odds)
    ensures "match_winner" in Kinds(o.markets) <==> !Distinct(Work(o))
    ensures "match_winner" in Kinds(o.markets) ==>
              exists i, j :: 0 <= i < j < |Work(o)| && Work(o)[i] == Work(o)[j] == ["match_winner"]
    ensures Distinct(Work(o)) <==> forall i, j :: 0 <= i < j < |Results(o)| ==> Results(o)[i].key != Results(o)[j].key
  {
    if "match_winner" in Kinds(o.markets) {
      var j := TwoVisits(o);
      RepeatedKey(o, 0, j);
    } else {
      CoveringSetsAreDistinct();
      CoveredIsDistinct(COVERING_SETS, Kinds(o.markets));
      forall i, j | 0 <= i < j < |Results(o)| ensures Results(o)[i].key != Results(o)[j].key {
        ResultKey(o, i);
        ResultKey(o, j);
      }
    }
  }

  // ----- The results that the calls return -----

  function ResultKeys(c: Call): multiset<Key> {
    multiset(RowKeys(c.results))
  }

  /** Every claim is among the results of one call, once, or its reply was lost. */
  ghost predicate ResultLaw(s: State) {
    multiset(s.claims) == Held(s.calls, ResultKeys) + multiset(s.lostSets)
  }

  lemma {:induction false} OthersKeepResults(s: State, i: nat, ok: bool, applied: bool)
    requires CanAdvance(s, i) && !s.calls[i].pc.Claim?
    ensures var t := StepCall(s, i, ok, applied);
            && |t.calls| == |s.calls| && t.calls[i].results == s.calls[i].results
            && t.claims == s.claims && t.lostSets == s.lostSets
  {
  }

  /** What a claim adds to the claims is what it adds to its call's results and to the lost sets. */
  lemma {:induction false} ClaimMovesResults(s: State, i: nat, ok: bool, applied: bool)
    requires CanAdvance(s, i) && s.calls[i].pc.Claim?
    ensures var t := StepClaim(s, i, ok, applied);
            && |t.calls| == |s.calls|
            && multiset(t.claims) + ResultKeys(s.calls[i]) + multiset(s.lostSets)
               == multiset(s.claims) + ResultKeys(t.calls[i]) + multiset(t.lostSets)
  {
    var c := s.calls[i];
    var row := Current(c);
    assert RowKeys(c.results + [row]) == RowKeys(c.results) + [row.key];
  }

  lemma ResultBalance<T>(
      claims: multiset<T>, held: multiset<T>, lost: multiset<T>, claims': multiset<T>, held': multiset<T>,
      lost': multiset<T>, before: multiset<T>, after: multiset<T>)
    requires claims == held + lost && held' + before == held + after
    requires claims' + before + lost == claims + after + lost'
    ensures claims' == held' + lost'
  {
    forall x ensures claims'[x] == (held' + lost')[x] {
      assert (held' + before)[x] == (held + after)[x];
      assert (claims' + before + lost)[x] == (claims + after + lost')[x];
    }
  }

  lemma {:induction false} ResultLawAfterStep(s: State, i: nat, ok: bool, applied: bool)
    requires ResultLaw(s) && CanAdvance(s, i)
    ensures ResultLaw(StepCall(s, i, ok, applied))
  {
    var t := StepCall(s, i, ok, applied);
    StepReplacesOne(s, i, ok, applied);
    if s.calls[i].pc.Claim? { ClaimMovesResults(s, i, ok, applied); } else { OthersKeepResults(s, i, ok, applied); }
    HeldUpdate(s.calls, i, t.calls[i], ResultKeys);
    ResultBalance(multiset(s.claims), Held(s.calls, ResultKeys), multiset(s.lostSets),
                  multiset(t.claims), Held(t.calls, ResultKeys), multiset(t.lostSets),
                  ResultKeys(s.calls[i]), ResultKeys(t.calls[i]));
  }

  lemma {:induction false} ResultLawHolds(events: seq<Event>)
    ensures ResultLaw(Run(events))
  {
    if events != [] {
      var s, e := Run(events[..|events| - 1]), events[|events| - 1];
      ResultLawHolds(events[..|events| - 1]);
      match e
      case Arrive(odds) => HeldAppendNothing(s.calls, NewCall(odds), ResultKeys);
      case Advance(i, ok, applied) => if CanAdvance(s, i) { ResultLawAfterStep(s, i, ok, applied); }
      case Land(_, _) =>
      case Expire(_) =>
    }
  }

  /** In all calls' results together, a key occurs at most once for each of its lives. */
  lemma {:induction false} ResultsOncePerLife(events: seq<Event>, k: Key)
    ensures Held(Run(events).calls, ResultKeys)[k]
            <= multiset(Run(events).expired)[k] + if k in Run(events).redis then 1 else 0
  {
    InvHolds(events);
    ResultLawHolds(events);
  }

  // ----- Where rows come from, and that nothing is left out -----

  ghost predicate WorkOk(s: State) {
    forall i :: 0 <= i < |s.calls| ==> s.calls[i].work == Results(s.calls[i].odds)
  }

  /** A row is the result of some call for one of its market sets. */
  ghost predicate FromCall(s: State, r: CheckRow) {
    exists i :: 0 <= i < |s.calls| && r in s.calls[i].work
  }

  ghost predicate RowsFromCalls(s: State) {
    forall n :: 0 <= n < |s.checks| ==> FromCall(s, s.checks[n])
  }

  predicate BetweenClaimAndNext(c: Call) {
    (c.pc.Snapshot? || c.pc.Check? || HoldsRow(c)) && c.next < |c.work|
  }

  /** Every market set that a call has dealt with has been claimed, by this call or by another one. */
  ghost predicate DealtWith(claims: seq<Key>, c: Call) {
    && (forall j :: 0 <= j < c.next && j < |c.work| ==> c.work[j].key in claims)
    && (BetweenClaimAndNext(c) ==> Current(c).key in claims)
  }

  ghost predicate Seen(s: State) {
    forall i :: 0 <= i < |s.calls| ==> DealtWith(s.claims, s.calls[i])
  }

  /** A key in Redis has been claimed. */
  ghost predicate KeysClaimed(s: State) {
    forall k :: k in s.redis ==> k in s.claims
  }

  lemma {:induction false} CallStaysItself(s: State, i: nat, ok: bool, applied: bool, j: nat)
    requires CanAdvance(s, i) && j < |s.calls|
    ensures var t := StepCall(s, i, ok, applied);
            |t.calls| == |s.calls| && t.calls[j].work == s.calls[j].work && t.calls[j].odds == s.calls[j].odds
  {
  }

  lemma {:induction false} CallsStay(s: State, e: Event, j: nat)
    requires j < |s.calls|
    ensures var t := Apply(s, e);
            |t.calls| >= |s.calls| && t.calls[j].work == s.calls[j].work && t.calls[j].odds == s.calls[j].odds
  {
    if e.Advance? && CanAdvance(s, e.i) { CallStaysItself(s, e.i, e.ok, e.applied, j); }
  }

  lemma {:induction false} WorkHolds(events: seq<Event>)
    ensures WorkOk(Run(events))
  {
    if events != [] {
      var s, e := Run(events[..|events| - 1]), events[|events| - 1];
      WorkHolds(events[..|events| - 1]);
      var t := Apply(s, e);
      forall i | 0 <= i < |t.calls|
        ensures t.calls[i].work == Results(t.calls[i].odds)
      {
        if i < |s.calls| { CallsStay(s, e, i); }
        if e.Advance? && CanAdvance(s, e.i) { CallStaysItself(s, e.i, e.ok, e.applied, e.i); }
      }
    }
  }

  lemma {:induction false} NewRow(s: State, e: Event)
    ensures var t := Apply(s, e);
            t.checks == s.checks
            || (e.Advance? && CanAdvance(s, e.i) && t.checks == s.checks + [Current(s.calls[e.i])])
  {
  }

  lemma {:induction false} RowsHold(events: seq<Event>)
    ensures RowsFromCalls(Run(events))
  {
    if events != [] {
      var s, e := Run(events[..|events| - 1]), events[|events| - 1];
      RowsHold(events[..|events| - 1]);
      var t := Apply(s, e);
      NewRow(s, e);
      forall n | 0 <= n < |t.checks|
        ensures FromCall(t, t.checks[n])
      {
        if n < |s.checks| {
          assert FromCall(s, s.checks[n]);
          var i :| 0 <= i < |s.calls| && s.checks[n] in s.calls[i].work;
          CallsStay(s, e, i);
        } else {
          CallsStay(s, e, e.i);
          assert t.checks[n] in t.calls[e.i].work;
        }
      }
    }
  }

  /** Every row is the consistency result, for one market set the update covers, of an update that has arrived. */
  lemma {:induction false} RowsAreResults(events: seq<Event>, n: nat)
    requires n < |Run(events).checks|
    ensures exists i, j :: 0 <= i < |Run(events).calls| && 0 <= j < |Work(Run(events).calls[i].odds)|
              && Run(events).checks[n] == RowOf(Run(events).calls[i].odds, Work(Run(events).calls[i].odds)[j])
  {
    RowsHold(events);
    WorkHolds(events);
    var s := Run(events);
    assert FromCall(s, s.checks[n]);
    var i :| 0 <= i < |s.calls| && s.checks[n] in s.calls[i].work;
    var j :| 0 <= j < |s.calls[i].work| && s.calls[i].work[j] == s.checks[n];
    assert s.calls[i].work == Results(s.calls[i].odds);
    assert 0 <= j < |Work(s.calls[i].odds)|;
  }

  ghost predicate ClaimsFollow(s: State, t: State) {
    && |t.claims| >= |s.claims| && t.claims[..|s.claims|] == s.claims
    && forall k :: k in t.redis && k !in s.redis ==> k in t.claims
  }

  lemma {:induction false} ClaimAppends(s: State, i: nat, ok: bool, applied: bool)
    requires CanAdvance(s, i) && s.calls[i].pc.Claim?
    ensures ClaimsFollow(s, StepClaim(s, i, ok, applied))
  {
  }

  lemma {:induction false} ClaimsAppend(s: State, e: Event)
    ensures ClaimsFollow(s, Apply(s, e))
  {
    if e.Advance? && CanAdvance(s, e.i) {
      if s.calls[e.i].pc.Claim? {
        ClaimAppends(s, e.i, e.ok, e.applied);
      } else {
        OthersKeepKeys(s, e.i, e.ok, e.applied);
      }
    }
  }

  lemma PrefixIn<T>(a: seq<T>, b: seq<T>)
    requires |a| <= |b| && b[..|a|] == a
    ensures forall x :: x in a ==> x in b
  {
    forall x | x in a ensures x in b {
      assert x in b[..|a|];
    }
  }

  lemma {:induction false} ClaimsGrow(s: State, e: Event)
    ensures forall k :: k in s.claims ==> k in Apply(s, e).claims
    ensures forall k :: k in Apply(s, e).redis && k !in s.redis ==> k in Apply(s, e).claims
  {
    ClaimsAppend(s, e);
    PrefixIn(s.claims, Apply(s, e).claims);
  }

  lemma {:induction false} SteppedCallDealtWith(s: State, i: nat, ok: bool, applied: bool)
    requires CanAdvance(s, i) && KeysClaimed(s) && DealtWith(s.claims, s.calls[i])
    ensures DealtWith(StepCall(s, i, ok, applied).claims, StepCall(s, i, ok, applied).calls[i])
  {
    ClaimsGrow(s, Advance(i, ok, applied));
    StepReplacesOne(s, i, ok, applied);
    var c := s.calls[i];
    if c.pc.Claim? { assert ok && Current(c).key in s.redis ==> Current(c).key in s.claims; }
  }

  lemma {:induction false} SeenHolds(events: seq<Event>)
    ensures Seen(Run(events)) && KeysClaimed(Run(events))
  {
    if events != [] {
      var s, e := Run(events[..|events| - 1]), events[|events| - 1];
      SeenHolds(events[..|events| - 1]);
      var t := Apply(s, e);
      ClaimsGrow(s, e);
      forall j | 0 <= j < |t.calls|
        ensures DealtWith(t.claims, t.calls[j])
      {
        if e.Advance? && CanAdvance(s, e.i) {
          StepReplacesOne(s, e.i, e.ok, e.applied);
          if j == e.i {
            SteppedCallDealtWith(s, j, e.ok, e.applied);
          } else {
            assert t.calls[j] == s.calls[j] && DealtWith(s.claims, s.calls[j]);
          }
        } else if j < |s.calls| {
          assert t.calls[j] == s.calls[j] && DealtWith(s.claims, s.calls[j]);
        }
      }
    }
  }

  ghost predicate ResultsOk(c: Call) {
    forall r :: r in c.results ==> r in c.work
  }

  lemma {:induction false} SteppedResultsOk(s: State, i: nat, ok: bool, applied: bool)
    requires CanAdvance(s, i) && ResultsOk(s.calls[i])
    ensures |StepCall(s, i, ok, applied).calls| == |s.calls| && ResultsOk(StepCall(s, i, ok, applied).calls[i])
  {
    CallStaysItself(s, i, ok, applied, i);
    if !s.calls[i].pc.Claim? { OthersKeepResults(s, i, ok, applied); }
  }

  /** What a call is going to return are results for its own market sets. */
  lemma {:induction false} ResultsAreWork(events: seq<Event>)
    ensures forall i :: 0 <= i < |Run(events).calls| ==> ResultsOk(Run(events).calls[i])
  {
    if events != [] {
      var s, e := Run(events[..|events| - 1]), events[|events| - 1];
      ResultsAreWork(events[..|events| - 1]);
      var t := Apply(s, e);
      forall i | 0 <= i < |t.calls|
        ensures ResultsOk(t.calls[i])
      {
        if i < |s.calls| { assert ResultsOk(s.calls[i]); }
        if e.Advance? && CanAdvance(s, e.i) {
          StepReplacesOne(s, e.i, e.ok, e.applied);
          SteppedResultsOk(s, e.i, e.ok, e.applied);
        }
      }
    }
  }

  // ----- Runs without failures -----

  ghost predicate NoFailures(events: seq<Event>) {
    forall i :: 0 <= i < |events| ==>
      (events[i].Advance? ==> events[i].ok && events[i].applied) && (events[i].Land? ==> events[i].ok)
  }

  /** Nothing was lost, and no call has failed. */
  ghost predicate Unharmed(s: State) {
    && s.lostClaims == [] && s.lostJobs == [] && s.lostProofs == []
    && forall i :: 0 <= i < |s.calls| ==> !s.calls[i].pc.Failed?
  }

  lemma {:induction false} GoodStep(s: State, i: nat)
    requires CanAdvance(s, i) && Unharmed(s)
    ensures Unharmed(StepCall(s, i, true, true))
  {
    StepReplacesOne(s, i, true, true);
  }

  lemma {:induction false} NothingIsLost(events: seq<Event>)
    requires NoFailures(events)
    ensures Unharmed(Run(events))
  {
    if events != [] {
      var s, e := Run(events[..|events| - 1]), events[|events| - 1];
      NothingIsLost(events[..|events| - 1]);
      if e.Advance? && CanAdvance(s, e.i) { GoodStep(s, e.i); }
    }
  }

  lemma {:induction false} FinishedHoldNothing<T>(calls: seq<Call>, f: Call -> multiset<T>)
    requires forall i :: 0 <= i < |calls| ==> f(calls[i]) == multiset{}
    ensures Held(calls, f) == multiset{}
  {
    if calls != [] { FinishedHoldNothing(calls[1..], f); }
  }

  ghost predicate AllDone(s: State) {
    forall i :: 0 <= i < |s.calls| ==> s.calls[i].pc.Done?
  }

  lemma {:induction false} FinishedRows(events: seq<Event>, k: Key)
    requires NoFailures(events) && AllDone(Run(events))
    ensures multiset(Run(events).claims) == multiset(RowKeys(Run(events).checks))
    ensures RowCount(Run(events), k) == multiset(Run(events).expired)[k] + if k in Run(events).redis then 1 else 0
  {
    InvHolds(events);
    NothingIsLost(events);
    FinishedHoldNothing(Run(events).calls, ClaimHeld);
  }

  /**
   * When nothing has failed, all calls are done and all jobs have landed, rows, jobs and proofs match exactly:
   * every claimed key has its rows, every row one job, every inconsistent row one proof, and no other row has one.
   */
  lemma {:induction false} FinishedRunIsComplete(events: seq<Event>, k: Key, id: nat)
    requires NoFailures(events) && AllDone(Run(events)) && Run(events).pending == []
    ensures var s := Run(events);
            && RowCount(s, k) == multiset(s.expired)[k] + (if k in s.redis then 1 else 0)
            && multiset(JobIds(s.queue))[id] == (if id < |s.checks| then 1 else 0)
            && multiset(ProofIds(s.proofs))[id] == (if id < |s.checks| && !s.checks[id].isConsistent then 1 else 0)
  {
    var s := Run(events);
    InvHolds(events);
    NothingIsLost(events);
    FinishedRows(events, k);
    FinishedHoldNothing(s.calls, RowHeld);
    FinishedHoldNothing(s.calls, ProofHeld);
    IdsOccurOnce(s.checks, id);
    assert JobIds(s.pending) == [];
    assert Ids(s.checks) == multiset(JobIds(s.queue));
    assert FlaggedIds(s.checks) == multiset(ProofIds(s.proofs));
  }

  /** And every market set that an arrived update covers has its row; just one while its key has not expired. */
  lemma {:induction false} FinishedRunCoversAll(events: seq<Event>, i: nat, j: nat)
    requires NoFailures(events) && AllDone(Run(events))
    requires i < |Run(events).calls| && j < |Work(Run(events).calls[i].odds)|
    ensures var s := Run(events); var o := s.calls[i].odds; var k := KeyOf(o, Work(o)[j]);
            RowCount(s, k) >= 1 && (k !in s.expired ==> RowCount(s, k) == 1)
  {
    var s := Run(events);
    var c := s.calls[i];
    WorkHolds(events);
    SeenHolds(events);
    InvHolds(events);
    assert CallOk(s.checks, c) && DealtWith(s.claims, c);
    ResultKey(c.odds, j);
    var k := c.work[j].key;
    FinishedRows(events, k);
    assert k in multiset(s.claims);
  }
}
