/** `handleOddsUpdate` as code over the shared stores, interleaved with everything else that goes on in the backend. */
module DetectionHandler {
  import opened Common
  import opened Consistency
  import opened Detection
  import opened DetectionLaws
  import opened DetectionResults

  /**
   * What happens while a call awaits: events of the rest of the backend, and then how its await turns out.
   * A failed await may still have taken effect.
   */
  datatype Turn = Turn(others: seq<Event>, ok: bool, applied: bool)

  datatype Reply = Granted | Refused | Thrown

  /** The event that the await of call i is for the protocol. */
  function Move(i: nat, turn: Turn): Event {
    Advance(i, turn.ok, turn.applied)
  }

  /** All events from `base` on when call i has gone through `n` awaits. */
  function Path(base: seq<Event>, i: nat, turns: nat -> Turn, n: nat): seq<Event> {
    if n == 0 then base else Path(base, i, turns, n - 1) + (turns(n - 1).others + [Move(i, turns(n - 1))])
  }

  /** Events that do not make call i go on: new updates, other calls, jobs that land, keys that expire. */
  predicate Elsewhere(i: nat, events: seq<Event>) {
    forall k :: 0 <= k < |events| ==> !(events[k].Advance? && events[k].i == i)
  }

  function ApplyAll(s: State, events: seq<Event>): State
    decreases |events|
  {
    if events == [] then s else ApplyAll(Apply(s, events[0]), events[1..])
  }

  ghost predicate IsRun(run: seq<Event> -> State) {
    run([]) == START && forall events: seq<Event>, e: Event :: run(events + [e]) == Apply(run(events), e)
  }

  /**
   * The state that running the events leads to. There is one such function, and it is `Run`; said in this way, the
   * methods' contracts do not make the verifier unfold `Run` on every trace.
   */
  ghost predicate Reached(events: seq<Event>, s: State) {
    forall run: seq<Event> -> State :: IsRun(run) ==> run(events) == s
  }

  lemma {:induction false} OneRun(run: seq<Event> -> State, events: seq<Event>)
    requires IsRun(run)
    ensures run(events) == Run(events)
    decreases |events|
  {
    if events != [] {
      var n := |events| - 1;
      OneRun(run, events[..n]);
      assert events == events[..n] + [events[n]];
    }
  }

  lemma {:induction false} ReachedIsRun(events: seq<Event>, s: State)
    ensures Reached(events, s) <==> s == Run(events)
  {
    forall before: seq<Event>, e: Event ensures Run(before + [e]) == Apply(Run(before), e) {
      assert (before + [e])[..|before|] == before;
    }
    assert IsRun(Run);
    forall run: seq<Event> -> State | IsRun(run) ensures run(events) == Run(events) { OneRun(run, events); }
  }

  lemma ReachedSnoc(events: seq<Event>, s: State, e: Event)
    requires Reached(events, s)
    ensures Reached(events + [e], Apply(s, e))
  {
  }

  lemma {:induction false} ReachedAll(events: seq<Event>, s: State, more: seq<Event>)
    requires Reached(events, s)
    ensures Reached(events + more, ApplyAll(s, more))
    decreases |more|
  {
    if more == [] {
      assert events + more == events;
    } else {
      ReachedSnoc(events, s, more[0]);
      ReachedAll(events + [more[0]], Apply(s, more[0]), more[1..]);
      assert events + [more[0]] + more[1..] == events + more;
    }
  }

  ghost predicate RowsStay(before: State, after: State) {
    |before.checks| <= |after.checks| && after.checks[..|before.checks|] == before.checks
  }

  /** Call i and the rows written so far are what they were. */
  ghost predicate Same(i: nat, before: State, after: State) {
    && i < |before.calls| <= |after.calls| && after.calls[i] == before.calls[i]
    && RowsStay(before, after)
  }

  lemma RowsStayTwice(a: State, b: State, c: State)
    requires RowsStay(a, b) && RowsStay(b, c)
    ensures RowsStay(a, c)
  {
    assert c.checks[..|a.checks|] == c.checks[..|b.checks|][..|a.checks|];
  }

  lemma {:induction false} OneElsewhere(i: nat, s: State, e: Event)
    requires i < |s.calls| && !(e.Advance? && e.i == i)
    ensures Same(i, s, Apply(s, e))
  {
    ChecksOnlyGrow(s, e);
    if e.Advance? && CanAdvance(s, e.i) { StepReplacesOne(s, e.i, e.ok, e.applied); }
  }

  lemma {:induction false} AllElsewhere(i: nat, s: State, events: seq<Event>)
    requires i < |s.calls| && Elsewhere(i, events)
    ensures Same(i, s, ApplyAll(s, events))
    decreases |events|
  {
    if events != [] {
      var t := Apply(s, events[0]);
      OneElsewhere(i, s, events[0]);
      AllElsewhere(i, t, events[1..]);
      RowsStayTwice(s, t, ApplyAll(t, events[1..]));
    }
  }

  /** What a call returns are results of its own update. */
  lemma {:induction false} ResultsAreOwn(trace: seq<Event>, s: State, i: nat)
    requires Reached(trace, s) && i < |s.calls|
    ensures forall r :: r in s.calls[i].results ==> r in Results(s.calls[i].odds)
  {
    ReachedIsRun(trace, s);
    ResultsAreWork(trace);
    WorkHolds(trace);
    assert ResultsOk(s.calls[i]);
  }

  /** One more await of call i. */
  lemma OneMore(base: seq<Event>, i: nat, turns: nat -> Turn, t: nat)
    ensures Path(base, i, turns, t + 1) == Path(base, i, turns, t) + (turns(t).others + [Move(i, turns(t))])
  {
  }

  /** The results from `next` on are those of the market sets still ahead. */
  ghost predicate Ahead(odds: Odds, sets: seq<seq<string>>, available: seq<string>, work: seq<CheckRow>, next: nat) {
    next <= |work| && work[next..] == RowsOf(odds, Covered(sets, available))
  }

  /** A covered market set ahead is the next one that the call has work for, and one not covered is skipped. */
  lemma {:induction false} NextSet(odds: Odds, first: seq<string>, more: seq<seq<string>>, available: seq<string>,
                                   work: seq<CheckRow>, next: nat)
    requires Ahead(odds, [first] + more, available, work, next) && Covers(available, first)
    ensures next < |work| && work[next] == RowOf(odds, first) && Ahead(odds, more, available, work, next + 1)
  {
    var rest := Covered(more, available);
    assert ([first] + more)[1..] == more;
    assert Covered([first] + more, available) == [first] + rest;
    assert RowsOf(odds, [first] + rest) == [RowOf(odds, first)] + RowsOf(odds, rest);
    assert work[next..][1..] == work[next + 1..];
  }

  lemma {:induction false} SkippedSet(odds: Odds, first: seq<string>, more: seq<seq<string>>, available: seq<string>,
                                      work: seq<CheckRow>, next: nat)
    requires Ahead(odds, [first] + more, available, work, next) && !Covers(available, first)
    ensures Ahead(odds, more, available, work, next)
  {
    assert ([first] + more)[1..] == more;
    assert Covered([first] + more, available) == [] + Covered(more, available) == Covered(more, available);
  }

  /** Before the first turn all results are ahead. */
  lemma AllAhead(odds: Odds)
    ensures Ahead(odds, SetsToCheck(Kinds(odds.markets)), Kinds(odds.markets), Results(odds), 0)
    ensures AtLoopHead(NewCall(odds)) == NewCall(odds)
  {
    assert Results(odds)[0..] == Results(odds);
  }

  /** The loop has finished with a market set, or an await has thrown. */
  ghost predicate Turned(before: Call, after: Call, thrown: bool) {
    && after.work == before.work && after.odds == before.odds && after.results == before.results
    && if thrown then after.pc == Failed
       else after.next == before.next + 1 && after == AtLoopHead(after)
  }

  method ResultOf(odds: Odds, marketSet: seq<string>) returns (row: CheckRow)
    requires ProperMarkets(odds.markets)
    ensures row == RowOf(odds, marketSet)
  {
    var r := CheckConsistency(odds.fixtureId, odds.markets, marketSet, odds.snapshotHash, None);
    SelectedSum(odds.markets, marketSet);
    row := CheckRow(KeyOf(odds, marketSet), r.sum, r.isConsistent, r.margin);
  }

  /** The stores of the backend; `st` is the whole of it as the protocol sees it, the other calls included. */
  class Backend {
    var redis: set<Key>
    var snapshots: set<Key>
    var checks: seq<CheckRow>
    var proofs: seq<ProofRow>
    var pending: seq<Job>
    var queue: seq<Job>
    var st: State
    /** All events so far. */
    ghost var trace: seq<Event>

    /** The stores are those of the protocol after these events. */
    ghost predicate Valid()
      reads this
    {
      && redis == st.redis && snapshots == st.snapshots && checks == st.checks
      && proofs == st.proofs && pending == st.pending && queue == st.queue
      && Reached(trace, st)
    }

    /** Call i has reached the given await for the given row. */
    ghost predicate At(i: nat, pc: Pc, row: CheckRow)
      reads this
    {
      && Valid() && CanAdvance(st, i) && st.calls[i].pc == pc
      && st.calls[i].next < |st.calls[i].work| && Current(st.calls[i]) == row
    }

    /** Call i went on by one await to `pc`, or failed. */
    ghost predicate WentOn(before: State, past: seq<Event>, i: nat, turn: Turn, pc: Pc)
      reads this
    {
      && Valid() && trace == past + (turn.others + [Move(i, turn)])
      && i < |before.calls| && i < |st.calls|
      && st.calls[i] == before.calls[i].(pc := if turn.ok then pc else Failed, row := st.calls[i].row)
      && RowsStay(before, st)
    }

    constructor ()
      ensures Valid() && trace == []
    {
      redis, snapshots, checks, proofs, pending, queue := {}, {}, [], [], [], [];
      st, trace := START, [];
    }

    /** The call awaits, and the rest of the backend goes on. */
    method Wait(turn: Turn, i: nat)
      requires Valid() && i < |st.calls| && Elsewhere(i, turn.others)
      modifies this
      ensures Valid() && trace == old(trace) + turn.others && Same(i, old(st), st)
      ensures st == ApplyAll(old(st), turn.others)
    {
      ReachedAll(trace, st, turn.others);
      AllElsewhere(i, st, turn.others);
      trace := trace + turn.others;
      st := ApplyAll(st, turn.others);
      redis, snapshots, checks := st.redis, st.snapshots, st.checks;
      proofs, pending, queue := st.proofs, st.pending, st.queue;
    }

    method SetNx(key: Key, turn: Turn, i: nat, ghost row: CheckRow) returns (reply: Reply)
      requires At(i, Claim, row) && row.key == key && Elsewhere(i, turn.others)
      modifies this
      ensures Valid() && trace == old(trace) + (turn.others + [Move(i, turn)]) && i < |st.calls|
      ensures reply == if !turn.ok then Thrown
                       else if key in ApplyAll(old(st), turn.others).redis then Refused else Granted
      ensures var c := old(st).calls[i];
              st.calls[i] == match reply
                             case Thrown => c.(pc := Failed)
                             case Refused => AtLoopHead(c.(next := c.next + 1))
                             case Granted => c.(pc := Snapshot, results := c.results + [row])
    {
      Wait(turn, i);
      reply := if !turn.ok then Thrown else if key in redis then Refused else Granted;
      if turn.ok || turn.applied { redis := redis + {key}; }
      ReachedSnoc(trace, st, Move(i, turn));
      st := StepCall(st, i, turn.ok, turn.applied);
      trace := trace + [Move(i, turn)];
      Regroup(old(trace), turn.others, [Move(i, turn)]);
    }

    method InsertSnapshot(key: Key, turn: Turn, i: nat, ghost row: CheckRow)
      requires At(i, Snapshot, row) && row.key == key && Elsewhere(i, turn.others)
      modifies this
      ensures WentOn(old(st), old(trace), i, turn, Check)
    {
      Wait(turn, i);
      if turn.ok || turn.applied { snapshots := snapshots + {key}; }
      ReachedSnoc(trace, st, Move(i, turn));
      st := StepCall(st, i, turn.ok, turn.applied);
      trace := trace + [Move(i, turn)];
      Regroup(old(trace), turn.others, [Move(i, turn)]);
    }

    method InsertCheck(row: CheckRow, turn: Turn, i: nat) returns (id: nat)
      requires At(i, Check, row) && Elsewhere(i, turn.others)
      modifies this
      ensures WentOn(old(st), old(trace), i, turn, if row.isConsistent then Publish else Proof)
      ensures turn.ok ==> st.calls[i].row == id < |checks| && checks[id] == row
    {
      Wait(turn, i);
      id := |checks|;
      if turn.ok || turn.applied { checks := checks + [row]; }
      ReachedSnoc(trace, st, Move(i, turn));
      RowsStayTwice(old(st), st, StepCall(st, i, turn.ok, turn.applied));
      st := StepCall(st, i, turn.ok, turn.applied);
      trace := trace + [Move(i, turn)];
      Regroup(old(trace), turn.others, [Move(i, turn)]);
    }

    method InsertProof(p: ProofRow, turn: Turn, i: nat, ghost row: CheckRow)
      requires At(i, Proof, row) && Elsewhere(i, turn.others)
      requires p.checkId == st.calls[i].row < |checks|
      requires p == ProofRow(p.checkId, checks[p.checkId].key.fixtureId, checks[p.checkId].margin)
      modifies this
      ensures WentOn(old(st), old(trace), i, turn, Publish) && st.calls[i].row == old(st).calls[i].row
    {
      Wait(turn, i);
      assert checks[..|old(checks)|][p.checkId] == old(checks)[p.checkId];
      if turn.ok || turn.applied { proofs := proofs + [p]; }
      ReachedSnoc(trace, st, Move(i, turn));
      st := StepCall(st, i, turn.ok, turn.applied);
      trace := trace + [Move(i, turn)];
      Regroup(old(trace), turn.others, [Move(i, turn)]);
    }

    method PublishEvent(turn: Turn, i: nat, ghost row: CheckRow)
      requires At(i, Publish, row) && Elsewhere(i, turn.others)
      modifies this
      ensures WentOn(old(st), old(trace), i, turn, Cache) && st.calls[i].row == old(st).calls[i].row
    {
      Wait(turn, i);
      ReachedSnoc(trace, st, Move(i, turn));
      st := StepCall(st, i, turn.ok, turn.applied);
      trace := trace + [Move(i, turn)];
      Regroup(old(trace), turn.others, [Move(i, turn)]);
    }

    /** Cache the event, and start adding the job; nobody awaits the end of that. */
    method CacheAndEnqueue(job: Job, turn: Turn, i: nat, ghost row: CheckRow)
      requires At(i, Cache, row) && Elsewhere(i, turn.others)
      requires st.calls[i].row < |checks| && job == JobOf(st, st.calls[i])
      modifies this
      ensures Valid() && trace == old(trace) + (turn.others + [Move(i, turn)]) && i < |st.calls|
      ensures var c := old(st).calls[i];
              st.calls[i] == if turn.ok then AtLoopHead(c.(next := c.next + 1)) else c.(pc := Failed)
    {
      Wait(turn, i);
      assert checks[..|old(checks)|][st.calls[i].row] == old(checks)[st.calls[i].row];
      if turn.ok { pending := pending + [job]; }
      ReachedSnoc(trace, st, Move(i, turn));
      st := StepCall(st, i, turn.ok, turn.applied);
      trace := trace + [Move(i, turn)];
      Regroup(old(trace), turn.others, [Move(i, turn)]);
    }

    /** The last await, behind the loop. */
    method CacheLatest(turn: Turn, i: nat) returns (thrown: bool)
      requires Valid() && i < |st.calls| && st.calls[i].pc == Latest && Elsewhere(i, turn.others)
      modifies this
      ensures WentOn(old(st), old(trace), i, turn, Done) && thrown == !turn.ok
    {
      Wait(turn, i);
      ReachedSnoc(trace, st, Move(i, turn));
      st := StepCall(st, i, turn.ok, turn.applied);
      trace := trace + [Move(i, turn)];
      thrown := !turn.ok;
      Regroup(old(trace), turn.others, [Move(i, turn)]);
    }

    /** What has happened since `base` is what call i went through in `t` awaits. */
    ghost predicate After(base: seq<Event>, i: nat, turns: nat -> Turn, t: nat)
      reads this
    {
      Valid() && i < |st.calls| && trace == Path(base, i, turns, t)
    }

    /** The rest of the turn once the proof, if one is due, is written: message, cache and job. */
    method Announce(id: nat, row: CheckRow, turns: nat -> Turn, i: nat, t: nat, ghost base: seq<Event>)
      returns (t': nat, thrown: bool)
      requires At(i, Publish, row) && After(base, i, turns, t) && forall n :: Elsewhere(i, turns(n).others)
      requires id == st.calls[i].row < |checks| && checks[id] == row
      modifies this
      ensures After(base, i, turns, t')
      ensures Turned(old(st).calls[i], st.calls[i], thrown)
    {
      PublishEvent(turns(t), i, row);
      OneMore(base, i, turns, t);
      t' := t + 1;
      if !turns(t).ok { return t', true; }
      assert checks[..|old(checks)|][id] == old(checks)[id];
      assert At(i, Cache, row);
      var job := Job(id, row.key.fixtureId, row.key.marketSet, row.sum, row.isConsistent, row.margin);
      CacheAndEnqueue(job, turns(t'), i, row);
      OneMore(base, i, turns, t');
      thrown := !turns(t').ok;
      t' := t' + 1;
    }

    /** Behind the row: the proof for an inconsistent one, and then the announcement. */
    method Prove(id: nat, row: CheckRow, turns: nat -> Turn, i: nat, t: nat, ghost base: seq<Event>)
      returns (t': nat, thrown: bool)
      requires At(i, if row.isConsistent then Publish else Proof, row)
      requires After(base, i, turns, t) && forall n :: Elsewhere(i, turns(n).others)
      requires id == st.calls[i].row < |checks| && checks[id] == row
      modifies this
      ensures After(base, i, turns, t')
      ensures Turned(old(st).calls[i], st.calls[i], thrown)
    {
      t' := t;
      if !row.isConsistent {
        InsertProof(ProofRow(id, row.key.fixtureId, row.margin), turns(t), i, row);
        OneMore(base, i, turns, t);
        t' := t + 1;
        if !turns(t).ok { return t', true; }
        assert checks[..|old(checks)|][id] == old(checks)[id];
      }
      t', thrown := Announce(id, row, turns, i, t', base);
    }

    /** The turn of the loop for a claimed market set. */
    method Record(row: CheckRow, turns: nat -> Turn, i: nat, t: nat, ghost base: seq<Event>)
      returns (t': nat, thrown: bool)
      requires At(i, Snapshot, row) && After(base, i, turns, t) && forall n :: Elsewhere(i, turns(n).others)
      modifies this
      ensures After(base, i, turns, t')
      ensures Turned(old(st).calls[i], st.calls[i], thrown)
    {
      InsertSnapshot(row.key, turns(t), i, row);
      OneMore(base, i, turns, t);
      t' := t + 1;
      if !turns(t).ok { return t', true; }
      var id := InsertCheck(row, turns(t'), i);
      OneMore(base, i, turns, t');
      t' := t' + 1;
      if !turns(t + 1).ok { return t', true; }
      t', thrown := Prove(id, row, turns, i, t', base);
    }

    /** One turn of the loop for a covered market set: claim its key, and record the result if that is granted. */
    method Visit(odds: Odds, marketSet: seq<string>, turns: nat -> Turn, i: nat, t: nat, ghost base: seq<Event>)
      returns (row: CheckRow, claimed: bool, t': nat, thrown: bool)
      requires ProperMarkets(odds.markets)
      requires At(i, Claim, RowOf(odds, marketSet)) && After(base, i, turns, t)
      requires forall n :: Elsewhere(i, turns(n).others)
      modifies this
      ensures After(base, i, turns, t') && row == RowOf(odds, marketSet)
      ensures var c := old(st).calls[i];
              Turned(if claimed then c.(results := c.results + [row]) else c, st.calls[i], thrown)
    {
      row := ResultOf(odds, marketSet);
      var reply := SetNx(row.key, turns(t), i, row);
      OneMore(base, i, turns, t);
      t', claimed, thrown := t + 1, reply.Granted?, reply.Thrown?;
      if claimed {
        assert At(i, Snapshot, row);
        t', thrown := Record(row, turns, i, t', base);
      }
    }

    /** Call i is at the head of the loop with these market sets ahead, and has these results so far. */
    ghost predicate AtHead(i: nat, odds: Odds, sets: seq<seq<string>>, work: seq<CheckRow>, results: seq<CheckRow>)
      reads this
    {
      && i < |st.calls| && st.calls[i].odds == odds && st.calls[i].work == work && st.calls[i].results == results
      && st.calls[i] == AtLoopHead(st.calls[i]) && Ahead(odds, sets, Kinds(odds.markets), work, st.calls[i].next)
    }

    /** One turn of the loop for a market set that the update covers. */
    method VisitNext(odds: Odds, marketSet: seq<string>, ghost more: seq<seq<string>>, ghost work: seq<CheckRow>,
                 results: seq<CheckRow>, turns: nat -> Turn, i: nat, t: nat, ghost base: seq<Event>)
      returns (results': seq<CheckRow>, t': nat, thrown: bool)
      requires ProperMarkets(odds.markets) && After(base, i, turns, t) && forall n :: Elsewhere(i, turns(n).others)
      requires AtHead(i, odds, [marketSet] + more, work, results) && Covers(Kinds(odds.markets), marketSet)
      modifies this
      ensures After(base, i, turns, t')
      ensures if thrown then st.calls[i].pc == Failed && st.calls[i].odds == odds && st.calls[i].results == results'
              else AtHead(i, odds, more, work, results')
    {
      NextSet(odds, marketSet, more, Kinds(odds.markets), work, st.calls[i].next);
      var row, claimed;
      row, claimed, t', thrown := Visit(odds, marketSet, turns, i, t, base);
      results' := if claimed then results + [row] else results;
    }

    /** The loop over the market sets; `work` is what those that the update covers will result in. */
    method Loop(odds: Odds, sets: seq<seq<string>>, turns: nat -> Turn, ghost work: seq<CheckRow>, i: nat,
                ghost base: seq<Event>)
      returns (results: seq<CheckRow>, thrown: bool, t: nat)
      requires ProperMarkets(odds.markets) && After(base, i, turns, 0) && forall n :: Elsewhere(i, turns(n).others)
      requires AtHead(i, odds, sets, work, [])
      modifies this
      ensures After(base, i, turns, t) && st.calls[i].odds == odds && st.calls[i].results == results
      ensures st.calls[i].pc == if thrown then Failed else Latest
    {
      results, thrown, t := [], false, 0;
      for k := 0 to |sets|
        invariant !thrown && After(base, i, turns, t) && AtHead(i, odds, sets[k..], work, results)
      {
        assert sets[k..] == [sets[k]] + sets[k + 1..];
        if !Covers(Kinds(odds.markets), sets[k]) {
          SkippedSet(odds, sets[k], sets[k + 1..], Kinds(odds.markets), work, st.calls[i].next);
          continue;
        }
        results, t, thrown := VisitNext(odds, sets[k], sets[k + 1..], work, results, turns, i, t, base);
        if thrown { return; }
      }
    }

    /** From the arrival on: the loop, and the last await behind it. */
    method Handle(odds: Odds, sets: seq<seq<string>>, turns: nat -> Turn, ghost work: seq<CheckRow>, i: nat,
                  ghost base: seq<Event>)
      returns (results: seq<CheckRow>, thrown: bool, t: nat)
      requires ProperMarkets(odds.markets) && After(base, i, turns, 0) && forall n :: Elsewhere(i, turns(n).others)
      requires AtHead(i, odds, sets, work, [])
      modifies this
      ensures After(base, i, turns, t) && st.calls[i].odds == odds && st.calls[i].results == results
      ensures st.calls[i].pc == if thrown then Failed else Done
    {
      results, thrown, t := Loop(odds, sets, turns, work, i, base);
      if !thrown {
        thrown := CacheLatest(turns(t), i);
        OneMore(base, i, turns, t);
        t := t + 1;
      }
    }

    /** A new call for an update that arrives. */
    method Begin(odds: Odds) returns (i: nat)
      requires Valid()
      modifies this
      ensures Valid() && trace == old(trace) + [Arrive(odds)] && i == |old(st).calls|
      ensures AtHead(i, odds, SetsToCheck(Kinds(odds.markets)), Results(odds), [])
    {
      i := |st.calls|;
      ReachedSnoc(trace, st, Arrive(odds));
      AllAhead(odds);
      st := Apply(st, Arrive(odds));
      trace := trace + [Arrive(odds)];
    }

    /**
     * Handling one update, whatever else goes on at its awaits: the events since its arrival are the moves of this
     * call and those of the others in between, and the stores are the protocol's after them. It ends done or
     * thrown, with the results that the protocol accounts for.
     */
    method HandleOddsUpdate(odds: Odds, turns: nat -> Turn)
      returns (results: seq<CheckRow>, thrown: bool, t: nat)
      requires Valid() && ProperMarkets(odds.markets)
      requires forall n :: Elsewhere(|st.calls|, turns(n).others)
      modifies this
      ensures var i := |old(st).calls|;
              && Valid() && trace == Path(old(trace) + [Arrive(odds)], i, turns, t)
              && i < |st.calls| && st.calls[i].odds == odds && st.calls[i].results == results
              && st.calls[i].pc == if thrown then Failed else Done
      ensures forall r :: r in results ==> r in Results(odds)
    {
      var i := Begin(odds);
      results, thrown, t := Handle(odds, SetsToCheck(Kinds(odds.markets)), turns, Results(odds), i, trace);
      ResultsAreOwn(trace, st, i);
    }
  }

  /**
   * So whatever has been handled so far, and however it was interleaved, the stores obey the protocol: its
   * invariant holds, a key has at most one row for each of its lives, and no row has two jobs.
   */
  lemma {:induction false} StoresObeyProtocol(b: Backend, k: Key)
    requires b.Valid()
    ensures Inv(b.st)
    ensures multiset(RowKeys(b.checks))[k] <= multiset(b.st.expired)[k] + if k in b.redis then 1 else 0
    ensures forall i, j :: 0 <= i < j < |b.queue| ==> b.queue[i].checkId != b.queue[j].checkId
  {
    ReachedIsRun(b.trace, b.st);
    InvHolds(b.trace);
    AtMostOnePerLife(b.trace, k);
    forall i, j | 0 <= i < j < |b.queue| ensures b.queue[i].checkId != b.queue[j].checkId {
      JobsAreDistinct(b.trace, i, j);
    }
  }
}
