/**
 * The detection pipeline as a protocol: several calls handle odds updates at the same time, share the
 * Redis keys, the two tables and the queue, and may be interrupted or fail at every await.
 */
module Detection {
  import opened Market
  import opened Consistency
  import opened OracleClient

  datatype Odds = Odds(fixtureId: string, markets: seq<MarketOdds>, snapshotHash: string)

  /** What the dedup key is made of. */
  datatype Key = Key(fixtureId: string, marketSet: seq<string>, snapshotHash: string)

  const COVERING_SETS: seq<seq<string>> :=
    [["match_winner"], ["double_chance"], ["over_under_0.5"], ["over_under_1.5"], ["over_under_2.5"],
     ["over_under_3.5"], ["over_under_4.5"], ["both_teams_score"]]

  const SINGLE_OUTCOME_SETS: seq<seq<string>> :=
    [["match_winner"], ["double_chance"], ["both_teams_score"]]

  /** A JavaScript `Set` of arrays compares them by reference, so equal market sets stay in the list twice. */
  function SetsToCheck(available: seq<string>): seq<seq<string>> {
    if "match_winner" in available then SINGLE_OUTCOME_SETS + COVERING_SETS else COVERING_SETS
  }

  function Kinds(markets: seq<MarketOdds>): seq<string> {
    seq(|markets|, i requires 0 <= i < |markets| => markets[i].kind)
  }

  predicate Covers(available: seq<string>, marketSet: seq<string>) {
    forall t :: t in marketSet ==> t in available
  }

  function Covered(sets: seq<seq<string>>, available: seq<string>): seq<seq<string>> {
    if sets == [] then []
    else (if Covers(available, sets[0]) then [sets[0]] else []) + Covered(sets[1..], available)
  }

  /** The market sets that the loop does not skip, in order. */
  function Work(o: Odds): seq<seq<string>> {
    Covered(SetsToCheck(Kinds(o.markets)), Kinds(o.markets))
  }

  function KeyOf(o: Odds, marketSet: seq<string>): Key {
    Key(o.fixtureId, marketSet, o.snapshotHash)
  }

  /** A row of `consistency_checks`; its id is its position. */
  datatype CheckRow = CheckRow(key: Key, sum: real, isConsistent: bool, margin: real)

  datatype ProofRow = ProofRow(checkId: nat, fixtureId: string, margin: real)

  datatype Job = Job(
    checkId: nat, fixtureId: string, marketSet: seq<string>,
    sum: real, isConsistent: bool, margin: real)

  function RowOf(o: Odds, marketSet: seq<string>): CheckRow {
    var s := ImpliedSum(SelectedOdds(o.markets, marketSet));
    CheckRow(KeyOf(o, marketSet), RoundTo(s, 6), s >= 1.0, ReportedMargin(s))
  }

  /** The await that a call has reached. */
  datatype Pc = Claim | Snapshot | Check | Proof | Publish | Cache | Latest | Done | Failed

  function RowsOf(o: Odds, sets: seq<seq<string>>): (rows: seq<CheckRow>)
    ensures |rows| == |sets|
    ensures forall i :: 0 <= i < |sets| ==> rows[i] == RowOf(o, sets[i])
  {
    seq(|sets|, i requires 0 <= i < |sets| => RowOf(o, sets[i]))
  }

  /** The results for all market sets that the loop does not skip; they depend on the update alone. */
  function Results(o: Odds): (rows: seq<CheckRow>)
    ensures |rows| == |Work(o)|
  {
    RowsOf(o, Work(o))
  }

  /**
   * A running call: its input, the results for all its market sets, how many of these sets it has dealt with,
   * the await it is at, the id of the row it has written, and the results it is going to return.
   */
  datatype Call = Call(odds: Odds, work: seq<CheckRow>, next: nat, pc: Pc, row: nat, results: seq<CheckRow>)

  datatype State = State(
    redis: set<Key>,
    snapshots: set<Key>,
    checks: seq<CheckRow>,
    proofs: seq<ProofRow>,
    pending: seq<Job>,
    queue: seq<Job>,
    calls: seq<Call>,
    // History: keys that were set and keys that expired, and what failures cut short. A set key whose
    // reply never came is in both of the lists of lost sets and lost claims.
    claims: seq<Key>,
    expired: seq<Key>,
    lostSets: seq<Key>,
    lostClaims: seq<Key>,
    lostJobs: seq<nat>,
    lostProofs: seq<nat>)

  const START := State({}, {}, [], [], [], [], [], [], [], [], [], [], [])

  /**
   * A new update arrives; call i goes on, its await having succeeded or failed, and a failed one having
   * taken effect or not; the k-th of the jobs that are being added, which nobody awaits, reaches the queue
   * or is lost; a dedup key expires.
   */
  datatype Event =
    | Arrive(odds: Odds)
    | Advance(i: nat, ok: bool, applied: bool)
    | Land(k: nat, ok: bool)
    | Expire(key: Key)

  function Current(c: Call): CheckRow
    requires c.next < |c.work|
  {
    c.work[c.next]
  }

  /** Where the loop goes after a market set is finished. */
  function AtLoopHead(c: Call): Call {
    c.(pc := if c.next < |c.work| then Claim else Latest)
  }

  function NewCall(odds: Odds): Call {
    AtLoopHead(Call(odds, Results(odds), 0, Claim, 0, []))
  }

  function JobOf(s: State, c: Call): Job
    requires c.row < |s.checks|
  {
    var r := s.checks[c.row];
    Job(c.row, r.key.fixtureId, r.key.marketSet, r.sum, r.isConsistent, r.margin)
  }

  predicate InLoop(c: Call) {
    !c.pc.Latest? && !c.pc.Done? && !c.pc.Failed?
  }

  predicate HoldsRow(c: Call) {
    c.pc.Proof? || c.pc.Publish? || c.pc.Cache?
  }

  predicate CanAdvance(s: State, i: nat) {
    && i < |s.calls|
    && !s.calls[i].pc.Done? && !s.calls[i].pc.Failed?
    && (InLoop(s.calls[i]) ==> s.calls[i].next < |s.calls[i].work|)
    && (HoldsRow(s.calls[i]) ==> s.calls[i].row < |s.checks|)
  }

  function Set(s: State, i: nat, c: Call): State
    requires i < |s.calls|
  {
    s.(calls := s.calls[i := c])
  }

  function StepClaim(s: State, i: nat, ok: bool, applied: bool): State
    requires CanAdvance(s, i) && s.calls[i].pc.Claim?
  {
    var c := s.calls[i];
    var key := Current(c).key;
    var taken := if key in s.redis then s else s.(redis := s.redis + {key}, claims := s.claims + [key]);
    if !ok then
      if applied && key !in s.redis then
        Set(taken, i, c.(pc := Failed)).(lostClaims := s.lostClaims + [key], lostSets := s.lostSets + [key])
      else Set(s, i, c.(pc := Failed))
    else if key in s.redis then Set(s, i, AtLoopHead(c.(next := c.next + 1)))
    else Set(taken, i, c.(pc := Snapshot, results := c.results + [Current(c)]))
  }

  function StepSnapshot(s: State, i: nat, ok: bool, applied: bool): State
    requires CanAdvance(s, i) && s.calls[i].pc.Snapshot?
  {
    var c := s.calls[i];
    var t := if ok || applied then s.(snapshots := s.snapshots + {Current(c).key}) else s;
    if ok then Set(t, i, c.(pc := Check))
    else Set(t, i, c.(pc := Failed)).(lostClaims := s.lostClaims + [Current(c).key])
  }

  function StepCheck(s: State, i: nat, ok: bool, applied: bool): State
    requires CanAdvance(s, i) && s.calls[i].pc.Check?
  {
    var c := s.calls[i];
    var row := Current(c);
    var t := s.(checks := s.checks + [row]);
    var id := |s.checks|;
    if ok then Set(t, i, c.(row := id, pc := if row.isConsistent then Publish else Proof))
    else if applied then
      Set(t, i, c.(pc := Failed)).(lostJobs := s.lostJobs + [id],
                                   lostProofs := s.lostProofs + if row.isConsistent then [] else [id])
    else Set(s, i, c.(pc := Failed)).(lostClaims := s.lostClaims + [Current(c).key])
  }

  function StepProof(s: State, i: nat, ok: bool, applied: bool): State
    requires CanAdvance(s, i) && s.calls[i].pc.Proof?
  {
    var c := s.calls[i];
    var t := s.(proofs := s.proofs + [ProofRow(c.row, s.checks[c.row].key.fixtureId, s.checks[c.row].margin)]);
    if ok then Set(t, i, c.(pc := Publish))
    else if applied then Set(t, i, c.(pc := Failed)).(lostJobs := s.lostJobs + [c.row])
    else Set(s, i, c.(pc := Failed)).(lostJobs := s.lostJobs + [c.row], lostProofs := s.lostProofs + [c.row])
  }

  function StepCache(s: State, i: nat, ok: bool): State
    requires CanAdvance(s, i) && s.calls[i].pc.Cache?
  {
    var c := s.calls[i];
    if ok then Set(s, i, AtLoopHead(c.(next := c.next + 1))).(pending := s.pending + [JobOf(s, c)])
    else Set(s, i, c.(pc := Failed)).(lostJobs := s.lostJobs + [c.row])
  }

  /** A job that is being added arrives in the queue, or does not. */
  function StepLand(s: State, k: nat, ok: bool): State
    requires k < |s.pending|
  {
    var rest := s.(pending := s.pending[..k] + s.pending[k + 1..]);
    if ok then rest.(queue := s.queue + [s.pending[k]]) else rest.(lostJobs := s.lostJobs + [s.pending[k].checkId])
  }

  function StepPublish(s: State, i: nat, ok: bool): State
    requires CanAdvance(s, i) && s.calls[i].pc.Publish?
  {
    var c := s.calls[i];
    if ok then Set(s, i, c.(pc := Cache)) else Set(s, i, c.(pc := Failed)).(lostJobs := s.lostJobs + [c.row])
  }

  function StepLatest(s: State, i: nat, ok: bool): State
    requires CanAdvance(s, i) && s.calls[i].pc.Latest?
  {
    Set(s, i, s.calls[i].(pc := if ok then Done else Failed))
  }

  function StepCall(s: State, i: nat, ok: bool, applied: bool): State
    requires CanAdvance(s, i)
  {
    var c := s.calls[i];
    match c.pc
    case Claim => StepClaim(s, i, ok, applied)
    case Snapshot => StepSnapshot(s, i, ok, applied)
    case Check => StepCheck(s, i, ok, applied)
    case Proof => StepProof(s, i, ok, applied)
    case Publish => StepPublish(s, i, ok)
    case Cache => StepCache(s, i, ok)
    case Latest => StepLatest(s, i, ok)
    case Done => s
    case Failed => s
  }

  /** One event; an event that cannot happen changes nothing. */
  function Apply(s: State, e: Event): State {
    match e
    case Arrive(odds) => s.(calls := s.calls + [NewCall(odds)])
    case Advance(i, ok, applied) => if CanAdvance(s, i) then StepCall(s, i, ok, applied) else s
    case Land(k, ok) => if k < |s.pending| then StepLand(s, k, ok) else s
    case Expire(key) => if key in s.redis then s.(redis := s.redis - {key}, expired := s.expired + [key]) else s
  }

  function Run(events: seq<Event>): State {
    if events == [] then START else Apply(Run(events[..|events| - 1]), events[|events| - 1])
  }

  // ----- What the calls hold in their hands -----

  function Held<T>(calls: seq<Call>, f: Call -> multiset<T>): multiset<T> {
    if calls == [] then multiset{} else f(calls[0]) + Held(calls[1..], f)
  }

  lemma {:induction false} HeldAppend<T>(calls: seq<Call>, c: Call, f: Call -> multiset<T>)
    ensures Held(calls + [c], f) == Held(calls, f) + f(c)
  {
    if calls == [] {
      assert [c][1..] == [];
    } else {
      assert (calls + [c])[1..] == calls[1..] + [c];
      HeldAppend(calls[1..], c, f);
    }
  }

  /** Replacing one call exchanges exactly what it holds. */
  lemma {:induction false} HeldUpdate<T>(calls: seq<Call>, i: nat, c: Call, f: Call -> multiset<T>)
    requires i < |calls|
    ensures Held(calls[i := c], f) + f(calls[i]) == Held(calls, f) + f(c)
  {
    var u := calls[i := c];
    if i == 0 {
      assert u[1..] == calls[1..];
      assert Held(u, f) == f(c) + Held(calls[1..], f);
    } else {
      assert u[1..] == calls[1..][i - 1 := c];
      HeldUpdate(calls[1..], i - 1, c, f);
      assert Held(u, f) + f(calls[i]) == f(calls[0]) + (Held(u[1..], f) + f(calls[i]));
    }
  }

  /** A key claimed for which no row has been written yet. */
  function ClaimHeld(c: Call): multiset<Key> {
    if (c.pc.Snapshot? || c.pc.Check?) && c.next < |c.work| then multiset{Current(c).key} else multiset{}
  }

  /** A row written for which no job has been added yet. */
  function RowHeld(c: Call): multiset<nat> {
    if HoldsRow(c) then multiset{c.row} else multiset{}
  }

  /** An inconsistent row whose proof has not been written yet. */
  function ProofHeld(c: Call): multiset<nat> {
    if c.pc.Proof? then multiset{c.row} else multiset{}
  }

  function RowKeys(checks: seq<CheckRow>): (keys: seq<Key>)
    ensures |keys| == |checks|
  {
    seq(|checks|, i requires 0 <= i < |checks| => checks[i].key)
  }

  function JobIds(jobs: seq<Job>): (ids: seq<nat>)
    ensures |ids| == |jobs|
  {
    seq(|jobs|, i requires 0 <= i < |jobs| => jobs[i].checkId)
  }

  function ProofIds(proofs: seq<ProofRow>): (ids: seq<nat>)
    ensures |ids| == |proofs|
  {
    seq(|proofs|, i requires 0 <= i < |proofs| => proofs[i].checkId)
  }

  /** Every row id once. */
  function Ids(checks: seq<CheckRow>): multiset<nat> {
    if checks == [] then multiset{} else Ids(checks[..|checks| - 1]) + multiset{|checks| - 1}
  }

  /** The id of every inconsistent row once. */
  function FlaggedIds(checks: seq<CheckRow>): multiset<nat> {
    if checks == [] then multiset{}
    else
      var n := |checks| - 1;
      FlaggedIds(checks[..n]) + if checks[n].isConsistent then multiset{} else multiset{n}
  }
}
