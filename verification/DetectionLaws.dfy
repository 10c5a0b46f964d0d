/** Conservation laws of the detection pipeline, kept by every step of every interleaving. */
module DetectionLaws {
  import opened Detection

  /** Every claim has become one row, is in the hands of one call, or was lost to a failure. */
  ghost predicate ClaimLaw(s: State) {
    multiset(s.claims) == multiset(RowKeys(s.checks)) + Held(s.calls, ClaimHeld) + multiset(s.lostClaims)
  }

  /** The rows whose jobs are in the queue or on their way to it. */
  ghost function Jobs(s: State): multiset<nat> {
    multiset(JobIds(s.queue)) + multiset(JobIds(s.pending))
  }

  /** Every row has one job, or is in the hands of one call, or its job was lost. */
  ghost predicate JobLaw(s: State) {
    Ids(s.checks) == Jobs(s) + Held(s.calls, RowHeld) + multiset(s.lostJobs)
  }

  /**
   * Every inconsistent row has one proof, or is in the hands of one call, or its proof was lost; no other row
   * has one.
   */
  ghost predicate ProofLaw(s: State) {
    FlaggedIds(s.checks) == multiset(ProofIds(s.proofs)) + Held(s.calls, ProofHeld) + multiset(s.lostProofs)
  }

  /** A key has been claimed once more than it has expired while it lives, and as often when it does not. */
  ghost predicate KeyLaw(s: State) {
    forall k :: multiset(s.claims)[k] == multiset(s.expired)[k] + if k in s.redis then 1 else 0
  }

  ghost predicate Laws(s: State) {
    ClaimLaw(s) && JobLaw(s) && ProofLaw(s) && KeyLaw(s)
  }

  /** Where a call stands, and the row it holds. */
  ghost predicate CallOk(checks: seq<CheckRow>, c: Call) {
    && c.next <= |c.work|
    && (InLoop(c) ==> c.next < |c.work|)
    && (c.pc.Latest? || c.pc.Done? ==> c.next == |c.work|)
    && (HoldsRow(c) ==> c.row < |checks| && checks[c.row] == Current(c))
    && (c.pc.Proof? ==> !checks[c.row].isConsistent)
  }

  ghost predicate CallsOk(s: State) {
    forall i :: 0 <= i < |s.calls| ==> CallOk(s.checks, s.calls[i])
  }

  /** Proofs and jobs copy the row they point to. */
  ghost predicate ProofOk(checks: seq<CheckRow>, p: ProofRow) {
    && p.checkId < |checks|
    && !checks[p.checkId].isConsistent
    && p.fixtureId == checks[p.checkId].key.fixtureId && p.margin == checks[p.checkId].margin
  }

  ghost predicate JobOk(checks: seq<CheckRow>, j: Job) {
    && j.checkId < |checks|
    && var r := checks[j.checkId];
       j == Job(j.checkId, r.key.fixtureId, r.key.marketSet, r.sum, r.isConsistent, r.margin)
  }

  ghost predicate JobsOk(checks: seq<CheckRow>, jobs: seq<Job>) {
    forall i :: 0 <= i < |jobs| ==> JobOk(checks, jobs[i])
  }

  ghost predicate LinksOk(s: State) {
    && (forall i :: 0 <= i < |s.proofs| ==> ProofOk(s.checks, s.proofs[i]))
    && JobsOk(s.checks, s.pending) && JobsOk(s.checks, s.queue)
  }

  ghost predicate Inv(s: State) {
    Laws(s) && CallsOk(s) && LinksOk(s)
  }

  // ----- One call changes hands -----

  /** What is added on the left of a law, less what a call gives up, arrives on the right. */
  lemma Balance<T>(all: multiset<T>, stored: multiset<T>, held: multiset<T>, lost: multiset<T>,
                   newAll: multiset<T>, newStored: multiset<T>, newLost: multiset<T>,
                   given: multiset<T>, taken: multiset<T>, held': multiset<T>)
    requires all == stored + held + lost
    requires held' + given == held + taken
    requires newAll + given == newStored + taken + newLost
    ensures all + newAll == (stored + newStored) + held' + (lost + newLost)
  {
    forall x
      ensures (all + newAll)[x] == ((stored + newStored) + held' + (lost + newLost))[x]
    {
      assert (held' + given)[x] == (held + taken)[x];
      assert (newAll + given)[x] == (newStored + taken + newLost)[x];
    }
  }

  /** What a step adds to the tables and to the history. */
  datatype Change = Change(claims: multiset<Key>, rows: multiset<Key>, lostClaims: multiset<Key>,
                           ids: multiset<nat>, jobs: multiset<nat>, lostJobs: multiset<nat>,
                           flagged: multiset<nat>, proofs: multiset<nat>, lostProofs: multiset<nat>)

  const NOTHING := Change(multiset{}, multiset{}, multiset{}, multiset{}, multiset{}, multiset{},
                          multiset{}, multiset{}, multiset{})

  ghost predicate Adds(s: State, t: State, d: Change) {
    && multiset(t.claims) == multiset(s.claims) + d.claims
    && multiset(RowKeys(t.checks)) == multiset(RowKeys(s.checks)) + d.rows
    && multiset(t.lostClaims) == multiset(s.lostClaims) + d.lostClaims
    && Ids(t.checks) == Ids(s.checks) + d.ids
    && Jobs(t) == Jobs(s) + d.jobs
    && multiset(t.lostJobs) == multiset(s.lostJobs) + d.lostJobs
    && FlaggedIds(t.checks) == FlaggedIds(s.checks) + d.flagged
    && multiset(ProofIds(t.proofs)) == multiset(ProofIds(s.proofs)) + d.proofs
    && multiset(t.lostProofs) == multiset(s.lostProofs) + d.lostProofs
  }

  ghost predicate Balanced(c: Call, c': Call, d: Change) {
    && d.claims + ClaimHeld(c) == d.rows + ClaimHeld(c') + d.lostClaims
    && d.ids + RowHeld(c) == d.jobs + RowHeld(c') + d.lostJobs
    && d.flagged + ProofHeld(c) == d.proofs + ProofHeld(c') + d.lostProofs
  }

  lemma {:induction false} LawsMove(s: State, t: State, i: nat, c: Call, d: Change)
    requires ClaimLaw(s) && JobLaw(s) && ProofLaw(s)
    requires i < |s.calls| && t.calls == s.calls[i := c]
    requires Adds(s, t, d) && Balanced(s.calls[i], c, d)
    ensures ClaimLaw(t) && JobLaw(t) && ProofLaw(t)
  {
    var b := s.calls[i];
    HeldUpdate(s.calls, i, c, ClaimHeld);
    HeldUpdate(s.calls, i, c, RowHeld);
    HeldUpdate(s.calls, i, c, ProofHeld);
    Balance(multiset(s.claims), multiset(RowKeys(s.checks)), Held(s.calls, ClaimHeld), multiset(s.lostClaims),
            d.claims, d.rows, d.lostClaims, ClaimHeld(b), ClaimHeld(c), Held(t.calls, ClaimHeld));
    Balance(Ids(s.checks), Jobs(s), Held(s.calls, RowHeld), multiset(s.lostJobs),
            d.ids, d.jobs, d.lostJobs, RowHeld(b), RowHeld(c), Held(t.calls, RowHeld));
    Balance(FlaggedIds(s.checks), multiset(ProofIds(s.proofs)), Held(s.calls, ProofHeld), multiset(s.lostProofs),
            d.flagged, d.proofs, d.lostProofs, ProofHeld(b), ProofHeld(c), Held(t.calls, ProofHeld));
  }

  lemma {:induction false} RowAppended(checks: seq<CheckRow>, r: CheckRow)
    ensures Ids(checks + [r]) == Ids(checks) + multiset{|checks|}
    ensures FlaggedIds(checks + [r]) == FlaggedIds(checks) + if r.isConsistent then multiset{} else multiset{|checks|}
    ensures multiset(RowKeys(checks + [r])) == multiset(RowKeys(checks)) + multiset{r.key}
  {
    assert (checks + [r])[..|checks|] == checks;
    assert RowKeys(checks + [r]) == RowKeys(checks) + [r.key];
  }

  /** What one step of a call adds, await by await. */
  function Delta(s: State, i: nat, ok: bool, applied: bool): Change
    requires CanAdvance(s, i)
  {
    var c := s.calls[i];
    var id := multiset{c.row};
    match c.pc
    case Claim =>
      var key := Current(c).key;
      if !(ok || applied) || key in s.redis then NOTHING
      else NOTHING.(claims := multiset{key}, lostClaims := if ok then multiset{} else multiset{key})
    case Snapshot => if ok then NOTHING else NOTHING.(lostClaims := multiset{Current(c).key})
    case Check =>
      var row, new_ := Current(c), multiset{|s.checks|};
      var flagged := if row.isConsistent then multiset{} else new_;
      if ok then NOTHING.(rows := multiset{row.key}, ids := new_, flagged := flagged)
      else if applied then
        NOTHING.(rows := multiset{row.key}, ids := new_, lostJobs := new_, flagged := flagged, lostProofs := flagged)
      else NOTHING.(lostClaims := multiset{row.key})
    case Proof =>
      if ok then NOTHING.(proofs := id)
      else if applied then NOTHING.(proofs := id, lostJobs := id)
      else NOTHING.(lostJobs := id, lostProofs := id)
    case Publish => if ok then NOTHING else NOTHING.(lostJobs := id)
    case Cache => if ok then NOTHING.(jobs := id) else NOTHING.(lostJobs := id)
    case Latest => NOTHING
    case Done => NOTHING
    case Failed => NOTHING
  }

  /** The call at i is the only one that a step replaces. */
  lemma {:induction false} StepReplacesOne(s: State, i: nat, ok: bool, applied: bool)
    requires CanAdvance(s, i)
    ensures var t := StepCall(s, i, ok, applied);
            |t.calls| == |s.calls| && t.calls == s.calls[i := t.calls[i]]
  {
  }

  lemma {:induction false} ClaimAdds(s: State, i: nat, ok: bool, applied: bool)
    requires CanAdvance(s, i) && s.calls[i].pc.Claim?
    ensures Adds(s, StepClaim(s, i, ok, applied), Delta(s, i, ok, applied))
  {
    var t, d, key := StepClaim(s, i, ok, applied), Delta(s, i, ok, applied), Current(s.calls[i]).key;
    if (ok || applied) && key !in s.redis {
      assert t.claims == s.claims + [key];
      if ok {
        assert d == NOTHING.(claims := multiset{key}, lostClaims := multiset{});
      } else {
        assert t.lostClaims == s.lostClaims + [key];
      }
    } else {
      assert d == NOTHING;
    }
  }

  lemma HoldsNothing(c: Call)
    requires c.pc.Claim? || c.pc.Latest? || c.pc.Done? || c.pc.Failed?
    ensures ClaimHeld(c) == multiset{} && RowHeld(c) == multiset{} && ProofHeld(c) == multiset{}
  {
  }

  lemma HoldsKey(c: Call)
    requires (c.pc.Snapshot? || c.pc.Check?) && c.next < |c.work|
    ensures ClaimHeld(c) == multiset{Current(c).key} && RowHeld(c) == multiset{} && ProofHeld(c) == multiset{}
  {
  }

  lemma {:induction false} ClaimBalanced(s: State, i: nat, ok: bool, applied: bool)
    requires CanAdvance(s, i) && s.calls[i].pc.Claim?
    ensures Balanced(s.calls[i], StepClaim(s, i, ok, applied).calls[i], Delta(s, i, ok, applied))
  {
    var c, c' := s.calls[i], StepClaim(s, i, ok, applied).calls[i];
    HoldsNothing(c);
    if c'.pc.Snapshot? { HoldsKey(c'); } else { HoldsNothing(c'); }
  }

  lemma {:induction false} SnapshotAdds(s: State, i: nat, ok: bool, applied: bool)
    requires CanAdvance(s, i) && s.calls[i].pc.Snapshot?
    ensures Adds(s, StepSnapshot(s, i, ok, applied), Delta(s, i, ok, applied))
  {
  }

  lemma {:induction false} SnapshotBalanced(s: State, i: nat, ok: bool, applied: bool)
    requires CanAdvance(s, i) && s.calls[i].pc.Snapshot?
    ensures Balanced(s.calls[i], StepSnapshot(s, i, ok, applied).calls[i], Delta(s, i, ok, applied))
  {
    var c, c' := s.calls[i], StepSnapshot(s, i, ok, applied).calls[i];
    HoldsKey(c);
    if ok { HoldsKey(c'); } else { HoldsNothing(c'); }
  }

  lemma {:induction false} CheckAdds(s: State, i: nat, ok: bool, applied: bool)
    requires CanAdvance(s, i) && s.calls[i].pc.Check?
    ensures Adds(s, StepCheck(s, i, ok, applied), Delta(s, i, ok, applied))
  {
    RowAppended(s.checks, Current(s.calls[i]));
    assert s.lostProofs + [] == s.lostProofs;
  }

  lemma HoldsRowOf(c: Call)
    requires HoldsRow(c)
    ensures ClaimHeld(c) == multiset{} && RowHeld(c) == multiset{c.row}
    ensures ProofHeld(c) == if c.pc.Proof? then multiset{c.row} else multiset{}
  {
  }

  lemma {:induction false} CheckBalanced(s: State, i: nat, ok: bool, applied: bool)
    requires CanAdvance(s, i) && s.calls[i].pc.Check?
    ensures Balanced(s.calls[i], StepCheck(s, i, ok, applied).calls[i], Delta(s, i, ok, applied))
  {
    var c, c' := s.calls[i], StepCheck(s, i, ok, applied).calls[i];
    HoldsKey(c);
    if ok { HoldsRowOf(c'); } else { HoldsNothing(c'); }
  }

  lemma {:induction false} ProofAppended(proofs: seq<ProofRow>, p: ProofRow)
    ensures multiset(ProofIds(proofs + [p])) == multiset(ProofIds(proofs)) + multiset{p.checkId}
  {
    assert ProofIds(proofs + [p]) == ProofIds(proofs) + [p.checkId];
  }

  lemma {:induction false} ProofAdds(s: State, i: nat, ok: bool, applied: bool)
    requires CanAdvance(s, i) && s.calls[i].pc.Proof?
    ensures Adds(s, StepProof(s, i, ok, applied), Delta(s, i, ok, applied))
  {
    if ok || applied {
      var p := ProofRow(s.calls[i].row, s.checks[s.calls[i].row].key.fixtureId, s.checks[s.calls[i].row].margin);
      ProofAppended(s.proofs, p);
    }
  }

  lemma {:induction false} ProofBalanced(s: State, i: nat, ok: bool, applied: bool)
    requires CanAdvance(s, i) && s.calls[i].pc.Proof?
    ensures Balanced(s.calls[i], StepProof(s, i, ok, applied).calls[i], Delta(s, i, ok, applied))
  {
    var c, c' := s.calls[i], StepProof(s, i, ok, applied).calls[i];
    HoldsRowOf(c);
    if ok { HoldsRowOf(c'); } else { HoldsNothing(c'); }
  }

  ghost predicate SameTables(s: State, t: State) {
    && t.claims == s.claims && t.checks == s.checks && t.lostClaims == s.lostClaims
    && t.queue == s.queue && t.pending == s.pending && t.proofs == s.proofs && t.lostProofs == s.lostProofs
  }

  lemma AddsNothing(s: State, t: State)
    requires SameTables(s, t) && t.lostJobs == s.lostJobs
    ensures Adds(s, t, NOTHING)
  {
  }

  lemma AddsLostJob(s: State, t: State, id: nat)
    requires SameTables(s, t) && t.lostJobs == s.lostJobs + [id]
    ensures Adds(s, t, NOTHING.(lostJobs := multiset{id}))
  {
  }

  lemma AddsJob(s: State, t: State, j: Job)
    requires t.claims == s.claims && t.checks == s.checks && t.proofs == s.proofs
    requires t.queue == s.queue && t.pending == s.pending + [j]
    requires t.lostClaims == s.lostClaims && t.lostJobs == s.lostJobs && t.lostProofs == s.lostProofs
    ensures Adds(s, t, NOTHING.(jobs := multiset{j.checkId}))
  {
    assert JobIds(s.pending + [j]) == JobIds(s.pending) + [j.checkId];
  }

  lemma {:induction false} PublishAdds(s: State, i: nat, ok: bool, applied: bool)
    requires CanAdvance(s, i) && s.calls[i].pc.Publish?
    ensures Adds(s, StepPublish(s, i, ok), Delta(s, i, ok, applied))
  {
    if ok { AddsNothing(s, StepPublish(s, i, ok)); } else { AddsLostJob(s, StepPublish(s, i, ok), s.calls[i].row); }
  }

  lemma {:induction false} PublishBalanced(s: State, i: nat, ok: bool, applied: bool)
    requires CanAdvance(s, i) && s.calls[i].pc.Publish?
    ensures Balanced(s.calls[i], StepPublish(s, i, ok).calls[i], Delta(s, i, ok, applied))
  {
    var c, c' := s.calls[i], StepPublish(s, i, ok).calls[i];
    HoldsRowOf(c);
    if ok { HoldsRowOf(c'); } else { HoldsNothing(c'); }
  }

  lemma {:induction false} CacheAdds(s: State, i: nat, ok: bool, applied: bool)
    requires CanAdvance(s, i) && s.calls[i].pc.Cache?
    ensures Adds(s, StepCache(s, i, ok), Delta(s, i, ok, applied))
  {
    if ok {
      AddsJob(s, StepCache(s, i, ok), JobOf(s, s.calls[i]));
    } else {
      AddsLostJob(s, StepCache(s, i, ok), s.calls[i].row);
    }
  }

  lemma {:induction false} CacheBalanced(s: State, i: nat, ok: bool, applied: bool)
    requires CanAdvance(s, i) && s.calls[i].pc.Cache?
    ensures Balanced(s.calls[i], StepCache(s, i, ok).calls[i], Delta(s, i, ok, applied))
  {
    HoldsRowOf(s.calls[i]);
    HoldsNothing(StepCache(s, i, ok).calls[i]);
  }

  lemma {:induction false} LatestMoves(s: State, i: nat, ok: bool, applied: bool)
    requires CanAdvance(s, i) && s.calls[i].pc.Latest?
    ensures Adds(s, StepLatest(s, i, ok), Delta(s, i, ok, applied))
    ensures Balanced(s.calls[i], StepLatest(s, i, ok).calls[i], Delta(s, i, ok, applied))
  {
    AddsNothing(s, StepLatest(s, i, ok));
    HoldsNothing(s.calls[i]);
    HoldsNothing(StepLatest(s, i, ok).calls[i]);
  }

  lemma {:induction false} ClaimKeepsKeyLaw(s: State, i: nat, ok: bool, applied: bool)
    requires KeyLaw(s) && CanAdvance(s, i) && s.calls[i].pc.Claim?
    ensures KeyLaw(StepCall(s, i, ok, applied))
  {
  }

  lemma {:induction false} OthersKeepKeys(s: State, i: nat, ok: bool, applied: bool)
    requires CanAdvance(s, i) && !s.calls[i].pc.Claim?
    ensures var t := StepCall(s, i, ok, applied);
            t.claims == s.claims && t.redis == s.redis && t.expired == s.expired
  {
  }

  lemma {:induction false} StepMoves(s: State, i: nat, ok: bool, applied: bool)
    requires CanAdvance(s, i)
    ensures Adds(s, StepCall(s, i, ok, applied), Delta(s, i, ok, applied))
    ensures |StepCall(s, i, ok, applied).calls| == |s.calls|
    ensures Balanced(s.calls[i], StepCall(s, i, ok, applied).calls[i], Delta(s, i, ok, applied))
  {
    StepReplacesOne(s, i, ok, applied);
    match s.calls[i].pc
    case Claim => ClaimAdds(s, i, ok, applied); ClaimBalanced(s, i, ok, applied);
    case Snapshot => SnapshotAdds(s, i, ok, applied); SnapshotBalanced(s, i, ok, applied);
    case Check => CheckAdds(s, i, ok, applied); CheckBalanced(s, i, ok, applied);
    case Proof => ProofAdds(s, i, ok, applied); ProofBalanced(s, i, ok, applied);
    case Publish => PublishAdds(s, i, ok, applied); PublishBalanced(s, i, ok, applied);
    case Cache => CacheAdds(s, i, ok, applied); CacheBalanced(s, i, ok, applied);
    case Latest => LatestMoves(s, i, ok, applied);
  }

  lemma {:induction false} LawsAfterStep(s: State, i: nat, ok: bool, applied: bool)
    requires Laws(s) && CanAdvance(s, i)
    ensures Laws(StepCall(s, i, ok, applied))
  {
    var t := StepCall(s, i, ok, applied);
    StepReplacesOne(s, i, ok, applied);
    StepMoves(s, i, ok, applied);
    LawsMove(s, t, i, t.calls[i], Delta(s, i, ok, applied));
    if s.calls[i].pc.Claim? { ClaimKeepsKeyLaw(s, i, ok, applied); } else { OthersKeepKeys(s, i, ok, applied); }
  }

  lemma NewCallHoldsNothing(o: Odds)
    ensures var c := NewCall(o);
            ClaimHeld(c) == multiset{} && RowHeld(c) == multiset{} && ProofHeld(c) == multiset{}
  {
  }

  lemma HeldAppendNothing<T>(calls: seq<Call>, c: Call, f: Call -> multiset<T>)
    requires f(c) == multiset{}
    ensures Held(calls + [c], f) == Held(calls, f)
  {
    HeldAppend(calls, c, f);
  }

  lemma {:induction false} LawsAfterArrive(s: State, o: Odds)
    requires Laws(s)
    ensures Laws(Apply(s, Arrive(o)))
  {
    NewCallHoldsNothing(o);
    HeldAppendNothing(s.calls, NewCall(o), ClaimHeld);
    HeldAppendNothing(s.calls, NewCall(o), RowHeld);
    HeldAppendNothing(s.calls, NewCall(o), ProofHeld);
  }

  lemma {:induction false} TakeOne(jobs: seq<Job>, k: nat)
    requires k < |jobs|
    ensures multiset(JobIds(jobs)) == multiset(JobIds(jobs[..k] + jobs[k + 1..])) + multiset{jobs[k].checkId}
  {
    var ids := JobIds(jobs);
    assert JobIds(jobs[..k] + jobs[k + 1..]) == ids[..k] + ids[k + 1..];
    assert ids == ids[..k] + [ids[k]] + ids[k + 1..];
  }

  /** A job that lands changes its place only; one that is lost is accounted for. */
  lemma {:induction false} LandKeepsJobs(s: State, k: nat, ok: bool)
    requires k < |s.pending|
    ensures var t := StepLand(s, k, ok); Jobs(t) + multiset(t.lostJobs) == Jobs(s) + multiset(s.lostJobs)
  {
    TakeOne(s.pending, k);
    if ok { assert JobIds(s.queue + [s.pending[k]]) == JobIds(s.queue) + [s.pending[k].checkId]; }
  }

  lemma LandBalance<T>(all: multiset<T>, held: multiset<T>, jobs: multiset<T>, lost: multiset<T>,
                       newJobs: multiset<T>, newLost: multiset<T>)
    requires all == jobs + held + lost && newJobs + newLost == jobs + lost
    ensures all == newJobs + held + newLost
  {
    forall x ensures all[x] == (newJobs + held + newLost)[x] {
      assert (newJobs + newLost)[x] == (jobs + lost)[x];
    }
  }

  lemma {:induction false} LawsAfterLand(s: State, k: nat, ok: bool)
    requires Laws(s)
    ensures Laws(Apply(s, Land(k, ok)))
  {
    if k < |s.pending| {
      LandKeepsJobs(s, k, ok);
      var t := StepLand(s, k, ok);
      LandBalance(Ids(s.checks), Held(s.calls, RowHeld), Jobs(s), multiset(s.lostJobs), Jobs(t), multiset(t.lostJobs));
    }
  }

  lemma {:induction false} KeyLawAfterExpire(s: State, k: Key)
    requires KeyLaw(s)
    ensures KeyLaw(Apply(s, Expire(k)))
  {
    assert multiset(s.expired + [k]) == multiset(s.expired) + multiset{k};
  }

  lemma {:induction false} LawsAfterExpire(s: State, k: Key)
    requires Laws(s)
    ensures Laws(Apply(s, Expire(k)))
  {
    KeyLawAfterExpire(s, k);
  }

  // ----- Calls and links -----

  lemma {:induction false} ChecksOnlyGrow(s: State, e: Event)
    ensures |s.checks| <= |Apply(s, e).checks| && Apply(s, e).checks[..|s.checks|] == s.checks
  {
  }

  lemma {:induction false} CallOkMonotone(s: State, e: Event, c: Call)
    requires CallOk(s.checks, c)
    ensures CallOk(Apply(s, e).checks, c)
  {
    ChecksOnlyGrow(s, e);
    if HoldsRow(c) { assert Apply(s, e).checks[..|s.checks|][c.row] == s.checks[c.row]; }
  }

  lemma {:induction false} CheckCallOk(s: State, i: nat, ok: bool, applied: bool)
    requires CanAdvance(s, i) && CallOk(s.checks, s.calls[i]) && s.calls[i].pc.Check?
    ensures var t := StepCheck(s, i, ok, applied);
            |t.calls| == |s.calls| && CallOk(t.checks, t.calls[i])
  {
  }

  lemma {:induction false} SteppedCallOk(s: State, i: nat, ok: bool, applied: bool)
    requires CanAdvance(s, i) && CallOk(s.checks, s.calls[i])
    ensures var t := StepCall(s, i, ok, applied);
            |t.calls| == |s.calls| && CallOk(t.checks, t.calls[i])
  {
    match s.calls[i].pc
    case Check => CheckCallOk(s, i, ok, applied);
    case Cache => assert StepCache(s, i, ok).checks == s.checks;
    case _ =>
  }

  lemma {:induction false} CallsAfter(s: State, e: Event)
    requires CallsOk(s)
    ensures CallsOk(Apply(s, e))
  {
    var t := Apply(s, e);
    forall j | 0 <= j < |t.calls|
      ensures CallOk(t.checks, t.calls[j])
    {
      if j < |s.calls| {
        assert CallOk(s.checks, s.calls[j]);
        CallOkMonotone(s, e, s.calls[j]);
      }
      if e.Advance? && CanAdvance(s, e.i) {
        assert CallOk(s.checks, s.calls[e.i]);
        StepReplacesOne(s, e.i, e.ok, e.applied);
        SteppedCallOk(s, e.i, e.ok, e.applied);
      }
    }
  }

  lemma {:induction false} NewProof(s: State, e: Event)
    requires CallsOk(s)
    ensures var t := Apply(s, e);
            t.proofs == s.proofs || (|t.proofs| == |s.proofs| + 1 && t.proofs[..|s.proofs|] == s.proofs
                                     && ProofOk(t.checks, t.proofs[|s.proofs|]))
  {
    if e.Advance? && CanAdvance(s, e.i) { assert CallOk(s.checks, s.calls[e.i]); }
  }

  lemma JobsStayOk(checks: seq<CheckRow>, more: seq<CheckRow>, jobs: seq<Job>)
    requires JobsOk(checks, jobs) && |checks| <= |more| && more[..|checks|] == checks
    ensures JobsOk(more, jobs)
  {
    forall i | 0 <= i < |jobs| ensures JobOk(more, jobs[i]) {
      assert JobOk(checks, jobs[i]) && more[..|checks|][jobs[i].checkId] == checks[jobs[i].checkId];
    }
  }

  lemma {:induction false} StepKeepsJobs(s: State, i: nat, ok: bool, applied: bool)
    requires CanAdvance(s, i)
    ensures var t := StepCall(s, i, ok, applied);
            && t.queue == s.queue
            && (t.pending == s.pending
                || (s.calls[i].pc.Cache? && t.checks == s.checks && t.pending == s.pending + [JobOf(s, s.calls[i])]))
  {
  }

  lemma LandedJobsOk(s: State, k: nat, ok: bool)
    requires k < |s.pending| && JobsOk(s.checks, s.pending) && JobsOk(s.checks, s.queue)
    ensures var t := StepLand(s, k, ok); JobsOk(s.checks, t.pending) && JobsOk(s.checks, t.queue)
  {
  }

  /** New jobs are those of a call that has cached its event; the others only change their place. */
  lemma {:induction false} JobsAfter(s: State, e: Event)
    requires CallsOk(s) && JobsOk(s.checks, s.pending) && JobsOk(s.checks, s.queue)
    ensures var t := Apply(s, e); JobsOk(t.checks, t.pending) && JobsOk(t.checks, t.queue)
  {
    var t := Apply(s, e);
    ChecksOnlyGrow(s, e);
    JobsStayOk(s.checks, t.checks, s.pending);
    JobsStayOk(s.checks, t.checks, s.queue);
    match e
    case Arrive(_) =>
    case Advance(i, ok, applied) => if CanAdvance(s, i) { StepKeepsJobs(s, i, ok, applied); }
    case Land(k, ok) => if k < |s.pending| { LandedJobsOk(s, k, ok); }
    case Expire(_) =>
  }

  lemma {:induction false} LinksAfter(s: State, e: Event)
    requires CallsOk(s) && LinksOk(s)
    ensures LinksOk(Apply(s, e))
  {
    var t := Apply(s, e);
    ChecksOnlyGrow(s, e);
    NewProof(s, e);
    JobsAfter(s, e);
    forall i | 0 <= i < |t.proofs|
      ensures ProofOk(t.checks, t.proofs[i])
    {
      if i < |s.proofs| {
        assert t.proofs[..|s.proofs|][i] == s.proofs[i] && ProofOk(s.checks, s.proofs[i]);
        assert t.checks[..|s.checks|][s.proofs[i].checkId] == s.checks[s.proofs[i].checkId];
      }
    }
  }

  lemma {:induction false} InvHolds(events: seq<Event>)
    ensures Inv(Run(events))
  {
    if events != [] {
      var s, e := Run(events[..|events| - 1]), events[|events| - 1];
      InvHolds(events[..|events| - 1]);
      CallsAfter(s, e);
      LinksAfter(s, e);
      match e
      case Arrive(odds) => LawsAfterArrive(s, odds);
      case Advance(i, ok, applied) => if CanAdvance(s, i) { LawsAfterStep(s, i, ok, applied); }
      case Land(k, ok) => LawsAfterLand(s, k, ok);
      case Expire(key) => LawsAfterExpire(s, key);
    }
  }
}
