/** The on-chain program: one config account, one trust account for each fixture, and the emitted events. */
module OracleProgram {
  import opened Common

  type Byte = x: int | 0 <= x < 256
  type Bytes = seq<Byte>
  type I32 = x: int | -0x8000_0000 <= x < 0x8000_0000

  const MAX_MARGIN_BPS := 10000
  const MAX_CHECK_COUNT := 1000000
  const I32_MIN := -0x8000_0000
  const U32_MAX := 0xFFFF_FFFF
  const U64_MAX := 0xFFFF_FFFF_FFFF_FFFF

  datatype Config = Config(authority: Bytes, backendSigner: Bytes, totalChecks: int, totalInconsistencies: int)

  datatype Trust = Trust(
    fixtureId: Bytes,
    isConsistent: bool,
    marginBps: int,
    slot: nat,
    timestamp: int,
    proofRef: Bytes,
    checkCount: int)

  datatype Clock = Clock(slot: nat, timestamp: int)

  datatype Instruction =
    | Initialize(authority: Bytes, backendSigner: Bytes)
    | Submit(signer: Bytes, fixtureId: Bytes, isConsistent: bool, marginBps: I32, proofRef: Bytes)
    | Query(fixtureId: Bytes)
    | AgentCheck(fixtureId: Bytes)

  datatype Decision = Executed | Blocked

  datatype Event =
    | ConfigInitialized(authority: Bytes, backendSigner: Bytes, timestamp: int)
    | CheckSubmitted(check: Trust, signer: Bytes)
    | TrustQueried(fixtureId: Bytes, isConsistent: bool, marginBps: int, timestamp: int)
    | AgentCheckExecuted(fixtureId: Bytes, isConsistent: bool, marginBps: int, decision: Decision)

  /** Errors of the program, of the account checks in front of it, and arithmetic panics. */
  datatype Error =
    | AccountMissing
    | AccountExists
    | UnauthorizedSubmitter
    | MarginOutOfRange
    | CheckCountOverflow
    | FixtureNotFound
    | Panic

  datatype Result = Ok(event: Event) | Err(error: Error)

  datatype State = State(config: Option<Config>, trust: map<Bytes, Trust>, log: seq<Event>)

  const GENESIS := State(None, map[], [])

  /** The account that `init_if_needed` creates. */
  function ZeroTrust(): Trust {
    Trust([], false, 0, 0, 0, [], 0)
  }

  function OldTrust(s: State, fixtureId: Bytes): Trust {
    if fixtureId in s.trust then s.trust[fixtureId] else ZeroTrust()
  }

  /** What stands in the way of a submission, in the order the program looks. */
  function SubmitError(s: State, signer: Bytes, fixtureId: Bytes, isConsistent: bool, marginBps: I32): Option<Error> {
    var count := OldTrust(s, fixtureId).checkCount;
    if s.config.None? then Some(AccountMissing)
    else if signer != s.config.value.backendSigner then Some(UnauthorizedSubmitter)
    else if marginBps == I32_MIN then Some(Panic)
    else if Max(marginBps, -marginBps) > MAX_MARGIN_BPS then Some(MarginOutOfRange)
    else if count == U32_MAX || count + 1 > MAX_CHECK_COUNT then Some(CheckCountOverflow)
    else if s.config.value.totalChecks == U64_MAX then Some(Panic)
    else if !isConsistent && s.config.value.totalInconsistencies == U64_MAX then Some(Panic)
    else None
  }

  function Accept(s: State, signer: Bytes, check: Trust): State
    requires s.config.Some?
  {
    var c := s.config.value;
    State(
      Some(c.(totalChecks := c.totalChecks + 1,
              totalInconsistencies := c.totalInconsistencies + if check.isConsistent then 0 else 1)),
      s.trust[check.fixtureId := check],
      s.log + [CheckSubmitted(check, signer)])
  }

  function Exec(s: State, i: Instruction, clock: Clock): (State, Result) {
    match i
    case Initialize(authority, backendSigner) =>
      if s.config.Some? then (s, Err(AccountExists))
      else
        var e := ConfigInitialized(authority, backendSigner, clock.timestamp);
        (s.(config := Some(Config(authority, backendSigner, 0, 0)), log := s.log + [e]), Ok(e))
    case Submit(signer, fixtureId, isConsistent, marginBps, proofRef) =>
      var error := SubmitError(s, signer, fixtureId, isConsistent, marginBps);
      if error.Some? then (s, Err(error.value))
      else
        var check := Trust(fixtureId, isConsistent, marginBps, clock.slot, clock.timestamp, proofRef,
                           OldTrust(s, fixtureId).checkCount + 1);
        (Accept(s, signer, check), Ok(CheckSubmitted(check, signer)))
    case Query(fixtureId) =>
      if fixtureId !in s.trust then (s, Err(AccountMissing))
      else if s.trust[fixtureId].fixtureId != fixtureId then (s, Err(FixtureNotFound))
      else
        var ft := s.trust[fixtureId];
        var e := TrustQueried(fixtureId, ft.isConsistent, ft.marginBps, clock.timestamp);
        (s.(log := s.log + [e]), Ok(e))
    case AgentCheck(fixtureId) =>
      if fixtureId !in s.trust then (s, Err(AccountMissing))
      else if s.trust[fixtureId].fixtureId != fixtureId then (s, Err(FixtureNotFound))
      else
        var ft := s.trust[fixtureId];
        var e := AgentCheckExecuted(fixtureId, ft.isConsistent, ft.marginBps,
                                    if ft.isConsistent then Executed else Blocked);
        (s.(log := s.log + [e]), Ok(e))
  }

  /** The state after a list of transactions. */
  function Run(txs: seq<(Instruction, Clock)>): State {
    if txs == [] then GENESIS
    else
      var last := txs[|txs| - 1];
      Exec(Run(txs[..|txs| - 1]), last.0, last.1).0
  }

  // ----- Replay: the accounts as an indexer would rebuild them from the events alone -----

  function ReplayTrust(log: seq<Event>): map<Bytes, Trust> {
    if log == [] then map[]
    else
      var before, e := ReplayTrust(log[..|log| - 1]), log[|log| - 1];
      if e.CheckSubmitted? then before[e.check.fixtureId := e.check] else before
  }

  /** The number of accepted checks that satisfy `p`. */
  function Count(log: seq<Event>, p: Trust -> bool): nat {
    if log == [] then 0
    else
      var e := log[|log| - 1];
      Count(log[..|log| - 1], p) + if e.CheckSubmitted? && p(e.check) then 1 else 0
  }

  function Any(): Trust -> bool { (t: Trust) => true }
  function Inconsistent(): Trust -> bool { (t: Trust) => !t.isConsistent }
  function ForFixture(f: Bytes): Trust -> bool { (t: Trust) => t.fixtureId == f }

  function ReplayConfig(log: seq<Event>): Option<Config> {
    if log == [] then None
    else if log[0].ConfigInitialized? then
      Some(Config(log[0].authority, log[0].backendSigner, Count(log, Any()), Count(log, Inconsistent())))
    else None
  }

  /** The last accepted check of a fixture. */
  function LastCheck(log: seq<Event>, f: Bytes): Option<Trust> {
    if log == [] then None
    else
      var e := log[|log| - 1];
      if e.CheckSubmitted? && e.check.fixtureId == f then Some(e.check) else LastCheck(log[..|log| - 1], f)
  }

  /** Each accepted check of a fixture carries the next number, within the limits of the program. */
  ghost predicate Numbered(log: seq<Event>) {
    forall i :: 0 <= i < |log| && log[i].CheckSubmitted? ==>
      && log[i].check.checkCount == Count(log[..i], ForFixture(log[i].check.fixtureId)) + 1 <= MAX_CHECK_COUNT
      && -MAX_MARGIN_BPS <= log[i].check.marginBps <= MAX_MARGIN_BPS
  }

  /** The config is written once, before everything else. */
  ghost predicate InitializedFirst(log: seq<Event>) {
    forall i :: 0 <= i < |log| ==> (log[i].ConfigInitialized? <==> i == 0)
  }

  /** The account of a fixture holds its last accepted check, and that check carries the number of them all. */
  ghost predicate AccountMatches(s: State, f: Bytes) {
    if f in s.trust then
      && LastCheck(s.log, f) == Some(s.trust[f])
      && s.trust[f].fixtureId == f
      && 1 <= s.trust[f].checkCount == Count(s.log, ForFixture(f)) <= MAX_CHECK_COUNT
      && -MAX_MARGIN_BPS <= s.trust[f].marginBps <= MAX_MARGIN_BPS
    else
      LastCheck(s.log, f).None? && Count(s.log, ForFixture(f)) == 0
  }

  ghost predicate Inv(s: State) {
    && s.trust == ReplayTrust(s.log)
    && s.config == ReplayConfig(s.log)
    && Numbered(s.log)
    && InitializedFirst(s.log)
    && forall f :: AccountMatches(s, f)
  }

  lemma {:induction false} Appended(log: seq<Event>, e: Event)
    ensures (log + [e])[..|log|] == log
    ensures forall i :: 0 <= i <= |log| ==> (log + [e])[..i] == log[..i]
    ensures ReplayTrust(log + [e])
         == if e.CheckSubmitted? then ReplayTrust(log)[e.check.fixtureId := e.check] else ReplayTrust(log)
    ensures forall p :: Count(log + [e], p) == Count(log, p) + if e.CheckSubmitted? && p(e.check) then 1 else 0
    ensures forall f :: LastCheck(log + [e], f)
                     == if e.CheckSubmitted? && e.check.fixtureId == f then Some(e.check) else LastCheck(log, f)
  {
    assert (log + [e])[..|log|] == log;
  }

  /** An event that is not the first, and not a second initialization, keeps the numbering and the order. */
  lemma {:induction false} NumberedAppended(log: seq<Event>, e: Event)
    requires Numbered(log) && InitializedFirst(log)
    requires e.ConfigInitialized? <==> log == []
    requires e.CheckSubmitted? ==>
      && e.check.checkCount == Count(log, ForFixture(e.check.fixtureId)) + 1 <= MAX_CHECK_COUNT
      && -MAX_MARGIN_BPS <= e.check.marginBps <= MAX_MARGIN_BPS
    ensures Numbered(log + [e]) && InitializedFirst(log + [e])
  {
    var more := log + [e];
    Appended(log, e);
    forall i | 0 <= i < |more| && more[i].CheckSubmitted?
      ensures more[i].check.checkCount == Count(more[..i], ForFixture(more[i].check.fixtureId)) + 1 <= MAX_CHECK_COUNT
           && -MAX_MARGIN_BPS <= more[i].check.marginBps <= MAX_MARGIN_BPS
    {
      assert more[..i] == log[..i];
      if i < |log| { assert more[i] == log[i]; }
    }
  }

  lemma {:induction false} NoConfigNoTrust(s: State)
    requires Inv(s)
    ensures s.config.None? <==> s.log == []
    ensures s.config.None? ==> s.trust == map[]
  {
    if s.log != [] { assert s.log[0].ConfigInitialized?; }
  }

  lemma {:induction false} InvInitialize(s: State, authority: Bytes, backendSigner: Bytes, clock: Clock)
    requires Inv(s) && s.config.None?
    ensures Inv(Exec(s, Initialize(authority, backendSigner), clock).0)
  {
    NoConfigNoTrust(s);
    var e := ConfigInitialized(authority, backendSigner, clock.timestamp);
    NumberedAppended([], e);
    Appended([], e);
    assert [] + [e] == [e];
    forall f ensures AccountMatches(Exec(s, Initialize(authority, backendSigner), clock).0, f) {
      assert AccountMatches(s, f);
    }
  }

  lemma {:induction false} InvReport(s: State, e: Event)
    requires Inv(s) && s.config.Some? && !e.ConfigInitialized? && !e.CheckSubmitted?
    ensures Inv(s.(log := s.log + [e]))
  {
    NoConfigNoTrust(s);
    NumberedAppended(s.log, e);
    Appended(s.log, e);
    forall f ensures AccountMatches(s.(log := s.log + [e]), f) {
      assert AccountMatches(s, f);
    }
  }

  /** Replaying the log with one more accepted check gives the accounts after it. */
  lemma {:induction false} ReplayAfterAccept(s: State, signer: Bytes, check: Trust)
    requires s.config.Some? && s.log != []
    requires s.trust == ReplayTrust(s.log) && s.config == ReplayConfig(s.log)
    ensures var t := Accept(s, signer, check);
            t.trust == ReplayTrust(t.log) && t.config == ReplayConfig(t.log)
  {
    var e := CheckSubmitted(check, signer);
    Appended(s.log, e);
    assert (s.log + [e])[0] == s.log[0];
  }

  lemma {:induction false} AccountAfterAccept(s: State, signer: Bytes, check: Trust, f: Bytes)
    requires s.config.Some? && AccountMatches(s, f) && AccountMatches(s, check.fixtureId)
    requires check.checkCount == OldTrust(s, check.fixtureId).checkCount + 1 <= MAX_CHECK_COUNT
    requires -MAX_MARGIN_BPS <= check.marginBps <= MAX_MARGIN_BPS
    ensures AccountMatches(Accept(s, signer, check), f)
  {
    Appended(s.log, CheckSubmitted(check, signer));
    assert ForFixture(f)(check) <==> check.fixtureId == f;
  }

  lemma {:induction false} InvAccept(s: State, signer: Bytes, check: Trust)
    requires Inv(s) && s.config.Some?
    requires check.checkCount == OldTrust(s, check.fixtureId).checkCount + 1 <= MAX_CHECK_COUNT
    requires -MAX_MARGIN_BPS <= check.marginBps <= MAX_MARGIN_BPS
    ensures Inv(Accept(s, signer, check))
  {
    NoConfigNoTrust(s);
    assert AccountMatches(s, check.fixtureId);
    NumberedAppended(s.log, CheckSubmitted(check, signer));
    ReplayAfterAccept(s, signer, check);
    forall f ensures AccountMatches(Accept(s, signer, check), f) {
      assert AccountMatches(s, f);
      AccountAfterAccept(s, signer, check, f);
    }
  }

  lemma {:induction false} InvExec(s: State, i: Instruction, clock: Clock)
    requires Inv(s)
    ensures Inv(Exec(s, i, clock).0)
  {
    NoConfigNoTrust(s);
    var (t, r) := Exec(s, i, clock);
    match i
    case Initialize(authority, backendSigner) =>
      if s.config.None? { InvInitialize(s, authority, backendSigner, clock); }
    case Submit(signer, fixtureId, isConsistent, marginBps, proofRef) =>
      if r.Ok? { InvAccept(s, signer, r.event.check); }
    case Query(fixtureId) =>
      if r.Ok? { InvReport(s, r.event); }
    case AgentCheck(fixtureId) =>
      if r.Ok? { InvReport(s, r.event); }
  }

  lemma {:induction false} InvRun(txs: seq<(Instruction, Clock)>)
    ensures Inv(Run(txs))
  {
    if txs == [] {
      assert Count([], Any()) == 0;
    } else {
      var last := txs[|txs| - 1];
      InvRun(txs[..|txs| - 1]);
      InvExec(Run(txs[..|txs| - 1]), last.0, last.1);
    }
  }

  // ----- Main results, for every list of transactions -----

  /** The accounts are exactly what a replay of the emitted events gives. */
  lemma {:induction false} StateIsReplay(txs: seq<(Instruction, Clock)>)
    ensures Run(txs).trust == ReplayTrust(Run(txs).log)
    ensures Run(txs).config == ReplayConfig(Run(txs).log)
  {
    InvRun(txs);
  }

  /** The events number the accepted checks of each fixture 1, 2, 3, and so on, never beyond the limit. */
  lemma {:induction false} EventsAreNumbered(txs: seq<(Instruction, Clock)>, i: nat)
    requires i < |Run(txs).log| && Run(txs).log[i].CheckSubmitted?
    ensures var log := Run(txs).log; var check := log[i].check;
            && 1 <= check.checkCount <= MAX_CHECK_COUNT
            && check.checkCount == Count(log[..i], ForFixture(check.fixtureId)) + 1
            && -MAX_MARGIN_BPS <= check.marginBps <= MAX_MARGIN_BPS
  {
    InvRun(txs);
  }

  /**
   * The decision of an agent's check: only a fixture never checked has no account, and no other error can occur.
   * The check is logged and changes nothing else.
   */
  lemma {:induction false} AgentDecides(txs: seq<(Instruction, Clock)>, f: Bytes, clock: Clock)
    ensures var s := Run(txs);
            match LastCheck(s.log, f)
            case None => Exec(s, AgentCheck(f), clock) == (s, Err(AccountMissing))
            case Some(check) =>
              var e := AgentCheckExecuted(f, check.isConsistent, check.marginBps,
                                          if check.isConsistent then Executed else Blocked);
              Exec(s, AgentCheck(f), clock) == (State(s.config, s.trust, s.log + [e]), Ok(e))
  {
    InvRun(txs);
    assert AccountMatches(Run(txs), f);
  }

  /** The sum of the check counters of all fixture accounts. */
  ghost function SumCounts(m: map<Bytes, Trust>): int
    decreases |m|
  {
    if m == map[] then 0
    else
      var f :| f in m;
      m[f].checkCount + SumCounts(m - {f})
  }

  lemma {:induction false} SumWithout(m: map<Bytes, Trust>, f: Bytes)
    requires f in m
    ensures SumCounts(m) == m[f].checkCount + SumCounts(m - {f})
    decreases |m|
  {
    var g :| g in m && SumCounts(m) == m[g].checkCount + SumCounts(m - {g});
    if f != g {
      SumWithout(m - {g}, f);
      SumWithout(m - {f}, g);
      assert m - {g} - {f} == m - {f} - {g};
    }
  }

  lemma {:induction false} SumUpdated(m: map<Bytes, Trust>, f: Bytes, t: Trust)
    ensures SumCounts(m[f := t]) == SumCounts(m) + t.checkCount - (if f in m then m[f].checkCount else 0)
  {
    SumWithout(m[f := t], f);
    assert m[f := t] - {f} == m - {f};
    if f in m { SumWithout(m, f); } else { assert m - {f} == m; }
  }

  lemma {:induction false} CountIsMonotone(log: seq<Event>, p: Trust -> bool, q: Trust -> bool)
    requires forall t :: p(t) ==> q(t)
    ensures Count(log, p) <= Count(log, q)
  {
    if log != [] { CountIsMonotone(log[..|log| - 1], p, q); }
  }

  lemma {:induction false} SumOfRun(txs: seq<(Instruction, Clock)>)
    ensures SumCounts(Run(txs).trust) == if Run(txs).config.Some? then Run(txs).config.value.totalChecks else 0
  {
    if txs != [] {
      var last := txs[|txs| - 1];
      var s := Run(txs[..|txs| - 1]);
      SumOfRun(txs[..|txs| - 1]);
      InvRun(txs[..|txs| - 1]);
      NoConfigNoTrust(s);
      var (t, r) := Exec(s, last.0, last.1);
      if r.Ok? && last.0.Submit? { SumUpdated(s.trust, last.0.fixtureId, r.event.check); }
    }
  }

  /** The totals in the config account add up, over all fixtures and over all accepted submissions. */
  lemma {:induction false} TotalsAddUp(txs: seq<(Instruction, Clock)>)
    requires Run(txs).config.Some?
    ensures var s := Run(txs); var c := s.config.value;
            && c.totalChecks == SumCounts(s.trust) == Count(s.log, Any())
            && c.totalInconsistencies == Count(s.log, Inconsistent()) <= c.totalChecks
  {
    InvRun(txs);
    SumOfRun(txs);
    NoConfigNoTrust(Run(txs));
    CountIsMonotone(Run(txs).log, Inconsistent(), Any());
  }

  /** The limits that every fixture account keeps. */
  lemma {:induction false} AccountsStayInRange(txs: seq<(Instruction, Clock)>, f: Bytes)
    requires f in Run(txs).trust
    ensures var t := Run(txs).trust[f];
            && t.fixtureId == f && 1 <= t.checkCount <= MAX_CHECK_COUNT
            && -MAX_MARGIN_BPS <= t.marginBps <= MAX_MARGIN_BPS
  {
    InvRun(txs);
    assert AccountMatches(Run(txs), f);
  }

  lemma {:induction false} TotalFitsIn64Bits(txs: seq<(Instruction, Clock)>)
    ensures Run(txs).config.Some? ==> Run(txs).config.value.totalChecks <= U64_MAX
  {
    if txs != [] { TotalFitsIn64Bits(txs[..|txs| - 1]); }
  }

  /**
   * In every reachable state a submission is accepted exactly when the config exists, the signer is
   * the backend signer, the margin is in range, the fixture has fewer than a million checks and the
   * total has not filled its 64 bits. Otherwise nothing changes, also where the absolute value of the
   * smallest 32-bit integer panics.
   */
  lemma {:induction false} SubmitAcceptedIff(txs: seq<(Instruction, Clock)>, i: Instruction, clock: Clock)
    requires i.Submit?
    ensures var s := Run(txs);
            && (Exec(s, i, clock).1.Ok? <==>
                  && s.config.Some? && i.signer == s.config.value.backendSigner
                  && -10000 <= i.marginBps <= 10000
                  && Count(s.log, ForFixture(i.fixtureId)) < 1000000
                  && Count(s.log, Any()) < 0xFFFF_FFFF_FFFF_FFFF)
            && (Exec(s, i, clock).1.Err? ==> Exec(s, i, clock).0 == s)
  {
    var s := Run(txs);
    InvRun(txs);
    assert AccountMatches(s, i.fixtureId);
    NoConfigNoTrust(s);
    if s.config.Some? { TotalsAddUp(txs); TotalFitsIn64Bits(txs); }
  }

  /** Which error a submission is refused with, in every reachable state. */
  lemma {:induction false} RefusalTells(txs: seq<(Instruction, Clock)>, i: Instruction, clock: Clock)
    requires i.Submit?
    ensures var s := Run(txs);
            var r := Exec(s, i, clock).1;
            var known := s.config.Some? && i.signer == s.config.value.backendSigner;
            var inRange := -10000 <= i.marginBps <= 10000;
            var full := Count(s.log, ForFixture(i.fixtureId)) >= 1000000;
            && (r == Err(AccountMissing) <==> s.config.None?)
            && (r == Err(UnauthorizedSubmitter) <==> s.config.Some? && !known)
            && (r == Err(MarginOutOfRange) <==> known && !inRange && i.marginBps != -0x8000_0000)
            && (r == Err(CheckCountOverflow) <==> known && inRange && full)
            && (r == Err(Panic) <==>
                  known && (i.marginBps == -0x8000_0000
                            || (inRange && !full && Count(s.log, Any()) == 0xFFFF_FFFF_FFFF_FFFF)))
  {
    var s := Run(txs);
    InvRun(txs);
    assert AccountMatches(s, i.fixtureId);
    NoConfigNoTrust(s);
    if s.config.Some? { TotalsAddUp(txs); TotalFitsIn64Bits(txs); }
  }

  /** The account and the event say what the submission says, at the clock's time, with the next number. */
  ghost predicate Records(check: Trust, i: Instruction, clock: Clock, count: int) {
    && i.Submit?
    && check.fixtureId == i.fixtureId && check.isConsistent == i.isConsistent
    && check.marginBps == i.marginBps && check.proofRef == i.proofRef
    && check.slot == clock.slot && check.timestamp == clock.timestamp
    && check.checkCount == count
  }

  /**
   * An accepted submission, in every reachable state: the fixture's account and the event hold exactly what was
   * submitted, no other account changes, and the totals count one more.
   */
  lemma {:induction false} SubmissionIsRecorded(txs: seq<(Instruction, Clock)>, i: Instruction, clock: Clock)
    requires i.Submit? && Exec(Run(txs), i, clock).1.Ok?
    ensures var s := Run(txs);
            var (t, r) := Exec(s, i, clock);
            && i.fixtureId in t.trust
            && Records(t.trust[i.fixtureId], i, clock, Count(s.log, ForFixture(i.fixtureId)) + 1)
            && r.event == CheckSubmitted(t.trust[i.fixtureId], i.signer) && t.log == s.log + [r.event]
            && (forall f :: f != i.fixtureId ==> (f in t.trust <==> f in s.trust))
            && (forall f :: f != i.fixtureId && f in s.trust ==> t.trust[f] == s.trust[f])
            && s.config.Some? && t.config.Some?
            && t.config.value.authority == s.config.value.authority
            && t.config.value.backendSigner == s.config.value.backendSigner
            && t.config.value.totalChecks == s.config.value.totalChecks + 1
            && t.config.value.totalInconsistencies
               == s.config.value.totalInconsistencies + if i.isConsistent then 0 else 1
  {
    InvRun(txs);
    assert AccountMatches(Run(txs), i.fixtureId);
  }

  /** The transaction at n is a submission for the fixture, and it is accepted. */
  predicate AcceptedAt(txs: seq<(Instruction, Clock)>, n: nat, f: Bytes)
    requires n < |txs|
  {
    txs[n].0.Submit? && txs[n].0.fixtureId == f && Exec(Run(txs[..n]), txs[n].0, txs[n].1).1.Ok?
  }

  /** The last accepted submission for a fixture, and how many there are. */
  function LastAccepted(txs: seq<(Instruction, Clock)>, f: Bytes): Option<nat> {
    if txs == [] then None
    else if AcceptedAt(txs, |txs| - 1, f) then Some(|txs| - 1)
    else LastAccepted(txs[..|txs| - 1], f)
  }

  function AcceptedCount(txs: seq<(Instruction, Clock)>, f: Bytes): nat {
    if txs == [] then 0
    else AcceptedCount(txs[..|txs| - 1], f) + if AcceptedAt(txs, |txs| - 1, f) then 1 else 0
  }

  /** One transaction as a fixture's account sees it. */
  lemma {:induction false} FixtureStep(s: State, i: Instruction, clock: Clock, f: Bytes)
    requires Inv(s)
    ensures var (t, r) := Exec(s, i, clock);
            var accepted := i.Submit? && i.fixtureId == f && r.Ok?;
            && (accepted ==> f in t.trust && t.log == s.log + [CheckSubmitted(t.trust[f], i.signer)]
                             && Records(t.trust[f], i, clock, Count(s.log, ForFixture(f)) + 1))
            && (!accepted ==> (f in t.trust <==> f in s.trust) && (f in s.trust ==> t.trust[f] == s.trust[f]))
  {
    assert AccountMatches(s, f);
  }

  lemma {:induction false} FixtureCount(s: State, i: Instruction, clock: Clock, f: Bytes)
    ensures var (t, r) := Exec(s, i, clock);
            && Count(t.log, ForFixture(f))
               == Count(s.log, ForFixture(f)) + (if i.Submit? && i.fixtureId == f && r.Ok? then 1 else 0)
            && forall e :: e in s.log ==> e in t.log
  {
    var (t, r) := Exec(s, i, clock);
    if r.Ok? { Appended(s.log, r.event); }
  }

  /** The number of a fixture's events is that of its accepted submissions. */
  lemma {:induction false} AcceptedAreCounted(txs: seq<(Instruction, Clock)>, f: Bytes)
    ensures Count(Run(txs).log, ForFixture(f)) == AcceptedCount(txs, f)
  {
    if txs != [] {
      var n := |txs| - 1;
      AcceptedAreCounted(txs[..n], f);
      FixtureCount(Run(txs[..n]), txs[n].0, txs[n].1, f);
    }
  }

  /** The account of a fixture holds the submission `i`, and so does an event. */
  ghost predicate Holds(s: State, f: Bytes, i: Instruction, clock: Clock, count: int) {
    f in s.trust && Records(s.trust[f], i, clock, count) && CheckSubmitted(s.trust[f], i.signer) in s.log
  }

  lemma {:induction false} HoldsAfter(
      s: State, i: Instruction, clock: Clock, f: Bytes, j: Instruction, c: Clock, n: int)
    requires Inv(s)
    ensures var (t, r) := Exec(s, i, clock);
            if i.Submit? && i.fixtureId == f && r.Ok? then Holds(t, f, i, clock, Count(s.log, ForFixture(f)) + 1)
            else (f in t.trust <==> f in s.trust) && (Holds(s, f, j, c, n) ==> Holds(t, f, j, c, n))
  {
    FixtureStep(s, i, clock, f);
    FixtureCount(s, i, clock, f);
  }

  lemma {:induction false} AcceptedSnoc(before: seq<(Instruction, Clock)>, i: Instruction, clock: Clock, f: Bytes)
    ensures var txs := before + [(i, clock)];
            var accepted := i.Submit? && i.fixtureId == f && Exec(Run(before), i, clock).1.Ok?;
            && Run(txs) == Exec(Run(before), i, clock).0
            && LastAccepted(txs, f) == (if accepted then Some(|before|) else LastAccepted(before, f))
            && AcceptedCount(txs, f) == AcceptedCount(before, f) + if accepted then 1 else 0
  {
    var txs := before + [(i, clock)];
    assert txs[..|before|] == before && txs[|before|] == (i, clock);
  }

  /** The account of a fixture is that of the n-th transaction. */
  ghost predicate HoldsNth(s: State, txs: seq<(Instruction, Clock)>, f: Bytes, n: Option<nat>, count: int) {
    match n
    case None => f !in s.trust
    case Some(k) => k < |txs| && Holds(s, f, txs[k].0, txs[k].1, count)
  }

  lemma {:induction false} NthStep(before: seq<(Instruction, Clock)>, i: Instruction, clock: Clock, f: Bytes)
    requires HoldsNth(Run(before), before, f, LastAccepted(before, f), AcceptedCount(before, f))
    ensures var txs := before + [(i, clock)]; HoldsNth(Run(txs), txs, f, LastAccepted(txs, f), AcceptedCount(txs, f))
  {
    var s, n, count := Run(before), LastAccepted(before, f), AcceptedCount(before, f);
    InvRun(before);
    AcceptedAreCounted(before, f);
    AcceptedSnoc(before, i, clock, f);
    var (j, c) := if n.Some? then before[n.value] else (i, clock);
    HoldsAfter(s, i, clock, f, j, c, count);
  }

  /**
   * In every run the account of a fixture holds exactly what its last accepted submission said, at the time of that
   * transaction, numbered by all that were accepted.
   */
  lemma {:induction false} AccountIsLastSubmission(txs: seq<(Instruction, Clock)>, f: Bytes)
    ensures HoldsNth(Run(txs), txs, f, LastAccepted(txs, f), AcceptedCount(txs, f))
  {
    if txs != [] {
      var before, last := txs[..|txs| - 1], txs[|txs| - 1];
      AccountIsLastSubmission(before, f);
      NthStep(before, last.0, last.1, f);
      assert txs == before + [last];
    }
  }

  /** And that is also the last event of the fixture. */
  lemma {:induction false} LastEventIsAccount(txs: seq<(Instruction, Clock)>, f: Bytes)
    ensures LastCheck(Run(txs).log, f) == if f in Run(txs).trust then Some(Run(txs).trust[f]) else None
  {
    InvRun(txs);
    assert AccountMatches(Run(txs), f);
  }

  /** The first attempt to initialize. */
  function FirstInitialize(txs: seq<(Instruction, Clock)>): Option<nat> {
    if txs == [] then None
    else if FirstInitialize(txs[..|txs| - 1]).Some? then FirstInitialize(txs[..|txs| - 1])
    else if txs[|txs| - 1].0.Initialize? then Some(|txs| - 1)
    else None
  }

  /** The authority and the signer in the config are those that the first initialization gave. */
  lemma {:induction false} ConfigIsFirst(txs: seq<(Instruction, Clock)>)
    ensures var c := Run(txs).config;
            match FirstInitialize(txs)
            case None => c.None?
            case Some(n) =>
              && n < |txs| && txs[n].0.Initialize? && c.Some?
              && c.value.authority == txs[n].0.authority && c.value.backendSigner == txs[n].0.backendSigner
  {
    if txs != [] { ConfigIsFirst(txs[..|txs| - 1]); }
  }

  /** Only the first attempt is accepted; its event says who and when. */
  lemma {:induction false} InitializedOnce(
      txs: seq<(Instruction, Clock)>, authority: Bytes, backendSigner: Bytes, clock: Clock)
    ensures var s := Run(txs);
            var (t, r) := Exec(s, Initialize(authority, backendSigner), clock);
            if FirstInitialize(txs).Some? then t == s && r == Err(AccountExists)
            else
              && r == Ok(ConfigInitialized(authority, backendSigner, clock.timestamp))
              && t == State(Some(Config(authority, backendSigner, 0, 0)), map[], [r.event])
  {
    ConfigIsFirst(txs);
    InvRun(txs);
    NoConfigNoTrust(Run(txs));
  }

  /** So only the signer given there can submit. */
  lemma {:induction false} OnlyGivenSignerSubmits(txs: seq<(Instruction, Clock)>, i: Instruction, clock: Clock)
    requires i.Submit? && Exec(Run(txs), i, clock).1.Ok?
    ensures FirstInitialize(txs).Some? && FirstInitialize(txs).value < |txs|
    ensures var first := txs[FirstInitialize(txs).value].0; first.Initialize? && i.signer == first.backendSigner
  {
    ConfigIsFirst(txs);
  }

  /** A query reports the last accepted check of the fixture, and changes nothing but the log. */
  lemma {:induction false} QueryReports(txs: seq<(Instruction, Clock)>, f: Bytes, clock: Clock)
    ensures var s := Run(txs);
            var (t, r) := Exec(s, Query(f), clock);
            && t.config == s.config && t.trust == s.trust
            && match LastCheck(s.log, f)
               case None => t == s && r == Err(AccountMissing)
               case Some(check) =>
                 && r == Ok(TrustQueried(f, check.isConsistent, check.marginBps, clock.timestamp))
                 && t.log == s.log + [r.event]
  {
    InvRun(txs);
    assert AccountMatches(Run(txs), f);
  }

  /** A fixture that has used up its checks keeps its last answer whatever is sent afterwards. */
  lemma {:induction false} FullFixtureIsFrozen(
      txs: seq<(Instruction, Clock)>, more: seq<(Instruction, Clock)>, f: Bytes)
    requires f in Run(txs).trust && Run(txs).trust[f].checkCount == MAX_CHECK_COUNT
    ensures f in Run(txs + more).trust && Run(txs + more).trust[f] == Run(txs).trust[f]
    decreases |more|
  {
    if more == [] {
      assert txs + more == txs;
    } else {
      var n := |more| - 1;
      assert (txs + more)[..|txs + more| - 1] == txs + more[..n];
      FullFixtureIsFrozen(txs, more[..n], f);
    }
  }

  /** The program as code: accounts are loaded, changed, and written back when the handler succeeds. */
  class Program {
    var config: Option<Config>
    var trust: map<Bytes, Trust>
    ghost var log: seq<Event>

    ghost function View(): State
      reads this
    {
      State(config, trust, log)
    }

    constructor ()
      ensures View() == GENESIS
    {
      config, trust, log := None, map[], [];
    }

    method InitializeConfig(authority: Bytes, backendSigner: Bytes, clock: Clock) returns (r: Result)
      modifies this
      ensures (View(), r) == Exec(old(View()), Initialize(authority, backendSigner), clock)
    {
      if config.Some? { return Err(AccountExists); }
      config := Some(Config(authority, backendSigner, 0, 0));
      var e := ConfigInitialized(authority, backendSigner, clock.timestamp);
      log := log + [e];
      r := Ok(e);
    }

    method SubmitCheck(
        signer: Bytes, fixtureId: Bytes, isConsistent: bool, marginBps: I32, proofRef: Bytes, clock: Clock)
      returns (r: Result)
      modifies this
      ensures (View(), r) == Exec(old(View()), Submit(signer, fixtureId, isConsistent, marginBps, proofRef), clock)
      ensures r.Err? ==> View() == old(View())
    {
      if config.None? { return Err(AccountMissing); }
      var c := config.value;
      var ft := if fixtureId in trust then trust[fixtureId] else ZeroTrust();
      if signer != c.backendSigner { return Err(UnauthorizedSubmitter); }
      if marginBps == I32_MIN { return Err(Panic); }
      if Max(marginBps, -marginBps) > MAX_MARGIN_BPS { return Err(MarginOutOfRange); }
      if ft.checkCount == U32_MAX { return Err(CheckCountOverflow); }
      var newCheckCount := ft.checkCount + 1;
      if newCheckCount > MAX_CHECK_COUNT { return Err(CheckCountOverflow); }
      ft := ft.(fixtureId := fixtureId, isConsistent := isConsistent, marginBps := marginBps);
      ft := ft.(slot := clock.slot, timestamp := clock.timestamp, proofRef := proofRef);
      ft := ft.(checkCount := newCheckCount);
      if c.totalChecks == U64_MAX { return Err(Panic); }
      c := c.(totalChecks := c.totalChecks + 1);
      if !isConsistent {
        if c.totalInconsistencies == U64_MAX { return Err(Panic); }
        c := c.(totalInconsistencies := c.totalInconsistencies + 1);
      }
      config := Some(c);
      trust := trust[fixtureId := ft];
      log := log + [CheckSubmitted(ft, signer)];
      r := Ok(CheckSubmitted(ft, signer));
    }

    method QueryTrust(fixtureId: Bytes, clock: Clock) returns (r: Result)
      modifies this`log
      ensures (View(), r) == Exec(old(View()), Query(fixtureId), clock)
    {
      if fixtureId !in trust { return Err(AccountMissing); }
      var ft := trust[fixtureId];
      if ft.fixtureId != fixtureId { return Err(FixtureNotFound); }
      var e := TrustQueried(fixtureId, ft.isConsistent, ft.marginBps, clock.timestamp);
      log := log + [e];
      r := Ok(e);
    }

    method TradingAgentCheck(fixtureId: Bytes, clock: Clock) returns (r: Result)
      modifies this`log
      ensures (View(), r) == Exec(old(View()), AgentCheck(fixtureId), clock)
    {
      if fixtureId !in trust { return Err(AccountMissing); }
      var ft := trust[fixtureId];
      if ft.fixtureId != fixtureId { return Err(FixtureNotFound); }
      var decision := if ft.isConsistent then Executed else Blocked;
      var e := AgentCheckExecuted(fixtureId, ft.isConsistent, ft.marginBps, decision);
      log := log + [e];
      r := Ok(e);
    }
  }
}
