/** The life of a stream connection: connecting, failing, waiting to retry, and being disconnected. */
module Reconnect {
  import opened Common

  datatype Phase = Fetching | Reading

  /** One run of `connect`: the signal it was started with, and whether that signal has been aborted. */
  datatype Connection = Connection(signal: nat, phase: Phase, aborted: bool)

  /** What an observer sees: requests, successful responses, scheduled retries, and the disconnect. */
  datatype Note = Fetched | Connected | Scheduled(delay: nat) | Stopped

  datatype State = State(
    shouldReconnect: bool,
    reconnectAttempt: nat,
    controller: Option<nat>,
    signals: nat,
    live: seq<Connection>,
    timers: nat,
    log: seq<Note>)

  /** What can happen once the stream is started; `k` says to which connection. */
  datatype Event =
    | Response(k: nat, ok: bool)
    | End(k: nat)
    | Failure(k: nat)
    | Abort(k: nat)
    | TimerFires
    | Disconnect

  predicate Enabled(s: State, e: Event) {
    match e
    case Response(k, _) => k < |s.live| && s.live[k].phase == Fetching
    case End(k) => k < |s.live| && s.live[k].phase == Reading
    case Failure(k) => k < |s.live|
    case Abort(k) => k < |s.live|
    case TimerFires => s.timers > 0
    case Disconnect => true
  }

  const IDLE := State(true, 0, None, 0, [], 0, [])

  function Connect(s: State): State {
    s.(controller := Some(s.signals), signals := s.signals + 1,
       live := s.live + [Connection(s.signals, Fetching, false)], log := s.log + [Fetched])
  }

  function Pow2(n: nat): (p: nat)
    ensures p >= 1
  {
    if n == 0 then 1 else 2 * Pow2(n - 1)
  }

  function Delay(attempt: nat): nat {
    Min(1000 * Pow2(attempt), 30000)
  }

  function Schedule(s: State): State {
    if !s.shouldReconnect then s
    else s.(reconnectAttempt := s.reconnectAttempt + 1, timers := s.timers + 1,
            log := s.log + [Scheduled(Delay(s.reconnectAttempt))])
  }

  function Close(s: State, k: nat): State
    requires k < |s.live|
  {
    s.(live := s.live[..k] + s.live[k + 1..])
  }

  function AbortSignal(live: seq<Connection>, controller: Option<nat>): (r: seq<Connection>)
    ensures |r| == |live|
    ensures forall k :: 0 <= k < |live| ==>
      r[k] == if Some(live[k].signal) == controller then live[k].(aborted := true) else live[k]
  {
    seq(|live|, k requires 0 <= k < |live| =>
      if Some(live[k].signal) == controller then live[k].(aborted := true) else live[k])
  }

  function Next(s: State, e: Event): State
    requires Enabled(s, e)
  {
    match e
    case Response(k, ok) =>
      if ok then
        s.(reconnectAttempt := 0, live := s.live[k := s.live[k].(phase := Reading)], log := s.log + [Connected])
      else Schedule(Close(s, k))
    case End(k) => Schedule(Close(s, k))
    case Failure(k) => Schedule(Close(s, k))
    case Abort(k) => Close(s, k)
    case TimerFires =>
      var fired := s.(timers := s.timers - 1);
      if s.shouldReconnect then Connect(fired) else fired
    case Disconnect =>
      s.(shouldReconnect := false, controller := None, live := AbortSignal(s.live, s.controller),
         log := s.log + [Stopped])
  }

  /** The state after one external `connect` and then any list of events; events that cannot happen are skipped. */
  function Run(events: seq<Event>): State {
    if events == [] then Connect(IDLE)
    else
      var s, e := Run(events[..|events| - 1]), events[|events| - 1];
      if Enabled(s, e) then Next(s, e) else s
  }

  /** How many retries the log shows since the last successful response. */
  function Retries(log: seq<Note>): nat {
    if log == [] then 0
    else
      var last, before := log[|log| - 1], log[..|log| - 1];
      if last.Connected? then 0 else if last.Scheduled? then Retries(before) + 1 else Retries(before)
  }

  /** The log accounts for the attempt counter and for every delay, and shows no request and no retry behind a stop. */
  ghost predicate LogInv(log: seq<Note>, attempt: nat) {
    && attempt == Retries(log)
    && (forall i :: 0 <= i < |log| && log[i].Scheduled? ==> log[i].delay == Delay(Retries(log[..i])))
    && (forall i, j :: 0 <= i < j < |log| && log[i].Stopped? ==> !log[j].Fetched? && !log[j].Scheduled?)
  }

  ghost predicate Inv(s: State) {
    && |s.live| + s.timers <= 1
    && (s.shouldReconnect ==> forall k :: 0 <= k < |s.live| ==> s.controller == Some(s.live[k].signal))
    && (!s.shouldReconnect ==> forall k :: 0 <= k < |s.live| ==> s.live[k].aborted)
    && (s.shouldReconnect <==> Stopped !in s.log)
    && LogInv(s.log, s.reconnectAttempt)
  }

  lemma LogGrows(log: seq<Note>, attempt: nat, n: Note)
    requires LogInv(log, attempt)
    requires n.Fetched? || n.Scheduled? ==> Stopped !in log
    requires n.Scheduled? ==> n.delay == Delay(attempt)
    ensures LogInv(log + [n], if n.Connected? then 0 else if n.Scheduled? then attempt + 1 else attempt)
  {
    var more := log + [n];
    assert more[..|log|] == log;
    forall i | 0 <= i < |more| && more[i].Scheduled?
      ensures more[i].delay == Delay(Retries(more[..i]))
    {
      if i < |log| { assert more[..i] == log[..i]; }
    }
    forall i, j | 0 <= i < j < |more| && more[i].Stopped?
      ensures !more[j].Fetched? && !more[j].Scheduled?
    {
      if j == |log| { assert log[i] in log; }
    }
  }

  lemma ScheduleKeeps(s: State)
    requires Inv(s) && s.live == [] && s.timers == 0
    ensures Inv(Schedule(s))
  {
    if s.shouldReconnect { LogGrows(s.log, s.reconnectAttempt, Scheduled(Delay(s.reconnectAttempt))); }
  }

  lemma ConnectKeeps(s: State)
    requires Inv(s) && s.live == [] && s.timers == 0 && s.shouldReconnect
    ensures Inv(Connect(s))
  {
    LogGrows(s.log, s.reconnectAttempt, Fetched);
  }

  lemma InvStep(s: State, e: Event)
    requires Inv(s) && Enabled(s, e)
    ensures Inv(Next(s, e))
  {
    match e
    case Response(k, ok) =>
      if ok { LogGrows(s.log, s.reconnectAttempt, Connected); } else { ScheduleKeeps(Close(s, k)); }
    case End(k) => ScheduleKeeps(Close(s, k));
    case Failure(k) => ScheduleKeeps(Close(s, k));
    case Abort(k) =>
    case TimerFires => if s.shouldReconnect { ConnectKeeps(s.(timers := s.timers - 1)); }
    case Disconnect => LogGrows(s.log, s.reconnectAttempt, Stopped);
  }

  lemma {:induction false} InvHolds(events: seq<Event>)
    ensures Inv(Run(events))
  {
    if events == [] {
      ConnectKeeps(IDLE);
    } else {
      var before := events[..|events| - 1];
      InvHolds(before);
      if Enabled(Run(before), events[|events| - 1]) { InvStep(Run(before), events[|events| - 1]); }
    }
  }

  /** At every moment there is at most one open connection or pending retry, counted together. */
  lemma {:induction false} AtMostOneActivity(events: seq<Event>)
    ensures |Run(events).live| + Run(events).timers <= 1
  {
    InvHolds(events);
  }

  /** Once `disconnect` has been called no request is made and no retry is scheduled any more. */
  lemma {:induction false} NoRequestAfterDisconnect(events: seq<Event>, i: nat, j: nat)
    requires var log := Run(events).log; i < j < |log| && log[i].Stopped?
    ensures !Run(events).log[j].Fetched? && !Run(events).log[j].Scheduled?
  {
    InvHolds(events);
  }

  lemma LogStays(s: State, e: Event)
    ensures Enabled(s, e) ==> forall n :: n in s.log ==> n in Next(s, e).log
    ensures e.Disconnect? ==> Stopped in Next(s, e).log
  {
    if e.Disconnect? { assert Next(s, e).log[|s.log|] == Stopped; }
  }

  lemma {:induction false} AbortedByStop(events: seq<Event>)
    requires Stopped !in Run(events).log
    ensures forall k :: 0 <= k < |Run(events).live| ==> !Run(events).live[k].aborted
  {
    if events != [] {
      var s, e := Run(events[..|events| - 1]), events[|events| - 1];
      LogStays(s, e);
      AbortedByStop(events[..|events| - 1]);
    }
  }

  /** From `disconnect` on, and not before, every open connection has had its signal aborted. */
  lemma {:induction false} DisconnectAborts(events: seq<Event>)
    ensures forall k :: 0 <= k < |Run(events).live| ==> (Run(events).live[k].aborted <==> Stopped in Run(events).log)
  {
    InvHolds(events);
    if Stopped !in Run(events).log { AbortedByStop(events); }
  }

  /** And it is in force at once: whatever has happened before, `disconnect` leaves its note in the log. */
  lemma {:induction false} DisconnectIsNoted(events: seq<Event>)
    ensures Stopped in Run(events + [Disconnect]).log
    ensures !Run(events + [Disconnect]).shouldReconnect && Run(events + [Disconnect]).controller == None
    ensures |Run(events + [Disconnect]).live| == |Run(events).live|
    ensures Run(events + [Disconnect]).timers == Run(events).timers
  {
    assert (events + [Disconnect])[..|events|] == events;
    var log := Run(events + [Disconnect]).log;
    assert log[|log| - 1] == Stopped;
  }

  lemma {:induction false} DelayGrows(m: nat, n: nat)
    requires m <= n
    ensures Delay(m) <= Delay(n) <= 30000
    decreases n - m
  {
    if m < n {
      DelayGrows(m, n - 1);
      assert Pow2(n) == 2 * Pow2(n - 1);
    }
  }

  lemma {:induction false} RetriesGrow(log: seq<Note>, i: nat, j: nat)
    requires i < j <= |log| && log[i].Scheduled?
    requires forall k :: i < k < j ==> !log[k].Connected?
    ensures Retries(log[..j]) > Retries(log[..i])
    decreases j - i
  {
    assert log[..j][..j - 1] == log[..j - 1];
    if j > i + 1 { RetriesGrow(log, i, j - 1); }
  }

  /** Until the next successful response the waiting times never fall, and stay between one second and thirty. */
  lemma {:induction false} DelaysBackOff(events: seq<Event>, i: nat, j: nat)
    requires var log := Run(events).log; i < j < |log| && log[i].Scheduled? && log[j].Scheduled?
    requires forall k :: i < k < j ==> !Run(events).log[k].Connected?
    ensures var log := Run(events).log;
            && log[i].delay == Delay(Retries(log[..i])) && log[j].delay == Delay(Retries(log[..j]))
            && 1000 <= log[i].delay <= log[j].delay <= 30000
  {
    InvHolds(events);
    var log := Run(events).log;
    RetriesGrow(log, i, j);
    DelayGrows(Retries(log[..i]), Retries(log[..j]));
    DelayGrows(0, Retries(log[..i]));
  }

  lemma {:induction false} RetriesBetween(log: seq<Note>, i: nat, j: nat)
    requires i <= j <= |log| && forall k :: i <= k < j ==> !log[k].Connected? && !log[k].Scheduled?
    ensures Retries(log[..j]) == Retries(log[..i])
    decreases j - i
  {
    if i < j {
      assert log[..j][..j - 1] == log[..j - 1];
      RetriesBetween(log, i, j - 1);
    }
  }

  /** The first waiting time, after the start or after a successful response, is one second. */
  lemma {:induction false} FirstDelayIsOneSecond(events: seq<Event>, i: nat, j: nat)
    requires var log := Run(events).log; i <= j < |log| && log[j].Scheduled? && (i == 0 || log[i - 1].Connected?)
    requires forall k :: i <= k < j ==> !Run(events).log[k].Connected? && !Run(events).log[k].Scheduled?
    ensures Run(events).log[j].delay == 1000
  {
    InvHolds(events);
    var log := Run(events).log;
    RetriesBetween(log, i, j);
    if i > 0 { assert log[..i][i - 1] == log[i - 1]; }
    assert Pow2(0) == 1;
  }

  lemma {:induction false} DelayDoubles(n: nat)
    ensures Delay(n + 1) == Min(2 * Delay(n), 30000)
  {
    assert Pow2(n + 1) == 2 * Pow2(n);
  }

  /** Each further one, with no successful response in between, is twice the one before it, or thirty seconds. */
  lemma {:induction false} DelaysDouble(events: seq<Event>, i: nat, j: nat)
    requires var log := Run(events).log; i < j < |log| && log[i].Scheduled? && log[j].Scheduled?
    requires forall k :: i < k < j ==> !Run(events).log[k].Connected? && !Run(events).log[k].Scheduled?
    ensures Run(events).log[j].delay == Min(2 * Run(events).log[i].delay, 30000)
  {
    InvHolds(events);
    var log := Run(events).log;
    RetriesBetween(log, i + 1, j);
    assert log[..i + 1][..i] == log[..i];
    DelayDoubles(Retries(log[..i]));
  }

  /** Each run of `connect` has a signal of its own: none is handed out twice. */
  lemma {:induction false} SignalsAreFresh(events: seq<Event>)
    ensures var s := Run(events);
            && (s.controller.Some? ==> s.controller.value < s.signals)
            && forall k :: 0 <= k < |s.live| ==> s.live[k].signal < s.signals
    ensures var s := Run(events); Connect(s).controller == Some(s.signals) && Connect(s).signals > s.signals
  {
    if events != [] { SignalsAreFresh(events[..|events| - 1]); }
  }

  /** However a connection ends that was not aborted, one retry is scheduled, unless the stream has been stopped. */
  lemma {:induction false} EveryEndRetries(events: seq<Event>, e: Event)
    requires |Run(events).live| > 0
    requires e == Failure(0) || (if Run(events).live[0].phase == Reading then e == End(0) else e == Response(0, false))
    ensures var s, t := Run(events), Run(events + [e]);
            && t.live == []
            && if Stopped in s.log then t.timers == 0 && t.log == s.log
               else t.timers == 1 && |t.log| == |s.log| + 1 && t.log[..|s.log|] == s.log && t.log[|s.log|].Scheduled?
  {
    InvHolds(events);
    assert (events + [e])[..|events|] == events;
  }

  // ----- The order of what happens -----

  /** The last note that is no stop. */
  function LastNote(log: seq<Note>): Option<Note> {
    if log == [] then None
    else if log[|log| - 1].Stopped? then LastNote(log[..|log| - 1])
    else Some(log[|log| - 1])
  }

  /**
   * A request starts the log or follows a retry, a response follows a request, and a retry follows one of these
   * two.
   */
  predicate Follows(before: Option<Note>, n: Note) {
    match n
    case Fetched => before.None? || before.value.Scheduled?
    case Connected => before == Some(Fetched)
    case Scheduled(_) => before == Some(Fetched) || before == Some(Connected)
    case Stopped => true
  }

  ghost predicate Ordered(log: seq<Note>) {
    forall i :: 0 <= i < |log| ==> Follows(LastNote(log[..i]), log[i])
  }

  /** The connection or the timer is what the last note says. */
  ghost predicate Noted(s: State) {
    && Ordered(s.log)
    && (forall k :: 0 <= k < |s.live| ==>
          LastNote(s.log) == Some(if s.live[k].phase == Fetching then Fetched else Connected))
    && (s.timers > 0 ==> LastNote(s.log).Some? && LastNote(s.log).value.Scheduled?)
  }

  lemma {:induction false} OrderedGrows(log: seq<Note>, n: Note)
    requires Ordered(log) && Follows(LastNote(log), n)
    ensures Ordered(log + [n]) && LastNote(log + [n]) == if n.Stopped? then LastNote(log) else Some(n)
  {
    var more := log + [n];
    assert more[..|log|] == log;
    forall i | 0 <= i < |more| ensures Follows(LastNote(more[..i]), more[i]) {
      if i < |log| { assert more[..i] == log[..i]; }
    }
  }

  lemma {:induction false} EndNoted(s: State, k: nat)
    requires Inv(s) && Noted(s) && k < |s.live|
    ensures Noted(Schedule(Close(s, k)))
  {
    assert LastNote(s.log) == Some(if s.live[k].phase == Fetching then Fetched else Connected);
    OrderedGrows(s.log, Scheduled(Delay(s.reconnectAttempt)));
  }

  lemma {:induction false} ResponseNoted(s: State, k: nat)
    requires Inv(s) && Noted(s) && Enabled(s, Response(k, true))
    ensures Noted(Next(s, Response(k, true)))
  {
    assert LastNote(s.log) == Some(Fetched);
    OrderedGrows(s.log, Connected);
  }

  lemma {:induction false} FireNoted(s: State)
    requires Inv(s) && Noted(s) && s.timers > 0
    ensures Noted(Next(s, TimerFires))
  {
    OrderedGrows(s.log, Fetched);
  }

  lemma {:induction false} StopNoted(s: State)
    requires Noted(s)
    ensures Noted(Next(s, Disconnect))
  {
    var t := Next(s, Disconnect);
    OrderedGrows(s.log, Stopped);
    forall k | 0 <= k < |t.live|
      ensures LastNote(t.log) == Some(if t.live[k].phase == Fetching then Fetched else Connected)
    {
      assert t.live[k].phase == s.live[k].phase;
    }
  }

  lemma {:induction false} NotedStep(s: State, e: Event)
    requires Inv(s) && Noted(s) && Enabled(s, e)
    ensures Noted(Next(s, e))
  {
    match e
    case Response(k, ok) => if ok { ResponseNoted(s, k); } else { EndNoted(s, k); }
    case End(k) => EndNoted(s, k);
    case Failure(k) => EndNoted(s, k);
    case Abort(k) =>
    case TimerFires => FireNoted(s);
    case Disconnect => StopNoted(s);
  }

  /** In every run each response answers a request of its own, and each retry follows the end of a connection. */
  lemma {:induction false} LogIsOrdered(events: seq<Event>)
    ensures Noted(Run(events))
  {
    if events == [] {
      OrderedGrows([], Fetched);
      assert [] + [Fetched] == [Fetched];
    } else {
      var before := events[..|events| - 1];
      LogIsOrdered(before);
      InvHolds(before);
      if Enabled(Run(before), events[|events| - 1]) { NotedStep(Run(before), events[|events| - 1]); }
    }
  }

  /** An abort ends the stream for good: nothing is open, nothing is pending, and whatever comes is at most a stop. */
  lemma {:induction false} AbortIsFinal(events: seq<Event>, k: nat, more: seq<Event>)
    requires Enabled(Run(events), Abort(k))
    ensures var s, t := Run(events), Run(events + [Abort(k)] + more);
            && t.live == [] && t.timers == 0 && |t.log| >= |s.log|
            && t.log[..|s.log|] == s.log && forall i :: |s.log| <= i < |t.log| ==> t.log[i].Stopped?
    decreases |more|
  {
    var all := events + [Abort(k)] + more;
    if more == [] {
      InvHolds(events);
      assert all[..|events|] == events && all == events + [Abort(k)];
    } else {
      var n := |more| - 1;
      AbortIsFinal(events, k, more[..n]);
      assert all[..|all| - 1] == events + [Abort(k)] + more[..n];
    }
  }

  /** Unless it is told to stop, or its request is aborted from outside, the stream never gives up. */
  lemma {:induction false} NeverGivesUp(events: seq<Event>)
    requires forall k :: 0 <= k < |events| ==> !events[k].Abort? && !events[k].Disconnect?
    ensures |Run(events).live| + Run(events).timers == 1 && Run(events).shouldReconnect
  {
    if events != [] {
      NeverGivesUp(events[..|events| - 1]);
    }
  }

  /** The stream object: its own fields, and the event loop's view of what it has started. */
  class TxLINEStream {
    var shouldReconnect: bool
    var reconnectAttempt: nat
    var abortController: Option<nat>
    var signals: nat
    var live: seq<Connection>
    var timers: nat
    ghost var log: seq<Note>

    ghost function View(): State
      reads this
    {
      State(shouldReconnect, reconnectAttempt, abortController, signals, live, timers, log)
    }

    constructor ()
      ensures View() == IDLE
    {
      shouldReconnect, reconnectAttempt, abortController := true, 0, None;
      signals, live, timers, log := 0, [], 0, [];
    }

    method StartConnect()
      modifies this
      ensures View() == Connect(old(View()))
    {
      abortController := Some(signals);
      live := live + [Connection(signals, Fetching, false)];
      signals := signals + 1;
      log := log + [Fetched];
    }

    method ScheduleReconnect()
      requires shouldReconnect
      modifies this
      ensures View() == Schedule(old(View()))
    {
      var delay := Min(1000 * Pow2(reconnectAttempt), 30000);
      reconnectAttempt := reconnectAttempt + 1;
      timers := timers + 1;
      log := log + [Scheduled(delay)];
    }

    /** The end of one run of `connect` that was not aborted. */
    method Finish(k: nat)
      requires k < |live|
      modifies this
      ensures View() == Schedule(Close(old(View()), k))
    {
      live := live[..k] + live[k + 1..];
      if shouldReconnect { ScheduleReconnect(); }
    }

    method OnResponse(k: nat, ok: bool)
      requires Enabled(View(), Response(k, ok))
      modifies this
      ensures View() == Next(old(View()), Response(k, ok))
    {
      if !ok {
        Finish(k);
        return;
      }
      live := live[k := live[k].(phase := Reading)];
      reconnectAttempt := 0;
      log := log + [Connected];
    }

    method OnEnd(k: nat)
      requires Enabled(View(), End(k))
      modifies this
      ensures View() == Next(old(View()), End(k))
    {
      Finish(k);
    }

    method OnError(k: nat, abortError: bool)
      requires k < |live|
      modifies this
      ensures View() == Next(old(View()), if abortError then Abort(k) else Failure(k))
    {
      if abortError {
        live := live[..k] + live[k + 1..];
      } else {
        Finish(k);
      }
    }

    method OnTimer()
      requires Enabled(View(), TimerFires)
      modifies this
      ensures View() == Next(old(View()), TimerFires)
    {
      timers := timers - 1;
      if shouldReconnect { StartConnect(); }
    }

    method Stop()
      modifies this
      ensures View() == Next(old(View()), Disconnect)
    {
      shouldReconnect := false;
      live := AbortSignal(live, abortController);
      abortController := None;
      log := log + [Stopped];
    }
  }
}
