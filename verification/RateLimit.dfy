/** The fixed-window rate limiter and its background sweep. */
module RateLimit {
  import opened Common

  datatype Entry = Entry(count: int, resetAt: int)

  type Store = map<string, Entry>

  datatype Answer = Answer(allowed: bool, remaining: int, resetAt: int)

  datatype Op =
    | Request(key: string, maxRequests: int, windowMs: int, now: int)
    | Sweep(now: int)

  function Lookup(store: Store, key: string): Option<Entry> {
    if key in store then Some(store[key]) else None
  }

  predicate Expired(e: Entry, now: int) {
    now > e.resetAt
  }

  /** What a request makes of its key's entry. */
  function NextEntry(e: Option<Entry>, windowMs: int, now: int): Entry {
    if e.None? || Expired(e.value, now) then Entry(1, now + windowMs)
    else Entry(e.value.count + 1, e.value.resetAt)
  }

  function Reply(e: Option<Entry>, maxRequests: int, windowMs: int, now: int): Answer {
    var n := NextEntry(e, windowMs, now);
    if e.None? || Expired(e.value, now) then Answer(true, maxRequests - 1, n.resetAt)
    else if n.count > maxRequests then Answer(false, 0, n.resetAt)
    else Answer(true, maxRequests - n.count, n.resetAt)
  }

  function Swept(store: Store, now: int): Store {
    map k | k in store && !Expired(store[k], now) :: store[k]
  }

  function Apply(store: Store, op: Op): Store {
    match op
    case Request(key, _, windowMs, now) => store[key := NextEntry(Lookup(store, key), windowMs, now)]
    case Sweep(now) => Swept(store, now)
  }

  /** The limiter as code: one shared map that requests update and the sweep thins out. */
  class Limiter {
    var store: Store

    constructor ()
      ensures store == map[]
    {
      store := map[];
    }

    method CheckRateLimit(key: string, maxRequests: int, windowMs: int, now: int) returns (r: Answer)
      modifies this
      ensures store == Apply(old(store), Request(key, maxRequests, windowMs, now))
      ensures r == Reply(Lookup(old(store), key), maxRequests, windowMs, now)
    {
      var entry := Lookup(store, key);
      if entry.None? || now > entry.value.resetAt {
        store := store[key := Entry(1, now + windowMs)];
        return Answer(true, maxRequests - 1, now + windowMs);
      }
      var count := entry.value.count + 1;
      store := store[key := Entry(count, entry.value.resetAt)];
      if count > maxRequests {
        return Answer(false, 0, entry.value.resetAt);
      }
      r := Answer(true, maxRequests - count, entry.value.resetAt);
    }

    method Cleanup(now: int)
      modifies this
      ensures store == Apply(old(store), Sweep(now))
    {
      var todo := store.Keys;
      while todo != {}
        invariant todo <= old(store).Keys
        invariant store == map k | k in old(store) && (k in todo || !Expired(old(store)[k], now)) :: old(store)[k]
        decreases |todo|
      {
        var key :| key in todo;
        if now > store[key].resetAt {
          store := store - {key};
        }
        todo := todo - {key};
      }
    }
  }

  // ----- Whole runs -----

  /** The answers to all requests of a run, in order. */
  function Answers(store: Store, ops: seq<Op>): seq<Answer>
    decreases |ops|
  {
    if ops == [] then []
    else
      var now := if ops[0].Request?
                 then [Reply(Lookup(store, ops[0].key), ops[0].maxRequests, ops[0].windowMs, ops[0].now)] else [];
      now + Answers(Apply(store, ops[0]), ops[1..])
  }

  function Requests(ops: seq<Op>): seq<Op> {
    if ops == [] then [] else (if ops[0].Request? then [ops[0]] else []) + Requests(ops[1..])
  }

  function RequestsOf(ops: seq<Op>, key: string): seq<Op> {
    if ops == [] then []
    else (if ops[0].Request? && ops[0].key == key then [ops[0]] else []) + RequestsOf(ops[1..], key)
  }

  /** The answers that the requests of one key get in a run. */
  function AnswersTo(store: Store, ops: seq<Op>, key: string): seq<Answer>
    decreases |ops|
  {
    if ops == [] then []
    else
      var now := if ops[0].Request? && ops[0].key == key
                 then [Reply(Lookup(store, key), ops[0].maxRequests, ops[0].windowMs, ops[0].now)] else [];
      now + AnswersTo(Apply(store, ops[0]), ops[1..], key)
  }

  /** The clock does not run backwards, starting from `t`. */
  ghost predicate InTime(ops: seq<Op>, t: int)
    decreases |ops|
  {
    ops != [] ==> t <= ops[0].now && InTime(ops[1..], ops[0].now)
  }

  // ----- One key on its own -----

  function KeyAnswers(e: Option<Entry>, requests: seq<Op>): seq<Answer>
    requires forall i :: 0 <= i < |requests| ==> requests[i].Request?
    decreases |requests|
  {
    if requests == [] then []
    else
      var q := requests[0];
      [Reply(e, q.maxRequests, q.windowMs, q.now)]
      + KeyAnswers(Some(NextEntry(e, q.windowMs, q.now)), requests[1..])
  }

  lemma {:induction false} RequestsOfAreRequests(ops: seq<Op>, key: string)
    ensures forall i :: 0 <= i < |RequestsOf(ops, key)| ==>
              RequestsOf(ops, key)[i].Request? && RequestsOf(ops, key)[i].key == key && RequestsOf(ops, key)[i] in ops
  {
    if ops != [] { RequestsOfAreRequests(ops[1..], key); }
  }

  /** A key's latest window in a run: when it ends, and whether a sweep has come after its end. */
  datatype Window = Closed | Open(end: int, swept: bool)

  /** The window after one more operation; only the times of the key's requests and of the sweeps count. */
  function Track(w: Window, op: Op, key: string): Window {
    match op
    case Request(k, _, windowMs, now) =>
      if k != key || (w.Open? && now <= w.end) then w else Open(now + windowMs, false)
    case Sweep(now) => if w.Open? && now > w.end then w.(swept := true) else w
  }

  /** The request belongs to a window that a sweep has taken for over. */
  predicate TooEarly(w: Window, op: Op, key: string) {
    op.Request? && op.key == key && w.Open? && w.swept && op.now <= w.end
  }

  /** No request of the key comes with a time inside its window after a sweep with a time behind that window. */
  predicate InOrder(w: Window, ops: seq<Op>, key: string)
    decreases |ops|
  {
    ops != [] ==> !TooEarly(w, ops[0], key) && InOrder(Track(w, ops[0], key), ops[1..], key)
  }

  /** The key's entry with sweeps and without them, for its window. */
  ghost predicate Matches(swept: Option<Entry>, unswept: Option<Entry>, w: Window) {
    match w
    case Closed => swept.None? && unswept.None?
    case Open(end, gone) =>
      && unswept.Some? && unswept.value.resetAt == end && unswept.value.count >= 1
      && swept == if gone then None else unswept
  }

  function Unswept(e: Option<Entry>, op: Op, key: string): Option<Entry> {
    if op.Request? && op.key == key then Some(NextEntry(e, op.windowMs, op.now)) else e
  }

  lemma OpMatches(store: Store, e: Option<Entry>, w: Window, op: Op, key: string)
    requires Matches(Lookup(store, key), e, w) && !TooEarly(w, op, key)
    ensures Matches(Lookup(Apply(store, op), key), Unswept(e, op, key), Track(w, op, key))
  {
  }

  /** A request is answered alike with and without sweeps unless it is too early. */
  lemma ReplyTells(store: Store, e: Option<Entry>, w: Window, op: Op)
    requires op.Request? && Matches(Lookup(store, op.key), e, w)
    ensures !TooEarly(w, op, op.key) <==>
              Reply(Lookup(store, op.key), op.maxRequests, op.windowMs, op.now)
              == Reply(e, op.maxRequests, op.windowMs, op.now)
  {
  }

  lemma Heads<T>(x: T, a: seq<T>, y: T, b: seq<T>)
    ensures [x] + a == [y] + b <==> x == y && a == b
  {
    assert ([x] + a)[0] == x && ([x] + a)[1..] == a;
    assert ([y] + b)[0] == y && ([y] + b)[1..] == b;
  }

  lemma {:induction false} KeyIsOnItsOwnFrom(store: Store, e: Option<Entry>, w: Window, ops: seq<Op>, key: string)
    requires Matches(Lookup(store, key), e, w)
    ensures forall i :: 0 <= i < |RequestsOf(ops, key)| ==> RequestsOf(ops, key)[i].Request?
    ensures AnswersTo(store, ops, key) == KeyAnswers(e, RequestsOf(ops, key)) <==> InOrder(w, ops, key)
    decreases |ops|
  {
    RequestsOfAreRequests(ops, key);
    if ops != [] {
      var op, rest := ops[0], ops[1..];
      RequestsOfAreRequests(rest, key);
      var next := Unswept(e, op, key);
      if !TooEarly(w, op, key) {
        OpMatches(store, e, w, op, key);
        KeyIsOnItsOwnFrom(Apply(store, op), next, Track(w, op, key), rest, key);
      }
      if op.Request? && op.key == key {
        ReplyTells(store, e, w, op);
        assert RequestsOf(ops, key)[1..] == RequestsOf(rest, key);
        Heads(Reply(Lookup(store, key), op.maxRequests, op.windowMs, op.now), AnswersTo(Apply(store, op), rest, key),
              Reply(e, op.maxRequests, op.windowMs, op.now), KeyAnswers(next, RequestsOf(rest, key)));
      } else {
        assert [] + AnswersTo(Apply(store, op), rest, key) == AnswersTo(Apply(store, op), rest, key);
        assert [] + RequestsOf(rest, key) == RequestsOf(rest, key);
      }
    }
  }

  /**
   * What a key's requests are answered depends on nothing but these requests exactly when they are in order
   * with the sweeps.
   */
  lemma KeyIsOnItsOwn(ops: seq<Op>, key: string)
    ensures forall i :: 0 <= i < |RequestsOf(ops, key)| ==> RequestsOf(ops, key)[i].Request?
    ensures AnswersTo(map[], ops, key) == KeyAnswers(None, RequestsOf(ops, key)) <==> InOrder(Closed, ops, key)
  {
    KeyIsOnItsOwnFrom(map[], None, Closed, ops, key);
  }

  ghost predicate SameLimit(requests: seq<Op>, maxRequests: int, windowMs: int) {
    forall i :: 0 <= i < |requests| ==>
      requests[i].Request? && requests[i].maxRequests == maxRequests && requests[i].windowMs == windowMs
  }

  lemma {:induction false} RestIsAnswered(e: Entry, requests: seq<Op>, maxRequests: int, windowMs: int, n: int)
    requires n < |requests| && SameLimit(requests, maxRequests, windowMs)
    requires forall i :: 0 <= i <= n ==> requests[i].now <= e.resetAt
    ensures |KeyAnswers(Some(e), requests)| == |requests|
    ensures n < 0 || KeyAnswers(Some(e), requests)[n]
                     == Answer(e.count + n < maxRequests, Max(0, maxRequests - (e.count + n + 1)), e.resetAt)
    decreases |requests|
  {
    if requests != [] {
      var next := NextEntry(Some(e), windowMs, requests[0].now);
      RestIsAnswered(next, requests[1..], maxRequests, windowMs, if n > 0 then n - 1 else -1);
      if n >= 0 { assert next == Entry(e.count + 1, e.resetAt); }
    }
  }

  /** What the n-th of a key's requests in one window is answered: how many of the limit are left after it. */
  lemma {:induction false} WindowIsAnswered(requests: seq<Op>, maxRequests: int, windowMs: int, n: nat)
    requires n < |requests| && SameLimit(requests, maxRequests, windowMs)
    requires forall i :: 0 <= i <= n ==> requests[i].now <= requests[0].now + windowMs
    ensures |KeyAnswers(None, requests)| == |requests|
    ensures KeyAnswers(None, requests)[n]
         == Answer(n == 0 || n < maxRequests, if n == 0 then maxRequests - 1 else Max(0, maxRequests - (n + 1)),
                   requests[0].now + windowMs)
  {
    var first := Entry(1, requests[0].now + windowMs);
    assert NextEntry(None, windowMs, requests[0].now) == first;
    RestIsAnswered(first, requests[1..], maxRequests, windowMs, n - 1);
  }

  lemma {:induction false} RestIsSeparate(e: Entry, requests: seq<Op>, more: seq<Op>)
    requires forall i :: 0 <= i < |requests| ==> requests[i].Request? && requests[i].now <= e.resetAt
    requires forall i :: 0 <= i < |more| ==> more[i].Request?
    requires more != [] ==> more[0].now > e.resetAt
    ensures KeyAnswers(Some(e), requests + more) == KeyAnswers(Some(e), requests) + KeyAnswers(None, more)
    decreases |requests|
  {
    if requests == [] {
      assert requests + more == more;
    } else {
      var q, next := requests[0], Entry(e.count + 1, e.resetAt);
      assert (requests + more)[1..] == requests[1..] + more;
      RestIsSeparate(next, requests[1..], more);
      Regroup([Reply(Some(e), q.maxRequests, q.windowMs, q.now)], KeyAnswers(Some(next), requests[1..]),
              KeyAnswers(None, more));
    }
  }

  /** A request behind the end of the window starts afresh, as if none had come before it. */
  lemma {:induction false} WindowsAreSeparate(requests: seq<Op>, more: seq<Op>)
    requires requests != [] && forall i :: 0 <= i < |requests| ==> requests[i].Request?
    requires forall i :: 0 <= i < |requests| ==> requests[i].now <= requests[0].now + requests[0].windowMs
    requires forall i :: 0 <= i < |more| ==> more[i].Request?
    requires more != [] ==> more[0].now > requests[0].now + requests[0].windowMs
    ensures KeyAnswers(None, requests + more) == KeyAnswers(None, requests) + KeyAnswers(None, more)
  {
    var q := requests[0];
    assert (requests + more)[1..] == requests[1..] + more;
    RestIsSeparate(Entry(1, q.now + q.windowMs), requests[1..], more);
    Regroup([Reply(None, q.maxRequests, q.windowMs, q.now)],
            KeyAnswers(Some(Entry(1, q.now + q.windowMs)), requests[1..]), KeyAnswers(None, more));
  }

  // ----- The sweep -----

  ghost predicate AllMatch(swept: Store, unswept: Store, w: string -> Window) {
    forall k :: Matches(Lookup(swept, k), Lookup(unswept, k), w(k))
  }

  ghost predicate AllInOrder(w: string -> Window, ops: seq<Op>) {
    forall k :: InOrder(w(k), ops, k)
  }

  function TrackAll(w: string -> Window, op: Op): string -> Window {
    k => Track(w(k), op, k)
  }

  lemma AllOpsMatch(swept: Store, unswept: Store, w: string -> Window, op: Op)
    requires AllMatch(swept, unswept, w) && forall k :: !TooEarly(w(k), op, k)
    ensures AllMatch(Apply(swept, op), if op.Request? then Apply(unswept, op) else unswept, TrackAll(w, op))
  {
    var t := if op.Request? then Apply(unswept, op) else unswept;
    forall k ensures Matches(Lookup(Apply(swept, op), k), Lookup(t, k), TrackAll(w, op)(k)) {
      assert Matches(Lookup(swept, k), Lookup(unswept, k), w(k));
      OpMatches(swept, Lookup(unswept, k), w(k), op, k);
    }
  }

  lemma {:induction false} InOrderStep(w: string -> Window, op: Op, rest: seq<Op>)
    ensures AllInOrder(w, [op] + rest) <==> AllInOrder(TrackAll(w, op), rest) && forall k :: !TooEarly(w(k), op, k)
  {
    var ops := [op] + rest;
    assert ops[1..] == rest;
    if AllInOrder(w, ops) {
      forall k ensures InOrder(TrackAll(w, op)(k), rest, k) && !TooEarly(w(k), op, k) {
        assert InOrder(w(k), ops, k);
      }
    }
    if AllInOrder(TrackAll(w, op), rest) && forall k :: !TooEarly(w(k), op, k) {
      forall k ensures InOrder(w(k), ops, k) {
        assert InOrder(TrackAll(w, op)(k), rest, k);
      }
    }
  }

  lemma {:induction false} AnswersCons(a: Store, op: Op, rest: seq<Op>)
    ensures Answers(a, [op] + rest)
            == (if op.Request? then [Reply(Lookup(a, op.key), op.maxRequests, op.windowMs, op.now)] else [])
               + Answers(Apply(a, op), rest)
    ensures Requests([op] + rest) == (if op.Request? then [op] else []) + Requests(rest)
  {
    assert ([op] + rest)[1..] == rest;
  }

  lemma {:induction false} RequestTells(swept: Store, unswept: Store, w: string -> Window, op: Op, rest: seq<Op>)
    requires AllMatch(swept, unswept, w) && op.Request?
    ensures Answers(swept, [op] + rest) == Answers(unswept, Requests([op] + rest))
            <==> !TooEarly(w(op.key), op, op.key)
                 && Answers(Apply(swept, op), rest) == Answers(Apply(unswept, op), Requests(rest))
  {
    assert Matches(Lookup(swept, op.key), Lookup(unswept, op.key), w(op.key));
    ReplyTells(swept, Lookup(unswept, op.key), w(op.key), op);
    AnswersCons(swept, op, rest);
    AnswersCons(unswept, op, Requests(rest));
    Heads(Reply(Lookup(swept, op.key), op.maxRequests, op.windowMs, op.now), Answers(Apply(swept, op), rest),
          Reply(Lookup(unswept, op.key), op.maxRequests, op.windowMs, op.now),
          Answers(Apply(unswept, op), Requests(rest)));
  }

  lemma {:induction false} SweepsShowFrom(swept: Store, unswept: Store, w: string -> Window, ops: seq<Op>)
    requires AllMatch(swept, unswept, w)
    ensures Answers(swept, ops) == Answers(unswept, Requests(ops)) <==> AllInOrder(w, ops)
    decreases |ops|
  {
    if ops != [] {
      var op, rest := ops[0], ops[1..];
      assert ops == [op] + rest;
      InOrderStep(w, op, rest);
      AnswersCons(swept, op, rest);
      if op.Request? {
        RequestTells(swept, unswept, w, op, rest);
        if !TooEarly(w(op.key), op, op.key) {
          AllOpsMatch(swept, unswept, w, op);
          SweepsShowFrom(Apply(swept, op), Apply(unswept, op), TrackAll(w, op), rest);
        }
      } else {
        AllOpsMatch(swept, unswept, w, op);
        SweepsShowFrom(Apply(swept, op), unswept, TrackAll(w, op), rest);
        assert [] + Answers(Apply(swept, op), rest) == Answers(Apply(swept, op), rest);
        assert [] + Requests(rest) == Requests(rest);
      }
    }
  }

  /**
   * A limiter with sweeps answers a run like one that never sweeps if and only if no key has a request with a
   * time inside its window after a sweep with a time behind that window.
   */
  lemma SweepsDoNotShowIff(ops: seq<Op>)
    ensures Answers(map[], ops) == Answers(map[], Requests(ops)) <==> forall k :: InOrder(Closed, ops, k)
  {
    var w := (k: string) => Closed;
    forall k ensures Matches(Lookup(map[], k), Lookup(map[], k), w(k)) {}
    SweepsShowFrom(map[], map[], w, ops);
    assert AllInOrder(w, ops) <==> forall k :: InOrder(w(k), ops, k);
    if AllInOrder(w, ops) {
      forall k ensures InOrder(Closed, ops, k) { assert InOrder(w(k), ops, k); }
    }
  }

  /** No request is earlier than a sweep before it; otherwise the clock may run as it likes. */
  ghost predicate SweepsFirst(ops: seq<Op>) {
    forall i, j :: 0 <= i < j < |ops| && ops[i].Sweep? && ops[j].Request? ==> ops[i].now <= ops[j].now
  }

  lemma {:induction false} SweepsFirstInOrder(w: Window, ops: seq<Op>, key: string)
    requires SweepsFirst(ops)
    requires w.Open? && w.swept ==> forall j :: 0 <= j < |ops| && ops[j].Request? ==> ops[j].now > w.end
    ensures InOrder(w, ops, key)
    decreases |ops|
  {
    if ops != [] {
      var next, rest := Track(w, ops[0], key), ops[1..];
      if next.Open? && next.swept {
        forall j | 0 <= j < |rest| && rest[j].Request? ensures rest[j].now > next.end {
          assert rest[j] == ops[j + 1];
        }
      }
      SweepsFirstInOrder(next, rest, key);
    }
  }

  /** In particular sweeps at any times do not show as long as no request is earlier than a sweep before it. */
  lemma {:induction false} SweepsDoNotShow(ops: seq<Op>)
    requires SweepsFirst(ops)
    ensures Answers(map[], ops) == Answers(map[], Requests(ops))
  {
    forall k ensures InOrder(Closed, ops, k) { SweepsFirstInOrder(Closed, ops, k); }
    SweepsDoNotShowIff(ops);
  }

  /** A clock that does not run backwards is enough for this. */
  lemma {:induction false} InTimeSweepsFirst(ops: seq<Op>, t: int)
    requires InTime(ops, t)
    ensures SweepsFirst(ops) && forall j :: 0 <= j < |ops| ==> t <= ops[j].now
    decreases |ops|
  {
    if ops != [] {
      var rest := ops[1..];
      InTimeSweepsFirst(rest, ops[0].now);
      forall j | 0 < j < |ops| ensures ops[0].now <= ops[j].now { assert ops[j] == rest[j - 1]; }
      forall i, j | 0 < i < j < |ops| && ops[i].Sweep? && ops[j].Request? ensures ops[i].now <= ops[j].now {
        assert ops[i] == rest[i - 1] && ops[j] == rest[j - 1];
      }
    }
  }

  lemma {:induction false} InTimeInOrder(ops: seq<Op>, t: int, key: string)
    requires InTime(ops, t)
    ensures InOrder(Closed, ops, key)
  {
    InTimeSweepsFirst(ops, t);
    SweepsFirstInOrder(Closed, ops, key);
  }

  /** The clock matters: for every limit a sweep followed by a request from before it changes the answer. */
  lemma {:induction false} SweepShowsWhenClockRunsBack(key: string, maxRequests: int, windowMs: int, now: int)
    requires 0 <= now <= windowMs
    ensures var first, second := Request(key, maxRequests, windowMs, 0), Request(key, maxRequests, windowMs, now);
            var ops := [first, Sweep(windowMs + 1), second];
            Answers(map[], ops) != Answers(map[], Requests(ops))
  {
    var first, last := Request(key, maxRequests, windowMs, 0), Request(key, maxRequests, windowMs, now);
    var ops := [first, Sweep(windowMs + 1), last];
    assert ops[1..] == [Sweep(windowMs + 1), last] && ops[1..][1..] == [last];
    assert !InOrder(Open(windowMs, true), [last], key);
    assert !InOrder(Open(windowMs, false), ops[1..], key);
    assert !InOrder(Closed, ops, key);
    SweepsDoNotShowIff(ops);
  }

  // ----- How many requests get through -----

  /** The limit in effect: the first request of a window is let through even when the limit is below one. */
  function Limit(maxRequests: int): int {
    Max(1, maxRequests)
  }

  /** The number of allowed requests with a time from `a` to `b`, for request times `ts` of one key. */
  function AllowedIn(e: Option<Entry>, ts: seq<int>, maxRequests: int, windowMs: int, a: int, b: int): nat
    decreases |ts|
  {
    if ts == [] then 0
    else
      var now := if Reply(e, maxRequests, windowMs, ts[0]).allowed && a <= ts[0] <= b then 1 else 0;
      now + AllowedIn(Some(NextEntry(e, windowMs, ts[0])), ts[1..], maxRequests, windowMs, a, b)
  }

  ghost predicate Ascending(ts: seq<int>) {
    forall i, j :: 0 <= i < j < |ts| ==> ts[i] <= ts[j]
  }

  lemma {:induction false} NothingAfter(e: Option<Entry>, ts: seq<int>, maxRequests: int, windowMs: int, a: int, b: int)
    requires Ascending(ts) && (ts != [] ==> ts[0] > b)
    ensures AllowedIn(e, ts, maxRequests, windowMs, a, b) == 0
    decreases |ts|
  {
    if ts != [] { NothingAfter(Some(NextEntry(e, windowMs, ts[0])), ts[1..], maxRequests, windowMs, a, b); }
  }

  /** What the entry still allows in its own window. */
  function Left(e: Entry, maxRequests: int): int {
    Max(0, Limit(maxRequests) - e.count)
  }

  /** How many allowed requests can still fall between `a` and `a + windowMs`. */
  function Bound(e: Option<Entry>, maxRequests: int, windowMs: int, a: int): int {
    if e.None? || e.value.resetAt < a then 2 * Limit(maxRequests) - 1
    else if e.value.resetAt < a + windowMs then Left(e.value, maxRequests) + Limit(maxRequests)
    else Left(e.value, maxRequests)
  }

  lemma {:induction false} AllowedIsBounded(e: Option<Entry>, ts: seq<int>, maxRequests: int, windowMs: int, a: int)
    requires Ascending(ts) && windowMs >= 0 && (e.Some? ==> e.value.count >= 1)
    ensures AllowedIn(e, ts, maxRequests, windowMs, a, a + windowMs) <= Bound(e, maxRequests, windowMs, a)
    decreases |ts|
  {
    if ts != [] {
      if ts[0] > a + windowMs {
        NothingAfter(e, ts, maxRequests, windowMs, a, a + windowMs);
      } else {
        AllowedIsBounded(Some(NextEntry(e, windowMs, ts[0])), ts[1..], maxRequests, windowMs, a);
      }
    }
  }

  function Times(requests: seq<Op>): (ts: seq<int>)
    ensures |ts| == |requests|
    ensures forall i :: 0 <= i < |ts| ==> ts[i] == requests[i].now
  {
    seq(|requests|, i requires 0 <= i < |requests| => requests[i].now)
  }

  /** The number of allowed answers among those given between `a` and `b`. */
  function AllowedAnswers(answers: seq<Answer>, ts: seq<int>, a: int, b: int): nat
    requires |answers| == |ts|
  {
    if ts == [] then 0
    else (if answers[0].allowed && a <= ts[0] <= b then 1 else 0) + AllowedAnswers(answers[1..], ts[1..], a, b)
  }

  lemma {:induction false} AnswersAreCounted(e: Option<Entry>, requests: seq<Op>, maxRequests: int, windowMs: int,
                                             a: int, b: int)
    requires SameLimit(requests, maxRequests, windowMs)
    ensures |KeyAnswers(e, requests)| == |requests|
    ensures AllowedAnswers(KeyAnswers(e, requests), Times(requests), a, b)
         == AllowedIn(e, Times(requests), maxRequests, windowMs, a, b)
    decreases |requests|
  {
    if requests != [] {
      var next := Some(NextEntry(e, windowMs, requests[0].now));
      AnswersAreCounted(next, requests[1..], maxRequests, windowMs, a, b);
      assert Times(requests)[1..] == Times(requests[1..]);
      assert KeyAnswers(e, requests)[1..] == KeyAnswers(next, requests[1..]);
    }
  }

  lemma AscendingCons(t: int, ts: seq<int>)
    requires Ascending(ts) && forall i :: 0 <= i < |ts| ==> t <= ts[i]
    ensures Ascending([t] + ts)
  {
    var all := [t] + ts;
    forall i, j | 0 <= i < j < |all| ensures all[i] <= all[j] {
      assert all[j] == ts[j - 1];
      if i > 0 { assert all[i] == ts[i - 1]; }
    }
  }

  lemma {:induction false} TimesAscend(ops: seq<Op>, key: string, t: int)
    requires InTime(ops, t)
    ensures Ascending(Times(RequestsOf(ops, key)))
    ensures forall i :: 0 <= i < |RequestsOf(ops, key)| ==> t <= RequestsOf(ops, key)[i].now
    decreases |ops|
  {
    if ops != [] {
      TimesAscend(ops[1..], key, ops[0].now);
      var all, rest := RequestsOf(ops, key), RequestsOf(ops[1..], key);
      if ops[0].Request? && ops[0].key == key {
        assert Times(all) == [ops[0].now] + Times(rest);
        AscendingCons(ops[0].now, Times(rest));
      }
    }
  }

  /**
   * In every run with a clock that does not run back, with other keys and sweeps in between, a key with limit
   * `maxRequests` per `windowMs` gets at most 2 * maxRequests - 1 requests through in any closed interval of that
   * length.
   */
  lemma IntervalBound(ops: seq<Op>, key: string, t: int, maxRequests: int, windowMs: int, a: int)
    requires InTime(ops, t) && windowMs >= 0
    requires SameLimit(RequestsOf(ops, key), maxRequests, windowMs)
    ensures |AnswersTo(map[], ops, key)| == |RequestsOf(ops, key)|
    ensures AllowedAnswers(AnswersTo(map[], ops, key), Times(RequestsOf(ops, key)), a, a + windowMs)
         <= 2 * Limit(maxRequests) - 1
  {
    InTimeInOrder(ops, t, key);
    KeyIsOnItsOwn(ops, key);
    TimesAscend(ops, key, t);
    AnswersAreCounted(None, RequestsOf(ops, key), maxRequests, windowMs, a, a + windowMs);
    AllowedIsBounded(None, Times(RequestsOf(ops, key)), maxRequests, windowMs, a);
  }

  /** The number of allowed answers that belong to the window ending at `resetAt`. */
  function AllowedInWindow(e: Option<Entry>, ts: seq<int>, maxRequests: int, windowMs: int, resetAt: int): nat
    decreases |ts|
  {
    if ts == [] then 0
    else
      var r := Reply(e, maxRequests, windowMs, ts[0]);
      (if r.allowed && r.resetAt == resetAt then 1 else 0)
      + AllowedInWindow(Some(NextEntry(e, windowMs, ts[0])), ts[1..], maxRequests, windowMs, resetAt)
  }

  lemma {:induction false} WindowIsBounded(
      e: Option<Entry>, ts: seq<int>, maxRequests: int, windowMs: int, resetAt: int)
    requires windowMs >= 0 && (e.Some? ==> e.value.count >= 1)
    ensures AllowedInWindow(e, ts, maxRequests, windowMs, resetAt)
         <= if e.None? || e.value.resetAt < resetAt then Limit(maxRequests)
            else if e.value.resetAt == resetAt then Left(e.value, maxRequests) else 0
    decreases |ts|
  {
    if ts != [] {
      WindowIsBounded(Some(NextEntry(e, windowMs, ts[0])), ts[1..], maxRequests, windowMs, resetAt);
    }
  }

  /** The number of allowed answers that name the window ending at `resetAt`. */
  function AllowedFor(answers: seq<Answer>, resetAt: int): nat {
    if answers == [] then 0
    else (if answers[0].allowed && answers[0].resetAt == resetAt then 1 else 0) + AllowedFor(answers[1..], resetAt)
  }

  lemma {:induction false} WindowAnswersAreCounted(e: Option<Entry>, requests: seq<Op>, maxRequests: int, windowMs: int,
                                                   resetAt: int)
    requires SameLimit(requests, maxRequests, windowMs)
    ensures AllowedFor(KeyAnswers(e, requests), resetAt)
         == AllowedInWindow(e, Times(requests), maxRequests, windowMs, resetAt)
    decreases |requests|
  {
    if requests != [] {
      var next := Some(NextEntry(e, windowMs, requests[0].now));
      WindowAnswersAreCounted(next, requests[1..], maxRequests, windowMs, resetAt);
      assert Times(requests)[1..] == Times(requests[1..]);
      assert KeyAnswers(e, requests)[1..] == KeyAnswers(next, requests[1..]);
    }
  }

  /**
   * In every run in which sweeps do not show, with other keys in between, no window lets more than the limit
   * through.
   */
  lemma WindowBound(ops: seq<Op>, key: string, maxRequests: int, windowMs: int, resetAt: int)
    requires InOrder(Closed, ops, key) && windowMs >= 0
    requires SameLimit(RequestsOf(ops, key), maxRequests, windowMs)
    ensures AllowedFor(AnswersTo(map[], ops, key), resetAt) <= Limit(maxRequests)
  {
    KeyIsOnItsOwn(ops, key);
    WindowAnswersAreCounted(None, RequestsOf(ops, key), maxRequests, windowMs, resetAt);
    WindowIsBounded(None, Times(RequestsOf(ops, key)), maxRequests, windowMs, resetAt);
  }

  // ----- The interval bound is reached -----

  function Repeat(t: int, n: nat): seq<int> {
    seq(n, _ => t)
  }

  lemma {:induction false} BurstIsAllowed(
      e: Entry, t: int, n: nat, more: seq<int>, maxRequests: int, windowMs: int, a: int, b: int)
    requires t <= e.resetAt && e.count + n <= maxRequests && a <= t <= b
    ensures AllowedIn(Some(e), Repeat(t, n) + more, maxRequests, windowMs, a, b)
         == n + AllowedIn(Some(Entry(e.count + n, e.resetAt)), more, maxRequests, windowMs, a, b)
    decreases n
  {
    if n == 0 {
      assert Repeat(t, n) + more == more;
    } else {
      assert (Repeat(t, n) + more)[1..] == Repeat(t, n - 1) + more;
      BurstIsAllowed(Entry(e.count + 1, e.resetAt), t, n - 1, more, maxRequests, windowMs, a, b);
    }
  }

  /** A first request, a burst at the end of its window, and a full burst right behind it. */
  function WorstTimes(maxRequests: int, windowMs: int): seq<int>
    requires maxRequests >= 1
  {
    [0] + (Repeat(windowMs, maxRequests - 1) + ([windowMs + 1] + (Repeat(windowMs + 1, maxRequests - 1) + [])))
  }

  lemma WorstTimesAscend(maxRequests: int, windowMs: int)
    requires maxRequests >= 1 && windowMs >= 1
    ensures Ascending(WorstTimes(maxRequests, windowMs))
  {
  }

  lemma {:induction false} WorstTimesReach(maxRequests: int, windowMs: int)
    requires maxRequests >= 1 && windowMs >= 1
    ensures Ascending(WorstTimes(maxRequests, windowMs))
    ensures AllowedIn(None, WorstTimes(maxRequests, windowMs), maxRequests, windowMs, windowMs, windowMs + windowMs)
         == 2 * maxRequests - 1
  {
    WorstTimesAscend(maxRequests, windowMs);
    var n, w := maxRequests - 1, windowMs;
    var last := Repeat(w + 1, n) + [];
    var second := [w + 1] + last;
    var first := Repeat(w, n) + second;
    var ts := WorstTimes(maxRequests, windowMs);
    assert ts == [0] + first && ts[1..] == first;
    BurstIsAllowed(Entry(1, w), w, n, second, maxRequests, w, w, w + w);
    assert second[1..] == last;
    BurstIsAllowed(Entry(1, w + 1 + w), w + 1, n, [], maxRequests, w, w, w + w);
  }

  /** A run of requests of one key at the given times. */
  function RequestsAt(key: string, ts: seq<int>, maxRequests: int, windowMs: int): (ops: seq<Op>)
    ensures |ops| == |ts|
    ensures forall i :: 0 <= i < |ts| ==> ops[i] == Request(key, maxRequests, windowMs, ts[i])
  {
    seq(|ts|, i requires 0 <= i < |ts| => Request(key, maxRequests, windowMs, ts[i]))
  }

  lemma {:induction false} RequestsAtAreTheKeys(key: string, ops: seq<Op>)
    requires forall i :: 0 <= i < |ops| ==> ops[i].Request? && ops[i].key == key
    ensures RequestsOf(ops, key) == ops
  {
    if ops != [] { RequestsAtAreTheKeys(key, ops[1..]); }
  }

  lemma {:induction false} AscendingInTime(ops: seq<Op>, t: int)
    requires forall i :: 0 <= i < |ops| ==> t <= ops[i].now
    requires forall i, j :: 0 <= i < j < |ops| ==> ops[i].now <= ops[j].now
    ensures InTime(ops, t)
    decreases |ops|
  {
    if ops != [] { AscendingInTime(ops[1..], ops[0].now); }
  }

  lemma WorstTimesStart(maxRequests: int, windowMs: int)
    requires maxRequests >= 1 && windowMs >= 1
    ensures forall i :: 0 <= i < |WorstTimes(maxRequests, windowMs)| ==> WorstTimes(maxRequests, windowMs)[i] >= 0
  {
    WorstTimesAscend(maxRequests, windowMs);
    assert WorstTimes(maxRequests, windowMs)[0] == 0;
  }

  /** So the bound is sharp: for every limit and window there is a run that reaches it. */
  lemma {:induction false} IntervalBoundIsReached(key: string, maxRequests: int, windowMs: int)
    requires maxRequests >= 1 && windowMs >= 1
    ensures var ops := RequestsAt(key, WorstTimes(maxRequests, windowMs), maxRequests, windowMs);
            && InTime(ops, 0) && RequestsOf(ops, key) == ops && SameLimit(ops, maxRequests, windowMs)
            && |AnswersTo(map[], ops, key)| == |ops|
            && AllowedAnswers(AnswersTo(map[], ops, key), Times(ops), windowMs, windowMs + windowMs)
               == 2 * maxRequests - 1
  {
    var ts := WorstTimes(maxRequests, windowMs);
    var ops := RequestsAt(key, ts, maxRequests, windowMs);
    WorstTimesReach(maxRequests, windowMs);
    WorstTimesStart(maxRequests, windowMs);
    RequestsAtAreTheKeys(key, ops);
    AscendingInTime(ops, 0);
    InTimeInOrder(ops, 0, key);
    KeyIsOnItsOwn(ops, key);
    AnswersAreCounted(None, ops, maxRequests, windowMs, windowMs, windowMs + windowMs);
    assert Times(ops) == ts;
  }
}
