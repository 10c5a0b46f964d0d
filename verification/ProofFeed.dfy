/** Paging through the proof log, newest entries first, by a cursor with millisecond precision. */
module ProofFeed {
  import opened Common

  /** A row of the log; times are in microseconds, as the database keeps them. */
  datatype Row = Row(id: nat, loggedAt: nat)

  datatype Cursor = NoCursor | BadCursor | Before(time: nat)

  datatype Page = Page(entries: seq<Row>, nextCursor: Option<nat>)

  datatype Response = Ok(page: Page) | BadRequest | ServerError

  /** The page size: 25 where the limit is absent, not a number or zero, and never above 100. */
  function PageSize(limit: Option<int>): int {
    Min(if limit.None? || limit.value == 0 then 25 else limit.value, 100)
  }

  /** The rows behind a cursor, in the order of the log. */
  function Behind(log: seq<Row>, cursor: Cursor): seq<Row> {
    if log == [] then []
    else (if cursor.Before? && log[0].loggedAt >= cursor.time then [] else [log[0]]) + Behind(log[1..], cursor)
  }

  /** A timestamp as a JavaScript date prints it: the microseconds below the millisecond are gone. */
  function ToMillis(t: nat): nat {
    t - t % 1000
  }

  /** The query with its `LIMIT`, which must not be negative. */
  function Select(log: seq<Row>, cursor: Cursor, count: int): Option<seq<Row>> {
    var found := Behind(log, cursor);
    if count < 0 then None else Some(found[..Min(count, |found|)])
  }

  /** `slice(0, end)`: a negative end counts from the back. */
  function SliceTo(rows: seq<Row>, end: int): seq<Row> {
    rows[..if end < 0 then Max(0, |rows| + end) else Min(end, |rows|)]
  }

  /** One request. Reading the timestamp of the last entry throws where there is no entry. */
  function Get(log: seq<Row>, cursor: Cursor, limit: Option<int>): Response {
    var pageSize := PageSize(limit);
    if cursor.BadCursor? then BadRequest
    else
      match Select(log, cursor, pageSize + 1)
      case None => ServerError
      case Some(rows) =>
        var entries := SliceTo(rows, pageSize);
        if |rows| <= pageSize then Ok(Page(entries, None))
        else if entries == [] then ServerError
        else Ok(Page(entries, Some(ToMillis(entries[|entries| - 1].loggedAt))))
  }

  /** What is behind a cursor: the rows before its time, in their order, or all rows where there is none. */
  lemma {:induction false} BehindHas(log: seq<Row>, cursor: Cursor, r: Row)
    ensures multiset(Behind(log, cursor))[r]
         == if cursor.Before? && r.loggedAt >= cursor.time then 0 else multiset(log)[r]
  {
    if log != [] {
      BehindHas(log[1..], cursor, r);
      assert log == [log[0]] + log[1..];
    }
  }

  lemma {:induction false} BehindAppend(a: seq<Row>, b: seq<Row>, cursor: Cursor)
    ensures Behind(a + b, cursor) == Behind(a, cursor) + Behind(b, cursor)
  {
    if a == [] {
      assert a + b == b;
    } else {
      assert (a + b)[1..] == a[1..] + b;
      BehindAppend(a[1..], b, cursor);
      Regroup(if cursor.Before? && a[0].loggedAt >= cursor.time then [] else [a[0]], Behind(a[1..], cursor),
              Behind(b, cursor));
    }
  }

  /** A cursor names the millisecond that its row is in. */
  lemma MillisOf(t: nat)
    ensures ToMillis(t) % 1000 == 0 && ToMillis(t) <= t < ToMillis(t) + 1000
  {
  }

  /**
   * How much a request serves: without a limit 25 rows, with a limit that many and never more than 100, or as many
   * as there are; and a next cursor exactly where rows are left over.
   */
  lemma {:induction false} RowsServed(log: seq<Row>, cursor: Cursor, limit: Option<int>)
    requires Get(log, cursor, limit).Ok?
    ensures var page, found := Get(log, cursor, limit).page, Behind(log, cursor);
            var most := if limit == None || limit == Some(0) then 25
                        else if limit.value > 100 then 100
                        else limit.value;
            && page.entries == found[..Min(most, |found|)]
            && (page.nextCursor.Some? <==> |found| > most)
            && (page.nextCursor.Some? ==> most >= 1 && page.nextCursor.value == ToMillis(found[most - 1].loggedAt))
  {
  }

  predicate NotNewer(log: seq<Row>, i: nat, j: nat) {
    i < j < |log| ==> log[i].loggedAt >= log[j].loggedAt
  }

  /** The order of the log: newest first. */
  ghost predicate Descending(log: seq<Row>) {
    forall i: nat, j: nat :: NotNewer(log, i, j)
  }

  lemma DescendingPart(log: seq<Row>, lo: nat, hi: nat)
    requires Descending(log) && lo <= hi <= |log|
    ensures Descending(log[lo..hi])
  {
    forall i: nat, j: nat ensures NotNewer(log[lo..hi], i, j) {
      assert NotNewer(log, lo + i, lo + j);
    }
  }

  lemma {:induction false} BehindIsOlder(log: seq<Row>, cursor: Cursor)
    ensures forall r :: r in Behind(log, cursor) ==> r in log && (cursor.Before? ==> r.loggedAt < cursor.time)
    ensures |Behind(log, cursor)| <= |log|
  {
    if log != [] {
      BehindIsOlder(log[1..], cursor);
    }
  }

  lemma DescendingFrom(log: seq<Row>, n: nat)
    requires Descending(log) && n <= |log|
    ensures Descending(log[n..])
  {
    DescendingPart(log, n, |log|);
    assert log[n..|log|] == log[n..];
  }

  /** Every row is at least as new as any row of the list. */
  ghost predicate NotOlder(r: Row, log: seq<Row>) {
    forall x :: x in log ==> r.loggedAt >= x.loggedAt
  }

  lemma HeadIsNewest(log: seq<Row>)
    requires log != []
    ensures Descending(log) <==> NotOlder(log[0], log[1..]) && Descending(log[1..])
  {
    var r, t := log[0], log[1..];
    if Descending(log) {
      forall x | x in t ensures r.loggedAt >= x.loggedAt {
        var k :| 0 <= k < |t| && t[k] == x;
        assert NotNewer(log, 0, k + 1);
      }
      DescendingFrom(log, 1);
    }
    if NotOlder(r, t) && Descending(t) {
      forall i: nat, j: nat ensures NotNewer(log, i, j) {
        if i < j < |log| {
          assert log[j] == t[j - 1] && t[j - 1] in t;
          if i > 0 { assert NotNewer(t, i - 1, j - 1); }
        }
      }
    }
  }

  lemma {:induction false} BehindDescends(log: seq<Row>, cursor: Cursor)
    requires Descending(log)
    ensures Descending(Behind(log, cursor))
  {
    if log != [] {
      var b, t := Behind(log, cursor), Behind(log[1..], cursor);
      HeadIsNewest(log);
      BehindDescends(log[1..], cursor);
      BehindIsOlder(log[1..], cursor);
      if b != t {
        assert b == [log[0]] + t && b[1..] == t;
        HeadIsNewest(b);
      }
    }
  }

  lemma LastIsOldest(log: seq<Row>, n: nat, a: Row)
    requires Descending(log) && 1 <= n <= |log| && a in log[..n]
    ensures a.loggedAt >= log[n - 1].loggedAt && log[n - 1] in log
  {
    var k :| 0 <= k < n && log[k] == a;
    assert NotNewer(log, k, n - 1);
  }

  /** The rows of a page with a next cursor, and that cursor. */
  lemma PageIsPrefix(log: seq<Row>, cursor: Cursor, limit: Option<int>)
    requires Get(log, cursor, limit).Ok? && Get(log, cursor, limit).page.nextCursor.Some?
    ensures var found, n, page := Behind(log, cursor), PageSize(limit), Get(log, cursor, limit).page;
            && 1 <= n < |found| && page.entries == found[..n]
            && page.nextCursor.value == ToMillis(found[n - 1].loggedAt) <= found[n - 1].loggedAt
  {
  }

  lemma CursorEndsPage(log: seq<Row>, cursor: Cursor, limit: Option<int>, a: Row)
    requires Descending(log) && Get(log, cursor, limit).Ok? && Get(log, cursor, limit).page.nextCursor.Some?
    requires a in Get(log, cursor, limit).page.entries
    ensures var cut := Get(log, cursor, limit).page.nextCursor.value;
            cut <= a.loggedAt && (cursor.Before? ==> cut < cursor.time)
  {
    PageIsPrefix(log, cursor, limit);
    BehindIsOlder(log, cursor);
    BehindDescends(log, cursor);
    LastIsOldest(Behind(log, cursor), PageSize(limit), a);
  }

  lemma InPrefix(rows: seq<Row>, n: nat, r: Row)
    requires n <= |rows| && r in rows[..n]
    ensures r in rows
  {
  }

  lemma EntriesAreBehind(log: seq<Row>, cursor: Cursor, limit: Option<int>, r: Row)
    requires Get(log, cursor, limit).Ok? && r in Get(log, cursor, limit).page.entries
    ensures r in Behind(log, cursor)
  {
    RowsServed(log, cursor, limit);
    InPrefix(Behind(log, cursor), |Get(log, cursor, limit).page.entries|, r);
  }

  /**
   * Whatever the log looks like at the two requests, every row of the following page is older than
   * every row of the page before it.
   */
  lemma {:induction false} NextPageIsOlder(log: seq<Row>, cursor: Cursor, limit: Option<int>,
                                           later: seq<Row>, nextLimit: Option<int>, a: Row, b: Row)
    requires Descending(log)
    requires Get(log, cursor, limit).Ok? && Get(log, cursor, limit).page.nextCursor.Some?
    requires var next := Get(later, Before(Get(log, cursor, limit).page.nextCursor.value), nextLimit);
             next.Ok? && b in next.page.entries
    requires a in Get(log, cursor, limit).page.entries
    ensures a.loggedAt > b.loggedAt && a != b
    ensures cursor.Before? ==> Get(log, cursor, limit).page.nextCursor.value < cursor.time
  {
    var cut := Get(log, cursor, limit).page.nextCursor.value;
    CursorEndsPage(log, cursor, limit, a);
    EntriesAreBehind(later, Before(cut), nextLimit, b);
    BehindIsOlder(later, Before(cut));
  }

  /** What a client that follows the cursors is served from the rows not yet reached. */
  function Pages(rows: seq<Row>, n: nat): seq<seq<Row>>
    requires n >= 1
    decreases |rows|
  {
    if |rows| <= n then [rows]
    else
      var rest := Behind(rows[n..], Before(ToMillis(rows[n - 1].loggedAt)));
      BehindIsOlder(rows[n..], Before(ToMillis(rows[n - 1].loggedAt)));
      [rows[..n]] + Pages(rest, n)
  }

  /** Following the cursors through real requests, the k-th of which sees the log `logs[k]`. */
  function Walk(logs: seq<seq<Row>>, cursor: Cursor, limit: Option<int>): seq<seq<Row>>
    decreases |logs|
  {
    if logs == [] then []
    else
      var r := Get(logs[0], cursor, limit);
      if !r.Ok? then []
      else if r.page.nextCursor.None? then [r.page.entries]
      else [r.page.entries] + Walk(logs[1..], Before(r.page.nextCursor.value), limit)
  }

  lemma CursorFalls(log: seq<Row>, cursor: Cursor, limit: Option<int>)
    requires Get(log, cursor, limit).Ok? && Get(log, cursor, limit).page.nextCursor.Some?
    ensures cursor.Before? ==> Get(log, cursor, limit).page.nextCursor.value < cursor.time
  {
    PageIsPrefix(log, cursor, limit);
    BehindIsOlder(log, cursor);
    var found, n := Behind(log, cursor), PageSize(limit);
    assert found[n - 1] in found;
  }

  /** The first page of a walk, and what the walk does behind it. */
  lemma {:induction false} WalkStep(logs: seq<seq<Row>>, cursor: Cursor, limit: Option<int>)
    requires Walk(logs, cursor, limit) != []
    ensures logs != [] && Get(logs[0], cursor, limit).Ok?
    ensures var page := Get(logs[0], cursor, limit).page;
            Walk(logs, cursor, limit)
            == [page.entries]
             + if page.nextCursor.None? then [] else Walk(logs[1..], Before(page.nextCursor.value), limit)
  {
  }

  /** Behind a cursor, all pages of a walk are older than it, whatever the logs look like. */
  lemma {:induction false} WalkIsOlder(logs: seq<seq<Row>>, t: nat, limit: Option<int>, j: nat, b: Row)
    requires j < |Walk(logs, Before(t), limit)| && b in Walk(logs, Before(t), limit)[j]
    ensures b.loggedAt < t
    decreases |logs|
  {
    WalkStep(logs, Before(t), limit);
    if j == 0 {
      EntriesAreBehind(logs[0], Before(t), limit, b);
      BehindIsOlder(logs[0], Before(t));
    } else {
      CursorFalls(logs[0], Before(t), limit);
      WalkIsOlder(logs[1..], Get(logs[0], Before(t), limit).page.nextCursor.value, limit, j - 1, b);
    }
  }

  /**
   * Whatever rows come and go between the requests, every row of a walk is newer than all rows of later
   * pages: the feed always descends, and no row is served on two pages.
   */
  lemma {:induction false} WalkDescends(
      logs: seq<seq<Row>>, cursor: Cursor, limit: Option<int>, i: nat, j: nat, a: Row, b: Row)
    requires forall k :: 0 <= k < |logs| ==> Descending(logs[k])
    requires i < j < |Walk(logs, cursor, limit)|
    requires a in Walk(logs, cursor, limit)[i] && b in Walk(logs, cursor, limit)[j]
    ensures a.loggedAt > b.loggedAt && a != b
    decreases |logs|
  {
    WalkStep(logs, cursor, limit);
    var next := Get(logs[0], cursor, limit).page.nextCursor.value;
    if i == 0 {
      CursorEndsPage(logs[0], cursor, limit, a);
      WalkIsOlder(logs[1..], next, limit, j - 1, b);
    } else {
      WalkDescends(logs[1..], Before(next), limit, i - 1, j - 1, a, b);
    }
  }

  /** And inside a page the rows descend too. */
  lemma PageDescends(log: seq<Row>, cursor: Cursor, limit: Option<int>)
    requires Descending(log) && Get(log, cursor, limit).Ok?
    ensures Descending(Get(log, cursor, limit).page.entries)
  {
    var found, entries := Behind(log, cursor), Get(log, cursor, limit).page.entries;
    BehindDescends(log, cursor);
    DescendingPart(found, 0, |entries|);
    assert entries == found[0..|entries|];
  }

  /** A later log: rows at least as new as the newest of the first request have come in front of it. */
  ghost predicate Grown(log: seq<Row>, first: seq<Row>) {
    && |log| >= |first| && log[|log| - |first|..] == first
    && forall i, j :: 0 <= i < |log| - |first| && 0 <= j < |first| ==> log[i].loggedAt >= first[j].loggedAt
  }

  lemma {:induction false} BehindSkips(a: seq<Row>, b: seq<Row>, t: nat)
    requires forall i :: 0 <= i < |a| ==> a[i].loggedAt >= t
    ensures Behind(a + b, Before(t)) == Behind(b, Before(t))
  {
    if a == [] {
      assert a + b == b;
    } else {
      assert (a + b)[1..] == a[1..] + b;
      BehindSkips(a[1..], b, t);
      assert [] + Behind(b, Before(t)) == Behind(b, Before(t));
    }
  }

  lemma {:induction false} BehindAll(log: seq<Row>)
    ensures Behind(log, NoCursor) == log
  {
    if log != [] { BehindAll(log[1..]); }
  }

  lemma {:induction false} BehindTwice(log: seq<Row>, c: Cursor, t: nat)
    requires c.Before? ==> t <= c.time
    ensures Behind(Behind(log, c), Before(t)) == Behind(log, Before(t))
  {
    if log != [] {
      BehindTwice(log[1..], c, t);
      var b := Behind(log, c);
      if c.Before? && log[0].loggedAt >= c.time {
        assert b == Behind(log[1..], c);
      } else {
        assert b[0] == log[0] && b[1..] == Behind(log[1..], c);
      }
    }
  }

  /** What a request finds behind its cursor in a grown log is what is left of the first log. */
  lemma {:induction false} GrowthIsBehindCursor(log: seq<Row>, first: seq<Row>, k: nat, t: nat)
    requires Grown(log, first) && k < |first| && t <= first[k].loggedAt
    ensures Behind(log, Before(t)) == Behind(first, Before(t))
  {
    var new_ := log[..|log| - |first|];
    assert log == new_ + first;
    BehindSkips(new_, first, t);
  }

  lemma SkipPage(page: seq<Row>, more: seq<Row>, t: nat)
    requires page != [] && Descending(page + more) && t <= page[|page| - 1].loggedAt
    ensures Behind(page + more, Before(t)) == Behind(more, Before(t))
  {
    var rows, last := page + more, |page| - 1;
    forall i | 0 <= i < |page| ensures page[i].loggedAt >= t {
      assert rows[i] == page[i] && rows[last] == page[last];
      assert NotNewer(rows, i, last);
    }
    BehindSkips(page, more, t);
  }

  lemma {:induction false} BehindPage(first: seq<Row>, cursor: Cursor, page: seq<Row>, more: seq<Row>, t: nat)
    requires page != [] && Behind(first, cursor) == page + more && Descending(page + more)
    requires t <= page[|page| - 1].loggedAt && (cursor.Before? ==> t <= cursor.time)
    ensures Behind(first, Before(t)) == Behind(more, Before(t))
  {
    BehindTwice(first, cursor, t);
    SkipPage(page, more, t);
  }

  /** The cursor does not lie before the whole log. */
  ghost predicate Reaches(first: seq<Row>, cursor: Cursor) {
    cursor.Before? ==> exists k :: 0 <= k < |first| && cursor.time <= first[k].loggedAt
  }

  lemma RowReaches(first: seq<Row>, r: Row, t: nat)
    requires r in first && t <= r.loggedAt
    ensures Reaches(first, Before(t))
  {
    var k :| 0 <= k < |first| && first[k] == r;
  }

  /** The cursor of a page points into the first log, and what is behind it is what is left of the page's rows. */
  lemma {:induction false} NextCursorIsOld(first: seq<Row>, cursor: Cursor, n: nat)
    requires Descending(first) && 1 <= n < |Behind(first, cursor)|
    ensures var rows := Behind(first, cursor); var t := ToMillis(rows[n - 1].loggedAt);
            && Reaches(first, Before(t))
            && Behind(first, Before(t)) == Behind(rows[n..], Before(t))
  {
    var rows := Behind(first, cursor);
    BehindIsOlder(first, cursor);
    assert rows[n - 1] in rows;
    RowReaches(first, rows[n - 1], ToMillis(rows[n - 1].loggedAt));
    BehindDescends(first, cursor);
    BehindPage(first, cursor, rows[..n], rows[n..], ToMillis(rows[n - 1].loggedAt));
  }

  lemma {:induction false} FoundInGrown(log: seq<Row>, first: seq<Row>, cursor: Cursor)
    requires Grown(log, first) && Reaches(first, cursor) && (cursor.NoCursor? ==> log == first) && !cursor.BadCursor?
    ensures Behind(log, cursor) == Behind(first, cursor)
  {
    if cursor.Before? {
      var k :| 0 <= k < |first| && cursor.time <= first[k].loggedAt;
      GrowthIsBehindCursor(log, first, k, cursor.time);
    }
  }

  lemma {:induction false} PagesGoOn(first: seq<Row>, cursor: Cursor, n: nat, t: nat)
    requires Descending(first) && 1 <= n < |Behind(first, cursor)|
    requires t == ToMillis(Behind(first, cursor)[n - 1].loggedAt)
    ensures Reaches(first, Before(t)) && |Behind(first, Before(t))| < |Behind(first, cursor)|
    ensures Pages(Behind(first, cursor), n) == [Behind(first, cursor)[..n]] + Pages(Behind(first, Before(t)), n)
  {
    NextCursorIsOld(first, cursor, n);
    BehindIsOlder(Behind(first, cursor)[n..], Before(t));
  }

  lemma {:induction false} WalkGoesOn(
      logs: seq<seq<Row>>, cursor: Cursor, limit: Option<int>, entries: seq<Row>, next: nat)
    requires logs != [] && Get(logs[0], cursor, limit) == Ok(Page(entries, Some(next)))
    ensures Walk(logs, cursor, limit) == [entries] + Walk(logs[1..], Before(next), limit)
  {
  }

  lemma {:induction false} OnePage(log: seq<Row>, cursor: Cursor, limit: Option<int>, rows: seq<Row>)
    requires PageSize(limit) >= 1 && !cursor.BadCursor? && Behind(log, cursor) == rows && |rows| > PageSize(limit)
    ensures var n := PageSize(limit);
            Get(log, cursor, limit) == Ok(Page(rows[..n], Some(ToMillis(rows[n - 1].loggedAt))))
  {
    var n := PageSize(limit);
    assert rows[..n + 1][..n] == rows[..n];
  }

  lemma FinalPage(log: seq<Row>, cursor: Cursor, limit: Option<int>, rows: seq<Row>)
    requires !cursor.BadCursor? && Behind(log, cursor) == rows && |rows| <= PageSize(limit)
    ensures Get(log, cursor, limit) == Ok(Page(rows, None))
  {
    assert rows[..|rows|] == rows;
  }

  lemma {:induction false} WalkFrom(logs: seq<seq<Row>>, first: seq<Row>, cursor: Cursor, limit: Option<int>)
    requires PageSize(limit) >= 1 && Descending(first)
    requires forall i :: 0 <= i < |logs| ==> Grown(logs[i], first)
    requires cursor.NoCursor? ==> logs != [] && logs[0] == first
    requires !cursor.BadCursor? && Reaches(first, cursor)
    requires |logs| > |Behind(first, cursor)|
    ensures Walk(logs, cursor, limit) == Pages(Behind(first, cursor), PageSize(limit))
    decreases |logs|
  {
    var n, rows := PageSize(limit), Behind(first, cursor);
    FoundInGrown(logs[0], first, cursor);
    if |rows| > n {
      var t := ToMillis(rows[n - 1].loggedAt);
      OnePage(logs[0], cursor, limit, rows);
      WalkGoesOn(logs, cursor, limit, rows[..n], t);
      PagesGoOn(first, cursor, n, t);
      WalkFrom(logs[1..], first, Before(t), limit);
    } else {
      FinalPage(logs[0], cursor, limit, rows);
    }
  }

  /** Between the last row of each page and the row behind it the millisecond changes. */
  predicate Unbroken(rows: seq<Row>, n: nat)
    requires n >= 1
    decreases |rows|
  {
    |rows| > n ==> ToMillis(rows[n - 1].loggedAt) > rows[n].loggedAt && Unbroken(rows[n..], n)
  }

  lemma {:induction false} PagesAreNotLonger(rows: seq<Row>, n: nat)
    requires n >= 1
    ensures |Concat(Pages(rows, n))| <= |rows|
    decreases |rows|
  {
    var pages := Pages(rows, n);
    if |rows| <= n {
      assert pages[1..] == [];
    } else {
      var c := Before(ToMillis(rows[n - 1].loggedAt));
      BehindIsOlder(rows[n..], c);
      PagesAreNotLonger(Behind(rows[n..], c), n);
      assert pages[1..] == Pages(Behind(rows[n..], c), n);
    }
  }

  lemma {:induction false} BehindIsAllIff(rows: seq<Row>, t: nat)
    requires Descending(rows)
    ensures Behind(rows, Before(t)) == rows <==> (rows != [] ==> rows[0].loggedAt < t)
    ensures Behind(rows, Before(t)) != rows ==> |Behind(rows, Before(t))| < |rows|
  {
    if rows != [] {
      HeadIsNewest(rows);
      BehindIsAllIff(rows[1..], t);
      BehindIsOlder(rows[1..], Before(t));
      assert NotNewer(rows, 0, 1);
    }
  }

  /** The rows that the page after `rows[..n]` is taken from. */
  function Remaining(rows: seq<Row>, n: nat): seq<Row>
    requires 1 <= n < |rows|
  {
    Behind(rows[n..], Before(ToMillis(rows[n - 1].loggedAt)))
  }

  lemma {:induction false} ConcatCons<T>(head: seq<T>, tail: seq<seq<T>>)
    ensures Concat([head] + tail) == head + Concat(tail)
  {
    assert ([head] + tail)[1..] == tail;
  }

  lemma {:induction false} FirstPageIsCut(rows: seq<Row>, n: nat)
    requires 1 <= n < |rows| && Descending(rows)
    ensures Concat(Pages(rows, n)) == rows[..n] + Concat(Pages(Remaining(rows, n), n))
    ensures Remaining(rows, n) == rows[n..] <==> ToMillis(rows[n - 1].loggedAt) > rows[n].loggedAt
    ensures Remaining(rows, n) != rows[n..] ==> |Concat(Pages(rows, n))| < |rows|
  {
    ConcatCons(rows[..n], Pages(Remaining(rows, n), n));
    DescendingFrom(rows, n);
    BehindIsAllIff(rows[n..], ToMillis(rows[n - 1].loggedAt));
    PagesAreNotLonger(Remaining(rows, n), n);
  }

  lemma {:induction false} PagesAreCompleteIff(rows: seq<Row>, n: nat)
    requires n >= 1 && Descending(rows)
    ensures Concat(Pages(rows, n)) == rows <==> Unbroken(rows, n)
    decreases |rows|
  {
    if |rows| <= n {
      ConcatCons(rows, []);
      assert [rows] + [] == [rows];
    } else {
      var page, more := rows[..n], rows[n..];
      FirstPageIsCut(rows, n);
      if Remaining(rows, n) == more {
        DescendingFrom(rows, n);
        PagesAreCompleteIff(more, n);
        SamePrefix(page, Concat(Pages(more, n)), more);
        assert page + more == rows;
      }
    }
  }

  /**
   * Following the cursors from the first page ends, and serves exactly the log as it stood at the first
   * request, while newer rows may come in, if and only if no page ends within a millisecond that goes on.
   */
  lemma WalkIsCompleteIff(logs: seq<seq<Row>>, limit: Option<int>)
    requires logs != [] && Descending(logs[0]) && PageSize(limit) >= 1
    requires forall i :: 0 <= i < |logs| ==> Grown(logs[i], logs[0])
    requires |logs| > |logs[0]|
    ensures Walk(logs, NoCursor, limit) == Pages(logs[0], PageSize(limit))
    ensures Concat(Walk(logs, NoCursor, limit)) == logs[0] <==> Unbroken(logs[0], PageSize(limit))
  {
    BehindAll(logs[0]);
    WalkFrom(logs, logs[0], NoCursor, limit);
    PagesAreCompleteIff(logs[0], PageSize(limit));
  }

  /** A walk that is not: two rows in one millisecond, one row a page, and the second row is never served. */
  lemma {:induction false} SharedMillisecondLosesRow()
    ensures var r, s := Row(1, 5700), Row(2, 5300);
            var log := [r, s];
            Walk([log, log, log], NoCursor, Some(1)) == [[r], []] && !Unbroken(log, 1)
  {
    var r, s := Row(1, 5700), Row(2, 5300);
    var log := [r, s];
    var logs := [log, log, log];
    BehindAll(log);
    assert Get(log, NoCursor, Some(1)) == Ok(Page([r], Some(5000)));
    assert log[1..] == [s] && [s][1..] == [];
    assert Behind([s], Before(5000)) == [] + Behind([], Before(5000));
    assert Behind(log, Before(5000)) == [];
    assert Get(log, Before(5000), Some(1)) == Ok(Page([], None));
    assert logs[1..] == [log, log];
    assert Walk([log, log], Before(5000), Some(1)) == [[]];
  }

  predicate MillisDiffer(rows: seq<Row>, i: nat, j: nat) {
    i < j < |rows| ==> ToMillis(rows[i].loggedAt) != ToMillis(rows[j].loggedAt)
  }

  ghost predicate DistinctMillis(rows: seq<Row>) {
    forall i: nat, j: nat :: MillisDiffer(rows, i, j)
  }

  /** In particular the walk is complete when no two rows share a millisecond. */
  lemma {:induction false} DistinctMillisAreUnbroken(rows: seq<Row>, n: nat)
    requires n >= 1 && Descending(rows) && DistinctMillis(rows)
    ensures Unbroken(rows, n)
    decreases |rows|
  {
    if |rows| > n {
      var more := rows[n..];
      assert NotNewer(rows, n - 1, n) && MillisDiffer(rows, n - 1, n);
      DescendingFrom(rows, n);
      forall i: nat, j: nat ensures MillisDiffer(more, i, j) {
        assert MillisDiffer(rows, n + i, n + j);
      }
      DistinctMillisAreUnbroken(more, n);
    }
  }

  /** A request fails exactly for an unreadable cursor or a negative limit. */
  lemma GetFailsIff(log: seq<Row>, cursor: Cursor, limit: Option<int>)
    ensures Get(log, cursor, limit) == BadRequest <==> cursor.BadCursor?
    ensures Get(log, cursor, limit) == ServerError <==> !cursor.BadCursor? && limit.Some? && limit.value < 0
  {
  }
}
