/**
 * The line-by-line reader of event streams from the WHATWG HTML Living Standard (section 9.2.6,
 * "Interpreting an event stream"), restricted to the `event` and `data` fields, and the proof
 * that cutting at blank lines and parsing block by block dispatches the same events.
 */
module LineReader {
  import opened Common
  import opened Framing
  import opened EventBlocks

  /** The standard's line ends are CR LF, LF, and also a lone CR. */
  function EndOfLineAt(s: string, k: nat): (n: nat)
    ensures n > 0 ==> k + n <= |s|
  {
    if k + 1 < |s| && s[k] == '\r' && s[k + 1] == '\n' then 2
    else if k < |s| && (s[k] == '\n' || s[k] == '\r') then 1
    else 0
  }

  function EndOfLine(s: string, k: nat): (i: nat)
    requires k <= |s|
    ensures k <= i <= |s|
    decreases |s| - k
  {
    if k == |s| || EndOfLineAt(s, k) > 0 then k else EndOfLine(s, k + 1)
  }

  /** The standard's event type buffer and data buffer. */
  datatype Buffers = Buffers(event: string, data: string)

  const EMPTY := Buffers("", "")

  datatype Event = Event(name: string, data: string)

  function Process(b: Buffers, line: string): Buffers {
    if line[..Min(1, |line|)] == ":" then b
    else if FieldName(line) == "event" then b.(event := FieldValue(line))
    else if FieldName(line) == "data" then b.(data := b.data + FieldValue(line) + "\n")
    else b
  }

  /** At a blank line: no event when the data buffer is empty, otherwise one event without the last LF. */
  function Dispatch(b: Buffers): seq<Event> {
    if b.data == "" then []
    else [Event(if b.event == "" then "message" else b.event, DropLastLineFeed(b.data))]
  }

  /** The standard's reader: complete lines only; what is pending when the text ends is dropped. */
  function Read(s: string, b: Buffers): seq<Event>
    decreases |s|
  {
    var i := EndOfLine(s, 0);
    if i == |s| then []
    else
      var tail := s[i + EndOfLineAt(s, i)..];
      if i == 0 then Dispatch(b) + Read(tail, EMPTY) else Read(tail, Process(b, s[..i]))
  }

  /** The same reader with the line ends of the source: LF and CR LF, and no others. */
  function ReadFeeds(s: string, b: Buffers): seq<Event>
    decreases |s|
  {
    var i := FirstLineEnd(s, 0);
    if i == |s| then []
    else
      var tail := s[i + LineEndAt(s, i)..];
      if i == 0 then Dispatch(b) + ReadFeeds(tail, EMPTY) else ReadFeeds(tail, Process(b, s[..i]))
  }

  function WithData(events: seq<Event>): seq<Event> {
    if events == [] then []
    else (if events[0].data == "" then [] else [events[0]]) + WithData(events[1..])
  }

  lemma {:induction false} WithDataAppend(a: seq<Event>, b: seq<Event>)
    ensures WithData(a + b) == WithData(a) + WithData(b)
  {
    if a == [] {
      assert a + b == b;
    } else {
      assert (a + b)[1..] == a[1..] + b;
      WithDataAppend(a[1..], b);
    }
  }

  /** The event that a parsed block stands for: nothing is handed on when its data is missing or empty. */
  function EventOf(block: string): seq<Event> {
    var m := ParseBlock(block);
    if m.None? || !Truthy(m.value.data) then []
    else
      var name := m.value.event.GetOr("");
      [Event(if name == "" then "message" else name, m.value.data.value)]
  }

  function EventsOf(cuts: seq<Cut>): seq<Event> {
    if cuts == [] then [] else EventOf(cuts[0].block) + EventsOf(cuts[1..])
  }

  /** The reader's buffers after it has taken in the same fields as the block parser. */
  function BuffersOf(m: Message): Buffers {
    Buffers(m.event.GetOr(""), m.data.GetOr(""))
  }

  lemma ProcessIsAbsorb(m: Message, line: string)
    requires line != ""
    ensures Process(BuffersOf(m), line) == BuffersOf(Absorb(m, line))
  {
    assert line[..1] == ":" <==> line[0] == ':';
  }

  lemma DispatchIsEventOf(block: string)
    ensures WithData(Dispatch(BuffersOf(AbsorbAll(NO_FIELDS, Lines(block))))) == EventOf(block)
  {
    var m := AbsorbAll(NO_FIELDS, Lines(block));
    var events := Dispatch(BuffersOf(m));
    if events != [] {
      assert events[1..] == [];
    }
  }

  /** The first line of the text ends at k, and the next one starts at n. */
  ghost predicate FirstLine(s: string, k: nat, n: nat) {
    k < n <= |s| && FirstLineEnd(s, 0) == k && n == k + LineEndAt(s, k)
  }

  lemma FirstLineOf(s: string) returns (k: nat, n: nat)
    requires FirstLineEnd(s, 0) < |s|
    ensures FirstLine(s, k, n)
  {
    FirstLineEndIsFirst(s, 0);
    k := FirstLineEnd(s, 0);
    n := k + LineEndAt(s, k);
  }

  lemma LinesCons(b: string, k: nat, n: nat)
    requires FirstLine(b, k, n)
    ensures Lines(b) == [b[..k]] + Lines(b[n..])
  {
  }

  lemma FirstLineOfPrefix(s: string, i: nat, k: nat, n: nat)
    requires FirstLine(s, k, n) && n <= i <= |s|
    ensures FirstLine(s[..i], k, n)
  {
    FirstLineEndIsFirst(s, 0);
    forall j | 0 <= j < k ensures LineEndAt(s[..i], j) == 0 {
      assert LineEndAt(s, j) == 0;
    }
    FirstLineEndIs(s[..i], k);
  }

  lemma OnlyLineOfPrefix(s: string, i: nat)
    requires i <= |s| && FirstLineEnd(s, 0) == i
    ensures Lines(s[..i]) == [s[..i]]
  {
    FirstLineEndIsFirst(s, 0);
    forall j | 0 <= j < i ensures LineEndAt(s[..i], j) == 0 {
      assert LineEndAt(s, j) == 0;
    }
    FirstLineEndIs(s[..i], i);
  }

  lemma LinesOfPrefix(s: string, i: nat, k: nat, n: nat)
    requires FirstLine(s, k, n) && n <= i <= |s|
    ensures Lines(s[..i]) == [s[..k]] + Lines(s[n..i])
  {
    FirstLineOfPrefix(s, i, k, n);
    LinesCons(s[..i], k, n);
    assert s[..i][..k] == s[..k] && s[..i][n..] == s[n..i];
  }

  /** The separator that is cut next, the line end it starts with, and what stands before and behind it. */
  ghost predicate NextCut(s: string, sep: Separator, block: string, rest: string) {
    && Find(s) == Some(sep) && sep.index + sep.length <= |s| && IsLeftmost(s, sep) && LineEndAt(s, sep.index) > 0
    && block == s[..sep.index] && rest == s[sep.index + sep.length..]
  }

  lemma NextCutOf(s: string)
    requires Find(s).Some?
    ensures NextCut(s, Find(s).value, FirstCut(s).block, AfterFirst(s))
  {
    FindFindsLeftmost(s);
  }

  lemma EarlierLineEndsFirst(s: string, k: nat, i: nat)
    requires k < i && LineEndAt(s, k) > 0 && MatchAt(s, i) > 0 && MatchAt(s, k) == 0
    ensures k + LineEndAt(s, k) <= i
  {
  }

  /** The first line end is before the separator, or it is the one the separator starts with. */
  lemma LineEndBeforeSeparator(s: string, sep: Separator)
    requires IsLeftmost(s, sep) && sep.index + sep.length <= |s|
    ensures FirstLineEnd(s, 0) <= sep.index
    ensures var k := FirstLineEnd(s, 0); k < sep.index ==> k + LineEndAt(s, k) <= sep.index
  {
    FirstLineEndIsFirst(s, 0);
    var k := FirstLineEnd(s, 0);
    assert MatchAt(s, sep.index) > 0;
    if k < sep.index {
      assert MatchAt(s, k) == 0;
      EarlierLineEndsFirst(s, k, sep.index);
    }
  }

  /** After a line that is not part of the separator, the separator is still the leftmost one. */
  lemma CutAfterLine(s: string, sep: Separator, block: string, rest: string, n: nat)
    requires NextCut(s, sep, block, rest) && n <= sep.index
    ensures NextCut(s[n..], Separator(sep.index - n, sep.length), block[n..], rest)
  {
    forall j | 0 <= j ensures MatchAt(s[n..], j) == MatchAt(s, n + j) { MatchInSuffix(s, n, j); }
    LeftmostIsFound(s[n..], Separator(sep.index - n, sep.length));
    NextCutOf(s[n..]);
    assert s[n..][..sep.index - n] == block[n..];
    assert s[n..][sep.index - n + sep.length..] == rest;
  }

  lemma NothingFoundAfterLine(s: string, n: nat)
    requires Find(s).None? && n <= |s|
    ensures Find(s[n..]).None?
  {
    FindFindsLeftmost(s);
    FindFindsLeftmost(s[n..]);
    if Find(s[n..]).Some? { MatchInSuffix(s, n, Find(s[n..]).value.index); }
  }

  /** Behind a line that does not start a separator comes no blank line. */
  lemma NoBlankLineBehind(s: string, k: nat, n: nat)
    requires FirstLine(s, k, n) && MatchAt(s, k) == 0
    ensures n < |s| ==> FirstLineEnd(s[n..], 0) > 0
  {
    LineEndInSuffix(s, n, 0);
  }

  lemma {:induction false} ReadStep(s: string, b: Buffers, k: nat, n: nat, line: string, tail: string)
    requires FirstLine(s, k, n) && line == s[..k] && tail == s[n..]
    ensures ReadFeeds(s, b)
         == if k == 0 then Dispatch(b) + ReadFeeds(tail, EMPTY) else ReadFeeds(tail, Process(b, line))
  {
  }

  /** One complete line: the reader takes in what the block parser takes in, and goes on behind it. */
  lemma {:induction false} ReadOneLine(s: string, m: Message, k: nat, n: nat)
    requires FirstLine(s, k, n)
    requires m == NO_FIELDS || k > 0
    ensures ReadFeeds(s, BuffersOf(m)) == ReadFeeds(s[n..], BuffersOf(Absorb(m, s[..k])))
  {
    ReadStep(s, BuffersOf(m), k, n, s[..k], s[n..]);
    if k > 0 {
      ProcessIsAbsorb(m, s[..k]);
    } else {
      assert s[..0] == "" && Dispatch(BuffersOf(m)) == [];
      assert [] + ReadFeeds(s[n..], EMPTY) == ReadFeeds(s[n..], EMPTY);
    }
  }

  /** The last line of a block, and the blank line that makes the reader dispatch. */
  lemma {:induction false} ReadLastLine(s: string, m: Message, sep: Separator, block: string, rest: string)
    requires NextCut(s, sep, block, rest) && FirstLineEnd(s, 0) == sep.index
    requires m == NO_FIELDS || sep.index > 0
    ensures ReadFeeds(s, BuffersOf(m)) == Dispatch(BuffersOf(AbsorbAll(m, Lines(block)))) + ReadFeeds(rest, EMPTY)
  {
    var k, n := FirstLineOf(s);
    ReadOneLine(s, m, k, n);
    var t := s[n..];
    LineEndInSuffix(s, n, 0);
    var e := LineEndAt(t, 0);
    assert n + e == sep.index + sep.length;
    assert t[e..] == rest;
    ReadStep(t, BuffersOf(Absorb(m, block)), 0, e, "", rest);
    OnlyLineOfPrefix(s, k);
    AbsorbAllCons(m, block, []);
  }

  /** A line inside a block takes reader and parser to the text behind the line, with the same cut ahead. */
  lemma {:induction false} ReadInnerLine(
      s: string, m: Message, sep: Separator, block: string, rest: string, k: nat, n: nat)
    requires NextCut(s, sep, block, rest) && FirstLine(s, k, n) && n <= sep.index
    requires m == NO_FIELDS || k > 0
    ensures FirstLineEnd(s[n..], 0) > 0
    ensures AbsorbAll(m, Lines(block)) == AbsorbAll(Absorb(m, s[..k]), Lines(block[n..]))
  {
    assert MatchAt(s, k) == 0;
    NoBlankLineBehind(s, k, n);
    LinesOfPrefix(s, sep.index, k, n);
    assert s[n..sep.index] == block[n..];
    AbsorbAllCons(m, s[..k], Lines(block[n..]));
  }

  /** The reader, started anywhere inside a block, dispatches once at the block's end and goes on behind the cut. */
  lemma {:induction false} ReadToCut(s: string, m: Message, sep: Separator, block: string, rest: string)
    requires NextCut(s, sep, block, rest)
    requires m == NO_FIELDS || FirstLineEnd(s, 0) > 0
    ensures ReadFeeds(s, BuffersOf(m)) == Dispatch(BuffersOf(AbsorbAll(m, Lines(block)))) + ReadFeeds(rest, EMPTY)
    decreases |s|
  {
    LineEndBeforeSeparator(s, sep);
    var k, n := FirstLineOf(s);
    if k < sep.index {
      ReadInnerLine(s, m, sep, block, rest, k, n);
      CutAfterLine(s, sep, block, rest, n);
      ReadOneLine(s, m, k, n);
      ReadToCut(s[n..], Absorb(m, s[..k]), Separator(sep.index - n, sep.length), block[n..], rest);
    } else {
      ReadLastLine(s, m, sep, block, rest);
    }
  }

  /** Without a separator ahead the reader dispatches nothing. */
  lemma {:induction false} ReadUnfinished(s: string, m: Message)
    requires Find(s).None?
    requires m == NO_FIELDS || s == "" || FirstLineEnd(s, 0) > 0
    ensures ReadFeeds(s, BuffersOf(m)) == []
    decreases |s|
  {
    if FirstLineEnd(s, 0) < |s| {
      var k, n := FirstLineOf(s);
      FindFindsLeftmost(s);
      NoBlankLineBehind(s, k, n);
      NothingFoundAfterLine(s, n);
      ReadOneLine(s, m, k, n);
      ReadUnfinished(s[n..], Absorb(m, s[..k]));
    }
  }

  lemma {:induction false} EventsOfFirst(s: string)
    requires Find(s).Some?
    ensures EventsOf(Cuts(s).cuts) == EventOf(FirstCut(s).block) + EventsOf(Cuts(AfterFirst(s)).cuts)
  {
    assert Cuts(s).cuts[1..] == Cuts(AfterFirst(s)).cuts;
  }

  /** Both sides deal with the first block, and then with the text behind it. */
  lemma {:induction false} FirstBlock(s: string) returns (block: string, rest: string)
    requires Find(s).Some?
    ensures |rest| < |s|
    ensures EventsOf(Cuts(s).cuts) == EventOf(block) + EventsOf(Cuts(rest).cuts)
    ensures WithData(ReadFeeds(s, EMPTY)) == EventOf(block) + WithData(ReadFeeds(rest, EMPTY))
  {
    var sep := Find(s).value;
    block, rest := FirstCut(s).block, AfterFirst(s);
    EventsOfFirst(s);
    NextCutOf(s);
    ReadToCut(s, NO_FIELDS, sep, block, rest);
    WithDataAppend(Dispatch(BuffersOf(AbsorbAll(NO_FIELDS, Lines(block)))), ReadFeeds(rest, EMPTY));
    DispatchIsEventOf(block);
  }

  /**
   * Cutting at blank lines and parsing block by block is reading line by line: the same events,
   * in the same order, and both drop the unfinished tail.
   */
  lemma {:induction false} BlocksRefineLines(s: string)
    ensures EventsOf(Cuts(s).cuts) == WithData(ReadFeeds(s, EMPTY))
    decreases |s|
  {
    if Find(s).None? {
      ReadUnfinished(s, NO_FIELDS);
    } else {
      var block, rest := FirstBlock(s);
      BlocksRefineLines(rest);
    }
  }
}
