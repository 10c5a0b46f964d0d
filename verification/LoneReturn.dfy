/** A CR that stands alone: the standard ends a line there, the block parser does not. */
module LoneReturn {
  import opened EventBlocks
  import opened Framing
  import opened LineEnds
  import opened LineReader
  import opened Decoder
  import opened StaleSeparator

  ghost predicate Word(x: string) {
    x != "" && x[0] != ' ' && forall k :: 0 <= k < |x| ==> x[k] != '\n' && x[k] != '\r'
  }

  function LoneReturn(x: string, y: string): string {
    DataBlock(x + "\r" + DataBlock(y)) + "\n\n" + ""
  }

  lemma WordIsValue(x: string)
    requires Word(x)
    ensures Value(x)
  {
  }

  lemma {:induction false} ReadDataLine(x: string, e: char, tail: string, b: Buffers)
    requires Word(x) && (e == '\n' || (e == '\r' && tail != "" && tail[0] != '\n'))
    ensures Read(DataBlock(x) + [e] + tail, b) == Read(tail, b.(data := b.data + x + "\n"))
  {
    var line := DataBlock(x);
    var s := line + [e] + tail;
    forall j | 0 <= j < |line| ensures EndOfLineAt(s, j) == 0 {
      assert s[j] == line[j];
      if j >= 5 { assert line[j] == x[j - 5]; }
    }
    assert s[|line|] == e;
    if tail != "" { assert s[|line| + 1] == tail[0]; }
    EndOfLineIs(s, 0, |line|);
    assert s[..|line|] == line && s[|line| + 1..] == tail;
    WordIsValue(x);
    DataBlockFields(x);
    assert line[..1] == "d";
  }

  lemma {:induction false} ReadBlank(b: Buffers)
    ensures Read("\n", b) == Dispatch(b)
  {
    EndOfLineIs("\n", 0, 0);
    assert "\n"[1..] == "";
    assert Read("", EMPTY) == [];
  }

  lemma {:induction false} ReadLastDataLine(y: string, b: Buffers)
    requires Word(y)
    ensures Read(DataBlock(y) + "\n" + "\n", b) == Dispatch(b.(data := b.data + y + "\n"))
  {
    ReadDataLine(y, '\n', "\n", b);
    ReadBlank(b.(data := b.data + y + "\n"));
  }

  lemma LoneReturnText(x: string, y: string)
    ensures LoneReturn(x, y) == DataBlock(x) + "\r" + (DataBlock(y) + "\n" + "\n")
  {
  }

  lemma {:induction false} DispatchOf(data: string)
    requires data != ""
    ensures WithData(Dispatch(Buffers("", data + "\n"))) == [Event("message", data)]
  {
    assert (data + "\n")[..|data|] == data;
    assert [Event("message", data)][1..] == [];
  }

  lemma {:induction false} TwoDataLines(s: string, x: string, next: string, data: string, y: string)
    requires Word(x) && Word(y)
    requires s == DataBlock(x) + "\r" + next && next == DataBlock(y) + "\n" + "\n" && data == x + "\n"
    ensures Read(s, EMPTY) == Dispatch(Buffers("", data + y + "\n"))
  {
    ReadDataLine(x, '\r', next, EMPTY);
    assert "" + x + "\n" == data;
    ReadLastDataLine(y, Buffers("", data));
  }

  lemma {:induction false} StandardSeesTwoLines(x: string, y: string)
    requires Word(x) && Word(y)
    ensures WithData(Read(LoneReturn(x, y), EMPTY)) == [Event("message", x + "\n" + y)]
  {
    LoneReturnText(x, y);
    var next := DataBlock(y) + "\n" + "\n";
    TwoDataLines(LoneReturn(x, y), x, next, x + "\n", y);
    DispatchOf(x + "\n" + y);
  }

  lemma LongValue(x: string, y: string)
    requires Word(x) && Word(y)
    ensures Value(x + "\r" + DataBlock(y))
  {
    var line, value := DataBlock(y), x + "\r" + DataBlock(y);
    forall k | 0 <= k < |value| ensures value[k] != '\n' {
      if k < |x| { assert value[k] == x[k]; }
      if k > |x| + 5 { assert value[k] == y[k - |x| - 6]; }
    }
    assert value[|value| - 1] == y[|y| - 1];
  }

  lemma {:induction false} SourceSeesOneLine(x: string, y: string)
    requires Word(x) && Word(y)
    ensures EventsOf(Cuts(LoneReturn(x, y)).cuts) == [Event("message", x + "\r" + DataBlock(y))]
  {
    var value, s := x + "\r" + DataBlock(y), LoneReturn(x, y);
    LongValue(x, y);
    DataBlockIsCut(value, "");
    OneDataLine(value);
    FindNothingInNothing();
    assert Cuts(s).cuts == [FirstCut(s)] + [] && [FirstCut(s)][1..] == [];
    assert EventsOf([FirstCut(s)]) == EventOf(FirstCut(s).block) + EventsOf([FirstCut(s)][1..]);
  }

  /** So on every such text the standard's reader dispatches an event with other data. */
  lemma {:induction false} LoneReturnShows(x: string, y: string)
    requires Word(x) && Word(y)
    ensures EventsOf(Cuts(LoneReturn(x, y)).cuts) != WithData(Read(LoneReturn(x, y), EMPTY))
    ensures EventsOf(Cuts(LoneReturn(x, y)).cuts) == WithData(ReadFeeds(LoneReturn(x, y), EMPTY))
  {
    SourceSeesOneLine(x, y);
    StandardSeesTwoLines(x, y);
    BlocksRefineLines(LoneReturn(x, y));
    assert (x + "\n" + y)[|x|] == '\n' && (x + "\r" + DataBlock(y))[|x|] == '\r';
  }

  // ----- Exactly which lines are read alike -----

  /**
   * The context in which a line shows: an event name and some data in front of the line, and one more data line
   * behind it.
   */
  function Context(name: string): Buffers {
    Buffers(name, "a\n")
  }

  function Behind(z: string): string {
    DataBlock(z) + "\n" + "\n"
  }

  function NameOf(b: Buffers): string {
    if b.event == "" then "message" else b.event
  }

  lemma {:induction false} ReadBehind(z: string, b: Buffers)
    requires Word(z)
    ensures Read(Behind(z), b) == [Event(NameOf(b), b.data + z)]
  {
    ReadLastDataLine(z, b);
    assert (b.data + z + "\n")[..|b.data + z|] == b.data + z;
  }

  ghost predicate CrFree(b: Buffers) {
    '\r' !in b.event && '\r' !in b.data
  }

  lemma ProcessBounds(b: Buffers, line: string)
    ensures var c := Process(b, line);
            && |b.data| <= |c.data| <= |b.data| + |line| + 1
            && (c.event == b.event || |c.event| <= |line|)
            && (CrFree(b) && '\r' !in line ==> CrFree(c))
  {
    assert forall ch :: ch in FieldValue(line) ==> ch in line;
    assert |FieldValue(line)| <= |line|;
  }

  /**
   * The first event that the standard dispatches for the line and what is behind it: either a blank piece has cut
   * it short, or all of the data behind is in it; names come from before or from the line; and no CR is in it.
   */
  ghost predicate FirstEvent(events: seq<Event>, b: Buffers, size: nat, z: string) {
    && events != [] && events[0].data != ""
    && (|events[0].data| <= |b.data| + size || |events[0].data| >= |b.data| + |z|)
    && (events[0].name == NameOf(b) || |events[0].name| <= size + 7)
    && (CrFree(b) ==> '\r' !in events[0].name && '\r' !in events[0].data)
  }

  lemma {:induction false} FirstOfDispatch(b: Buffers, more: seq<Event>, size: nat, z: string)
    requires |b.data| >= 2
    ensures FirstEvent(Dispatch(b) + more, b, size, z)
  {
    assert Dispatch(b) == [Event(NameOf(b), DropLastLineFeed(b.data))];
    assert forall ch :: ch in DropLastLineFeed(b.data) ==> ch in b.data;
  }

  lemma {:induction false} FirstOfBehind(z: string, b: Buffers, size: nat)
    requires Word(z)
    ensures FirstEvent(Read(Behind(z), b), b, size, z)
  {
    ReadBehind(z, b);
    assert forall ch :: ch in b.data + z ==> ch in b.data || ch in z;
  }

  lemma FirstAfterPiece(events: seq<Event>, b: Buffers, p: string, size: nat, z: string)
    requires FirstEvent(events, Process(b, p), size, z) && '\r' !in p
    ensures FirstEvent(events, b, |p| + 1 + size, z)
  {
    ProcessBounds(b, p);
  }

  lemma {:induction false} FirstEventOf(x: string, e: string, z: string, b: Buffers)
    requires EndsLine(x, e) && Word(z) && |b.data| >= 2
    ensures FirstEvent(Read(x + e + Behind(z), b), b, |x| + 1, z)
    decreases |x|
  {
    if '\r' in x {
      var p, q := SplitAtCr(x);
      ReadPiece(x, p, q, e, Behind(z), b);
      if p == "" {
        FirstOfDispatch(b, Read(q + e + Behind(z), EMPTY), |x| + 1, z);
      } else {
        ProcessBounds(b, p);
        FirstEventOf(q, e, z, Process(b, p));
        FirstAfterPiece(Read(q + e + Behind(z), Process(b, p)), b, p, |q| + 1, z);
      }
    } else {
      ReadWhole(x, e, Behind(z), b);
      if x == "" {
        FirstOfDispatch(b, Read(Behind(z), EMPTY), |x| + 1, z);
      } else {
        FirstOfBehind(z, Process(b, x), 0);
        FirstAfterPiece(Read(Behind(z), Process(b, x)), b, x, 0, z);
      }
    }
  }

  /**
   * An event with the name and the data from around the line, and nothing from it, tells that its pieces are
   * ignored.
   */
  ghost predicate Untouched(events: seq<Event>, b: Buffers, z: string) {
    events != [] && events[0] == Event(b.event, b.data + z)
  }

  lemma {:induction false} BlankPieceTouches(b: Buffers, more: seq<Event>, z: string)
    requires |b.data| >= 2 && z != ""
    ensures !Untouched(Dispatch(b) + more, b, z)
  {
    assert Dispatch(b) == [Event(NameOf(b), DropLastLineFeed(b.data))];
    assert |DropLastLineFeed(b.data)| < |b.data + z|;
  }

  lemma {:induction false} FieldTouches(events: seq<Event>, b: Buffers, p: string, size: nat, z: string)
    requires p != "" && !Ignored(p) && FirstEvent(events, Process(b, p), size, z)
    requires |z| > |p| + size + 1 && |b.event| > |p| + size + 8
    ensures !Untouched(events, b, z)
  {
    ProcessBounds(b, p);
    assert p[..1] == ":" <==> p[0] == ':';
    assert |FieldValue(p)| <= |p|;
  }

  lemma {:induction false} UntouchedTells(x: string, e: string, z: string, b: Buffers)
    requires EndsLine(x, e) && Word(z) && |b.data| >= 2 && |z| > |x| + 3 && |b.event| > |x| + 10
    requires Untouched(Read(x + e + Behind(z), b), b, z)
    ensures PiecesIgnored(x)
    decreases |x|
  {
    if '\r' in x {
      var p, q := SplitAtCr(x);
      ReadPiece(x, p, q, e, Behind(z), b);
      BlankPieceTouches(b, Read(q + e + Behind(z), EMPTY), z);
      if Ignored(p) {
        IgnoredIsIgnored(b, p);
        UntouchedTells(q, e, z, b);
      } else {
        ProcessBounds(b, p);
        FirstEventOf(q, e, z, Process(b, p));
        if p != "" { FieldTouches(Read(q + e + Behind(z), Process(b, p)), b, p, |q| + 1, z); }
      }
    } else {
      NoCr(x);
      ReadWhole(x, e, Behind(z), b);
      BlankPieceTouches(b, Read(Behind(z), EMPTY), z);
      if !Ignored(x) && x != "" {
        ProcessBounds(b, x);
        FirstOfBehind(z, Process(b, x), 0);
        FieldTouches(Read(Behind(z), Process(b, x)), b, x, 0, z);
      }
    }
  }

  // ----- The source's side -----

  lemma {:induction false} FeedsWhole(x: string, e: string, t: string, b: Buffers)
    requires EndsLine(x, e) && x != ""
    ensures ReadFeeds(x + e + t, b) == ReadFeeds(t, Process(b, x))
  {
    var s := x + e + t;
    forall j | 0 <= j < |x| ensures LineEndAt(s, j) == 0 {
      assert s[j] == x[j] && x[j] in x;
      if j + 1 < |x| { assert s[j + 1] == x[j + 1] && x[j + 1] in x; } else { assert s[j + 1] == e[0]; }
    }
    assert s[|x|] == e[0] && (|e| == 2 ==> s[|x| + 1] == e[1]);
    FirstLineEndIs(s, |x|);
    assert s[..|x|] == x && s[|x| + |e|..] == t;
    ReadStep(s, b, |x|, |x| + |e|, x, t);
  }

  lemma {:induction false} BehindIsAlike(z: string)
    requires Word(z)
    ensures ReadsAlike(Behind(z))
  {
    var s := Behind(z);
    forall k: nat ensures !LoneCarriageReturnAt(s, k) {
      if 5 <= k < 5 + |z| { assert s[k] == z[k - 5]; }
    }
    NoLoneReadsAlike(s);
  }

  lemma {:induction false} FeedsBehind(z: string, b: Buffers)
    requires Word(z)
    ensures ReadFeeds(Behind(z), b) == [Event(NameOf(b), b.data + z)]
  {
    BehindIsAlike(z);
    StandardReads(Behind(z), b);
    ReadBehind(z, b);
  }

  /** A CR in a field's line, whose name has none, is in its value. */
  lemma ValueHasCr(x: string)
    requires '\r' in x && (FieldName(x) == "data" || FieldName(x) == "event")
    ensures '\r' in FieldValue(x)
  {
    var i := IndexOf(x, ':');
    assert '\r' !in x[..i];
    assert x == x[..i] + x[i..];
    assert i < |x| && x[i] == ':';
    assert x[i..] == ":" + x[i + 1..];
    var v := x[i + 1..];
    assert v != "" && v[0] == ' ' ==> v == " " + v[1..];
  }

  lemma FieldTaken(b: Buffers, x: string)
    requires x != "" && !Ignored(x)
    ensures Process(b, x) == if FieldName(x) == "event" then b.(event := FieldValue(x))
                             else b.(data := b.data + FieldValue(x) + "\n")
    ensures FieldName(x) == "event" || FieldName(x) == "data"
  {
    assert x[..1] == ":" <==> x[0] == ':';
  }

  lemma CrInEvent(c: Buffers, z: string)
    requires '\r' in c.event || '\r' in c.data
    ensures '\r' in NameOf(c) || '\r' in c.data + z
  {
  }

  /** In a long context every line that is not harmless makes the standard's reader dispatch something else. */
  lemma {:induction false} HarmfulShows(x: string, e: string, name: string, z: string)
    requires EndsLine(x, e) && !Harmless(x)
    requires Word(name) && Word(z) && |z| > |x| + 3 && |name| > |x| + 10
    ensures var s := x + e + Behind(z);
            WithData(Read(s, Context(name))) != WithData(ReadFeeds(s, Context(name)))
  {
    var b, s := Context(name), x + e + Behind(z);
    var c := Process(b, x);
    FeedsWhole(x, e, Behind(z), b);
    FeedsBehind(z, c);
    var fed := [Event(NameOf(c), c.data + z)];
    assert fed[1..] == [] && WithData(fed) == fed;
    FirstEventOf(x, e, z, b);
    var std := Read(s, b);
    assert WithData(std) == [std[0]] + WithData(std[1..]);
    if WithData(std) == fed {
      assert std[0] == fed[0];
      if Ignored(x) {
        IgnoredIsIgnored(b, x);
        UntouchedTells(x, e, z, b);
      } else {
        ValueHasCr(x);
        FieldTaken(b, x);
        CrInEvent(c, z);
      }
    }
  }

  function Long(n: nat): (z: string)
    ensures |z| == n && (n > 0 ==> Word(z))
  {
    seq(n, _ => 'z')
  }

  lemma {:induction false} LineInFront(x: string, e: string, t: string)
    requires EndsLine(x, e) && Harmless(x) && ReadsAlike(t)
    ensures ReadsAlike(x + e + t)
  {
    var s := x + e + t;
    forall j | 0 <= j < |x| ensures LineEndAt(s, j) == 0 {
      assert s[j] == x[j] && x[j] in x;
      if j + 1 < |x| { assert s[j + 1] == x[j + 1] && x[j + 1] in x; } else { assert s[j + 1] == e[0]; }
    }
    assert s[|x|] == e[0] && (|e| == 2 ==> s[|x| + 1] == e[1]);
    FirstLineEndIs(s, |x|);
    assert s[..|x|] == x && s[|x| + |e|..] == t;
  }

  /**
   * Both readers take in a line alike, in every state and with every text of harmless lines behind it,
   * if and only if the line is harmless: it has no CR, or all of its pieces are comments or unknown fields.
   */
  lemma {:induction false} HarmlessIff(x: string, e: string)
    requires EndsLine(x, e)
    ensures Harmless(x) <==> forall t, b :: ReadsAlike(t) ==> Read(x + e + t, b) == ReadFeeds(x + e + t, b)
  {
    if Harmless(x) {
      forall t, b | ReadsAlike(t) ensures Read(x + e + t, b) == ReadFeeds(x + e + t, b) {
        LineInFront(x, e, t);
        StandardReads(x + e + t, b);
      }
    } else {
      var name, z := Long(|x| + 11), Long(|x| + 4);
      HarmfulShows(x, e, name, z);
      BehindIsAlike(z);
    }
  }

  /** The lines that put the reader into the context. */
  function Before(name: string, rest: string): string {
    "event:" + name + "\n" + (DataBlock("a") + "\n" + rest)
  }

  lemma {:induction false} FieldLineReads(line: string, rest: string, s: string, b: Buffers, c: Buffers)
    requires EndsLine(line, "\n") && '\r' !in line && line != ""
    requires Process(b, line) == c && s == line + "\n" + rest
    ensures Read(s, b) == Read(rest, c) && ReadFeeds(s, b) == ReadFeeds(rest, c)
  {
    ReadWhole(line, "\n", rest, b);
    FeedsWhole(line, "\n", rest, b);
  }

  lemma EventLine(name: string)
    requires Word(name)
    ensures Process(EMPTY, "event:" + name) == Buffers(name, "")
    ensures EndsLine("event:" + name, "\n") && '\r' !in "event:" + name
  {
    var line := "event:" + name;
    IndexBehindPrefix("event", ':', name);
    assert line == "event" + ":" + name;
    assert line[..5] == "event" && line[6..] == name && line[6] == name[0] && line[..1] == "e";
    forall k | 0 <= k < |line| ensures line[k] != '\n' && line[k] != '\r' {
      if k >= 6 { assert line[k] == name[k - 6]; }
    }
  }

  lemma DataLineA(b: Buffers)
    ensures Process(b, DataBlock("a")) == b.(data := b.data + "a" + "\n")
    ensures EndsLine(DataBlock("a"), "\n") && '\r' !in DataBlock("a")
  {
    DataBlockFields("a");
    assert DataBlock("a")[..1] == "d";
  }

  lemma {:induction false} BeforeReads(name: string, rest: string)
    requires Word(name)
    ensures Read(Before(name, rest), EMPTY) == Read(rest, Context(name))
    ensures ReadFeeds(Before(name, rest), EMPTY) == ReadFeeds(rest, Context(name))
  {
    var more := DataBlock("a") + "\n" + rest;
    EventLine(name);
    FieldLineReads("event:" + name, more, Before(name, rest), EMPTY, Buffers(name, ""));
    DataLineA(Buffers(name, ""));
    FieldLineReads(DataBlock("a"), rest, more, Buffers(name, ""), Context(name));
  }

  /**
   * So for every such line there is a stream, without another CR, in which the handlers' events are not the
   * standard's.
   */
  lemma {:induction false} HarmfulLineIsHeard(x: string, e: string) returns (s: string)
    requires EndsLine(x, e) && !Harmless(x)
    ensures exists name, z :: s == Before(name, x + e + Behind(z)) && Word(name) && Word(z)
    ensures EventsOf(Cuts(s).cuts) != WithData(Read(s, EMPTY))
  {
    var name, z := Long(|x| + 11), Long(|x| + 4);
    s := Before(name, x + e + Behind(z));
    HarmfulShows(x, e, name, z);
    BeforeReads(name, x + e + Behind(z));
    BlocksRefineLines(s);
  }
}
