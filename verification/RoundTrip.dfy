/** Printing messages as `event:` and `data:` lines, and reading them back from any chunking. */
module RoundTrip {
  import opened Common
  import opened Framing
  import opened EventBlocks
  import opened Decoder

  /** A message to print: its data may hold several lines, empty ones included. */
  datatype Outgoing = Outgoing(event: Option<string>, data: string)

  /** Split at every LF. */
  function Pieces(s: string): (lines: seq<string>)
    ensures lines != []
  {
    var i := IndexOf(s, '\n');
    if i == |s| then [s] else [s[..i]] + Pieces(s[i + 1..])
  }

  function DataLines(pieces: seq<string>): (lines: seq<string>)
    ensures |lines| == |pieces|
  {
    if pieces == [] then [] else ["data: " + pieces[0]] + DataLines(pieces[1..])
  }

  function PrintedLines(m: Outgoing): (lines: seq<string>)
    ensures lines != []
  {
    (if m.event.Some? then ["event: " + m.event.value] else []) + DataLines(Pieces(m.data))
  }

  /** Each line followed by LF, and then the blank line that ends the message. */
  function Unlines(lines: seq<string>): string {
    if lines == [] then "" else lines[0] + "\n" + Unlines(lines[1..])
  }

  function Print(messages: seq<Outgoing>): string {
    if messages == [] then "" else Unlines(PrintedLines(messages[0])) + "\n" + Print(messages[1..])
  }

  ghost predicate OneLine(s: string) {
    forall k :: 0 <= k < |s| ==> s[k] != '\n'
  }

  ghost predicate Plain(line: string) {
    OneLine(line) && (line != "" ==> line[|line| - 1] != '\r')
  }

  ghost predicate Printable(m: Outgoing) {
    && m.data != ""
    && (m.event.Some? ==> Plain(m.event.value))
    && forall k :: 0 <= k < |Pieces(m.data)| ==> Plain(Pieces(m.data)[k])
  }

  /** A line that can stand in a block: not empty, and no line end inside or split across its end. */
  ghost predicate Solid(line: string) {
    line != "" && Plain(line)
  }

  ghost predicate AllSolid(lines: seq<string>) {
    forall k :: 0 <= k < |lines| ==> Solid(lines[k])
  }

  /** The block that printed lines make: their text without the last LF. */
  function BlockOf(lines: seq<string>): string
    requires lines != []
  {
    if |lines| == 1 then lines[0] else lines[0] + "\n" + BlockOf(lines[1..])
  }

  lemma {:induction false} UnlinesIsBlock(lines: seq<string>)
    requires lines != []
    ensures Unlines(lines) == BlockOf(lines) + "\n"
  {
    if |lines| > 1 {
      UnlinesIsBlock(lines[1..]);
    } else {
      assert lines[1..] == [];
    }
  }

  /** The first line end behind a plain line is the LF printed there. */
  lemma FirstLineEndAfterPlain(line: string, t: string)
    requires Plain(line)
    ensures FirstLineEnd(line + "\n" + t, 0) == |line| && LineEndAt(line + "\n" + t, |line|) == 1
  {
    var s := line + "\n" + t;
    forall j | 0 <= j < |line|
      ensures LineEndAt(s, j) == 0
    {
      assert s[j] == line[j];
      if j + 1 < |line| { assert s[j + 1] == line[j + 1]; }
    }
    FirstLineEndIs(s, |line|);
  }

  lemma {:induction false} LinesOfBlockOf(lines: seq<string>)
    requires lines != [] && AllSolid(lines)
    ensures Lines(BlockOf(lines)) == lines
  {
    var line := lines[0];
    if |lines| == 1 {
      forall j | 0 <= j < |line| ensures LineEndAt(line, j) == 0 {}
      FirstLineEndIs(line, |line|);
      assert lines == [line];
    } else {
      var t := BlockOf(lines[1..]);
      FirstLineEndAfterPlain(line, t);
      var s := line + "\n" + t;
      assert s[..|line|] == line && s[|line| + 1..] == t;
      LinesOfBlockOf(lines[1..]);
      assert lines == [line] + lines[1..];
    }
  }

  lemma {:induction false} SolidBlockStarts(lines: seq<string>)
    requires lines != [] && AllSolid(lines)
    ensures forall t: string :: LineEndAt(BlockOf(lines) + "\n\n" + t, 0) == 0
  {
    var line := lines[0];
    forall t: string
      ensures LineEndAt(BlockOf(lines) + "\n\n" + t, 0) == 0
    {
      var s := BlockOf(lines) + "\n\n" + t;
      assert s[0] == line[0];
      if |line| > 1 { assert s[1] == line[1]; }
    }
  }

  /** A separator found in a suffix is the leftmost of the whole when only one line end lies before it. */
  lemma FindBehindLine(s: string, rest: string, n: nat)
    requires 0 < n <= |s| && s[n..] == rest
    requires LineEndAt(s, n - 1) == 1 && forall j :: 0 <= j < n - 1 ==> LineEndAt(s, j) == 0
    requires LineEndAt(rest, 0) == 0 && Find(rest).Some?
    ensures Find(s) == Some(Separator(n + Find(rest).value.index, Find(rest).value.length))
  {
    FindFindsLeftmost(rest);
    var sep := Find(rest).value;
    LineEndInSuffix(s, n, 0);
    MatchInSuffix(s, n, sep.index);
    forall j | 0 <= j < n + sep.index
      ensures MatchAt(s, j) == 0
    {
      if j >= n {
        MatchInSuffix(s, n, j - n);
        assert MatchAt(rest, j - n) == 0;
      }
    }
    LeftmostIsFound(s, Separator(n + sep.index, sep.length));
  }

  /** The leftmost separator in printed text is the one behind the first message. */
  lemma {:induction false} BlockIsCut(lines: seq<string>, t: string)
    requires lines != [] && AllSolid(lines)
    ensures Find(BlockOf(lines) + "\n\n" + t) == Some(Separator(|BlockOf(lines)|, 2))
    decreases |lines|
  {
    var line := lines[0];
    var s := BlockOf(lines) + "\n\n" + t;
    if |lines| == 1 {
      FirstLineEndAfterPlain(line, "\n" + t);
      assert s == line + "\n" + ("\n" + t);
      FirstLineEndIsFirst(s, 0);
      assert LineEndAt(s, |line| + 1) == 1;
      LeftmostIsFound(s, Separator(|line|, 2));
    } else {
      var rest := BlockOf(lines[1..]) + "\n\n" + t;
      BlockIsCut(lines[1..], t);
      assert s == line + "\n" + rest;
      FirstLineEndAfterPlain(line, rest);
      FirstLineEndIsFirst(s, 0);
      SolidBlockStarts(lines[1..]);
      FindBehindLine(s, rest, |line| + 1);
    }
  }

  lemma {:induction false} UnlinesCons(a: string, lines: seq<string>)
    ensures Unlines([a] + lines) == a + "\n" + Unlines(lines)
  {
    assert ([a] + lines)[1..] == lines;
  }

  lemma {:induction false} PiecesJoin(s: string)
    ensures Unlines(Pieces(s)) == s + "\n"
    decreases |s|
  {
    var i := IndexOf(s, '\n');
    if i == |s| {
      assert [s][1..] == [];
    } else {
      var a, b := s[..i], s[i + 1..];
      PiecesJoin(b);
      UnlinesCons(a, Pieces(b));
      Regroup(a + "\n", b, "\n");
      assert s == a + "\n" + b;
    }
  }

  lemma DataLineValue(x: string)
    ensures FieldName("data: " + x) == "data" && FieldValue("data: " + x) == x
  {
    var line := "data: " + x;
    IndexBehindPrefix("data", ':', " " + x);
    assert line == "data" + ":" + (" " + x);
    assert line[..4] == "data" && line[6..] == x;
  }

  lemma EventLineValue(x: string)
    ensures FieldName("event: " + x) == "event" && FieldValue("event: " + x) == x
  {
    var line := "event: " + x;
    IndexBehindPrefix("event", ':', " " + x);
    assert line == "event" + ":" + (" " + x);
    assert line[..5] == "event" && line[7..] == x;
  }

  lemma {:induction false} AbsorbDataLines(m: Message, pieces: seq<string>)
    requires pieces != []
    ensures AbsorbAll(m, DataLines(pieces)) == m.(data := Some(m.data.GetOr("") + Unlines(pieces)))
    decreases |pieces|
  {
    var next := Absorb(m, "data: " + pieces[0]);
    DataLineValue(pieces[0]);
    assert DataLines(pieces)[1..] == DataLines(pieces[1..]);
    var d := m.data.GetOr("");
    if |pieces| == 1 {
      assert pieces[1..] == [];
      assert d + pieces[0] + "\n" == d + Unlines(pieces);
    } else {
      AbsorbDataLines(next, pieces[1..]);
      Regroup(d, pieces[0] + "\n", Unlines(pieces[1..]));
      Regroup(d, pieces[0], "\n");
    }
  }

  lemma {:induction false} AbsorbPrinted(m: Outgoing)
    ensures AbsorbAll(NO_FIELDS, PrintedLines(m)) == Message(m.event, Some(m.data + "\n"))
  {
    var pieces := Pieces(m.data);
    PiecesJoin(m.data);
    var before := if m.event.Some? then ["event: " + m.event.value] else [];
    AbsorbAllAppend(NO_FIELDS, before, DataLines(pieces));
    var start := Message(m.event, None);
    assert AbsorbAll(NO_FIELDS, before) == start by {
      if m.event.Some? {
        EventLineValue(m.event.value);
        AbsorbAllCons(NO_FIELDS, before[0], []);
      }
    }
    AbsorbDataLines(start, pieces);
    assert "" + (m.data + "\n") == m.data + "\n";
  }

  lemma PrefixKeepsPlain(prefix: string, x: string)
    requires Plain(x) && Solid(prefix)
    ensures Solid(prefix + x)
  {
    var s := prefix + x;
    forall k | 0 <= k < |s| ensures s[k] != '\n' {
      if k < |prefix| { assert s[k] == prefix[k]; } else { assert s[k] == x[k - |prefix|]; }
    }
    if x == "" { assert s == prefix; } else { assert s[|s| - 1] == x[|x| - 1]; }
  }

  lemma {:induction false} DataLinesAreSolid(pieces: seq<string>)
    requires forall k :: 0 <= k < |pieces| ==> Plain(pieces[k])
    ensures AllSolid(DataLines(pieces))
  {
    if pieces != [] {
      PrefixKeepsPlain("data: ", pieces[0]);
      DataLinesAreSolid(pieces[1..]);
    }
  }

  lemma {:induction false} PrintedLinesAreSolid(m: Outgoing)
    requires Printable(m)
    ensures AllSolid(PrintedLines(m))
  {
    DataLinesAreSolid(Pieces(m.data));
    if m.event.Some? { PrefixKeepsPlain("event: ", m.event.value); }
  }

  /** One printed message is one clean cut, and parsing its block gives the message back. */
  lemma {:induction false} PrintedMessageIsRead(m: Outgoing)
    requires Printable(m)
    ensures AllSolid(PrintedLines(m))
    ensures ParseBlock(BlockOf(PrintedLines(m))) == Some(Message(m.event, Some(m.data)))
  {
    PrintedLinesAreSolid(m);
    LinesOfBlockOf(PrintedLines(m));
    AbsorbPrinted(m);
    assert (m.data + "\n")[..|m.data|] == m.data;
  }

  function MessagesOf(cuts: seq<Cut>): seq<Option<Message>> {
    if cuts == [] then [] else [ParseBlock(cuts[0].block)] + MessagesOf(cuts[1..])
  }

  function Sent(messages: seq<Outgoing>): seq<Option<Message>> {
    if messages == [] then []
    else [Some(Message(messages[0].event, Some(messages[0].data)))] + Sent(messages[1..])
  }

  ghost predicate NoHeartbeats<B>(json: Json<B>, messages: seq<Outgoing>) {
    forall k :: 0 <= k < |messages| ==>
      !IsBeat(json, messages[k].event, messages[k].data)
  }

  /** The text of a list of messages starts with the block of the first one. */
  lemma {:induction false} FirstPrinted(messages: seq<Outgoing>)
    requires messages != [] && Printable(messages[0])
    ensures var s, m := Print(messages), messages[0];
            && Find(s).Some? && AfterFirst(s) == Print(messages[1..])
            && ParseBlock(FirstCut(s).block) == Some(Message(m.event, Some(m.data)))
  {
    var s, t, lines := Print(messages), Print(messages[1..]), PrintedLines(messages[0]);
    PrintedMessageIsRead(messages[0]);
    UnlinesIsBlock(lines);
    assert s == BlockOf(lines) + "\n\n" + t;
    BlockIsCut(lines, t);
    assert FirstCut(s).block == BlockOf(lines) && AfterFirst(s) == t;
  }

  lemma {:induction false} PrintedTextIsFramed(messages: seq<Outgoing>)
    requires forall k :: 0 <= k < |messages| ==> Printable(messages[k])
    ensures MessagesOf(Cuts(Print(messages)).cuts) == Sent(messages)
    ensures Cuts(Print(messages)).rest == ""
    decreases |messages|
  {
    if messages == [] {
      FindNothingInNothing();
    } else {
      var s := Print(messages);
      FirstPrinted(messages);
      PrintedTextIsFramed(messages[1..]);
      assert Cuts(s).cuts[1..] == Cuts(AfterFirst(s)).cuts;
    }
  }

  lemma {:induction false} QuietPrint<B>(json: Json<B>, messages: seq<Outgoing>)
    requires forall k :: 0 <= k < |messages| ==> Printable(messages[k])
    requires NoHeartbeats(json, messages)
    ensures HeartbeatsEnd(json, Print(messages))
    decreases |messages|
  {
    if messages == [] {
      FindNothingInNothing();
    } else {
      FirstPrinted(messages);
      QuietPrint(json, messages[1..]);
    }
  }

  /** Without heartbeats every chunking of the printed text is in step. */
  lemma QuietPrintInStep<B>(json: Json<B>, messages: seq<Outgoing>, chunks: seq<string>)
    requires forall k :: 0 <= k < |messages| ==> Printable(messages[k])
    requires NoHeartbeats(json, messages)
    requires Concat(chunks) == Print(messages)
    ensures AllInStep(json, "", chunks)
  {
    QuietPrint(json, messages);
    QuietStreamInStep(json, chunks);
  }

  /** What the handlers should get of a message: nothing of heartbeats and of data that cannot be read. */
  function Meant<B>(json: Json<B>, m: Outgoing): seq<Verdict<B>> {
    match json(m.data)
    case Unreadable => []
    case Readable(kind, body) =>
      if m.event == Some("heartbeat") || kind == Some("heartbeat") then []
      else [Deliver(if kind.Some? then kind.value else "odds_update", body)]
  }

  function AllMeant<B>(json: Json<B>, messages: seq<Outgoing>): seq<Verdict<B>> {
    if messages == [] then [] else Meant(json, messages[0]) + AllMeant(json, messages[1..])
  }

  lemma HandedAsMeant<B>(json: Json<B>, block: string, m: Outgoing)
    requires m.data != "" && ParseBlock(block) == Some(Message(m.event, Some(m.data)))
    ensures Handed(json, block) == Meant(json, m)
  {
    JudgedByFields(json, block);
  }

  lemma {:induction false} PrintedTextIsHeard<B>(json: Json<B>, messages: seq<Outgoing>)
    requires forall k :: 0 <= k < |messages| ==> Printable(messages[k])
    ensures Delivered(json, Cuts(Print(messages)).cuts) == AllMeant(json, messages)
    decreases |messages|
  {
    if messages == [] {
      FindNothingInNothing();
    } else {
      var s := Print(messages);
      FirstPrinted(messages);
      PrintedTextIsHeard(json, messages[1..]);
      assert Cuts(s).cuts[1..] == Cuts(AfterFirst(s)).cuts;
      HandedAsMeant(json, FirstCut(s).block, messages[0]);
    }
  }

  /**
   * Decoding a chunking of the printed text gives back exactly the printed messages, heartbeats included,
   * and nothing is left over, as long as every buffer is in step.
   */
  lemma DecodePrinted<B>(json: Json<B>, messages: seq<Outgoing>, chunks: seq<string>)
    requires forall k :: 0 <= k < |messages| ==> Printable(messages[k])
    requires Concat(chunks) == Print(messages)
    requires AllInStep(json, "", chunks)
    ensures MessagesOf(Feed(json, "", chunks).cuts) == Sent(messages)
    ensures Delivered(json, Feed(json, "", chunks).cuts) == AllMeant(json, messages)
    ensures Feed(json, "", chunks).rest == ""
  {
    PrintedTextIsFramed(messages);
    PrintedTextIsHeard(json, messages);
    StreamFramesIff(json, chunks);
  }
}
