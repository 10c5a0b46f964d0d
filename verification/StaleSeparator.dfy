/** A stream on which the separator that a heartbeat leaves behind damages the next message. */
module StaleSeparator {
  import opened Common
  import opened Framing
  import opened EventBlocks
  import opened Decoder
  import opened Chunking
  import opened RoundTrip

  /** A block of one data line whose value is `x`. */
  function DataBlock(x: string): string {
    "data:" + x
  }

  ghost predicate Value(x: string) {
    x != "" && x[0] != ' ' && Plain(x)
  }

  lemma DataBlockFields(x: string)
    requires Value(x)
    ensures DataBlock(x)[0] != ':' && FieldName(DataBlock(x)) == "data" && FieldValue(DataBlock(x)) == x
  {
    var line := DataBlock(x);
    IndexBehindPrefix("data", ':', x);
    assert line == "data" + ":" + x;
    assert line[..4] == "data" && line[5..] == x && line[5] == x[0];
  }

  lemma AbsorbDataBlock(x: string)
    requires Value(x)
    ensures Absorb(NO_FIELDS, DataBlock(x)) == Message(None, Some(x + "\n"))
  {
    DataBlockFields(x);
    assert "" + x + "\n" == x + "\n";
  }

  lemma {:induction false} OneDataLine(x: string)
    requires Value(x)
    ensures Solid(DataBlock(x))
    ensures ParseBlock(DataBlock(x)) == Some(Message(None, Some(x)))
  {
    var line := DataBlock(x);
    PrefixKeepsPlain("data:", x);
    LinesOfBlockOf([line]);
    AbsorbAllCons(NO_FIELDS, line, []);
    AbsorbDataBlock(x);
    assert (x + "\n")[..|x|] == x;
  }

  lemma {:induction false} DataBlockIsCut(x: string, t: string)
    requires Value(x)
    ensures var s := DataBlock(x) + "\n\n" + t;
            Find(s) == Some(Separator(|x| + 5, 2)) && FirstCut(s) == Cut(DataBlock(x), "\n\n") && AfterFirst(s) == t
  {
    OneDataLine(x);
    BlockIsCut([DataBlock(x)], t);
  }

  function TwoMessages(beat: string, update: string): string {
    DataBlock(beat) + "\n\n" + (DataBlock(update) + "\n\n" + "")
  }

  lemma NoSeparatorInLineFeed()
    ensures Find("\n") == None
  {
  }

  lemma StalePass(next: string, update: string, n: nat)
    requires |update| == n + 1 && next == DataBlock(update) + "\n\n" + ""
    ensures PassCut(next, Separator(n + 5, 2)) == Cut(DataBlock(update[..n]), update[n..] + "\n")
    ensures PassRest(next, Separator(n + 5, 2)) == "\n"
  {
  }

  lemma {:induction false} HeartbeatFirst<B>(json: Json<B>, s: string, cuts: seq<Cut>)
    requires Find(s).Some? && IsHeartbeat(json, FirstCut(s).block)
    requires Drain(json, AfterFirst(s), Find(s)).cuts == cuts
    ensures DrainChunk(json, s).cuts == [FirstCut(s)] + cuts
  {
  }

  lemma {:induction false} StaleDrains<B>(json: Json<B>, next: string, sep: Separator, c: Cut)
    requires next != "" && sep.length >= 2 && PassCut(next, sep) == c
    requires !IsHeartbeat(json, c.block)
    requires Find(PassRest(next, sep)) == None
    ensures Drain(json, next, Some(sep)).cuts == [c]
  {
  }

  lemma {:induction false} StaleCut<B>(json: Json<B>, beat: string, update: string)
    requires Value(beat) && Value(update) && |update| == |beat| + 1
    requires IsBeat(json, None, beat) && !IsHeartbeat(json, DataBlock(update[..|beat|]))
    ensures DrainChunk(json, TwoMessages(beat, update)).cuts
         == [Cut(DataBlock(beat), "\n\n"), Cut(DataBlock(update[..|beat|]), update[|beat|..] + "\n")]
  {
    var s, next := TwoMessages(beat, update), DataBlock(update) + "\n\n" + "";
    OneDataLine(beat);
    DataBlockIsCut(beat, next);
    var sep := Find(s).value;
    var c := Cut(DataBlock(update[..|beat|]), update[|beat|..] + "\n");
    StalePass(next, update, |beat|);
    NoSeparatorInLineFeed();
    StaleDrains(json, next, sep, c);
    HeartbeatFirst(json, s, [c]);
  }

  lemma {:induction false} DeliveredTwo<B>(json: Json<B>, c: Cut, d: Cut)
    ensures Delivered(json, [c, d]) == Handed(json, c.block) + Handed(json, d.block)
  {
    assert [c, d][1..] == [d] && [d][1..] == [];
    assert Delivered(json, [d]) == Handed(json, d.block) + Delivered(json, [d][1..]);
  }

  lemma {:induction false} TwoCuts(s: string)
    requires Find(s).Some? && Find(AfterFirst(s)).Some? && AfterFirst(AfterFirst(s)) == ""
    ensures Cuts(s).cuts == [FirstCut(s), FirstCut(AfterFirst(s))]
  {
    FindNothingInNothing();
    assert Cuts(AfterFirst(s)) == Framed([FirstCut(AfterFirst(s))] + [], "");
  }

  ghost predicate Scenario<B>(json: Json<B>, beat: string, update: string) {
    && Value(beat) && Value(update) && |update| == |beat| + 1 && Value(update[..|beat|])
    && IsBeat(json, None, beat) && !IsBeat(json, None, update[..|beat|])
  }

  lemma {:induction false} HeartbeatHandsNothing<B>(json: Json<B>, beat: string)
    requires Value(beat) && IsBeat(json, None, beat)
    ensures IsHeartbeat(json, DataBlock(beat)) && Handed(json, DataBlock(beat)) == []
  {
    OneDataLine(beat);
  }

  lemma {:induction false} InOneChunk<B>(json: Json<B>, beat: string, update: string)
    requires Scenario(json, beat, update)
    ensures Delivered(json, Feed(json, "", [TwoMessages(beat, update)]).cuts)
         == Handed(json, DataBlock(update[..|beat|]))
  {
    var s := TwoMessages(beat, update);
    var c, d := Cut(DataBlock(beat), "\n\n"), Cut(DataBlock(update[..|beat|]), update[|beat|..] + "\n");
    HeartbeatHandsNothing(json, beat);
    OneDataLine(update[..|beat|]);
    StaleCut(json, beat, update);
    FeedCons(json, s, []);
    assert [s] + [] == [s] && [c, d] + [] == [c, d];
    DeliveredTwo(json, c, d);
  }

  lemma {:induction false} OneAtATime<B>(json: Json<B>, beat: string, update: string)
    requires Scenario(json, beat, update)
    ensures Delivered(json, Feed(json, "", OneByOne(TwoMessages(beat, update))).cuts) == Handed(json, DataBlock(update))
  {
    var s, next := TwoMessages(beat, update), DataBlock(update) + "\n\n" + "";
    FindNothingInNothing();
    OneByOneIsFramed(json, s);
    DataBlockIsCut(beat, next);
    DataBlockIsCut(update, "");
    TwoCuts(s);
    HeartbeatHandsNothing(json, beat);
    DeliveredTwo(json, FirstCut(s), FirstCut(next));
  }

  /**
   * Arriving in one chunk, an update one character longer than the heartbeat before it is read
   * without its last character; arriving one character at a time it is read whole.
   */
  lemma {:induction false} UpdateIsTruncated<B>(json: Json<B>, beat: string, update: string)
    requires Scenario(json, beat, update)
    ensures var s := TwoMessages(beat, update);
            && Delivered(json, Feed(json, "", [s]).cuts) == Handed(json, DataBlock(update[..|beat|]))
            && Delivered(json, Feed(json, "", OneByOne(s)).cuts) == Handed(json, DataBlock(update))
  {
    InOneChunk(json, beat, update);
    OneAtATime(json, beat, update);
  }

  /** Where the shortened update is no JSON text, as with any object, the whole message is lost. */
  lemma {:induction false} UpdateIsLost<B>(json: Json<B>, beat: string, update: string)
    requires Scenario(json, beat, update) && json(update[..|beat|]) == Unreadable
    requires json(update).Readable? && !IsBeat(json, None, update)
    ensures var s := TwoMessages(beat, update);
            && Delivered(json, Feed(json, "", [s]).cuts) == []
            && Delivered(json, Feed(json, "", OneByOne(s)).cuts) == Meant(json, Outgoing(None, update))
  {
    UpdateIsTruncated(json, beat, update);
    OneDataLine(update[..|beat|]);
    OneDataLine(update);
    HandedAsMeant(json, DataBlock(update), Outgoing(None, update));
  }

  const BEAT := "{\"type\":\"heartbeat\"}"
  const UPDATE := "{\"a\":1,\"b\":2,\"c\":333}"

  /** What `JSON.parse` makes of the two texts and of the update without its last brace. */
  ghost predicate ReadsExample<B>(json: Json<B>) {
    && json(BEAT).Readable? && json(BEAT).kind == Some("heartbeat")
    && json(UPDATE).Readable? && json(UPDATE).kind == None
    && json(UPDATE[..20]) == Unreadable
  }

  lemma ExampleValues()
    ensures |BEAT| == 20 && |UPDATE| == 21
    ensures Value(BEAT) && Value(UPDATE) && Value(UPDATE[..20])
  {
  }

  /** So chunking can be heard: sent in one chunk behind the heartbeat, this update is lost. */
  lemma {:induction false} ChunkingCanBeHeard<B>(json: Json<B>)
    requires ReadsExample(json)
    ensures var s := TwoMessages(BEAT, UPDATE);
            && Delivered(json, Feed(json, "", [s]).cuts) == []
            && Delivered(json, Feed(json, "", OneByOne(s)).cuts) == [Deliver("odds_update", json(UPDATE).body)]
  {
    ExampleValues();
    UpdateIsLost(json, BEAT, UPDATE);
  }
}
