/** When the way the network cuts the stream into chunks can be seen in what the decoder produces. */
module Chunking {
  import opened Common
  import opened Framing
  import opened LineEnds
  import opened LineReader
  import opened Decoder

  function OneByOne(s: string): (chunks: seq<string>)
    ensures Concat(chunks) == s
  {
    if s == "" then [] else [s[..1]] + OneByOne(s[1..])
  }

  /** A separator that the last character completes ends the buffer. */
  lemma NewSeparatorEndsBuffer(s: string, c: char)
    requires Find(s) == None && Find(s + [c]).Some?
    ensures AfterFirst(s + [c]) == ""
  {
    var sep := Find(s + [c]).value;
    if sep.index + sep.length <= |s| {
      FindInPrefix(s, [c]);
      assert false;
    }
  }

  lemma {:induction false} OneByOneInStep<B>(json: Json<B>, buffer: string, s: string)
    requires Find(buffer) == None
    ensures AllInStep(json, buffer, OneByOne(s))
    decreases |s|
  {
    if s != "" {
      var u := buffer + s[..1];
      assert s[..1] == [s[0]];
      if Find(u).Some? { NewSeparatorEndsBuffer(buffer, s[0]); }
      FindNothingInNothing();
      assert InStep(json, u);
      CutsFrame(u);
      OneByOneInStep(json, Cuts(u).rest, s[1..]);
      assert OneByOne(s)[1..] == OneByOne(s[1..]);
    }
  }

  /** Delivered one character at a time, every text is framed correctly, heartbeats or not. */
  lemma {:induction false} OneByOneIsFramed<B>(json: Json<B>, s: string)
    ensures Feed(json, "", OneByOne(s)) == Cuts(s)
  {
    FindNothingInNothing();
    OneByOneInStep(json, "", s);
    StreamFramesIff(json, OneByOne(s));
  }

  lemma FirstCutOfPrefix(s: string, head: string, n: nat)
    requires Find(s).Some? && Find(s).value.index + Find(s).value.length <= n <= |s| && head == s[..n]
    ensures Find(head) == Find(s) && FirstCut(head) == FirstCut(s)
    ensures AfterFirst(head) == s[Find(s).value.index + Find(s).value.length..n]
  {
    assert head + s[n..] == s;
    FindInPrefix(head, s[n..]);
  }

  lemma {:induction false} FeedCons<B>(json: Json<B>, u: string, more: seq<string>)
    ensures var now := DrainChunk(json, u); var later := Feed(json, now.rest, more);
            Feed(json, "", [u] + more) == Framed(now.cuts + later.cuts, later.rest)
  {
    assert "" + u == u && ([u] + more)[1..] == more;
  }

  lemma TwoChunks(head: string, tail: string)
    ensures Concat([head, tail]) == head + tail
  {
    assert [head, tail][1..] == [tail] && [tail][1..] == [];
    assert Concat([tail]) == tail + Concat([tail][1..]);
  }

  /** One character behind a heartbeat is enough to be out of step. */
  lemma {:induction false} OneMoreIsOutOfStep<B>(json: Json<B>, head: string)
    requires Find(head).Some? && IsHeartbeat(json, FirstCut(head).block) && |AfterFirst(head)| == 1
    ensures !InStep(json, head)
  {
    assert Find(AfterFirst(head)) == None;
  }

  lemma {:induction false} HeadOutOfStep<B>(json: Json<B>, head: string, tail: string)
    requires !InStep(json, head)
    ensures !AllInStep(json, "", [head, tail])
  {
    assert "" + head == head;
  }

  lemma {:induction false} MoreOutOfStep<B>(json: Json<B>, head: string, more: seq<string>)
    requires Find(head).Some? && AfterFirst(head) == "" && !AllInStep(json, "", more)
    ensures !AllInStep(json, "", [head] + more)
  {
    FindNothingInNothing();
    assert Cuts(head).rest == Cuts("").rest == "";
    var chunks := [head] + more;
    assert "" + head == head && chunks[0] == head && chunks[1..] == more;
  }

  lemma {:induction false} SplitBehindHeartbeat<B>(json: Json<B>, s: string, head: string, tail: string)
    requires Find(s).Some? && IsHeartbeat(json, FirstCut(s).block) && AfterFirst(s) != ""
    requires s == head + tail && |head| == Find(s).value.index + Find(s).value.length + 1
    ensures Concat([head, tail]) == s && !AllInStep(json, "", [head, tail])
  {
    TwoChunks(head, tail);
    FirstCutOfPrefix(s, head, |head|);
    OneMoreIsOutOfStep(json, head);
    HeadOutOfStep(json, head, tail);
  }

  lemma {:induction false} SplitBehindFirst<B>(json: Json<B>, s: string, head: string, more: seq<string>)
    requires Find(s).Some? && s == head + AfterFirst(s) && |head| == Find(s).value.index + Find(s).value.length
    requires Concat(more) == AfterFirst(s) && !AllInStep(json, "", more)
    ensures Concat([head] + more) == s && !AllInStep(json, "", [head] + more)
  {
    FirstCutOfPrefix(s, head, |head|);
    MoreOutOfStep(json, head, more);
    assert ([head] + more)[1..] == more;
  }

  lemma SplitFirst(s: string, more: nat) returns (head: string, tail: string)
    requires Find(s).Some? && more <= |AfterFirst(s)|
    ensures s == head + tail && |head| == Find(s).value.index + Find(s).value.length + more
    ensures tail == AfterFirst(s)[more..]
    ensures more == 0 ==> tail == AfterFirst(s)
  {
    var n := Find(s).value.index + Find(s).value.length + more;
    head, tail := s[..n], s[n..];
  }

  /** A stream in which text follows a heartbeat has a chunking that is out of step: it ends one character behind it. */
  lemma {:induction false} ChunkingOutOfStep<B>(json: Json<B>, s: string) returns (chunks: seq<string>)
    requires !HeartbeatsEnd(json, s)
    ensures Concat(chunks) == s && !AllInStep(json, "", chunks)
    decreases |s|
  {
    var rest := AfterFirst(s);
    if IsHeartbeat(json, FirstCut(s).block) && rest != "" {
      var head, tail := SplitFirst(s, 1);
      SplitBehindHeartbeat(json, s, head, tail);
      chunks := [head, tail];
    } else {
      var more := ChunkingOutOfStep(json, rest);
      var head, _ := SplitFirst(s, 0);
      SplitBehindFirst(json, s, head, more);
      chunks := [head] + more;
    }
  }

  lemma {:induction false} ChunkingThatShows<B>(json: Json<B>, s: string) returns (chunks: seq<string>)
    requires !HeartbeatsEnd(json, s)
    ensures Concat(chunks) == s && Feed(json, "", chunks) != Cuts(s)
  {
    chunks := ChunkingOutOfStep(json, s);
    StreamFramesIff(json, chunks);
  }

  /**
   * Every chunking of the stream gives the blocks and the leftover of the stream framed whole,
   * if and only if no heartbeat in it is followed by any text.
   */
  lemma ChunkingIsInvisibleIff<B>(json: Json<B>, s: string)
    ensures (forall chunks :: Concat(chunks) == s ==> Feed(json, "", chunks) == Cuts(s)) <==> HeartbeatsEnd(json, s)
  {
    if HeartbeatsEnd(json, s) {
      forall chunks | Concat(chunks) == s
        ensures Feed(json, "", chunks) == Cuts(s)
      {
        QuietStreamInStep(json, chunks);
        StreamFramesIff(json, chunks);
      }
    } else {
      var chunks := ChunkingThatShows(json, s);
    }
  }

  /** What the handlers receive, said in terms of the standard's events. */
  function Heard<B>(json: Json<B>, events: seq<Event>): seq<Verdict<B>> {
    if events == [] then []
    else
      var v := Interpret(json, events[0].name, events[0].data);
      (if v.Deliver? then [v] else []) + Heard(json, events[1..])
  }

  lemma {:induction false} HeardAppend<B>(json: Json<B>, a: seq<Event>, b: seq<Event>)
    ensures Heard(json, a + b) == Heard(json, a) + Heard(json, b)
  {
    if a == [] {
      assert a + b == b;
    } else {
      assert (a + b)[1..] == a[1..] + b;
      HeardAppend(json, a[1..], b);
      var v := Interpret(json, a[0].name, a[0].data);
      Regroup(if v.Deliver? then [v] else [], Heard(json, a[1..]), Heard(json, b));
    }
  }

  lemma {:induction false} DeliveredIsHeard<B>(json: Json<B>, cuts: seq<Cut>)
    ensures Delivered(json, cuts) == Heard(json, EventsOf(cuts))
  {
    if cuts != [] {
      DeliveredIsHeard(json, cuts[1..]);
      var events := EventOf(cuts[0].block);
      HeardAppend(json, events, EventsOf(cuts[1..]));
      if events != [] { assert events[1..] == []; }
    }
  }

  /**
   * The handlers receive what the line-by-line reader dispatches for the whole stream (events with non-empty
   * data), in order, however it was cut into chunks, as long as every buffer is in step.
   */
  lemma StreamRefinesReader<B>(json: Json<B>, chunks: seq<string>)
    requires AllInStep(json, "", chunks)
    ensures Delivered(json, Feed(json, "", chunks).cuts) == Heard(json, WithData(ReadFeeds(Concat(chunks), EMPTY)))
  {
    StreamFramesIff(json, chunks);
    DeliveredIsHeard(json, Cuts(Concat(chunks)).cuts);
    BlocksRefineLines(Concat(chunks));
  }

  /** This is the standard's reader where every line of the stream is harmless, as it is without a CR of its own. */
  lemma StreamRefinesStandard<B>(json: Json<B>, chunks: seq<string>)
    requires AllInStep(json, "", chunks)
    requires ReadsAlike(Concat(chunks))
    ensures Delivered(json, Feed(json, "", chunks).cuts) == Heard(json, WithData(Read(Concat(chunks), EMPTY)))
  {
    StreamRefinesReader(json, chunks);
    StandardReads(Concat(chunks), EMPTY);
  }
}
