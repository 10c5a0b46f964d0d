/**
 * The body of the stream connection: chunks of text come in, blocks are cut off the buffer, and
 * readable messages are handed on. A heartbeat skips the search for the next separator, so the
 * position of its own separator is applied once more to whatever text comes next.
 */
module Decoder {
  import opened Common
  import opened Framing
  import opened EventBlocks

  /** What `JSON.parse` and the field accesses make of a block's data. */
  datatype Reading<+B> = Unreadable | Readable(kind: Option<string>, body: B)

  type Json<!B> = string -> Reading<B>

  datatype Verdict<+B> = Silent | Warning | Heartbeat | Deliver(kind: string, body: B)

  function Interpret<B>(json: Json<B>, event: string, data: string): Verdict<B> {
    match json(data)
    case Unreadable => Warning
    case Readable(kind, body) =>
      var t := if event == "heartbeat" then "heartbeat" else kind.GetOr("odds_update");
      if t == "heartbeat" then Heartbeat else Deliver(t, body)
  }

  function Judge<B>(json: Json<B>, block: string): Verdict<B> {
    var m := ParseBlock(block);
    if m.None? || !Truthy(m.value.data) then Silent
    else Interpret(json, m.value.event.GetOr(""), m.value.data.value)
  }

  /** The data of a block, empty where it has none, and its event field. */
  function DataOf(block: string): string {
    var m := ParseBlock(block);
    if m.None? then "" else m.value.data.GetOr("")
  }

  function EventName(block: string): Option<string> {
    var m := ParseBlock(block);
    if m.None? then None else m.value.event
  }

  /** Readable data under the event heartbeat, or of the type heartbeat. */
  predicate IsBeat<B>(json: Json<B>, event: Option<string>, data: string) {
    json(data).Readable? && (event == Some("heartbeat") || json(data).kind == Some("heartbeat"))
  }

  /** A block with data is judged by its fields. */
  lemma JudgedByFields<B>(json: Json<B>, block: string)
    ensures var data, event, v := DataOf(block), EventName(block), Judge(json, block);
            && (v == Heartbeat <==> data != "" && IsBeat(json, event, data))
            && (v == Warning <==> data != "" && json(data) == Unreadable)
            && (v == Silent <==> data == "")
            && (v.Deliver? <==> data != "" && json(data).Readable? && !IsBeat(json, event, data))
            && (v.Deliver? ==> v.body == json(data).body
                               && v.kind == if json(data).kind.Some? then json(data).kind.value else "odds_update")
  {
  }

  predicate IsHeartbeat<B>(json: Json<B>, block: string) {
    Judge(json, block).Heartbeat?
  }

  lemma EmptyBlockIsSilent<B>(json: Json<B>)
    ensures Judge(json, "") == Silent
  {
    AbsorbAllCons(NO_FIELDS, "", []);
    assert Lines("") == [""];
  }

  /** One pass of the draining loop: slicing stops at the end of the buffer. */
  function PassCut(buffer: string, sep: Separator): Cut {
    var i := Min(sep.index, |buffer|);
    Cut(buffer[..i], buffer[i..Min(sep.index + sep.length, |buffer|)])
  }

  function PassRest(buffer: string, sep: Separator): (rest: string)
    ensures sep.length > 0 && buffer != "" ==> |rest| < |buffer|
    ensures PassCut(buffer, sep).block + PassCut(buffer, sep).sep + rest == buffer
  {
    buffer[Min(sep.index + sep.length, |buffer|)..]
  }

  /** The separator for the next pass: after a heartbeat the old one is kept, otherwise a new one is searched for. */
  function NextSeparator<B>(json: Json<B>, block: string, sep: Separator, rest: string): (next: Option<Separator>)
    requires sep.length >= 2
    ensures next.Some? ==> next.value.length >= 2
  {
    if IsHeartbeat(json, block) then Some(sep) else Find(rest)
  }

  function Prepend(c: Cut, f: Framed): Framed {
    Framed([c] + f.cuts, f.rest)
  }

  /**
   * The draining loop, from a buffer and the separator the loop currently holds, which may be
   * stale. A pass over an empty buffer consumes no text.
   */
  function Drain<B>(json: Json<B>, buffer: string, separator: Option<Separator>): Framed
    requires separator.Some? ==> separator.value.length >= 2
    decreases |buffer|
  {
    if separator.None? then Framed([], buffer)
    else if buffer == "" then Framed([], "")
    else
      var c, rest := PassCut(buffer, separator.value), PassRest(buffer, separator.value);
      Prepend(c, Drain(json, rest, NextSeparator(json, c.block, separator.value, rest)))
  }

  lemma PrependIsInjective(c: Cut, f: Framed, d: Cut, g: Framed)
    ensures Prepend(c, f) == Prepend(d, g) <==> c == d && f == g
  {
    assert Prepend(c, f).cuts[0] == c && Prepend(c, f).cuts[1..] == f.cuts;
    assert Prepend(d, g).cuts[0] == d && Prepend(d, g).cuts[1..] == g.cuts;
  }

  function DrainChunk<B>(json: Json<B>, buffer: string): Framed {
    Drain(json, buffer, Find(buffer))
  }

  /** The whole body: each chunk is appended to what the last one left, and the buffer is drained. */
  function Feed<B>(json: Json<B>, buffer: string, chunks: seq<string>): Framed
    decreases |chunks|
  {
    if chunks == [] then Framed([], buffer)
    else
      var now := DrainChunk(json, buffer + chunks[0]);
      var later := Feed(json, now.rest, chunks[1..]);
      Framed(now.cuts + later.cuts, later.rest)
  }

  /** What one block hands to the message handlers. */
  function Handed<B>(json: Json<B>, block: string): seq<Verdict<B>> {
    var v := Judge(json, block);
    if v.Deliver? then [v] else []
  }

  function Delivered<B>(json: Json<B>, cuts: seq<Cut>): seq<Verdict<B>> {
    if cuts == [] then [] else Handed(json, cuts[0].block) + Delivered(json, cuts[1..])
  }

  lemma {:induction false} DeliveredAppend<B>(json: Json<B>, a: seq<Cut>, b: seq<Cut>)
    ensures Delivered(json, a + b) == Delivered(json, a) + Delivered(json, b)
  {
    if a == [] {
      assert a + b == b;
    } else {
      assert (a + b)[1..] == a[1..] + b;
      DeliveredAppend(json, a[1..], b);
      Regroup(Handed(json, a[0].block), Delivered(json, a[1..]), Delivered(json, b));
    }
  }

  lemma FindNothingInNothing()
    ensures Find("") == None
  {
  }

  lemma {:induction false} OnePass<B>(json: Json<B>, buffer: string, sep: Separator)
    requires sep.length >= 2
    ensures var c, rest := PassCut(buffer, sep), PassRest(buffer, sep);
            var next := NextSeparator(json, c.block, sep, rest);
            var now, later := Drain(json, buffer, Some(sep)), Drain(json, rest, next);
            && Delivered(json, now.cuts) == Handed(json, c.block) + Delivered(json, later.cuts)
            && now.rest == later.rest
            && (|rest| < |buffer| || (rest == buffer && next.None?))
  {
    if buffer == "" {
      EmptyBlockIsSilent(json);
      FindNothingInNothing();
    } else {
      var c, rest := PassCut(buffer, sep), PassRest(buffer, sep);
      assert Drain(json, buffer, Some(sep)).cuts[1..]
          == Drain(json, rest, NextSeparator(json, c.block, sep, rest)).cuts;
    }
  }

  /** One pass in code: parse the block, hand its message on, or skip the new search after a heartbeat. */
  method HandleBlock<B>(json: Json<B>, block: string) returns (handed: seq<Verdict<B>>, heartbeat: bool)
    ensures handed == Handed(json, block)
    ensures heartbeat == IsHeartbeat(json, block)
    ensures heartbeat <==> DataOf(block) != "" && IsBeat(json, EventName(block), DataOf(block))
    ensures heartbeat || DataOf(block) == "" || json(DataOf(block)) == Unreadable ==> handed == []
    ensures var data := DataOf(block);
            !heartbeat && data != "" && json(data).Readable? ==>
              var kind := json(data).kind;
              handed == [Deliver(if kind.Some? then kind.value else "odds_update", json(data).body)]
  {
    handed, heartbeat := [], false;
    JudgedByFields(json, block);
    var message := ParseSseBlock(block);
    if message.Some? && Truthy(message.value.data) {
      var verdict := Interpret(json, message.value.event.GetOr(""), message.value.data.value);
      if verdict.Heartbeat? { return [], true; }
      if verdict.Deliver? { handed := [verdict]; }
    }
  }

  /** The inner loop: cuts blocks off the buffer until no separator is held. */
  method DrainBuffer<B>(json: Json<B>, text: string) returns (delivered: seq<Verdict<B>>, buffer: string)
    ensures delivered == Delivered(json, DrainChunk(json, text).cuts)
    ensures buffer == DrainChunk(json, text).rest
  {
    delivered, buffer := [], text;
    var separator := Find(buffer);
    while separator.Some?
      invariant separator.Some? ==> separator.value.length >= 2
      invariant delivered + Delivered(json, Drain(json, buffer, separator).cuts)
             == Delivered(json, DrainChunk(json, text).cuts)
      invariant Drain(json, buffer, separator).rest == DrainChunk(json, text).rest
      decreases |buffer|, if separator.Some? then 1 else 0
    {
      OnePass(json, buffer, separator.value);
      var block := PassCut(buffer, separator.value).block;
      ghost var later := Drain(json, PassRest(buffer, separator.value),
                               NextSeparator(json, block, separator.value, PassRest(buffer, separator.value)));
      Regroup(delivered, Handed(json, block), Delivered(json, later.cuts));
      buffer := PassRest(buffer, separator.value);
      var handed, heartbeat := HandleBlock(json, block);
      delivered := delivered + handed;
      if heartbeat { continue; }
      separator := Find(buffer);
    }
  }

  lemma {:induction false} FeedInTwo<B>(json: Json<B>, buffer: string, chunks: seq<string>, n: nat)
    requires n < |chunks|
    ensures var now := DrainChunk(json, buffer + chunks[n]);
            var all, later := Feed(json, buffer, chunks[n..]), Feed(json, now.rest, chunks[n + 1..]);
            && Delivered(json, all.cuts) == Delivered(json, now.cuts) + Delivered(json, later.cuts)
            && all.rest == later.rest
  {
    assert chunks[n..][0] == chunks[n] && chunks[n..][1..] == chunks[n + 1..];
    var now := DrainChunk(json, buffer + chunks[n]);
    DeliveredAppend(json, now.cuts, Feed(json, now.rest, chunks[n + 1..]).cuts);
  }

  /** The separator as slicing applies it to a text of n characters. */
  function Clamp(sep: Separator, n: nat): Separator {
    var i := Min(sep.index, n);
    Separator(i, Min(sep.index + sep.length, n) - i)
  }

  /** The held separator, clamped, is the one the text really has next; on an empty text it does no harm. */
  predicate Fits(sep: Separator, text: string) {
    text == "" || Find(text) == Some(Clamp(sep, |text|))
  }

  /** After every heartbeat, the heartbeat's separator fits the text that follows it in the buffer. */
  predicate InStep<B>(json: Json<B>, buffer: string)
    decreases |buffer|
  {
    Find(buffer).Some? ==>
      && (IsHeartbeat(json, FirstCut(buffer).block) ==> Fits(Find(buffer).value, AfterFirst(buffer)))
      && InStep(json, AfterFirst(buffer))
  }

  /** Every buffer that is drained is in step: none of the separators held in it misses what follows it there. */
  predicate AllInStep<B>(json: Json<B>, buffer: string, chunks: seq<string>)
    decreases |chunks|
  {
    chunks != [] ==>
      && InStep(json, buffer + chunks[0])
      && AllInStep(json, Cuts(buffer + chunks[0]).rest, chunks[1..])
  }

  /** A separator that reaches beyond the text cuts at the end of the text, whatever its length. */
  lemma {:induction false} LastPass<B>(json: Json<B>, text: string, sep: Separator)
    requires text != "" && sep.length >= 2 && PassRest(text, sep) == ""
    ensures Drain(json, text, Some(sep)) == Prepend(PassCut(text, sep), Framed([], ""))
  {
    FindNothingInNothing();
    var next := NextSeparator(json, PassCut(text, sep).block, sep, "");
    assert Drain(json, "", next) == Framed([], "");
  }

  lemma {:induction false} ClampedSeparator<B>(json: Json<B>, text: string, sep: Separator)
    requires sep.length >= 2 && text != ""
    requires Clamp(sep, |text|) != sep && Find(text) == Some(Clamp(sep, |text|))
    ensures Drain(json, text, Some(sep)) == DrainChunk(json, text)
  {
    var found := Clamp(sep, |text|);
    assert PassCut(text, sep) == PassCut(text, found);
    assert PassRest(text, sep) == "" && PassRest(text, found) == "";
    LastPass(json, text, sep);
    LastPass(json, text, found);
  }

  lemma CutTellsSeparator(text: string, sep: Separator)
    requires Find(text).Some?
    ensures PassCut(text, sep) == FirstCut(text) ==> Find(text) == Some(Clamp(sep, |text|))
  {
    var a, b := PassCut(text, sep), FirstCut(text);
    assert |a.block| == Clamp(sep, |text|).index && |a.sep| == Clamp(sep, |text|).length;
    assert |b.block| == Find(text).value.index && |b.sep| == Find(text).value.length;
  }

  lemma {:induction false} UnfitSeparator<B>(json: Json<B>, text: string, sep: Separator)
    requires sep.length >= 2 && text != "" && Find(text) != Some(Clamp(sep, |text|))
    ensures Drain(json, text, Some(sep)) != Cuts(text)
  {
    var c, rest := PassCut(text, sep), PassRest(text, sep);
    var later := Drain(json, rest, NextSeparator(json, c.block, sep, rest));
    assert Drain(json, text, Some(sep)) == Prepend(c, later);
    assert Prepend(c, later).cuts[0] == c;
    if Find(text).Some? {
      var more := Cuts(AfterFirst(text));
      assert Cuts(text) == Prepend(FirstCut(text), more);
      PrependIsInjective(c, later, FirstCut(text), more);
      CutTellsSeparator(text, sep);
    }
  }

  /** Going on with the separator already held is as good as searching exactly when it fits. */
  lemma {:induction false} HeldSeparator<B>(json: Json<B>, text: string, sep: Separator)
    requires sep.length >= 2
    ensures Fits(sep, text) ==> Drain(json, text, Some(sep)) == DrainChunk(json, text)
    ensures !Fits(sep, text) ==> Drain(json, text, Some(sep)) != Cuts(text)
  {
    if text == "" {
      FindNothingInNothing();
    } else if Fits(sep, text) {
      if Clamp(sep, |text|) != sep { ClampedSeparator(json, text, sep); }
    } else {
      UnfitSeparator(json, text, sep);
    }
  }

  lemma CutInside(text: string, t: string, c: Cut)
    requires Find(text + t).Some? && FirstCut(text + t) == c && |c.block| + |c.sep| <= |text|
    ensures Find(text) == Find(text + t) && FirstCut(text) == c
  {
    var found := Find(text + t).value;
    assert |c.block| == found.index && |c.sep| == found.length;
    FindInPrefix(text, t);
  }

  /** A separator that does not fit cuts otherwise than the framing does, whatever text comes later. */
  lemma {:induction false} UnfitForEver<B>(json: Json<B>, text: string, sep: Separator, t: string)
    requires sep.length >= 2 && !Fits(sep, text)
    ensures var cuts := Drain(json, text, Some(sep)).cuts;
            cuts != [] && (Cuts(text + t).cuts != [] ==> Cuts(text + t).cuts[0] != cuts[0])
  {
    var c, rest := PassCut(text, sep), PassRest(text, sep);
    assert Drain(json, text, Some(sep)) == Prepend(c, Drain(json, rest, NextSeparator(json, c.block, sep, rest)));
    if Find(text + t).Some? && FirstCut(text + t) == c {
      CutInside(text, t, c);
      CutTellsSeparator(text, sep);
    }
  }

  lemma FirstCutGrows(s: string, t: string)
    requires Find(s).Some?
    ensures Find(s + t) == Find(s) && FirstCut(s + t) == FirstCut(s) && AfterFirst(s + t) == AfterFirst(s) + t
  {
    FindIsStable(s, t);
  }

  lemma CutsDiffer(c: Cut, a: seq<Cut>, later: seq<Cut>, b: seq<Cut>)
    requires a + later != b
    ensures [c] + a + later != [c] + b
  {
    Regroup([c], a, later);
    SamePrefix([c], a + later, b);
  }

  /** A buffer that is out of step spoils the cuts for good. */
  lemma {:induction false} OutOfStep<B>(json: Json<B>, u: string, t: string, later: seq<Cut>)
    requires !InStep(json, u)
    ensures DrainChunk(json, u).cuts + later != Cuts(u + t).cuts
    decreases |u|
  {
    var sep, c, rest := Find(u).value, FirstCut(u), AfterFirst(u);
    FirstCutGrows(u, t);
    var now := Drain(json, rest, NextSeparator(json, c.block, sep, rest));
    assert DrainChunk(json, u) == Prepend(c, now);
    assert Cuts(u + t) == Prepend(c, Cuts(rest + t));
    if IsHeartbeat(json, c.block) && !Fits(sep, rest) {
      UnfitForEver(json, rest, sep, t);
      assert (now.cuts + later)[0] == now.cuts[0];
    } else {
      if IsHeartbeat(json, c.block) { HeldSeparator(json, rest, sep); }
      OutOfStep(json, rest, t, later);
    }
    CutsDiffer(c, now.cuts, later, Cuts(rest + t).cuts);
  }

  /** Draining one buffer frames it correctly exactly when every heartbeat's separator fits what follows. */
  lemma {:induction false} DrainFramesIff<B>(json: Json<B>, buffer: string)
    ensures DrainChunk(json, buffer) == Cuts(buffer) <==> InStep(json, buffer)
    decreases |buffer|
  {
    if Find(buffer).Some? {
      var sep, c, rest := Find(buffer).value, FirstCut(buffer), AfterFirst(buffer);
      var next := NextSeparator(json, c.block, sep, rest);
      assert DrainChunk(json, buffer) == Prepend(c, Drain(json, rest, next));
      assert Cuts(buffer) == Prepend(c, Cuts(rest));
      PrependIsInjective(c, Drain(json, rest, next), c, Cuts(rest));
      DrainFramesIff(json, rest);
      if IsHeartbeat(json, c.block) {
        HeldSeparator(json, rest, sep);
      }
    }
  }

  /** One chunk that is in step: the rest of the stream decides. */
  lemma {:induction false} FeedAfterChunk<B>(json: Json<B>, buffer: string, chunks: seq<string>)
    requires chunks != [] && InStep(json, buffer + chunks[0])
    ensures var rest, t := Cuts(buffer + chunks[0]).rest, Concat(chunks[1..]);
            && Find(rest) == None
            && (Feed(json, buffer, chunks) == Cuts(buffer + Concat(chunks))
                <==> Feed(json, rest, chunks[1..]) == Cuts(rest + t))
  {
    var u, t := buffer + chunks[0], Concat(chunks[1..]);
    Regroup(buffer, chunks[0], t);
    DrainFramesIff(json, u);
    CutsFrame(u);
    CutsInTwoPieces(u, t);
    var f := Cuts(u);
    SamePrefix(f.cuts, Feed(json, f.rest, chunks[1..]).cuts, Cuts(f.rest + t).cuts);
  }

  /**
   * Reading any list of chunks gives the blocks and the leftover of the whole text
   * if and only if every buffer that is drained is in step.
   */
  lemma {:induction false} FeedFramesIff<B>(json: Json<B>, buffer: string, chunks: seq<string>)
    requires Find(buffer) == None
    ensures Feed(json, buffer, chunks) == Cuts(buffer + Concat(chunks)) <==> AllInStep(json, buffer, chunks)
    decreases |chunks|
  {
    if chunks == [] {
      assert buffer + "" == buffer;
    } else if InStep(json, buffer + chunks[0]) {
      FeedAfterChunk(json, buffer, chunks);
      FeedFramesIff(json, Cuts(buffer + chunks[0]).rest, chunks[1..]);
    } else {
      var u := buffer + chunks[0];
      OutOfStep(json, u, Concat(chunks[1..]), Feed(json, DrainChunk(json, u).rest, chunks[1..]).cuts);
      Regroup(buffer, chunks[0], Concat(chunks[1..]));
    }
  }

  /** From an empty buffer on. */
  lemma {:induction false} StreamFramesIff<B>(json: Json<B>, chunks: seq<string>)
    ensures Feed(json, "", chunks) == Cuts(Concat(chunks)) <==> AllInStep(json, "", chunks)
  {
    FindNothingInNothing();
    assert "" + Concat(chunks) == Concat(chunks);
    FeedFramesIff(json, "", chunks);
  }

  /** The reading loop of one connection: `chunks` are the decoded reads until the end of the body. */
  method ReadBody<B>(json: Json<B>, chunks: seq<string>) returns (delivered: seq<Verdict<B>>, buffer: string)
    ensures delivered == Delivered(json, Feed(json, "", chunks).cuts)
    ensures buffer == Feed(json, "", chunks).rest
    ensures AllInStep(json, "", chunks) ==>
              delivered == Delivered(json, Cuts(Concat(chunks)).cuts) && buffer == Cuts(Concat(chunks)).rest
  {
    delivered, buffer := [], "";
    ghost var all := Feed(json, "", chunks);
    ghost var ahead := all;
    for n := 0 to |chunks|
      invariant ahead == Feed(json, buffer, chunks[n..]) && ahead.rest == all.rest
      invariant delivered + Delivered(json, ahead.cuts) == Delivered(json, all.cuts)
    {
      ghost var now := DrainChunk(json, buffer + chunks[n]);
      FeedInTwo(json, buffer, chunks, n);
      ahead := Feed(json, now.rest, chunks[n + 1..]);
      Regroup(delivered, Delivered(json, now.cuts), Delivered(json, ahead.cuts));
      var more;
      more, buffer := DrainBuffer(json, buffer + chunks[n]);
      delivered := delivered + more;
    }
    StreamFramesIff(json, chunks);
  }

  lemma JoinedPrepend(c: Cut, f: Framed)
    ensures var g := Prepend(c, f); Joined(g.cuts) + g.rest == c.block + c.sep + (Joined(f.cuts) + f.rest)
  {
    assert Prepend(c, f).cuts[1..] == f.cuts;
    Regroup(c.block + c.sep, Joined(f.cuts), f.rest);
  }

  lemma {:induction false} DrainConservesText<B>(json: Json<B>, buffer: string, separator: Option<Separator>)
    requires separator.Some? ==> separator.value.length >= 2
    ensures var f := Drain(json, buffer, separator); Joined(f.cuts) + f.rest == buffer
    decreases |buffer|
  {
    if separator.Some? && buffer != "" {
      var c, rest := PassCut(buffer, separator.value), PassRest(buffer, separator.value);
      var next := NextSeparator(json, c.block, separator.value, rest);
      DrainConservesText(json, rest, next);
      JoinedPrepend(c, Drain(json, rest, next));
    }
  }

  /** No text is lost, invented or reordered, however the chunks fall and whatever the heartbeats do. */
  lemma {:induction false} FeedConservesText<B>(json: Json<B>, buffer: string, chunks: seq<string>)
    ensures var f := Feed(json, buffer, chunks);
            Joined(f.cuts) + f.rest == buffer + Concat(chunks)
    decreases |chunks|
  {
    if chunks == [] {
      assert buffer + "" == buffer;
    } else {
      var u := buffer + chunks[0];
      var now := DrainChunk(json, u);
      var later := Feed(json, now.rest, chunks[1..]);
      DrainConservesText(json, u, Find(u));
      FeedConservesText(json, now.rest, chunks[1..]);
      JoinedAppend(now.cuts, later.cuts);
      Regroup(Joined(now.cuts), Joined(later.cuts), later.rest);
      Regroup(Joined(now.cuts), now.rest, Concat(chunks[1..]));
      Regroup(buffer, chunks[0], Concat(chunks[1..]));
    }
  }

  /** No heartbeat is followed by any further text. */
  predicate HeartbeatsEnd<B>(json: Json<B>, s: string)
    decreases |s|
  {
    Find(s).Some? ==>
      && (IsHeartbeat(json, FirstCut(s).block) ==> AfterFirst(s) == "")
      && HeartbeatsEnd(json, AfterFirst(s))
  }

  lemma {:induction false} HeartbeatsEndImpliesInStep<B>(json: Json<B>, s: string)
    requires HeartbeatsEnd(json, s)
    ensures InStep(json, s)
    decreases |s|
  {
    if Find(s).Some? { HeartbeatsEndImpliesInStep(json, AfterFirst(s)); }
  }

  /** The condition passes to the part of a text that has arrived, and to the leftover with the rest. */
  lemma {:induction false} HeartbeatsEndInPieces<B>(json: Json<B>, s: string, t: string)
    requires HeartbeatsEnd(json, s + t)
    ensures HeartbeatsEnd(json, s) && HeartbeatsEnd(json, Cuts(s).rest + t)
    decreases |s|
  {
    if Find(s).Some? {
      FindIsStable(s, t);
      assert FirstCut(s + t) == FirstCut(s);
      assert AfterFirst(s + t) == AfterFirst(s) + t;
      HeartbeatsEndInPieces(json, AfterFirst(s), t);
    }
  }

  // ----- Lists of chunks -----

  /** In every buffer that is drained, each heartbeat is the end of what has arrived. */
  predicate HeartbeatsEndBuffers<B>(json: Json<B>, buffer: string, chunks: seq<string>)
    decreases |chunks|
  {
    chunks != [] ==>
      && HeartbeatsEnd(json, buffer + chunks[0])
      && HeartbeatsEndBuffers(json, Cuts(buffer + chunks[0]).rest, chunks[1..])
  }

  /** Keep-alives that end their buffer do no harm, whatever follows in later chunks. */
  lemma {:induction false} BuffersEndInStep<B>(json: Json<B>, buffer: string, chunks: seq<string>)
    requires HeartbeatsEndBuffers(json, buffer, chunks)
    ensures AllInStep(json, buffer, chunks)
    decreases |chunks|
  {
    if chunks != [] {
      HeartbeatsEndImpliesInStep(json, buffer + chunks[0]);
      BuffersEndInStep(json, Cuts(buffer + chunks[0]).rest, chunks[1..]);
    }
  }

  /** When no heartbeat of the whole text is followed by text, this is so in every buffer. */
  lemma {:induction false} QuietTextEndsBuffers<B>(json: Json<B>, buffer: string, chunks: seq<string>)
    requires HeartbeatsEnd(json, buffer + Concat(chunks))
    ensures HeartbeatsEndBuffers(json, buffer, chunks)
    decreases |chunks|
  {
    if chunks != [] {
      Regroup(buffer, chunks[0], Concat(chunks[1..]));
      HeartbeatsEndInPieces(json, buffer + chunks[0], Concat(chunks[1..]));
      QuietTextEndsBuffers(json, Cuts(buffer + chunks[0]).rest, chunks[1..]);
    }
  }

  /** Every heartbeat ending its buffer, the chunks give the blocks and the leftover of the whole text. */
  lemma {:induction false} QuietFeedIsFraming<B>(json: Json<B>, buffer: string, chunks: seq<string>)
    requires Find(buffer) == None
    requires HeartbeatsEndBuffers(json, buffer, chunks)
    ensures Feed(json, buffer, chunks) == Cuts(buffer + Concat(chunks))
  {
    BuffersEndInStep(json, buffer, chunks);
    FeedFramesIff(json, buffer, chunks);
  }

  lemma {:induction false} QuietStreamInStep<B>(json: Json<B>, chunks: seq<string>)
    requires HeartbeatsEnd(json, Concat(chunks))
    ensures AllInStep(json, "", chunks)
  {
    assert "" + Concat(chunks) == Concat(chunks);
    QuietTextEndsBuffers(json, "", chunks);
    BuffersEndInStep(json, "", chunks);
  }
}
