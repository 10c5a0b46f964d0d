/**
 * A CR that stands alone ends a line for the standard's reader and not for the source: which lines
 * and texts the two read alike all the same.
 */
module LineEnds {
  import opened Framing
  import opened EventBlocks
  import opened LineReader

  /** A line that leaves the reader's buffers as they are; a blank line does not. */
  predicate Ignored(line: string) {
    line != "" && (line[0] == ':' || (FieldName(line) != "data" && FieldName(line) != "event"))
  }

  /** Every piece of the line between its CRs is ignored. */
  predicate PiecesIgnored(x: string)
    decreases |x|
  {
    var i := IndexOf(x, '\r');
    Ignored(x[..i]) && (i < |x| ==> PiecesIgnored(x[i + 1..]))
  }

  /** A line of the source that the standard's reader takes in like the source does. */
  predicate Harmless(x: string) {
    '\r' !in x || PiecesIgnored(x)
  }

  /** `e` ends the line `x` for the source. */
  predicate EndsLine(x: string, e: string) {
    && '\n' !in x
    && (e == "\r\n" || (e == "\n" && (x == "" || x[|x| - 1] != '\r')))
  }

  lemma {:induction false} EndOfLineIs(s: string, k: nat, i: nat)
    requires k <= i <= |s| && (i == |s| || EndOfLineAt(s, i) > 0)
    requires forall j :: k <= j < i ==> EndOfLineAt(s, j) == 0
    ensures EndOfLine(s, k) == i
    decreases i - k
  {
    if k < i { EndOfLineIs(s, k + 1, i); }
  }

  /** The standard's reader takes one line and goes on behind it. */
  function Taken(b: Buffers, line: string, rest: string): seq<Event> {
    if line == "" then Dispatch(b) + Read(rest, EMPTY) else Read(rest, Process(b, line))
  }

  lemma {:induction false} ReadTaken(s: string, i: nat, n: nat, line: string, rest: string, b: Buffers)
    requires i < n <= |s| && n == i + EndOfLineAt(s, i) && line == s[..i] && rest == s[n..]
    requires forall j :: 0 <= j < i ==> EndOfLineAt(s, j) == 0
    ensures Read(s, b) == Taken(b, line, rest)
  {
    EndOfLineIs(s, 0, i);
  }

  lemma NoEndBefore(line: string, more: string)
    requires '\n' !in line && '\r' !in line
    ensures forall j :: 0 <= j < |line| ==> EndOfLineAt(line + more, j) == 0
  {
    var s := line + more;
    forall j | 0 <= j < |line| ensures EndOfLineAt(s, j) == 0 {
      assert s[j] == line[j] && line[j] in line;
    }
  }

  /** A line without CR: both readers end it at the same place. */
  lemma {:induction false} ReadWhole(x: string, e: string, t: string, b: Buffers)
    requires EndsLine(x, e) && '\r' !in x
    ensures Read(x + e + t, b) == Taken(b, x, t)
  {
    var s := x + e + t;
    NoEndBefore(x, e + t);
    assert s == x + (e + t);
    assert s[|x|] == e[0] && (|e| == 2 ==> s[|x| + 1] == e[1]);
    ReadTaken(s, |x|, |x| + |e|, x, t, b);
  }

  /** A line with a CR: the standard takes the piece in front of it, and then the rest of the line. */
  lemma {:induction false} ReadPiece(x: string, p: string, q: string, e: string, t: string, b: Buffers)
    requires EndsLine(x, e) && x == p + "\r" + q && '\r' !in p
    ensures EndsLine(q, e)
    ensures Read(x + e + t, b) == Taken(b, p, q + e + t)
  {
    var s, rest := x + e + t, q + e + t;
    assert forall c :: c in p || c in q ==> c in x;
    assert q != "" ==> q[|q| - 1] == x[|x| - 1];
    NoEndBefore(p, "\r" + rest);
    assert s == p + ("\r" + rest);
    assert s[|p|] == '\r' && s[|p| + 1] == rest[0];
    assert rest[0] == if q == "" then e[0] else q[0];
    ReadTaken(s, |p|, |p| + 1, p, rest, b);
  }

  lemma SplitAtCr(x: string) returns (p: string, q: string)
    requires '\r' in x
    ensures x == p + "\r" + q && '\r' !in p && |q| < |x|
    ensures IndexOf(x, '\r') == |p| && x[..|p|] == p && x[|p| + 1..] == q
  {
    var i := IndexOf(x, '\r');
    p, q := x[..i], x[i + 1..];
  }

  lemma NoCr(x: string)
    requires '\r' !in x
    ensures IndexOf(x, '\r') == |x| && x[..|x|] == x
  {
  }

  lemma IgnoredIsIgnored(b: Buffers, line: string)
    requires Ignored(line)
    ensures Process(b, line) == b
  {
    assert line[..1] == ":" <==> line[0] == ':';
  }

  /** What starts with an ignored piece is ignored as a whole by the source. */
  lemma IgnoredStart(p: string, q: string)
    requires Ignored(p)
    ensures Ignored(p + "\r" + q)
  {
    var x := p + "\r" + q;
    assert x[0] == p[0];
    if p[0] != ':' {
      var i := IndexOf(p, ':');
      if i < |p| {
        assert forall j :: 0 <= j < i ==> x[j] == p[j];
        assert x[i] == ':';
        assert IndexOf(x, ':') == i && x[..i] == p[..i];
      } else {
        assert forall j :: 0 <= j < |p| ==> x[j] == p[j];
        assert IndexOf(x, ':') >= |p| && x[|p|] == '\r';
        assert IndexOf(x, ':') > |p|;
        assert FieldName(x)[|p|] == '\r';
      }
    }
  }

  /** All pieces ignored: the standard leaves the buffers as they are, and so does the source. */
  lemma {:induction false} ReadIgnored(x: string, e: string, t: string, b: Buffers)
    requires EndsLine(x, e) && PiecesIgnored(x)
    ensures Read(x + e + t, b) == Read(t, b)
    ensures Ignored(x)
    decreases |x|
  {
    if '\r' in x {
      var p, q := SplitAtCr(x);
      ReadPiece(x, p, q, e, t, b);
      IgnoredIsIgnored(b, p);
      ReadIgnored(q, e, t, b);
      IgnoredStart(p, q);
    } else {
      NoCr(x);
      ReadWhole(x, e, t, b);
      IgnoredIsIgnored(b, x);
    }
  }

  /** A harmless line is one line for the standard's reader too, whatever comes before and behind it. */
  lemma {:induction false} ReadHarmless(x: string, e: string, t: string, b: Buffers)
    requires EndsLine(x, e) && Harmless(x)
    ensures Read(x + e + t, b) == Taken(b, x, t)
  {
    if '\r' in x {
      ReadIgnored(x, e, t, b);
      IgnoredIsIgnored(b, x);
    } else {
      ReadWhole(x, e, t, b);
    }
  }

  // ----- Whole texts -----

  /** The complete lines that the standard sees in the unfinished last line are not blank. */
  predicate QuietTail(s: string)
    decreases |s|
  {
    var i := IndexOf(s, '\r');
    i < |s| ==> i > 0 && QuietTail(s[i + 1..])
  }

  /** All lines of the text are harmless, and its unfinished last line is quiet. */
  predicate ReadsAlike(s: string)
    decreases |s|
  {
    var k := FirstLineEnd(s, 0);
    if k == |s| then QuietTail(s) else Harmless(s[..k]) && ReadsAlike(s[k + LineEndAt(s, k)..])
  }

  lemma FirstLineParts(s: string, k: nat, n: nat) returns (x: string, e: string, t: string)
    requires FirstLine(s, k, n)
    ensures s == x + e + t && x == s[..k] && t == s[n..] && EndsLine(x, e)
  {
    FirstLineEndIsFirst(s, 0);
    x, e, t := s[..k], s[k..n], s[n..];
    forall j | 0 <= j < k ensures x[j] != '\n' { assert LineEndAt(s, j) == 0 && x[j] == s[j]; }
    if k > 0 { assert LineEndAt(s, k - 1) == 0; }
  }

  lemma NoLineFeed(s: string)
    requires FirstLineEnd(s, 0) == |s|
    ensures '\n' !in s
  {
    FirstLineEndIsFirst(s, 0);
    forall j | 0 <= j < |s| ensures s[j] != '\n' { assert LineEndAt(s, j) == 0; }
  }

  /** In an unfinished last line with a CR the standard takes the piece in front of it. */
  lemma {:induction false} ReadTailPiece(s: string, p: string, q: string, b: Buffers)
    requires '\n' !in s && s == p + "\r" + q && '\r' !in p
    ensures '\n' !in q && Read(s, b) == Taken(b, p, q)
  {
    assert forall c :: c in p || c in q ==> c in s;
    NoEndBefore(p, "\r" + q);
    assert s == p + ("\r" + q);
    assert s[|p|] == '\r' && (q != "" ==> s[|p| + 1] == q[0] && q[0] in q);
    ReadTaken(s, |p|, |p| + 1, p, q, b);
  }

  lemma {:induction false} ReadNothing(s: string, b: Buffers)
    requires '\n' !in s && '\r' !in s
    ensures Read(s, b) == []
  {
    NoEndBefore(s, "");
    assert s + "" == s;
    EndOfLineIs(s, 0, |s|);
  }

  lemma {:induction false} QuietTailReads(s: string, b: Buffers)
    requires '\n' !in s && QuietTail(s)
    ensures Read(s, b) == []
    decreases |s|
  {
    if '\r' in s {
      var p, q := SplitAtCr(s);
      ReadTailPiece(s, p, q, b);
      QuietTailReads(q, Process(b, p));
    } else {
      ReadNothing(s, b);
    }
  }

  lemma ProcessKeepsData(b: Buffers, line: string)
    requires b.data != ""
    ensures Process(b, line).data != ""
  {
  }

  lemma {:induction false} NoisyTailReads(s: string, b: Buffers)
    requires '\n' !in s && !QuietTail(s) && b.data != ""
    ensures Read(s, b) != []
    decreases |s|
  {
    if '\r' in s {
      var p, q := SplitAtCr(s);
      ReadTailPiece(s, p, q, b);
      if p != "" {
        ProcessKeepsData(b, p);
        NoisyTailReads(q, Process(b, p));
      }
    } else {
      NoCr(s);
    }
  }

  /** An unfinished last line is dropped by the standard's reader too, in every state, exactly when it is quiet. */
  lemma {:induction false} TailIsDroppedIff(s: string)
    requires '\n' !in s
    ensures (forall b :: Read(s, b) == []) <==> QuietTail(s)
  {
    if QuietTail(s) {
      forall b ensures Read(s, b) == [] { QuietTailReads(s, b); }
    } else {
      NoisyTailReads(s, Buffers("", "a\n"));
    }
  }

  /** On texts with harmless lines the standard's reader and the one with the source's line ends are the same. */
  lemma {:induction false} StandardReads(s: string, b: Buffers)
    requires ReadsAlike(s)
    ensures Read(s, b) == ReadFeeds(s, b)
    decreases |s|
  {
    if FirstLineEnd(s, 0) == |s| {
      NoLineFeed(s);
      QuietTailReads(s, b);
    } else {
      var k, n := FirstLineOf(s);
      var x, e, t := FirstLineParts(s, k, n);
      ReadHarmless(x, e, t, b);
      ReadStep(s, b, k, n, x, t);
      StandardReads(t, if k == 0 then EMPTY else Process(b, x));
    }
  }

  // ----- Texts without a CR of their own -----

  predicate LoneCarriageReturnAt(s: string, k: nat) {
    k < |s| && s[k] == '\r' && !(k + 1 < |s| && s[k + 1] == '\n')
  }

  /** Every line of the text ends with LF or CR LF. */
  ghost predicate NoLoneCarriageReturn(s: string) {
    forall k: nat :: !LoneCarriageReturnAt(s, k)
  }

  lemma {:induction false} FirstLineWithoutCr(s: string)
    requires NoLoneCarriageReturn(s)
    ensures '\r' !in s[..FirstLineEnd(s, 0)]
  {
    FirstLineEndIsFirst(s, 0);
    var x := s[..FirstLineEnd(s, 0)];
    forall j | 0 <= j < |x| ensures x[j] != '\r' {
      assert LineEndAt(s, j) == 0 && !LoneCarriageReturnAt(s, j) && x[j] == s[j];
    }
  }

  /** Such a text is read alike. */
  lemma {:induction false} NoLoneReadsAlike(s: string)
    requires NoLoneCarriageReturn(s)
    ensures ReadsAlike(s)
    decreases |s|
  {
    var k := FirstLineEnd(s, 0);
    FirstLineWithoutCr(s);
    if k == |s| {
      assert s[..k] == s;
      NoCr(s);
    } else {
      var _, n := FirstLineOf(s);
      forall j: nat ensures !LoneCarriageReturnAt(s[n..], j) { assert !LoneCarriageReturnAt(s, n + j); }
      NoLoneReadsAlike(s[n..]);
    }
  }
}
