/**
 * How the stream reader cuts its text buffer into blocks: at the leftmost match of the
 * pattern CR? LF CR? LF.
 */
module Framing {
  import opened Common

  /** A match in the buffer: where it starts and how many characters it covers. */
  datatype Separator = Separator(index: nat, length: nat)

  /** One cut: the block before the separator, and the separator's own text. */
  datatype Cut = Cut(block: string, sep: string)

  /** The length of a line end (LF or CR LF) at position k, or 0. */
  function LineEndAt(s: string, k: nat): (n: nat)
    ensures n <= 2 && (n > 0 ==> k + n <= |s| && s[k + n - 1] == '\n')
  {
    if k < |s| && s[k] == '\n' then 1
    else if k + 1 < |s| && s[k] == '\r' && s[k + 1] == '\n' then 2
    else 0
  }

  /** The length of the separator pattern at position k, or 0. */
  function MatchAt(s: string, k: nat): (n: nat)
    ensures n > 0 ==> 2 <= n <= 4 && k + n <= |s|
  {
    var first := LineEndAt(s, k);
    if first == 0 then 0
    else
      var second := LineEndAt(s, k + first);
      if second == 0 then 0 else first + second
  }

  /** The four texts that the pattern matches. */
  lemma MatchIsPattern(s: string, k: nat, n: nat)
    requires k + n <= |s| && n > 0
    ensures MatchAt(s, k) == n <==> s[k..k + n] in {"\n\n", "\n\r\n", "\r\n\n", "\r\n\r\n"}
  {
    var t := s[k..k + n];
    assert forall i :: 0 <= i < n ==> t[i] == s[k + i];
    assert t == "\n\n" <==> n == 2 && t[0] == '\n' && t[1] == '\n';
    assert t == "\n\r\n" <==> n == 3 && t[0] == '\n' && t[1] == '\r' && t[2] == '\n';
    assert t == "\r\n\n" <==> n == 3 && t[0] == '\r' && t[1] == '\n' && t[2] == '\n';
    assert t == "\r\n\r\n" <==> n == 4 && t[0] == '\r' && t[1] == '\n' && t[2] == '\r' && t[3] == '\n';
  }

  ghost predicate IsLeftmost(s: string, sep: Separator) {
    && sep.length > 0 && MatchAt(s, sep.index) == sep.length
    && forall j :: 0 <= j < sep.index ==> MatchAt(s, j) == 0
  }

  function FindFrom(s: string, k: nat): (r: Option<Separator>)
    requires k <= |s|
    ensures r.Some? ==> k <= r.value.index && r.value.index + r.value.length <= |s| && 2 <= r.value.length
    decreases |s| - k
  {
    if MatchAt(s, k) > 0 then Some(Separator(k, MatchAt(s, k)))
    else if k == |s| then None
    else FindFrom(s, k + 1)
  }

  /** The leftmost separator in the buffer, if there is one. */
  function Find(s: string): (r: Option<Separator>)
    ensures r.Some? ==> r.value.index + r.value.length <= |s| && 2 <= r.value.length
  {
    FindFrom(s, 0)
  }

  lemma {:induction false} FindFromFindsLeftmost(s: string, k: nat)
    requires k <= |s|
    requires forall j :: 0 <= j < k ==> MatchAt(s, j) == 0
    ensures FindFrom(s, k).Some? ==> IsLeftmost(s, FindFrom(s, k).value)
    ensures FindFrom(s, k).None? ==> forall j :: 0 <= j <= |s| ==> MatchAt(s, j) == 0
    decreases |s| - k
  {
    if MatchAt(s, k) == 0 && k < |s| {
      FindFromFindsLeftmost(s, k + 1);
    }
  }

  /** What `Find` returns: the leftmost separator, or nothing when there is none at any position. */
  lemma FindFindsLeftmost(s: string)
    ensures Find(s).Some? ==> IsLeftmost(s, Find(s).value)
    ensures Find(s).None? ==> forall j :: 0 <= j ==> MatchAt(s, j) == 0
  {
    FindFromFindsLeftmost(s, 0);
  }

  lemma LeftmostIsFound(s: string, sep: Separator)
    requires IsLeftmost(s, sep)
    ensures Find(s) == Some(sep)
  {
    FindFindsLeftmost(s);
    assert MatchAt(s, sep.index) > 0;
    assert Find(s).value.index >= sep.index;
  }

  /** Among all separators in a text, one that starts earlier also ends no later. */
  lemma EarlierEndsFirst(s: string, i: nat, j: nat)
    requires i <= j && MatchAt(s, i) > 0 && MatchAt(s, j) > 0
    ensures i + MatchAt(s, i) <= j + MatchAt(s, j)
  {
    var first := LineEndAt(s, i);
    if i < j < i + first {
      assert first == 2 && LineEndAt(s, j) == 1;
    }
  }

  lemma MatchGrows(s: string, t: string, k: nat)
    requires MatchAt(s, k) > 0
    ensures MatchAt(s + t, k) == MatchAt(s, k)
  {
  }

  lemma MatchShrinks(s: string, t: string, k: nat)
    requires MatchAt(s + t, k) > 0 && k + MatchAt(s + t, k) <= |s|
    ensures MatchAt(s, k) == MatchAt(s + t, k)
  {
  }

  /** Text that arrives later never changes a separator that is already in the buffer. */
  lemma FindIsStable(s: string, t: string)
    requires Find(s).Some?
    ensures Find(s + t) == Find(s)
  {
    FindFindsLeftmost(s);
    var sep := Find(s).value;
    forall j | 0 <= j < sep.index
      ensures MatchAt(s + t, j) == 0
    {
      MatchGrows(s, t, sep.index);
      if MatchAt(s + t, j) > 0 {
        EarlierEndsFirst(s + t, j, sep.index);
        MatchShrinks(s, t, j);
      }
    }
    MatchGrows(s, t, sep.index);
    LeftmostIsFound(s + t, sep);
  }

  /** A separator that is complete in a prefix of the text is found there too. */
  lemma FindInPrefix(s: string, t: string)
    requires Find(s + t).Some? && Find(s + t).value.index + Find(s + t).value.length <= |s|
    ensures Find(s) == Find(s + t)
  {
    FindFindsLeftmost(s + t);
    var sep := Find(s + t).value;
    MatchShrinks(s, t, sep.index);
    forall j | 0 <= j < sep.index
      ensures MatchAt(s, j) == 0
    {
      assert MatchAt(s + t, j) == 0;
      if MatchAt(s, j) > 0 { MatchGrows(s, t, j); }
    }
    LeftmostIsFound(s, sep);
  }

  /** The cut that the leftmost separator gives, and the text after it. */
  function FirstCut(s: string): Cut
    requires Find(s).Some?
  {
    var sep := Find(s).value;
    Cut(s[..sep.index], s[sep.index..sep.index + sep.length])
  }

  function AfterFirst(s: string): (rest: string)
    requires Find(s).Some?
    ensures |rest| < |s|
  {
    var sep := Find(s).value;
    s[sep.index + sep.length..]
  }

  datatype Framed = Framed(cuts: seq<Cut>, rest: string)

  /** The reference framing of a complete text: cut at the leftmost separator, again and again. */
  function Cuts(s: string): Framed
    decreases |s|
  {
    if Find(s).None? then Framed([], s)
    else
      var more := Cuts(AfterFirst(s));
      Framed([FirstCut(s)] + more.cuts, more.rest)
  }

  function Joined(cuts: seq<Cut>): string {
    if cuts == [] then "" else cuts[0].block + cuts[0].sep + Joined(cuts[1..])
  }

  lemma {:induction false} JoinedAppend(a: seq<Cut>, b: seq<Cut>)
    ensures Joined(a + b) == Joined(a) + Joined(b)
  {
    if a == [] {
      assert a + b == b;
    } else {
      assert (a + b)[1..] == a[1..] + b;
      JoinedAppend(a[1..], b);
      Regroup(a[0].block + a[0].sep, Joined(a[1..]), Joined(b));
    }
  }

  /** A cut is clean when its text has exactly one separator, and that at its end. */
  ghost predicate CleanCut(c: Cut) {
    Find(c.block + c.sep) == Some(Separator(|c.block|, |c.sep|))
  }

  ghost predicate AllClean(cuts: seq<Cut>) {
    forall k :: 0 <= k < |cuts| ==> CleanCut(cuts[k])
  }

  ghost predicate IsFraming(s: string, f: Framed) {
    Joined(f.cuts) + f.rest == s && AllClean(f.cuts) && Find(f.rest) == None
  }

  lemma CleanCutComesFirst(c: Cut, t: string)
    requires CleanCut(c)
    ensures var s := c.block + c.sep + t;
            Find(s).Some? && FirstCut(s) == c && AfterFirst(s) == t
  {
    FindIsStable(c.block + c.sep, t);
  }

  lemma FirstCutIsClean(s: string)
    requires Find(s).Some?
    ensures CleanCut(FirstCut(s))
    ensures FirstCut(s).block + FirstCut(s).sep + AfterFirst(s) == s
  {
    var c, t := FirstCut(s), AfterFirst(s);
    assert c.block + c.sep + t == s;
    FindInPrefix(c.block + c.sep, t);
  }

  lemma {:induction false} CutsFrame(s: string)
    ensures IsFraming(s, Cuts(s))
    decreases |s|
  {
    if Find(s).Some? {
      FirstCutIsClean(s);
      CutsFrame(AfterFirst(s));
      var more := Cuts(AfterFirst(s));
      assert Cuts(s).cuts[1..] == more.cuts;
    }
  }

  lemma {:induction false} CutsOfCleanFirst(c: Cut, t: string)
    requires CleanCut(c)
    ensures Cuts(c.block + c.sep + t) == Framed([c] + Cuts(t).cuts, Cuts(t).rest)
  {
    CleanCutComesFirst(c, t);
  }

  lemma {:induction false} FramingIsCuts(f: Framed)
    requires AllClean(f.cuts) && Find(f.rest) == None
    ensures Cuts(Joined(f.cuts) + f.rest) == f
    decreases |f.cuts|
  {
    if f.cuts == [] {
      assert Joined(f.cuts) + f.rest == f.rest;
    } else {
      var c := f.cuts[0];
      var g := Framed(f.cuts[1..], f.rest);
      assert f.cuts == [c] + g.cuts;
      Regroup(c.block + c.sep, Joined(g.cuts), f.rest);
      FramingIsCuts(g);
      CutsOfCleanFirst(c, Joined(g.cuts) + g.rest);
    }
  }

  /** The reference framing is the one and only way to split the text into clean cuts and an uncuttable rest. */
  lemma FramingIsUnique(s: string, f: Framed)
    ensures IsFraming(s, f) <==> Cuts(s) == f
  {
    CutsFrame(s);
    if IsFraming(s, f) {
      FramingIsCuts(f);
    }
  }

  /** Framing a text in two pieces, keeping the leftover in between, is framing it whole. */
  lemma CutsInTwoPieces(s: string, t: string)
    ensures var f := Cuts(s); var g := Cuts(f.rest + t);
            Cuts(s + t) == Framed(f.cuts + g.cuts, g.rest)
  {
    var f := Cuts(s);
    var g := Cuts(f.rest + t);
    CutsFrame(s);
    CutsFrame(f.rest + t);
    JoinedAppend(f.cuts, g.cuts);
    Regroup(Joined(f.cuts), Joined(g.cuts), g.rest);
    Regroup(Joined(f.cuts), f.rest, t);
    FramingIsUnique(s + t, Framed(f.cuts + g.cuts, g.rest));
  }

  lemma LineEndInSuffix(s: string, n: nat, j: nat)
    requires n <= |s|
    ensures LineEndAt(s[n..], j) == LineEndAt(s, n + j)
  {
  }

  lemma MatchInSuffix(s: string, n: nat, j: nat)
    requires n <= |s|
    ensures LineEndAt(s[n..], j) == LineEndAt(s, n + j)
    ensures MatchAt(s[n..], j) == MatchAt(s, n + j)
  {
    LineEndInSuffix(s, n, j);
    LineEndInSuffix(s, n, j + LineEndAt(s, n + j));
  }
}
