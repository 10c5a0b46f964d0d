/** The worker's hash input can be read back: it is the same text only for the same snapshot. */
module WorkerInput {
  import opened Common
  import opened SnapshotText
  import opened SnapshotFeed

  /** Quoted names start with a quotation mark, and what follows a quoted name does not belong to it. */
  ghost predicate Quotes(quote: string -> string) {
    && (forall n :: quote(n) != "" && quote(n)[0] == '"')
    && (forall n, m, r, t :: quote(n) + r == quote(m) + t ==> n == m)
  }

  /** Characters are escaped so that none starts with a quotation mark and each can be read off. */
  ghost predicate Escapes(escape: char -> string) {
    && (forall c :: escape(c) != "" && escape(c)[0] != '"')
    && (forall c, e, r, t :: escape(c) + r == escape(e) + t ==> c == e)
  }

  function Escaped(s: string, escape: char -> string): string {
    if s == "" then "" else escape(s[0]) + Escaped(s[1..], escape)
  }

  function Quoted(s: string, escape: char -> string): string {
    "\"" + (Escaped(s, escape) + "\"")
  }

  lemma EndsAtMark(s: string, r: string, escape: char -> string)
    requires Escapes(escape)
    ensures (Escaped(s, escape) + ("\"" + r))[0] == '"' <==> s == ""
  {
    var text := Escaped(s, escape) + ("\"" + r);
    assert s == "" ==> text[0] == ("\"" + r)[0];
    assert s != "" ==> text[0] == escape(s[0])[0];
  }

  lemma {:induction false} EscapedTells(n: string, m: string, r: string, t: string, escape: char -> string)
    requires Escapes(escape) && Escaped(n, escape) + ("\"" + r) == Escaped(m, escape) + ("\"" + t)
    ensures n == m
    decreases |n|
  {
    EndsAtMark(n, r, escape);
    EndsAtMark(m, t, escape);
    if n != "" {
      var x, y := Escaped(n[1..], escape) + ("\"" + r), Escaped(m[1..], escape) + ("\"" + t);
      Regroup(escape(n[0]), Escaped(n[1..], escape), "\"" + r);
      Regroup(escape(m[0]), Escaped(m[1..], escape), "\"" + t);
      assert escape(n[0]) + x == escape(m[0]) + y;
      SamePrefix(escape(n[0]), x, y);
      EscapedTells(n[1..], m[1..], r, t, escape);
      assert n == [n[0]] + n[1..] && m == [m[0]] + m[1..];
    }
  }

  lemma QuotedParts(s: string, r: string)
    ensures ("\"" + (s + "\"")) + r == "\"" + (s + ("\"" + r))
  {
  }

  /** Quoting character by character, as `JSON.stringify` does, is quoting in this sense. */
  lemma {:induction false} QuotedQuotes(escape: char -> string)
    requires Escapes(escape)
    ensures Quotes(n => Quoted(n, escape))
  {
    var quote := n => Quoted(n, escape);
    forall n, m, r, t | quote(n) + r == quote(m) + t ensures n == m {
      QuotedParts(Escaped(n, escape), r);
      QuotedParts(Escaped(m, escape), t);
      SamePrefix("\"", Escaped(n, escape) + ("\"" + r), Escaped(m, escape) + ("\"" + t));
      EscapedTells(n, m, r, t, escape);
    }
  }

  /** Marks and backslashes with a backslash in front, everything else as it is. */
  function Backslashed(c: char): string {
    if c == '"' then "\\\"" else if c == '\\' then "\\\\" else [c]
  }

  lemma BackslashedEscapes()
    ensures Escapes(Backslashed)
  {
    forall c, e, r, t | Backslashed(c) + r == Backslashed(e) + t ensures c == e {
      var x, y := Backslashed(c) + r, Backslashed(e) + t;
      assert x[0] == Backslashed(c)[0] && y[0] == Backslashed(e)[0];
      if |Backslashed(c)| == 2 && |Backslashed(e)| == 2 { assert x[1] == c && y[1] == e; }
    }
  }

  /** A text without colons. */
  predicate NoColon(kind: string) {
    ':' !in kind
  }

  ghost predicate Readable(s: seq<Market>, nums: Numbers) {
    forall i :: 0 <= i < |s| ==> NoColon(s[i].0) && AllIn(ValuesOf(s[i].1), nums)
  }

  function Member(n: string, x: real, quote: string -> string, show: real -> string): string {
    quote(n) + ":" + show(x)
  }

  /** What stands behind a member: the closing brace, or a comma and the next member. */
  function BehindMember(more: Record<real>, quote: string -> string, show: real -> string): (text: string)
    ensures text != "" && text[0] == if more == [] then '}' else ','
  {
    if more == [] then "}"
    else "," + Member(more[0].0, more[0].1, quote, show) + BehindMember(more[1..], quote, show)
  }

  /** An object without its opening brace. */
  function Object(s: Record<real>, quote: string -> string, show: real -> string): string {
    if s == [] then "}" else Member(s[0].0, s[0].1, quote, show) + BehindMember(s[1..], quote, show)
  }

  lemma {:induction false} JoinCons(first: string, rest: seq<string>, sep: string)
    ensures Join([first] + rest, sep) == if rest == [] then first else first + sep + Join(rest, sep)
  {
    assert ([first] + rest)[1..] == rest;
  }

  lemma AroundComma(first: string, joined: string, member: string, behind: string)
    requires joined + "}" == member + behind
    ensures (first + "," + joined) + "}" == first + ("," + member + behind)
  {
    assert (first + "," + joined) + "}" == first + ("," + (joined + "}"));
    assert "," + (member + behind) == "," + member + behind;
  }

  lemma {:induction false} ObjectText(s: Record<real>, quote: string -> string, show: real -> string)
    ensures Join(Members(s, quote, show), ",") + "}" == Object(s, quote, show)
  {
    if s == [] {
      assert "" + "}" == "}";
    } else {
      var first, more := Member(s[0].0, s[0].1, quote, show), s[1..];
      var rest := Members(more, quote, show);
      assert Members(s, quote, show) == [first] + rest && ([first] + rest)[1..] == rest;
      ObjectText(more, quote, show);
      if more != [] {
        JoinCons(first, rest, ",");
        AroundComma(first, Join(rest, ","), Member(more[0].0, more[0].1, quote, show),
                    BehindMember(more[1..], quote, show));
      }
    }
  }

  lemma MemberParts(a: string, b: string, r: string)
    ensures (a + ":" + b) + r == a + (":" + (b + r))
  {
  }

  /** Reading one member and what stands behind it. */
  lemma SplitMember(n: string, m: string, x: real, y: real, r: string, t: string, quote: string -> string,
                    show: real -> string, nums: Numbers, d: Alphabet)
    requires Quotes(quote) && Prints(show, nums, d) && x in nums && y in nums
    requires r != "" && t != "" && r[0] !in d && t[0] !in d
    requires Member(n, x, quote, show) + r == Member(m, y, quote, show) + t
    ensures n == m && x == y && r == t
  {
    var a, b := show(x) + r, show(y) + t;
    PrintsTwo(show, nums, d, x, y);
    MemberParts(quote(n), show(x), r);
    MemberParts(quote(m), show(y), t);
    assert quote(n) + (":" + a) == quote(m) + (":" + b);
    SamePrefix(quote(n), ":" + a, ":" + b);
    SamePrefix(":", a, b);
    NotLongerNumber(show(x), show(y), r, t, d);
    NotLongerNumber(show(y), show(x), t, r, d);
    SameLength(show(x), r, show(y), t);
  }

  lemma CommaParts(member: string, behind: string, r: string)
    ensures ("," + member + behind) + r == "," + (member + (behind + r))
  {
  }

  lemma FirstValue(s: Record<real>, nums: Numbers)
    requires s != [] && AllIn(ValuesOf(s), nums)
    ensures s[0].1 in nums && AllIn(ValuesOf(s[1..]), nums)
  {
    assert ValuesOf(s)[0] == s[0].1;
    forall i | 0 <= i < |ValuesOf(s[1..])| ensures ValuesOf(s[1..])[i] in nums {
      assert ValuesOf(s)[i + 1] == ValuesOf(s[1..])[i];
    }
  }

  lemma {:induction false} BehindTells(a: Record<real>, b: Record<real>, r: string, t: string, quote: string -> string,
                                       show: real -> string, nums: Numbers, d: Alphabet)
    requires Quotes(quote) && Prints(show, nums, d) && ',' !in d && '}' !in d
    requires AllIn(ValuesOf(a), nums) && AllIn(ValuesOf(b), nums)
    requires BehindMember(a, quote, show) + r == BehindMember(b, quote, show) + t
    ensures a == b && r == t
    decreases |a|
  {
    assert (BehindMember(a, quote, show) + r)[0] == (BehindMember(b, quote, show) + t)[0];
    if a == [] {
      SamePrefix("}", r, t);
    } else {
      var behindA, behindB := BehindMember(a[1..], quote, show), BehindMember(b[1..], quote, show);
      var memberA, memberB := Member(a[0].0, a[0].1, quote, show), Member(b[0].0, b[0].1, quote, show);
      CommaParts(memberA, behindA, r);
      CommaParts(memberB, behindB, t);
      SamePrefix(",", memberA + (behindA + r), memberB + (behindB + t));
      FirstValue(a, nums);
      FirstValue(b, nums);
      SplitMember(a[0].0, b[0].0, a[0].1, b[0].1, behindA + r, behindB + t, quote, show, nums, d);
      BehindTells(a[1..], b[1..], r, t, quote, show, nums, d);
      assert a == [a[0]] + a[1..] && b == [b[0]] + b[1..];
    }
  }

  lemma FirstOfObject(s: Record<real>, r: string, quote: string -> string, show: real -> string)
    requires Quotes(quote)
    ensures var text := Object(s, quote, show) + r; text != "" && text[0] == if s == [] then '}' else '"'
  {
    if s != [] { assert (Object(s, quote, show) + r)[0] == quote(s[0].0)[0]; }
  }

  lemma {:induction false} ObjectTells(a: Record<real>, b: Record<real>, r: string, t: string, quote: string -> string,
                                       show: real -> string, nums: Numbers, d: Alphabet)
    requires Quotes(quote) && Prints(show, nums, d) && ',' !in d && '}' !in d
    requires AllIn(ValuesOf(a), nums) && AllIn(ValuesOf(b), nums)
    requires Object(a, quote, show) + r == Object(b, quote, show) + t
    ensures a == b && r == t
  {
    FirstOfObject(a, r, quote, show);
    FirstOfObject(b, t, quote, show);
    if a == [] {
      SamePrefix("}", r, t);
    } else {
      var behindA, behindB := BehindMember(a[1..], quote, show), BehindMember(b[1..], quote, show);
      Regroup(Member(a[0].0, a[0].1, quote, show), behindA, r);
      Regroup(Member(b[0].0, b[0].1, quote, show), behindB, t);
      FirstValue(a, nums);
      FirstValue(b, nums);
      SplitMember(a[0].0, b[0].0, a[0].1, b[0].1, behindA + r, behindB + t, quote, show, nums, d);
      BehindTells(a[1..], b[1..], r, t, quote, show, nums, d);
      assert a == [a[0]] + a[1..] && b == [b[0]] + b[1..];
    }
  }

  // ----- Sections -----

  function Section(m: Market, quote: string -> string, show: real -> string): string {
    m.0 + ":{" + Object(m.1, quote, show)
  }

  function BehindSection(more: seq<Market>, quote: string -> string, show: real -> string): string {
    if more == [] then "" else "|" + Section(more[0], quote, show) + BehindSection(more[1..], quote, show)
  }

  function Whole(s: seq<Market>, quote: string -> string, show: real -> string): string {
    if s == [] then "" else Section(s[0], quote, show) + BehindSection(s[1..], quote, show)
  }

  lemma SectionText(m: Market, quote: string -> string, show: real -> string)
    ensures m.0 + ":{" + Join(Members(m.1, quote, show), ",") + "}" == Section(m, quote, show)
  {
    ObjectText(m.1, quote, show);
    Regroup(m.0 + ":{", Join(Members(m.1, quote, show), ","), "}");
  }

  lemma {:induction false} WholeText(s: seq<Market>, quote: string -> string, show: real -> string)
    ensures Join(Sections(s, quote, show), "|") == Whole(s, quote, show)
  {
    if s != [] {
      var first, more := Section(s[0], quote, show), s[1..];
      SectionText(s[0], quote, show);
      var rest := Sections(more, quote, show);
      assert Sections(s, quote, show) == [first] + rest;
      JoinCons(first, rest, "|");
      WholeText(more, quote, show);
      if more == [] {
        assert first + "" == first;
      } else {
        Regroup(first, "|", Join(rest, "|"));
        Regroup("|", Section(more[0], quote, show), BehindSection(more[1..], quote, show));
      }
    }
  }

  lemma NotLongerKind(k: string, l: string, r: string, t: string)
    requires NoColon(k) && NoColon(l) && k + (":" + r) == l + (":" + t)
    ensures |l| <= |k|
  {
    var text := k + (":" + r);
    assert text[|k|] == ':';
    assert forall i :: 0 <= i < |l| ==> text[i] == l[i] && l[i] in l;
  }

  lemma SplitKind(k: string, l: string, r: string, t: string)
    requires NoColon(k) && NoColon(l) && k + (":" + r) == l + (":" + t)
    ensures k == l && r == t
  {
    NotLongerKind(k, l, r, t);
    NotLongerKind(l, k, t, r);
    SameLength(k, ":" + r, l, ":" + t);
    SamePrefix(":", r, t);
  }

  lemma SectionParts(kind: string, x: string, r: string)
    ensures (kind + ":{" + x) + r == kind + (":" + ("{" + (x + r)))
  {
    assert ":{" == ":" + "{";
  }

  /** Reading one section and what stands behind it. */
  lemma {:induction false} SplitSection(a: Market, b: Market, r: string, t: string, quote: string -> string,
                                        show: real -> string, nums: Numbers, d: Alphabet)
    requires Quotes(quote) && Prints(show, nums, d) && ',' !in d && '}' !in d && NoColon(a.0) && NoColon(b.0)
    requires AllIn(ValuesOf(a.1), nums) && AllIn(ValuesOf(b.1), nums)
    requires Section(a, quote, show) + r == Section(b, quote, show) + t
    ensures a == b && r == t
  {
    var x, y := Object(a.1, quote, show), Object(b.1, quote, show);
    SectionParts(a.0, x, r);
    SectionParts(b.0, y, t);
    SplitKind(a.0, b.0, "{" + (x + r), "{" + (y + t));
    SamePrefix("{", x + r, y + t);
    ObjectTells(a.1, b.1, r, t, quote, show, nums, d);
  }

  lemma ReadableRest(s: seq<Market>, nums: Numbers)
    requires s != [] && Readable(s, nums)
    ensures NoColon(s[0].0) && AllIn(ValuesOf(s[0].1), nums) && Readable(s[1..], nums)
  {
    var t := s[1..];
    forall i | 0 <= i < |t| ensures NoColon(t[i].0) && AllIn(ValuesOf(t[i].1), nums) {
      assert t[i] == s[i + 1];
    }
  }

  lemma {:induction false} BehindSectionTells(
      a: seq<Market>, b: seq<Market>, quote: string -> string, show: real -> string, nums: Numbers, d: Alphabet)
    requires Quotes(quote) && Prints(show, nums, d) && ',' !in d && '}' !in d
    requires Readable(a, nums) && Readable(b, nums)
    requires BehindSection(a, quote, show) == BehindSection(b, quote, show)
    ensures a == b
    decreases |a|
  {
    if a != [] {
      assert BehindSection(a, quote, show)[0] == '|' && b != [];
      var r, t := BehindSection(a[1..], quote, show), BehindSection(b[1..], quote, show);
      Regroup("|", Section(a[0], quote, show), r);
      Regroup("|", Section(b[0], quote, show), t);
      SamePrefix("|", Section(a[0], quote, show) + r, Section(b[0], quote, show) + t);
      ReadableRest(a, nums);
      ReadableRest(b, nums);
      SplitSection(a[0], b[0], r, t, quote, show, nums, d);
      BehindSectionTells(a[1..], b[1..], quote, show, nums, d);
      assert a == [a[0]] + a[1..] && b == [b[0]] + b[1..];
    }
  }

  lemma {:induction false} WholeTells(a: seq<Market>, b: seq<Market>, quote: string -> string, show: real -> string,
                                      nums: Numbers, d: Alphabet)
    requires Quotes(quote) && Prints(show, nums, d) && ',' !in d && '}' !in d
    requires Readable(a, nums) && Readable(b, nums)
    requires Whole(a, quote, show) == Whole(b, quote, show)
    ensures a == b
  {
    if a != [] && b != [] {
      ReadableRest(a, nums);
      ReadableRest(b, nums);
      SplitSection(a[0], b[0], BehindSection(a[1..], quote, show), BehindSection(b[1..], quote, show),
                   quote, show, nums, d);
      BehindSectionTells(a[1..], b[1..], quote, show, nums, d);
      assert a == [a[0]] + a[1..] && b == [b[0]] + b[1..];
    }
  }

  lemma {:induction false} ValueAt(s: Record<real>, i: nat)
    requires i < |s|
    ensures ValuesOf(s)[i] == s[i].1
  {
    if i > 0 { ValueAt(s[1..], i - 1); }
  }

  lemma {:induction false} SortedValues(byName: Less, s: Record<real>, nums: Numbers)
    requires AllIn(ValuesOf(s), nums)
    ensures AllIn(ValuesOf(Sort(byName, s)), nums)
  {
    var t := Sort(byName, s);
    SortKeeps(byName, s);
    forall i | 0 <= i < |t| ensures ValuesOf(t)[i] in nums {
      assert t[i] in multiset(t);
      var k := IndexIn(s, t[i]);
      ValueAt(t, i);
      ValueAt(s, k);
    }
  }

  lemma {:induction false} CanonicalIsReadable(byKind: Less, byName: Less, s: seq<Market>, nums: Numbers)
    requires Readable(s, nums)
    ensures Readable(Canonical(byKind, byName, s), nums)
  {
    var t := Sort(byKind, s);
    SortKeeps(byKind, s);
    var c := Canonical(byKind, byName, s);
    forall i | 0 <= i < |c| ensures NoColon(c[i].0) && AllIn(ValuesOf(c[i].1), nums) {
      assert t[i] in multiset(t);
      var k := IndexIn(s, t[i]);
      SortedValues(byName, s[k].1, nums);
    }
  }

  /**
   * With kinds free of colons the worker's text is the same if and only if the markets and odds are the same,
   * in whatever order: the text under its hash loses nothing but the order.
   */
  lemma {:induction false} WorkerTextIffReordered(
      byKind: Less, byName: Less, a: seq<Market>, b: seq<Market>, quote: string -> string, show: real -> string,
      nums: Numbers, d: Alphabet)
    requires ProperSnapshot(byKind, byName, a) && ProperSnapshot(byKind, byName, b)
    requires Orders(byKind, Names(a) + Names(b))
    requires Quotes(quote) && Prints(show, nums, d) && ',' !in d && '}' !in d
    requires Readable(a, nums) && Readable(b, nums)
    ensures WorkerText(byKind, byName, a, quote, show) == WorkerText(byKind, byName, b, quote, show)
            <==> Reordered(a, b)
  {
    var ca, cb := Canonical(byKind, byName, a), Canonical(byKind, byName, b);
    CanonicalIffReordered(byKind, byName, a, b);
    WholeText(ca, quote, show);
    WholeText(cb, quote, show);
    CanonicalIsReadable(byKind, byName, a, nums);
    CanonicalIsReadable(byKind, byName, b, nums);
    if Whole(ca, quote, show) == Whole(cb, quote, show) { WholeTells(ca, cb, quote, show, nums, d); }
  }
}
