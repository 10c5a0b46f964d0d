/** What one block of the stream says: its `event` and `data` fields. */
module EventBlocks {
  import opened Common
  import opened Framing

  datatype Message = Message(event: Option<string>, data: Option<string>)

  const NO_FIELDS := Message(None, None)

  /** Where the first line end at or after k starts, or the end of the text. */
  function FirstLineEnd(s: string, k: nat): (i: nat)
    requires k <= |s|
    ensures k <= i <= |s|
    decreases |s| - k
  {
    if k == |s| || LineEndAt(s, k) > 0 then k else FirstLineEnd(s, k + 1)
  }

  /** The text split at every LF or CR LF. */
  function Lines(s: string): (lines: seq<string>)
    ensures lines != []
    decreases |s|
  {
    var i := FirstLineEnd(s, 0);
    if i == |s| then [s] else [s[..i]] + Lines(s[i + LineEndAt(s, i)..])
  }

  lemma {:induction false} FirstLineEndIsFirst(s: string, k: nat)
    requires k <= |s|
    ensures var i := FirstLineEnd(s, k);
            (i < |s| ==> LineEndAt(s, i) > 0) && forall j :: k <= j < i ==> LineEndAt(s, j) == 0
    decreases |s| - k
  {
    if k < |s| && LineEndAt(s, k) == 0 { FirstLineEndIsFirst(s, k + 1); }
  }

  lemma FirstLineEndIs(s: string, i: nat)
    requires i <= |s|
    requires i == |s| || LineEndAt(s, i) > 0
    requires forall j :: 0 <= j < i ==> LineEndAt(s, j) == 0
    ensures FirstLineEnd(s, 0) == i
  {
    FirstLineEndIsFirst(s, 0);
    assert FirstLineEnd(s, 0) >= i;
  }

  function IndexOf(s: string, c: char): (i: nat)
    ensures i <= |s|
    ensures i < |s| ==> s[i] == c
    ensures forall j :: 0 <= j < i ==> s[j] != c
  {
    if s == "" || s[0] == c then 0
    else
      var i := IndexOf(s[1..], c);
      assert forall j :: 1 <= j < i + 1 ==> s[j] == s[1..][j - 1];
      i + 1
  }

  lemma {:induction false} IndexBehindPrefix(prefix: string, c: char, t: string)
    requires forall j :: 0 <= j < |prefix| ==> prefix[j] != c
    ensures IndexOf(prefix + [c] + t, c) == |prefix|
  {
    var s := prefix + [c] + t;
    assert s[|prefix|] == c;
    assert forall j :: 0 <= j < |prefix| ==> s[j] == prefix[j];
  }

  function FieldName(line: string): string {
    line[..IndexOf(line, ':')]
  }

  function FieldValue(line: string): string {
    var i := IndexOf(line, ':');
    if i == |line| then ""
    else if i + 1 < |line| && line[i + 1] == ' ' then line[i + 2..]
    else line[i + 1..]
  }

  function Absorb(m: Message, line: string): Message {
    if line == "" || line[0] == ':' then m
    else if FieldName(line) == "data" then m.(data := Some(m.data.GetOr("") + FieldValue(line) + "\n"))
    else if FieldName(line) == "event" then m.(event := Some(FieldValue(line)))
    else m
  }

  function AbsorbAll(m: Message, lines: seq<string>): Message
    decreases |lines|
  {
    if lines == [] then m else AbsorbAll(Absorb(m, lines[0]), lines[1..])
  }

  lemma {:induction false} AbsorbAllAppend(m: Message, a: seq<string>, b: seq<string>)
    ensures AbsorbAll(m, a + b) == AbsorbAll(AbsorbAll(m, a), b)
    decreases |a|
  {
    if a == [] {
      assert a + b == b;
    } else {
      assert (a + b)[1..] == a[1..] + b;
      AbsorbAllAppend(Absorb(m, a[0]), a[1..], b);
    }
  }

  lemma AbsorbAllCons(m: Message, line: string, lines: seq<string>)
    ensures AbsorbAll(m, [line] + lines) == AbsorbAll(Absorb(m, line), lines)
    ensures AbsorbAll(m, [line]) == Absorb(m, line)
  {
    assert ([line] + lines)[1..] == lines;
  }

  function DropLastLineFeed(s: string): string {
    if s != "" && s[|s| - 1] == '\n' then s[..|s| - 1] else s
  }

  predicate Truthy(s: Option<string>) {
    s.Some? && s.value != ""
  }

  function Finish(m: Message): Option<Message> {
    var done := if Truthy(m.data) then m.(data := Some(DropLastLineFeed(m.data.value))) else m;
    if Truthy(done.data) || Truthy(done.event) then Some(done) else None
  }

  function ParseBlock(block: string): Option<Message> {
    Finish(AbsorbAll(NO_FIELDS, Lines(block)))
  }

  /** The parser itself: one pass over the block's lines, filling in the message. */
  method ParseSseBlock(block: string) returns (r: Option<Message>)
    ensures r == ParseBlock(block)
  {
    var message := NO_FIELDS;
    var lines := Lines(block);
    for i := 0 to |lines|
      invariant AbsorbAll(message, lines[i..]) == AbsorbAll(NO_FIELDS, lines)
    {
      assert lines[i..][1..] == lines[i + 1..];
      var line := lines[i];
      if line == "" || line[0] == ':' { continue; }
      var field, value := FieldName(line), FieldValue(line);
      if field == "data" {
        message := message.(data := Some(message.data.GetOr("") + value + "\n"));
      }
      if field == "event" {
        message := message.(event := Some(value));
      }
    }
    if Truthy(message.data) {
      message := message.(data := Some(DropLastLineFeed(message.data.value)));
    }
    r := if Truthy(message.data) || Truthy(message.event) then Some(message) else None;
  }

  // ----- What the lines of a block say, field by field -----

  datatype Field = Field(name: string, value: string)

  /** The field's name alone, or its name, a colon, and its value behind at most one space. */
  predicate Says(line: string, f: Field) {
    && line != "" && ':' !in f.name
    && ((line == f.name && f.value == "")
        || (line == f.name + ":" + f.value && (f.value == "" || f.value[0] != ' '))
        || line == f.name + ": " + f.value)
  }

  lemma ColonIsFound(name: string, more: string)
    requires ':' !in name
    ensures IndexOf(name + ":" + more, ':') == |name| && IndexOf(name, ':') == |name|
  {
    forall j | 0 <= j < |name| ensures name[j] != ':' { assert name[j] in name; }
    IndexBehindPrefix(name, ':', more);
  }

  lemma ReadBehindColon(name: string, more: string)
    requires ':' !in name
    ensures var line := name + ":" + more;
            FieldName(line) == name && FieldValue(line) == if more != "" && more[0] == ' ' then more[1..] else more
  {
    var line := name + ":" + more;
    ColonIsFound(name, more);
    assert line[..|name|] == name && line[|name| + 1..] == more;
    if more != "" { assert line[|name| + 1] == more[0] && line[|name| + 2..] == more[1..]; }
  }

  lemma ReadWithoutColon(name: string)
    requires ':' !in name
    ensures FieldName(name) == name && FieldValue(name) == ""
  {
    ColonIsFound(name, "");
    assert name[..|name|] == name;
  }

  lemma SaidIsRead(line: string, f: Field)
    requires Says(line, f)
    ensures f == Field(FieldName(line), FieldValue(line))
  {
    if line == f.name && f.value == "" {
      ReadWithoutColon(f.name);
    } else if line == f.name + ": " + f.value {
      var more := " " + f.value;
      assert more[1..] == f.value && line == f.name + ":" + more;
      ReadBehindColon(f.name, more);
    } else {
      ReadBehindColon(f.name, f.value);
    }
  }

  lemma ReadIsSaid(line: string)
    requires line != ""
    ensures Says(line, Field(FieldName(line), FieldValue(line)))
  {
    var i := IndexOf(line, ':');
    assert ':' !in line[..i];
    if i < |line| {
      var name, more := line[..i], line[i + 1..];
      assert line == name + ":" + more;
      ReadBehindColon(name, more);
      if more != "" && more[0] == ' ' { assert more == " " + more[1..]; }
    } else {
      assert line[..i] == line;
    }
  }

  /** Every line that is not blank says one field, a comment one without a name, and that field is read. */
  lemma FieldIsRead(line: string, f: Field)
    requires line != ""
    ensures Says(line, f) <==> f == Field(FieldName(line), FieldValue(line))
  {
    if Says(line, f) { SaidIsRead(line, f); } else { ReadIsSaid(line); }
  }

  /** A data field adds its value and an LF, an event field replaces the event, and no other line does anything. */
  lemma AbsorbField(m: Message, line: string, f: Field)
    requires Says(line, f)
    ensures Absorb(m, line) == if f.name == "data" then m.(data := Some(m.data.GetOr("") + f.value + "\n"))
                               else if f.name == "event" then m.(event := Some(f.value))
                               else m
  {
    FieldIsRead(line, f);
    if line[0] == ':' { assert IndexOf(line, ':') == 0; }
  }

  /** The lines say these fields; a blank line stands for a field without name and value. */
  ghost predicate AllSay(lines: seq<string>, fields: seq<Field>) {
    |lines| == |fields| && forall i :: 0 <= i < |lines| ==>
      Says(lines[i], fields[i]) || (lines[i] == "" && fields[i] == Field("", ""))
  }

  /** The values of the data fields, each followed by an LF. */
  function DataText(fields: seq<Field>): string {
    if fields == [] then ""
    else (if fields[0].name == "data" then fields[0].value + "\n" else "") + DataText(fields[1..])
  }

  predicate HasData(fields: seq<Field>) {
    exists i :: 0 <= i < |fields| && fields[i].name == "data"
  }

  /** The value of the last event field. */
  function LastEvent(fields: seq<Field>): Option<string> {
    if fields == [] then None
    else if fields[|fields| - 1].name == "event" then Some(fields[|fields| - 1].value)
    else LastEvent(fields[..|fields| - 1])
  }

  lemma {:induction false} LastEventCons(f: Field, more: seq<Field>)
    ensures LastEvent([f] + more)
         == if LastEvent(more).Some? then LastEvent(more) else if f.name == "event" then Some(f.value) else None
    decreases |more|
  {
    var all := [f] + more;
    if more == [] {
      assert all[..0] == [];
    } else {
      var n := |more| - 1;
      assert all[..|all| - 1] == [f] + more[..n];
      LastEventCons(f, more[..n]);
    }
  }

  lemma DataTextCons(f: Field, more: seq<Field>)
    ensures DataText([f] + more) == (if f.name == "data" then f.value + "\n" else "") + DataText(more)
    ensures HasData([f] + more) <==> f.name == "data" || HasData(more)
  {
    var all := [f] + more;
    assert all[1..] == more;
    assert all[0] == f;
    if HasData(more) {
      var i :| 0 <= i < |more| && more[i].name == "data";
      assert all[i + 1].name == "data";
    }
  }

  lemma {:induction false} NoDataText(fields: seq<Field>)
    requires !HasData(fields)
    ensures DataText(fields) == ""
  {
    if fields != [] {
      assert fields == [fields[0]] + fields[1..];
      DataTextCons(fields[0], fields[1..]);
      NoDataText(fields[1..]);
    }
  }

  /** The message after the fields have been taken in. */
  function With(m: Message, fields: seq<Field>): Message {
    Message(if LastEvent(fields).Some? then LastEvent(fields) else m.event,
            if HasData(fields) then Some(m.data.GetOr("") + DataText(fields)) else m.data)
  }

  lemma DataGrows(d: string, value: string, more: string)
    ensures d + value + "\n" + more == d + (value + "\n" + more)
  {
  }

  lemma {:induction false} WithCons(m: Message, f: Field, more: seq<Field>)
    ensures With(m, [f] + more)
         == With(if f.name == "data" then m.(data := Some(m.data.GetOr("") + f.value + "\n"))
                 else if f.name == "event" then m.(event := Some(f.value)) else m, more)
  {
    LastEventCons(f, more);
    DataTextCons(f, more);
    var d := m.data.GetOr("");
    DataGrows(d, f.value, DataText(more));
    assert "" + DataText(more) == DataText(more);
    if !HasData(more) {
      NoDataText(more);
      assert d + f.value + "\n" + "" == d + f.value + "\n";
    }
  }

  lemma {:induction false} AbsorbFields(m: Message, lines: seq<string>, fields: seq<Field>)
    requires AllSay(lines, fields)
    ensures AbsorbAll(m, lines) == With(m, fields)
    decreases |lines|
  {
    if lines != [] {
      assert fields == [fields[0]] + fields[1..];
      WithCons(m, fields[0], fields[1..]);
      assert Says(lines[0], fields[0]) || (lines[0] == "" && fields[0] == Field("", ""));
      if lines[0] != "" { AbsorbField(m, lines[0], fields[0]); }
      AbsorbFields(Absorb(m, lines[0]), lines[1..], fields[1..]);
    }
  }

  /**
   * What parsing a block gives, by the fields of its lines: the last event, and the data values, which are `text`
   * and a last LF; nothing where both are missing or empty.
   */
  lemma {:induction false} BlockTells(block: string, fields: seq<Field>, text: string)
    requires AllSay(Lines(block), fields) && (HasData(fields) ==> DataText(fields) == text + "\n")
    ensures var event, data := LastEvent(fields), if HasData(fields) then Some(text) else None;
            ParseBlock(block) == if Truthy(data) || Truthy(event) then Some(Message(event, data)) else None
  {
    AbsorbFields(NO_FIELDS, Lines(block), fields);
    assert "" + DataText(fields) == DataText(fields);
    assert (text + "\n")[..|text|] == text;
  }
}
