/** Printing and parsing server-sent events (section 9.2 of the WHATWG HTML Living Standard).

    A payload is the JSON text that goes on the data line; decoding it is represented by the
    texts that it accepts as objects. */
module ServerSentEvents {
  import opened Basics
  import opened Strings

  datatype Message = Message(name: string, data: string)

  predicate BreakFree(s: string) {
    forall i | 0 <= i < |s| :: !IsBreak(s[i])
  }

  /** What a JSON encoder writes for an object: braces around it, control characters escaped. */
  predicate IsObjectText(s: string) {
    |s| >= 2 && s[0] == '{' && s[|s| - 1] == '}' && forall i | 0 <= i < |s| :: s[i] >= ' '
  }

  // ---------------------------------------------------------------- printing

  function Body(m: Message): string {
    "event: " + m.name + "\ndata: " + m.data
  }

  function Sse(m: Message): string {
    Body(m) + "\n\n"
  }

  function Stream(ms: seq<Message>): string {
    if ms == [] then "" else Sse(ms[0]) + Stream(ms[1..])
  }

  // ---------------------------------------------------------------- string operations

  /** The first blank line at or after `i`, or the end. */
  function FindBlank(s: string, i: nat): (k: nat)
    requires i <= |s|
    ensures i <= k <= |s| && (k < |s| ==> k + 1 < |s| && s[k] == '\n' && s[k + 1] == '\n')
    decreases |s| - i
  {
    if i + 1 >= |s| then |s| else if s[i] == '\n' && s[i + 1] == '\n' then i else FindBlank(s, i + 1)
  }

  function SplitBlocks(s: string): seq<string>
    decreases |s|
  {
    var k := FindBlank(s, 0);
    if k == |s| then [s] else [s[..k]] + SplitBlocks(s[k + 2..])
  }

  function FirstBreak(s: string, i: nat): (k: nat)
    requires i <= |s|
    ensures i <= k <= |s| && (k < |s| ==> IsBreak(s[k])) && forall j :: i <= j < k ==> !IsBreak(s[j])
    decreases |s| - i
  {
    if i == |s| || IsBreak(s[i]) then i else FirstBreak(s, i + 1)
  }

  function SplitLines(s: string): seq<string>
    decreases |s|
  {
    if s == "" then []
    else
      var k := FirstBreak(s, 0);
      if k == |s| then [s]
      else
        var width := if s[k] == '\r' && k + 1 < |s| && s[k + 1] == '\n' then 2 else 1;
        [s[..k]] + SplitLines(s[k + width..])
  }

  function Join(lines: seq<string>): string {
    if lines == [] then "" else if |lines| == 1 then lines[0] else lines[0] + "\n" + Join(lines[1..])
  }

  // ---------------------------------------------------------------- parsing

  const EVENT_PREFIX := "event: "
  const DATA_PREFIX := "data: "

  function NameOf(lines: seq<string>, name: string): string
    decreases |lines|
  {
    if lines == [] then name
    else NameOf(lines[1..], if EVENT_PREFIX <= lines[0] then lines[0][|EVENT_PREFIX|..] else name)
  }

  function DataOf(lines: seq<string>): seq<string>
    decreases |lines|
  {
    if lines == [] then []
    else
      var line := lines[0];
      (if !(EVENT_PREFIX <= line) && DATA_PREFIX <= line then [line[|DATA_PREFIX|..]] else []) + DataOf(lines[1..])
  }

  function OrBraces(s: string): string {
    if s == "" then "{}" else s
  }

  /** A block gives one message, or none when it is blank or names no event. */
  function ParseBlock(block: string): seq<Message> {
    var lines := SplitLines(block);
    if Strip(block) == "" || NameOf(lines, "") == "" then []
      else [Message(NameOf(lines, ""), OrBraces(Join(DataOf(lines))))]
  }

  function ParseBlocks(blocks: seq<string>): seq<Message> {
    if blocks == [] then [] else ParseBlock(blocks[0]) + ParseBlocks(blocks[1..])
  }

  lemma {:induction false} ParseBlocksSnoc(blocks: seq<string>, b: string)
    ensures ParseBlocks(blocks + [b]) == ParseBlocks(blocks) + ParseBlock(b)
    decreases |blocks|
  {
    if blocks == [] {
      assert [b][1..] == [];
    } else {
      ParseBlocksSnoc(blocks[1..], b);
      assert (blocks + [b])[1..] == blocks[1..] + [b];
    }
  }

  lemma {:induction false} NameOfSnoc(lines: seq<string>, line: string, name: string)
    ensures NameOf(lines + [line], name) == if EVENT_PREFIX <= line then line[|EVENT_PREFIX|..] else NameOf(lines, name)
    decreases |lines|
  {
    if lines == [] {
      assert [line][1..] == [];
    } else {
      NameOfSnoc(lines[1..], line, if EVENT_PREFIX <= lines[0] then lines[0][|EVENT_PREFIX|..] else name);
      assert (lines + [line])[1..] == lines[1..] + [line];
    }
  }

  lemma {:induction false} DataOfSnoc(lines: seq<string>, line: string)
    ensures DataOf(lines + [line]) == DataOf(lines) + DataOf([line])
    decreases |lines|
  {
    if lines != [] {
      DataOfSnoc(lines[1..], line);
      assert (lines + [line])[1..] == lines[1..] + [line];
    }
  }

  /** The parser's inner loop: the last event line names the block, the data lines are gathered. */
  method ReadBlock(block: string) returns (name: string, data: seq<string>)
    ensures name == NameOf(SplitLines(block), "") && data == DataOf(SplitLines(block))
  {
    name, data := "", [];
    var lines := SplitLines(block);
    for l: nat := 0 to |lines|
      invariant name == NameOf(lines[..l], "") && data == DataOf(lines[..l])
    {
      var line := lines[l];
      assert lines[..l + 1] == lines[..l] + [line];
      NameOfSnoc(lines[..l], line, "");
      DataOfSnoc(lines[..l], line);
      assert DataOf([line][1..]) == [];
      if EVENT_PREFIX <= line {
        name := line[|EVENT_PREFIX|..];
      } else if DATA_PREFIX <= line {
        data := data + [line[|DATA_PREFIX|..]];
      }
    }
    assert lines[..|lines|] == lines;
  }

  /** What the parser makes of a body: one payload that is not the text of an object fails the whole. */
  function Read(body: string, isObject: string -> bool): Option<seq<Message>> {
    var ms := ParseBlocks(SplitBlocks(Strip(body)));
    if forall m | m in ms :: isObject(m.data) then Some(ms) else None
  }

  lemma {:induction false} BlocksMember(blocks: seq<string>, i: nat, m: Message)
    requires i < |blocks| && m in ParseBlock(blocks[i])
    ensures m in ParseBlocks(blocks)
  {
    if i > 0 { BlocksMember(blocks[1..], i - 1, m); }
  }

  lemma OneMore(blocks: seq<string>, b: nat)
    requires b < |blocks|
    ensures ParseBlocks(blocks[..b + 1]) == ParseBlocks(blocks[..b]) + ParseBlock(blocks[b])
    ensures forall m <- ParseBlock(blocks[b]) :: m in ParseBlocks(blocks)
  {
    hide ParseBlock, ParseBlocks;
    assert blocks[..b + 1] == blocks[..b] + [blocks[b]];
    ParseBlocksSnoc(blocks[..b], blocks[b]);
    forall m | m in ParseBlock(blocks[b])
      ensures m in ParseBlocks(blocks)
    {
      BlocksMember(blocks, b, m);
    }
  }

  /** The parser: blank blocks and blocks without a name are skipped. */
  method ParseSse(body: string, isObject: string -> bool) returns (events: Option<seq<Message>>)
    ensures events == Read(body, isObject)
  {
    hide Strip, SplitBlocks, SplitLines, NameOf, DataOf, Join, OrBraces;
    var blocks := SplitBlocks(Strip(body));
    var found: seq<Message> := [];
    for b: nat := 0 to |blocks|
      invariant found == ParseBlocks(blocks[..b])
      invariant forall m :: m in found ==> isObject(m.data)
    {
      var block := blocks[b];
      OneMore(blocks, b);
      if Strip(block) == "" {
        continue;
      }
      var name, data := ReadBlock(block);
      if name == "" {
        continue;
      }
      var m := Message(name, OrBraces(Join(data)));
      assert ParseBlock(block) == [m];
      if !isObject(m.data) {
        return None;
      }
      found := found + [m];
    }
    assert blocks[..|blocks|] == blocks;
    events := Some(found);
  }

  // ---------------------------------------------------------------- one block

  ghost predicate Printable(m: Message) {
    m.name != "" && BreakFree(m.name) && IsObjectText(m.data)
  }

  lemma FirstBreakAt(a: string, c: char, b: string)
    requires BreakFree(a) && IsBreak(c)
    ensures FirstBreak(a + [c] + b, 0) == |a|
  {
    var s := a + [c] + b;
    assert s[|a|] == c && forall i :: 0 <= i < |a| ==> s[i] == a[i];
  }

  lemma LinesBefore(a: string, c: char, b: string)
    requires BreakFree(a) && IsBreak(c) && c != '\r'
    ensures SplitLines(a + [c] + b) == [a] + SplitLines(b)
  {
    var s := a + [c] + b;
    FirstBreakAt(a, c, b);
    assert s[..|a|] == a && s[|a| + 1..] == b;
  }

  /** The data line of a block ends at the payload's first line break. */
  lemma DataLines(data: string)
    requires IsObjectText(data)
    ensures var k := FirstBreak(data, 0); var lines := SplitLines(DATA_PREFIX + data);
      |lines| >= 1 && lines[0] == DATA_PREFIX + data[..k] && (k == |data| ==> |lines| == 1)
  {
    var k := FirstBreak(data, 0);
    var line := DATA_PREFIX + data[..k];
    assert BreakFree(line);
    if k < |data| {
      assert DATA_PREFIX + data == line + [data[k]] + data[k + 1..];
      LinesBefore(line, data[k], data[k + 1..]);
    } else {
      assert line == DATA_PREFIX + data;
    }
  }

  /** The lines of a block: the event line, then those of the data. */
  lemma BlockLines(m: Message)
    requires Printable(m)
    ensures var k := FirstBreak(m.data, 0); var lines := SplitLines(Body(m));
      && |lines| >= 2 && lines[0] == EVENT_PREFIX + m.name && lines[1] == DATA_PREFIX + m.data[..k]
      && (k == |m.data| ==> |lines| == 2)
  {
    var first, second := EVENT_PREFIX + m.name, DATA_PREFIX + m.data;
    assert Body(m) == first + ['\n'] + second;
    assert BreakFree(first);
    LinesBefore(first, '\n', second);
    DataLines(m.data);
  }

  lemma {:induction false} JoinHasBreak(lines: seq<string>)
    requires |lines| >= 2
    ensures exists i :: 0 <= i < |Join(lines)| && Join(lines)[i] == '\n'
  {
    assert Join(lines)[|lines[0]|] == '\n';
  }

  lemma BlockNotBlank(m: Message)
    ensures Strip(Body(m)) != ""
  {
    var s := Body(m);
    assert s[0] == 'e' && StripLeft(s) == s;
    StripRightKeepsHead(s);
  }

  lemma DataLine(data: string)
    ensures DATA_PREFIX <= DATA_PREFIX + data && (DATA_PREFIX + data)[|DATA_PREFIX|..] == data &&
      !(EVENT_PREFIX <= DATA_PREFIX + data)
  {
    assert (DATA_PREFIX + data)[0] == 'd';
  }

  /** The data of a printed block starts with the payload up to its first line break. */
  lemma BlockData(m: Message)
    requires Printable(m)
    ensures var k := FirstBreak(m.data, 0); var data := DataOf(SplitLines(Body(m)));
      data != [] && data[0] == m.data[..k] &&
        (k == |m.data| ==> |data| == 1 && NameOf(SplitLines(Body(m)), "") == m.name)
  {
    BlockLines(m);
    var lines, k := SplitLines(Body(m)), FirstBreak(m.data, 0);
    DataLine(m.data[..k]);
    assert DataOf(lines) == DataOf(lines[1..]);
    assert DataOf(lines[1..]) == [m.data[..k]] + DataOf(lines[1..][1..]);
    if k == |m.data| {
      assert lines[1..][1..] == [];
      assert NameOf(lines[1..], m.name) == NameOf([], m.name);
    }
  }

  /** A printed block is read back as itself if and only if its payload contains no line break. */
  lemma BlockRoundTrip(m: Message)
    requires Printable(m)
    ensures ParseBlock(Body(m)) == [m] <==> BreakFree(m.data)
  {
    BlockNotBlank(m);
    BlockData(m);
    var k, data := FirstBreak(m.data, 0), DataOf(SplitLines(Body(m)));
    if BreakFree(m.data) {
      assert m.data[..|m.data|] == m.data;
      assert data == [m.data];
    } else if |data| >= 2 {
      JoinHasBreak(data);
      var i :| 0 <= i < |Join(data)| && Join(data)[i] == '\n';
      assert Join(data) != m.data;
    } else {
      assert data == [m.data[..k]] && Join(data) == m.data[..k] && k < |m.data|;
    }
  }

  /** The texts that go over the wire. */
  lemma WireFormat()
    ensures Sse(Message("status", "{}")) == "event: status\ndata: {}\n\n"
    ensures ParseBlock("event: status\ndata: {}") == [Message("status", "{}")]
  {
    var m := Message("status", "{}");
    BodyHasTwoParts(m);
    assert Body(m) == "event: status\ndata: {}";
    assert BreakFree("status") && BreakFree("{}");
    assert Printable(m);
    hide ParseBlock;
    BlockRoundTrip(m);
  }

  // ---------------------------------------------------------------- what other blocks mean

  lemma LineAlone(a: string)
    requires BreakFree(a) && a != ""
    ensures SplitLines(a) == [a]
  {
  }

  /** A carriage return and a line feed together end one line. */
  lemma CarriageReturn(a: string, b: string)
    requires BreakFree(a) && BreakFree(b) && b != ""
    ensures SplitLines(a + ['\r'] + (['\n'] + b)) == [a, b]
  {
    var s := a + ['\r'] + (['\n'] + b);
    FirstBreakAt(a, '\r', ['\n'] + b);
    assert s[|a|] == '\r' && s[|a| + 1] == '\n' && s[..|a|] == a && s[|a| + 2..] == b;
    LineAlone(b);
  }

  lemma OneLine(line: string)
    ensures NameOf([line], "") == if EVENT_PREFIX <= line then line[|EVENT_PREFIX|..] else ""
    ensures DataOf([line]) ==
      if !(EVENT_PREFIX <= line) && DATA_PREFIX <= line then [line[|DATA_PREFIX|..]] else []
  {
    var lines := [line];
    assert lines[1..] == [];
  }

  lemma NotBlank(s: string)
    requires s != "" && !IsSpace(s[0])
    ensures Strip(s) != ""
  {
    assert StripLeft(s) == s;
    StripRightKeepsHead(s);
  }

  lemma {:induction false} LinesOfJoin(lines: seq<string>)
    requires lines != [] && forall k :: 0 <= k < |lines| ==> lines[k] != "" && BreakFree(lines[k])
    ensures SplitLines(Join(lines)) == lines
    decreases |lines|
  {
    if |lines| == 1 {
      LineAlone(lines[0]);
    } else {
      var rest := lines[1..];
      LinesOfJoin(rest);
      assert Join(lines) == lines[0] + ['\n'] + Join(rest);
      LinesBefore(lines[0], '\n', Join(rest));
    }
  }

  lemma {:induction false} LastEventNames(a: seq<string>, name: string, b: seq<string>)
    requires forall k :: 0 <= k < |b| ==> !(EVENT_PREFIX <= b[k])
    ensures NameOf(a + [EVENT_PREFIX + name] + b, "") == name
    decreases |b|
  {
    var lines := a + [EVENT_PREFIX + name];
    if b == [] {
      assert lines + b == lines;
      NameOfSnoc(a, EVENT_PREFIX + name, "");
    } else {
      var front, line := b[..|b| - 1], b[|b| - 1];
      LastEventNames(a, name, front);
      assert lines + b == (lines + front) + [line];
      NameOfSnoc(lines + front, line, "");
    }
  }

  lemma {:induction false} JoinBegins(lines: seq<string>)
    requires lines != [] && lines[0] != ""
    ensures Join(lines) != "" && Join(lines)[0] == lines[0][0]
  {
  }

  lemma PrefixesHaveNoBreak(s: string)
    requires BreakFree(s)
    ensures BreakFree(EVENT_PREFIX + s) && BreakFree(DATA_PREFIX + s)
  {
  }

  /** Of a block's lines the last event line gives the name, and the data lines joined by line feeds, in
      their order, give the payload. */
  lemma TwoDataLines(name: string, last: string, x: string, y: string)
    requires BreakFree(name) && BreakFree(last) && BreakFree(x) && BreakFree(y) && last != ""
    ensures ParseBlock(Join([EVENT_PREFIX + name, DATA_PREFIX + x, DATA_PREFIX + y, EVENT_PREFIX + last])) ==
      [Message(last, x + "\n" + y)]
  {
    var a, b, c, d := EVENT_PREFIX + name, DATA_PREFIX + x, DATA_PREFIX + y, EVENT_PREFIX + last;
    assert a[0] == 'e' && !IsSpace('e');
    hide SplitLines, BreakFree, Strip, NameOf, DataOf, Join, IsSpace;
    PrefixesHaveNoBreak(name);
    PrefixesHaveNoBreak(last);
    PrefixesHaveNoBreak(x);
    PrefixesHaveNoBreak(y);
    LinesOfJoin([a, b, c, d]);
    JoinBegins([a, b, c, d]);
    NotBlank(Join([a, b, c, d]));
    assert [a, b, c] + [d] + [] == [a, b, c, d];
    LastEventNames([a, b, c], last, []);
    DataOfFour(name, x, y, last);
    JoinOfTwo(x, y);
  }

  lemma JoinOfTwo(x: string, y: string)
    ensures Join([x, y]) == x + "\n" + y && Join([x, y]) != ""
  {
    assert [x, y][1..] == [y];
  }

  lemma DataOfFour(name: string, x: string, y: string, last: string)
    ensures DataOf([EVENT_PREFIX + name, DATA_PREFIX + x, DATA_PREFIX + y, EVENT_PREFIX + last]) == [x, y]
  {
    var a, b, c, d := EVENT_PREFIX + name, DATA_PREFIX + x, DATA_PREFIX + y, EVENT_PREFIX + last;
    DataLine(x);
    DataLine(y);
    OneLine(a);
    OneLine(b);
    OneLine(c);
    OneLine(d);
    hide DataOf;
    assert [a, b, c, d] == [a, b, c] + [d] && [a, b, c] == [a, b] + [c] && [a, b] == [a] + [b];
    DataOfSnoc([a, b, c], d);
    DataOfSnoc([a, b], c);
    DataOfSnoc([a], b);
  }

  /** A block without data lines carries the empty object. */
  lemma NoDataLines(name: string)
    requires BreakFree(name) && name != ""
    ensures ParseBlock(EVENT_PREFIX + name) == [Message(name, "{}")]
  {
    var a := EVENT_PREFIX + name;
    assert BreakFree(a) && a[0] == 'e';
    NotBlank(a);
    LineAlone(a);
    OneLine(a);
  }

  /** A block without an event line is skipped. */
  lemma NamelessIsSkipped(x: string)
    requires BreakFree(x)
    ensures ParseBlock(DATA_PREFIX + x) == []
  {
    var a := DATA_PREFIX + x;
    assert BreakFree(a);
    LineAlone(a);
    DataLine(x);
    OneLine(a);
  }

  // ---------------------------------------------------------------- the stream

  function Bodies(ms: seq<Message>): seq<string> {
    seq(|ms|, i requires 0 <= i < |ms| => Body(ms[i]))
  }

  function JoinBlocks(blocks: seq<string>): string
    requires blocks != []
  {
    if |blocks| == 1 then blocks[0] else blocks[0] + "\n\n" + JoinBlocks(blocks[1..])
  }

  /** A block that holds no blank line and does not end in a line feed. */
  ghost predicate Solid(b: string) {
    b != "" && b[|b| - 1] != '\n' && forall i, j :: 0 <= i < |b| - 1 && j == i + 1 ==> !(b[i] == '\n' && b[j] == '\n')
  }

  lemma {:induction false} FindBlankAfter(b: string, rest: string, i: nat)
    requires Solid(b) && i <= |b|
    ensures FindBlank(b + "\n\n" + rest, i) == |b|
    decreases |b| - i
  {
    var s := b + "\n\n" + rest;
    if i < |b| {
      FindBlankAfter(b, rest, i + 1);
      assert s[i] == b[i];
      if i + 1 < |b| { assert s[i + 1] == b[i + 1]; }
    } else {
      assert s[i] == '\n' && s[i + 1] == '\n';
    }
  }

  lemma {:induction false} FindBlankNone(b: string, i: nat)
    requires Solid(b) && i <= |b|
    ensures FindBlank(b, i) == |b|
    decreases |b| - i
  {
  }

  lemma {:induction false} SplitJoinedBlocks(blocks: seq<string>)
    requires blocks != [] && forall i :: 0 <= i < |blocks| ==> Solid(blocks[i])
    ensures SplitBlocks(JoinBlocks(blocks)) == blocks
    decreases |blocks|
  {
    var b := blocks[0];
    if |blocks| == 1 {
      FindBlankNone(b, 0);
    } else {
      var rest := JoinBlocks(blocks[1..]);
      var s := b + "\n\n" + rest;
      FindBlankAfter(b, rest, 0);
      SplitJoinedBlocks(blocks[1..]);
      assert s[..|b|] == b && s[|b| + 2..] == rest;
    }
  }

  lemma BodyIsSolid(m: Message)
    requires Printable(m)
    ensures Solid(Body(m))
  {
  }

  lemma {:induction false} StreamIsJoined(ms: seq<Message>)
    requires ms != []
    ensures Stream(ms) == JoinBlocks(Bodies(ms)) + "\n\n"
    decreases |ms|
  {
    if |ms| == 1 {
      assert Stream(ms[1..]) == "";
    } else {
      StreamIsJoined(ms[1..]);
      assert Bodies(ms)[1..] == Bodies(ms[1..]);
    }
  }

  lemma {:induction false} JoinedEnds(blocks: seq<string>)
    requires blocks != [] && forall i :: 0 <= i < |blocks| ==> blocks[i] != ""
    ensures var s, last := JoinBlocks(blocks), blocks[|blocks| - 1];
      s != "" && s[0] == blocks[0][0] && s[|s| - 1] == last[|last| - 1]
    decreases |blocks|
  {
    if |blocks| > 1 { JoinedEnds(blocks[1..]); }
  }

  lemma StripTrailing(s: string)
    requires s != "" && !IsSpace(s[0]) && !IsSpace(s[|s| - 1])
    ensures Strip(s + "\n\n") == s
  {
    var t, u := s + "\n\n", s + "\n";
    assert t[0] == s[0] && StripLeft(t) == t;
    assert t[..|t| - 1] == u && u[..|u| - 1] == s;
    assert StripRight(t) == StripRight(u);
    assert StripRight(u) == StripRight(s);
  }

  ghost predicate Framed(b: string) {
    b != "" && !IsSpace(b[0]) && !IsSpace(b[|b| - 1])
  }

  lemma JoinedStrips(blocks: seq<string>)
    requires blocks != [] && forall i :: 0 <= i < |blocks| ==> Framed(blocks[i])
    ensures Strip(JoinBlocks(blocks) + "\n\n") == JoinBlocks(blocks)
  {
    hide IsSpace, Strip, JoinBlocks;
    assert Framed(blocks[0]) && Framed(blocks[|blocks| - 1]);
    JoinedEnds(blocks);
    StripTrailing(JoinBlocks(blocks));
  }

  lemma BodiesAreFramed(ms: seq<Message>)
    requires forall i :: 0 <= i < |ms| ==> Printable(ms[i])
    ensures forall i :: 0 <= i < |ms| ==> Framed(Bodies(ms)[i])
  {
  }

  lemma StreamStrips(ms: seq<Message>)
    requires ms != [] && forall i :: 0 <= i < |ms| ==> Printable(ms[i])
    ensures Strip(Stream(ms)) == JoinBlocks(Bodies(ms))
  {
    hide Stream, JoinBlocks, Strip, Framed, Body, Printable;
    StreamIsJoined(ms);
    BodiesAreFramed(ms);
    JoinedStrips(Bodies(ms));
  }

  /** The blocks of a printed stream are found again, whatever the payloads contain. */
  lemma StreamBlocks(ms: seq<Message>)
    requires ms != [] && forall i :: 0 <= i < |ms| ==> Printable(ms[i])
    ensures SplitBlocks(Strip(Stream(ms))) == Bodies(ms)
  {
    forall i | 0 <= i < |ms|
      ensures Solid(Bodies(ms)[i])
    {
      BodyIsSolid(ms[i]);
    }
    StreamStrips(ms);
    SplitJoinedBlocks(Bodies(ms));
  }

  lemma {:induction false} ParsedLength(ms: seq<Message>)
    ensures |ParseBlocks(Bodies(ms))| <= |ms|
    decreases |ms|
  {
    if ms != [] {
      ParsedLength(ms[1..]);
      assert Bodies(ms)[1..] == Bodies(ms[1..]);
    }
  }

  lemma {:induction false} AllParsed(ms: seq<Message>)
    requires forall i :: 0 <= i < |ms| ==> ParseBlock(Body(ms[i])) == [ms[i]]
    ensures ParseBlocks(Bodies(ms)) == ms
    decreases |ms|
  {
    hide ParseBlock, Body;
    if ms != [] {
      AllParsed(ms[1..]);
      assert Bodies(ms)[1..] == Bodies(ms[1..]);
      assert ms == [ms[0]] + ms[1..];
    }
  }

  /** As a block gives at most one message, the list comes back only if each block gives its own. */
  lemma {:induction false} ParsedBack(ms: seq<Message>, i: nat)
    requires ParseBlocks(Bodies(ms)) == ms && i < |ms|
    ensures ParseBlock(Body(ms[i])) == [ms[i]]
    decreases |ms|
  {
    var tail, first := ms[1..], ParseBlock(Body(ms[0]));
    assert Bodies(ms)[1..] == Bodies(tail);
    ParsedLength(tail);
    assert ms == first + ParseBlocks(Bodies(tail));
    assert |first| == 1 && first[0] == ms[0] && ParseBlocks(Bodies(tail)) == tail;
    if i > 0 { ParsedBack(tail, i - 1); }
  }

  lemma MessagesReadIff(ms: seq<Message>)
    requires forall i :: 0 <= i < |ms| ==> Printable(ms[i])
    ensures ParseBlocks(SplitBlocks(Strip(Stream(ms)))) == ms <==> forall i :: 0 <= i < |ms| ==> BreakFree(ms[i].data)
  {
    if ms == [] {
      NothingIsRead();
    } else {
      StreamBlocks(ms);
      hide Stream, Strip, SplitBlocks, ParseBlocks, ParseBlock, Body, BreakFree, Printable;
      BlocksReadIff(ms);
    }
  }

  lemma NothingIsRead()
    ensures ParseBlocks(SplitBlocks(Strip(Stream([])))) == []
  {
    assert SplitBlocks("") == [""] && ParseBlock("") == [];
  }

  lemma BlocksReadIff(ms: seq<Message>)
    requires forall i :: 0 <= i < |ms| ==> Printable(ms[i])
    ensures ParseBlocks(Bodies(ms)) == ms <==> forall i :: 0 <= i < |ms| ==> BreakFree(ms[i].data)
  {
    hide ParseBlocks, ParseBlock, Body, BreakFree, Printable, Bodies;
    forall i | 0 <= i < |ms|
      ensures ParseBlock(Body(ms[i])) == [ms[i]] <==> BreakFree(ms[i].data)
    {
      BlockRoundTrip(ms[i]);
    }
    if ParseBlocks(Bodies(ms)) == ms {
      forall i: nat | i < |ms|
        ensures BreakFree(ms[i].data)
      {
        ParsedBack(ms, i);
      }
    } else if forall i :: 0 <= i < |ms| ==> BreakFree(ms[i].data) {
      AllParsed(ms);
    }
  }

  /** The exact condition of the round trip.  A JSON encoder that keeps non-ASCII characters leaves
      U+0085, U+2028 and U+2029 in place; with one of them the stream is not read back. */
  lemma StreamRoundTripIff(ms: seq<Message>, isObject: string -> bool)
    requires forall i :: 0 <= i < |ms| ==> Printable(ms[i]) && isObject(ms[i].data)
    ensures Read(Stream(ms), isObject) == Some(ms) <==> forall i :: 0 <= i < |ms| ==> BreakFree(ms[i].data)
  {
    hide Stream, Strip, SplitBlocks, ParseBlocks;
    MessagesReadIff(ms);
    if ParseBlocks(SplitBlocks(Strip(Stream(ms)))) == ms {
      assert forall m <- ms :: isObject(m.data);
    }
  }

  /** No text of an object is the beginning of another. */
  ghost predicate PrefixFree(isObject: string -> bool) {
    forall s, k: nat :: k < |s| && isObject(s) ==> !isObject(s[..k])
  }

  /** A payload with a line break makes the parser fail on the whole stream, unless what follows the
      break happens to look like another event or data line. */
  lemma BrokenStreamFails(ms: seq<Message>, isObject: string -> bool, i: nat)
    requires forall j :: 0 <= j < |ms| ==> Printable(ms[j])
    requires PrefixFree(isObject) && i < |ms| && isObject(ms[i].data) && !BreakFree(ms[i].data)
    requires var lines := SplitLines(Body(ms[i])); NameOf(lines, "") == ms[i].name && |DataOf(lines)| == 1
    ensures Read(Stream(ms), isObject) == None
  {
    StreamBlocks(ms);
    var m, k := ms[i], FirstBreak(ms[i].data, 0);
    BlockNotBlank(m);
    BlockData(m);
    var cut := Message(m.name, m.data[..k]);
    assert 0 < k < |m.data|;
    assert ParseBlock(Body(m)) == [cut];
    BlocksMember(Bodies(ms), i, cut);
    assert !isObject(cut.data);
  }

  /** Among the texts a JSON encoder writes, exactly those three characters break lines. */
  lemma ObjectTextBreaks(s: string)
    requires IsObjectText(s)
    ensures BreakFree(s) <==> '\U{85}' !in s && '\U{2028}' !in s && '\U{2029}' !in s
  {
  }

  /** The lines of a block whose payload has one line separator, before a quotation mark. */
  lemma SeparatedLines(m: Message, head: string, tail: string)
    requires m.data == head + ['\U{2028}'] + tail && tail != "" && tail[0] == '"'
    requires BreakFree(m.name) && BreakFree(head) && BreakFree(tail)
    ensures NameOf(SplitLines(Body(m)), "") == m.name && |DataOf(SplitLines(Body(m)))| == 1
  {
    var first, second := EVENT_PREFIX + m.name, DATA_PREFIX + head;
    BodyHasTwoParts(m);
    assert BreakFree(first) && BreakFree(second);
    LineAlone(tail);
    hide Body, SplitLines, BreakFree;
    assert DATA_PREFIX + (head + ['\U{2028}'] + tail) == second + ['\U{2028}'] + tail;
    LinesBefore(first, '\n', DATA_PREFIX + m.data);
    LinesBefore(second, '\U{2028}', tail);
    assert [first] + ([second] + [tail]) == [first, second, tail];
    ThreeLines(m.name, head, tail);
  }

  lemma BodyHasTwoParts(m: Message)
    ensures Body(m) == EVENT_PREFIX + m.name + ['\n'] + (DATA_PREFIX + m.data)
  {
  }

  lemma ThreeLines(name: string, head: string, tail: string)
    requires tail != "" && tail[0] == '"'
    ensures var lines := [EVENT_PREFIX + name, DATA_PREFIX + head, tail];
      NameOf(lines, "") == name && |DataOf(lines)| == 1
  {
    var first, second := EVENT_PREFIX + name, DATA_PREFIX + head;
    DataLine(head);
    var lines := [first, second, tail];
    assert lines[1..] == [second, tail] && lines[1..][1..] == [tail] && lines[1..][1..][1..] == [];
    assert NameOf([tail], name) == NameOf([], name);
    assert DataOf([tail]) == DataOf([]);
  }

  /** A payload with a line separator inside a string is printed, and makes the parser fail. */
  lemma LineSeparatorFails(m: Message, isObject: string -> bool)
    requires m == Message("chunk", "{\"text\":\"\U{2028}\"}") && PrefixFree(isObject) && isObject(m.data)
    ensures Printable(m) && Read(Stream([m]), isObject) == None
  {
    assert m.data[9] == '\U{2028}';
    assert Printable(m) && !BreakFree(m.data);
    assert NameOf(SplitLines(Body(m)), "") == m.name && |DataOf(SplitLines(Body(m)))| == 1 by {
      SeparatedLines(m, "{\"text\":\"", "\"}");
    }
    hide SplitLines, NameOf, DataOf, Body, Read, Stream, Printable, BreakFree, PrefixFree;
    BrokenStreamFails([m], isObject, 0);
  }
}
