/** Server-sent events: the text the gateway writes (`#events`) and the client's line parser (`events`). */
module EventStream {
  import opened Bytes
  import Gateway
  import Snapshots
  import StationOperations

  /** A JSON value, as far as the event stream carries one. */
  datatype Value =
    | Null
    | Text(text: string)
    | CameraValue(camera: Gateway.Camera)
    | StationValue(serial: string, station: StationOperations.Station)
    | DetectionValue(detection: Gateway.Detection)
    | SnapshotValue(snapshot: Snapshots.Info)
    | List(items: seq<Value>)

  type Object = map<string, Value>

  /** The JSON printer of the gateway and the parser of the client, which gives nothing but objects. */
  datatype Json = Json(stringify: Object -> string, parse: string -> Option<Object>)

  predicate Plain(s: string) {
    forall i :: 0 <= i < |s| ==> s[i] != '\n' && s[i] != '\r'
  }

  /** What is used of JSON: parsing undoes printing, and an object is one line that starts with a brace. */
  ghost predicate Sound(json: Json) {
    forall o :: var t := json.stringify(o); json.parse(t) == Some(o) && |t| > 0 && t[0] == '{' && Plain(t)
  }

  // The server

  datatype Part = Message(topic: string, content: Object) | Heartbeat

  const HEARTBEAT := ": heartbeat"

  function PartText(json: Json, part: Part): string {
    match part
    case Message(topic, content) => "event: " + topic + "\n" + "data: " + json.stringify(content) + "\n" + "\n"
    case Heartbeat => HEARTBEAT + "\n" + "\n"
  }

  function TextOf(json: Json, parts: seq<Part>): string {
    if parts == [] then "" else PartText(json, parts[0]) + TextOf(json, parts[1..])
  }

  /** The objects that were sent, in order. */
  function Messages(parts: seq<Part>): seq<Object> {
    if parts == [] then []
    else (if parts[0].Message? then [parts[0].content] else []) + Messages(parts[1..])
  }

  ghost predicate PlainTopics(parts: seq<Part>) {
    forall i :: 0 <= i < |parts| && parts[i].Message? ==> Plain(parts[i].topic)
  }

  lemma {:induction false} TextConcat(json: Json, a: seq<Part>, b: seq<Part>)
    ensures TextOf(json, a + b) == TextOf(json, a) + TextOf(json, b)
    ensures Messages(a + b) == Messages(a) + Messages(b)
  {
    hide PartText;
    if a == [] {
      assert a + b == b;
    } else {
      assert (a + b)[1..] == a[1..] + b;
      TextConcat(json, a[1..], b);
      var own, text := PartText(json, a[0]), TextOf(json, a[1..]);
      assert TextOf(json, a + b) == own + (text + TextOf(json, b)) == TextOf(json, a) + TextOf(json, b);
    }
    MessagesConcat(a, b);
  }

  function Own(part: Part): seq<Object> {
    if part.Message? then [part.content] else []
  }

  lemma MessagesStep(part: Part, rest: seq<Part>)
    ensures Messages([part] + rest) == Own(part) + Messages(rest) && Messages([]) == []
  {
    assert ([part] + rest)[1..] == rest;
  }

  lemma {:induction false} MessagesConcat(a: seq<Part>, b: seq<Part>)
    ensures Messages(a + b) == Messages(a) + Messages(b)
  {
    hide Messages, Own;
    if a == [] {
      assert a + b == b;
      MessagesStep(Heartbeat, []);
    } else {
      var rest := a[1..];
      assert a == [a[0]] + rest && a + b == [a[0]] + (rest + b);
      MessagesStep(a[0], rest);
      MessagesStep(a[0], rest + b);
      MessagesConcat(rest, b);
    }
  }

  // The client

  function LineLength(text: string): (n: nat)
    ensures n <= |text| && (text != "" ==> n > 0)
  {
    if text == "" then 0 else if text[0] == '\n' then 1 else 1 + LineLength(text[1..])
  }

  /** A response body cut after each newline; what follows the last one is a line too. */
  function Lines(text: string): seq<string> {
    if text == "" then []
    else
      var n := LineLength(text);
      [text[..n]] + Lines(text[n..])
  }

  /** `rstrip("\r\n")`. */
  function RStrip(line: string): string {
    if line != "" && (line[|line| - 1] == '\n' || line[|line| - 1] == '\r') then RStrip(line[..|line| - 1]) else line
  }

  /** The characters Python counts as white space. */
  predicate IsSpace(c: char) {
    || 0x09 as char <= c <= 0x0d as char || 0x1c as char <= c <= 0x20 as char
    || c == 0x85 as char || c == 0xa0 as char || c == 0x1680 as char
    || 0x2000 as char <= c <= 0x200a as char || c == 0x2028 as char || c == 0x2029 as char
    || c == 0x202f as char || c == 0x205f as char || c == 0x3000 as char
  }

  /** `lstrip()`. */
  function LStrip(line: string): string {
    if line != "" && IsSpace(line[0]) then LStrip(line[1..]) else line
  }

  /** `"\n".join(lines)`. */
  function Join(lines: seq<string>): string {
    if lines == [] then ""
    else if |lines| == 1 then lines[0]
    else lines[0] + "\n" + Join(lines[1..])
  }

  /** The `data:` lines of the message being read, and the objects yielded so far. */
  datatype Reader = Reader(dataLines: seq<string>, yielded: seq<Object>)

  const FRESH := Reader([], [])

  predicate IsData(line: string) {
    |line| >= 5 && line[..5] == "data:"
  }

  function Dispatch(json: Json, r: Reader): Reader {
    var value := json.parse(Join(r.dataLines));
    if r.dataLines != [] && value.Some? then Reader([], r.yielded + [value.value]) else Reader([], r.yielded)
  }

  function Feed(json: Json, r: Reader, raw: string): Reader {
    var line := RStrip(raw);
    if line == "" then Dispatch(json, r)
    else if IsData(line) then r.(dataLines := r.dataLines + [LStrip(line[5..])])
    else r
  }

  function FeedAll(json: Json, r: Reader, raw: seq<string>): Reader
    decreases |raw|
  {
    if raw == [] then r else FeedAll(json, Feed(json, r, raw[0]), raw[1..])
  }

  /** The objects the client takes from a response body. */
  function Decode(json: Json, text: string): seq<Object> {
    FeedAll(json, FRESH, Lines(text)).yielded
  }

  /** The loop of `events`, over the lines of a body. */
  method Events(json: Json, raw: seq<string>) returns (yielded: seq<Object>)
    ensures yielded == FeedAll(json, FRESH, raw).yielded
  {
    hide RStrip, LStrip, Join;
    var dataLines: seq<string> := [];
    yielded := [];
    for i := 0 to |raw|
      invariant FeedAll(json, Reader(dataLines, yielded), raw[i..]) == FeedAll(json, FRESH, raw)
    {
      assert raw[i..][0] == raw[i] && raw[i..][1..] == raw[i + 1..];
      var line := RStrip(raw[i]);
      if line == "" {
        if dataLines != [] {
          var value := json.parse(Join(dataLines));
          if value.Some? {
            yielded := yielded + [value.value];
          }
        }
        dataLines := [];
      } else if IsData(line) {
        dataLines := dataLines + [LStrip(line[5..])];
      }
    }
  }

  // Lines

  lemma {:induction false} FirstLine(line: string, rest: string)
    requires Plain(line)
    ensures LineLength(line + "\n" + rest) == |line| + 1
  {
    var text := line + "\n" + rest;
    if line == "" {
    } else {
      assert text[1..] == line[1..] + "\n" + rest;
      FirstLine(line[1..], rest);
    }
  }

  lemma LinesOfLine(line: string, rest: string)
    requires Plain(line)
    ensures Lines(line + "\n" + rest) == [line + "\n"] + Lines(rest)
  {
    hide LineLength;
    var text := line + "\n" + rest;
    FirstLine(line, rest);
    assert text[..|line| + 1] == line + "\n";
    assert text[|line| + 1..] == rest;
  }

  lemma {:induction false} OpenLine(line: string)
    requires Plain(line) && line != ""
    ensures LineLength(line) == |line| && Lines(line) == [line]
  {
    if |line| > 1 {
      OpenLine(line[1..]);
    } else {
      assert line[1..] == "";
    }
    assert line[..|line|] == line && line[|line|..] == "";
  }

  lemma StripsLine(line: string)
    requires Plain(line)
    ensures RStrip(line) == line && RStrip(line + "\n") == line
  {
    assert (line + "\n")[..|line|] == line;
  }

  /** The lines are the text, cut after each newline and nowhere else. */
  lemma {:induction false} LinesMean(text: string)
    ensures Flatten(Lines(text)) == text
    ensures forall i :: 0 <= i < |Lines(text)| ==> Lines(text)[i] != ""
    ensures forall i, j :: 0 <= i < |Lines(text)| && 0 <= j < |Lines(text)[i]| - 1 ==> Lines(text)[i][j] != '\n'
    ensures forall i :: 0 <= i < |Lines(text)| - 1 ==> Lines(text)[i][|Lines(text)[i]| - 1] == '\n'
    decreases |text|
  {
    if text == "" {
    } else {
      var n := LineLength(text);
      LineMeans(text);
      LinesMean(text[n..]);
      var later := Lines(text[n..]);
      hide LineLength, Lines;
      assert Lines(text) == [text[..n]] + later by {
        LinesStep(text);
      }
      assert text == text[..n] + text[n..];
      assert Flatten([text[..n]] + later) == text[..n] + Flatten(later) by {
        assert ([text[..n]] + later)[1..] == later;
      }
      if later != [] {
        assert text[n..] != "" by {
          NoLines();
        }
      }
    }
  }

  lemma LinesStep(text: string)
    requires text != ""
    ensures Lines(text) == [text[..LineLength(text)]] + Lines(text[LineLength(text)..])
  {
  }

  lemma {:induction false} LineMeans(text: string)
    requires text != ""
    ensures var n := LineLength(text);
            && 1 <= n <= |text|
            && (forall j :: 0 <= j < n - 1 ==> text[j] != '\n')
            && (n < |text| ==> text[n - 1] == '\n')
  {
    if text[0] == '\n' {
    } else if |text| == 1 {
      assert text[1..] == "";
    } else {
      LineMeans(text[1..]);
      assert forall j :: 1 <= j < |text| ==> text[j] == text[1..][j - 1];
    }
  }

  /** Stripping takes off all line ends behind a line, and all white space before a text, and no more. */
  lemma {:induction false} StripsMean(line: string)
    ensures RStrip(line) <= line
    ensures RStrip(line) != "" ==> RStrip(line)[|RStrip(line)| - 1] !in {'\r', '\n'}
    ensures forall i :: |RStrip(line)| <= i < |line| ==> line[i] in {'\r', '\n'}
  {
    if line != "" && line[|line| - 1] in {'\r', '\n'} {
      StripsMean(line[..|line| - 1]);
    }
  }

  /** White space among the first 128 characters: tab to carriage return, file to unit separator, and space. */
  lemma AsciiSpaces(c: char)
    requires c < 0x80 as char
    ensures IsSpace(c) <==> 9 <= c as int <= 13 || 28 <= c as int <= 32
  {
  }

  lemma {:induction false} LStripMeans(line: string)
    ensures |LStrip(line)| <= |line| && line[|line| - |LStrip(line)|..] == LStrip(line)
    ensures LStrip(line) != "" ==> !IsSpace(LStrip(line)[0])
    ensures forall i :: 0 <= i < |line| - |LStrip(line)| ==> IsSpace(line[i])
  {
    if line != "" && IsSpace(line[0]) {
      LStripMeans(line[1..]);
      var r := LStrip(line[1..]);
      assert line[1..][|line| - 1 - |r|..] == line[|line| - |r|..];
    }
  }

  /** Lines joined have one newline between each two. */
  lemma {:induction false} JoinMeans(lines: seq<string>, last: string)
    ensures Join([]) == "" && Join([last]) == last
    ensures lines != [] ==> Join(lines + [last]) == Join(lines) + "\n" + last
  {
    if |lines| <= 1 {
      assert lines != [] ==> lines + [last] == [lines[0], last] && [lines[0], last][1..] == [last];
    } else {
      assert (lines + [last])[1..] == lines[1..] + [last];
      JoinMeans(lines[1..], last);
    }
  }

  /** A `data:` line adds its text, without the white space before it, to the message being read. */
  lemma DataLineIsRead(json: Json, r: Reader, text: string)
    requires Plain(text)
    ensures Feed(json, r, "data:" + text + "\n") == r.(dataLines := r.dataLines + [LStrip(text)])
  {
    hide RStrip, LStrip;
    var line := "data:" + text;
    StripsLine(line);
    assert line[..5] == "data:" && line[5..] == text;
  }

  /** Any other line but a blank one is ignored. */
  lemma OtherLinesAreIgnored(json: Json, r: Reader, line: string)
    requires Plain(line) && line != "" && !("data:" <= line)
    ensures Feed(json, r, line + "\n") == r
  {
    hide RStrip, LStrip;
    StripsLine(line);
    assert |line| >= 5 && line[..5] == "data:" ==> "data:" <= line;
  }

  /** A message of several `data:` lines is parsed as these lines joined; what is no object is dropped. */
  lemma {:induction false} SeveralDataLines(json: Json, yielded: seq<Object>, read: seq<string>, texts: seq<string>)
    requires forall i :: 0 <= i < |texts| ==> Plain(texts[i])
    requires read + texts != []
    ensures var raw := seq(|texts|, i requires 0 <= i < |texts| => "data:" + texts[i] + "\n") + ["\n"];
            var lines := read + seq(|texts|, i requires 0 <= i < |texts| => LStrip(texts[i]));
            FeedAll(json, Reader(read, yielded), raw) ==
            Reader([], yielded + match json.parse(Join(lines)) case None => [] case Some(value) => [value])
    decreases |texts|
  {
    var raw := seq(|texts|, i requires 0 <= i < |texts| => "data:" + texts[i] + "\n") + ["\n"];
    var lines := read + seq(|texts|, i requires 0 <= i < |texts| => LStrip(texts[i]));
    hide LStrip, Join, Feed;
    if texts == [] {
      assert raw == ["\n"] && lines == read;
      assert raw[1..] == [];
      BlankDispatches(json, Reader(read, yielded));
    } else {
      var read', texts' := read + [LStrip(texts[0])], texts[1..];
      var raw' := seq(|texts'|, i requires 0 <= i < |texts'| => "data:" + texts'[i] + "\n") + ["\n"];
      var lines' := read' + seq(|texts'|, i requires 0 <= i < |texts'| => LStrip(texts'[i]));
      assert raw[1..] == raw' && lines == lines';
      DataLineIsRead(json, Reader(read, yielded), texts[0]);
      SeveralDataLines(json, yielded, read', texts');
    }
  }

  /** A whole line is fed by itself. */
  lemma FeedLine(json: Json, r: Reader, line: string, rest: string)
    requires Plain(line)
    ensures FeedAll(json, r, Lines(line + "\n" + rest)) == FeedAll(json, Feed(json, r, line + "\n"), Lines(rest))
  {
    hide Lines, Feed;
    LinesOfLine(line, rest);
    assert ([line + "\n"] + Lines(rest))[1..] == Lines(rest);
  }

  /** Only a blank line yields. */
  lemma OnlyBlankYields(json: Json, r: Reader, line: string, raw: string)
    requires Plain(line) && line != "" && (raw == line || raw == line + "\n")
    ensures Feed(json, r, raw).yielded == r.yielded
  {
    hide RStrip, LStrip;
    StripsLine(line);
  }

  /** No part of a line that is not blank yields, with or without its newline. */
  lemma CutLineYieldsNothing(json: Json, r: Reader, line: string, k: nat)
    requires Plain(line) && line != "" && k <= |line| + 1
    ensures FeedAll(json, r, Lines((line + "\n")[..k])).yielded == r.yielded
  {
    hide Lines, Feed;
    var cut := (line + "\n")[..k];
    if k == 0 {
      NoLines();
    } else if k <= |line| {
      assert cut == line[..k];
      OpenLine(cut);
      OnlyBlankYields(json, r, cut, cut);
      assert [cut][1..] == [];
      assert FeedAll(json, r, [cut]) == Feed(json, r, cut);
    } else {
      assert cut == line + "\n" + "";
      FeedLine(json, r, line, "");
      NoLines();
      OnlyBlankYields(json, r, line, line + "\n");
    }
  }

  lemma NoLines()
    ensures Lines("") == []
  {
  }

  // Parts

  function DataLine(json: Json, content: Object): string {
    "data: " + json.stringify(content)
  }

  function TopicLine(topic: string): string {
    "event: " + topic
  }

  lemma TopicIsSkipped(json: Json, r: Reader, topic: string)
    requires Plain(topic)
    ensures Plain(TopicLine(topic)) && TopicLine(topic) != ""
    ensures Feed(json, r, TopicLine(topic) + "\n") == r
  {
    hide RStrip, LStrip;
    StripsLine(TopicLine(topic));
    assert TopicLine(topic)[0] == 'e';
  }

  lemma DataIsKept(json: Json, r: Reader, content: Object)
    requires Sound(json)
    ensures Plain(DataLine(json, content)) && DataLine(json, content) != ""
    ensures Feed(json, r, DataLine(json, content) + "\n") == r.(dataLines := r.dataLines + [json.stringify(content)])
  {
    hide RStrip;
    var line := DataLine(json, content);
    var t := json.stringify(content);
    assert t[0] == '{' && Plain(t);
    StripsLine(line);
    assert line[..5] == "data:";
    assert line[5..] == " " + t && (" " + t)[1..] == t;
    assert LStrip(t) == t;
    assert LStrip(" " + t) == t;
  }

  lemma BlankDispatches(json: Json, r: Reader)
    ensures Feed(json, r, "\n") == Dispatch(json, r)
  {
    StripsLine("");
    assert "" + "\n" == "\n";
  }

  lemma HeartbeatIsSkipped(json: Json, r: Reader)
    ensures Plain(HEARTBEAT) && HEARTBEAT != ""
    ensures Feed(json, r, HEARTBEAT + "\n") == r
  {
    hide RStrip, LStrip;
    StripsLine(HEARTBEAT);
    assert HEARTBEAT[0] == ':';
  }

  /** A part between messages yields its object, if it has one, and leaves nothing half read. */
  lemma PartYields(json: Json, r: Reader, part: Part, rest: string)
    requires Sound(json) && r.dataLines == [] && PlainTopics([part])
    ensures FeedAll(json, r, Lines(PartText(json, part) + rest)) ==
            FeedAll(json, Reader([], r.yielded + Messages([part])), Lines(rest))
  {
    hide Feed, Lines, FeedAll, TopicLine, DataLine;
    BlankDispatches(json, r);
    match part
    case Heartbeat =>
      HeartbeatIsSkipped(json, r);
      var rest1 := "" + "\n" + rest;
      assert PartText(json, part) + rest == HEARTBEAT + "\n" + rest1;
      FeedLine(json, r, HEARTBEAT, rest1);
      assert "" + "\n" == "\n";
      FeedLine(json, r, "", rest);
      assert Messages([part]) == [] && r.yielded + [] == r.yielded;
    case Message(topic, content) =>
      assert [part][0] == part;
      MessageYields(json, r, topic, content, rest);
      assert [part][1..] == [];
      assert Messages([part]) == [content];
  }

  lemma {:induction false} MessageYields(json: Json, r: Reader, topic: string, content: Object, rest: string)
    requires Sound(json) && r.dataLines == [] && Plain(topic)
    ensures FeedAll(json, r, Lines(PartText(json, Message(topic, content)) + rest)) ==
            FeedAll(json, Reader([], r.yielded + [content]), Lines(rest))
  {
    var l, d := TopicLine(topic), DataLine(json, content);
    var rest1 := "" + "\n" + rest;
    var rest2 := d + "\n" + rest1;
    assert PartText(json, Message(topic, content)) + rest == l + "\n" + rest2;
    hide Feed, Lines, FeedAll, PartText;
    TopicIsSkipped(json, r, topic);
    FeedLine(json, r, l, rest2);
    DataIsKept(json, r, content);
    FeedLine(json, r, d, rest1);
    var read := r.(dataLines := [json.stringify(content)]);
    assert r.dataLines + [json.stringify(content)] == [json.stringify(content)];
    FeedLine(json, read, "", rest);
    assert "" + "\n" == "\n";
    BlankDispatches(json, read);
    assert Join([json.stringify(content)]) == json.stringify(content);
  }

  /** A message that is cut off anywhere yields nothing. */
  lemma {:induction false} CutMessageYieldsNothing(json: Json, r: Reader, l: string, d: string, k: nat)
    requires Plain(l) && l != "" && Plain(d) && d != "" && Feed(json, r, l + "\n") == r
    requires k < |l + "\n" + (d + "\n" + "\n")|
    ensures FeedAll(json, r, Lines((l + "\n" + (d + "\n" + "\n"))[..k])).yielded == r.yielded
  {
    hide Feed, Lines, FeedAll, Plain;
    var text := l + "\n" + (d + "\n" + "\n");
    if k <= |l| + 1 {
      assert text[..k] == (l + "\n")[..k];
      CutLineYieldsNothing(json, r, l, k);
    } else {
      var more := (d + "\n")[..k - |l| - 1];
      assert text[..k] == l + "\n" + more;
      FeedLine(json, r, l, more);
      CutLineYieldsNothing(json, r, d, k - |l| - 1);
    }
  }

  /** A part that is cut off anywhere yields nothing. */
  lemma {:induction false} CutPartYieldsNothing(json: Json, r: Reader, part: Part, k: nat)
    requires Sound(json) && PlainTopics([part]) && k < |PartText(json, part)|
    ensures FeedAll(json, r, Lines(PartText(json, part)[..k])).yielded == r.yielded
  {
    hide Feed, Lines, FeedAll, Plain, Sound;
    match part
    case Heartbeat =>
      HeartbeatIsSkipped(json, r);
      assert PartText(json, part)[..k] == (HEARTBEAT + "\n")[..k];
      CutLineYieldsNothing(json, r, HEARTBEAT, k);
    case Message(topic, content) =>
      assert [part][0] == part;
      var l, d := TopicLine(topic), DataLine(json, content);
      TopicIsSkipped(json, r, topic);
      DataIsKept(json, r, content);
      assert PartText(json, part) == l + "\n" + (d + "\n" + "\n");
      CutMessageYieldsNothing(json, r, l, d, k);
  }

  lemma {:induction false} PartsYield(json: Json, r: Reader, parts: seq<Part>)
    requires Sound(json) && r.dataLines == [] && PlainTopics(parts)
    ensures FeedAll(json, r, Lines(TextOf(json, parts))).yielded == r.yielded + Messages(parts)
    decreases |parts|
  {
    hide Lines, PartText, PlainTopics;
    if parts == [] {
      NoLines();
    } else {
      var r' := Reader([], r.yielded + Messages([parts[0]]));
      TailIsPlain(parts);
      PartYields(json, r, parts[0], TextOf(json, parts[1..]));
      PartsYield(json, r', parts[1..]);
      TextConcat(json, [parts[0]], parts[1..]);
      assert [parts[0]] + parts[1..] == parts;
    }
  }

  lemma TailIsPlain(parts: seq<Part>)
    requires parts != [] && PlainTopics(parts)
    ensures PlainTopics([parts[0]]) && PlainTopics(parts[1..])
  {
  }

  /**
   * The client takes from the text exactly the objects that were printed, in
   * order, wherever the heartbeats fall.
   */
  lemma ClientRecoversEvents(json: Json, parts: seq<Part>)
    requires Sound(json) && PlainTopics(parts)
    ensures Decode(json, TextOf(json, parts)) == Messages(parts)
  {
    hide Lines, FeedAll, TextOf, Messages, PlainTopics, Sound;
    PartsYield(json, FRESH, parts);
    assert [] + Messages(parts) == Messages(parts);
  }

  /** How many parts fit in the first `k` characters of the text. */
  function WholeParts(json: Json, parts: seq<Part>, k: nat): (n: nat)
    ensures n <= |parts|
  {
    if parts == [] || k < |PartText(json, parts[0])| then 0
    else 1 + WholeParts(json, parts[1..], k - |PartText(json, parts[0])|)
  }

  lemma {:induction false} CutYields(json: Json, r: Reader, parts: seq<Part>, k: nat)
    requires Sound(json) && r.dataLines == [] && PlainTopics(parts) && k <= |TextOf(json, parts)|
    ensures FeedAll(json, r, Lines(TextOf(json, parts)[..k])).yielded ==
            r.yielded + Messages(parts[..WholeParts(json, parts, k)])
    decreases |parts|
  {
    hide Lines, PartText, PlainTopics, FeedAll, Messages, Sound, WholeParts;
    if parts == [] {
      CutNothing(json, r, k);
    } else {
      TailIsPlain(parts);
      WholePartsStep(json, parts, k);
      var own, rest := PartText(json, parts[0]), TextOf(json, parts[1..]);
      if k < |own| {
        assert (own + rest)[..k] == own[..k];
        CutPartYieldsNothing(json, r, parts[0], k);
        NoMessages(parts);
      } else {
        var n := WholeParts(json, parts[1..], k - |own|);
        assert (own + rest)[..k] == own + rest[..k - |own|];
        PartYields(json, r, parts[0], rest[..k - |own|]);
        CutYields(json, Reader([], r.yielded + Messages([parts[0]])), parts[1..], k - |own|);
        MessagesConcat([parts[0]], parts[1..][..n]);
        assert [parts[0]] + parts[1..][..n] == parts[..n + 1];
      }
    }
  }

  lemma CutNothing(json: Json, r: Reader, k: nat)
    requires k <= |TextOf(json, [])|
    ensures FeedAll(json, r, Lines(TextOf(json, [])[..k])).yielded ==
            r.yielded + Messages([][..WholeParts(json, [], k)])
  {
    NoLines();
  }

  lemma NoMessages(parts: seq<Part>)
    ensures Messages(parts[..0]) == []
  {
  }

  lemma {:induction false} WholePartsStep(json: Json, parts: seq<Part>, k: nat)
    requires parts != []
    ensures var own := |PartText(json, parts[0])|;
            WholeParts(json, parts, k) == if k < own then 0 else 1 + WholeParts(json, parts[1..], k - own)
  {
    hide PartText;
  }

  /**
   * A connection that breaks anywhere, even inside a message, has yielded
   * exactly the objects of the parts that arrived whole.
   */
  lemma {:induction false} BrokenConnectionYieldsWholeParts(json: Json, parts: seq<Part>, k: nat)
    requires Sound(json) && PlainTopics(parts) && k <= |TextOf(json, parts)|
    ensures var n := WholeParts(json, parts, k);
            && Decode(json, TextOf(json, parts)[..k]) == Messages(parts[..n])
            && Decode(json, TextOf(json, parts)[..k]) <= Messages(parts)
  {
    hide Lines, FeedAll, TextOf, Messages, PlainTopics, WholeParts, Sound;
    var n := WholeParts(json, parts, k);
    CutYields(json, FRESH, parts, k);
    assert [] + Messages(parts[..n]) == Messages(parts[..n]);
    MessagesConcat(parts[..n], parts[n..]);
    assert parts[..n] + parts[n..] == parts;
  }
}
