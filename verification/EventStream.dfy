// Decoding of the event stream. The reference is the line interpretation of
// section 9.2.6 of the WHATWG HTML Living Standard, which keeps one data buffer;
// the decoder keeps a list of data lines and joins them.

module EventStream {
  import opened Outcomes
  import opened Sequences

  const LF := "\n"

  /** Where the field name of a line ends: at its first colon, or at its end. */
  function Colon(line: string): (k: nat)
    ensures k <= |line|
    ensures forall i :: 0 <= i < k ==> line[i] != ':'
    ensures k < |line| ==> line[k] == ':'
  {
    if line == "" || line[0] == ':' then 0
    else
      var k := Colon(line[1..]);
      assert forall i :: 1 <= i < k + 1 ==> line[i] == line[1..][i - 1];
      k + 1
  }

  function Field(line: string): string {
    line[..Colon(line)]
  }

  /** The value after the first colon, without one leading space; empty without a colon. */
  function FieldValue(line: string): string {
    var rest := if Colon(line) < |line| then line[Colon(line) + 1..] else "";
    if rest != "" && rest[0] == ' ' then rest[1..] else rest
  }

  // -------------------------------------------------------- the standard

  /** The texts dispatched by the lines, starting from a data buffer. */
  function Standard(lines: seq<string>, buffer: string): seq<string> {
    if lines == [] then []
    else
      var line, rest := lines[0], lines[1..];
      if line == "" then
        if buffer == "" then Standard(rest, "")
        else [if buffer[|buffer| - 1] == '\n' then buffer[..|buffer| - 1] else buffer] + Standard(rest, "")
      else if line[0] == ':' then Standard(rest, buffer)
      else if Field(line) == "data" then Standard(rest, buffer + FieldValue(line) + LF)
      else Standard(rest, buffer)
  }

  // --------------------------------------------------------- the decoder

  function Join(parts: seq<string>): string {
    if parts == [] then "" else if |parts| == 1 then parts[0] else Join(parts[..|parts| - 1]) + LF + parts[|parts| - 1]
  }

  function Buffered(parts: seq<string>): string {
    if parts == [] then "" else Buffered(parts[..|parts| - 1]) + parts[|parts| - 1] + LF
  }

  lemma {:induction false} BufferedIsJoined(parts: seq<string>)
    requires parts != []
    ensures Buffered(parts) == Join(parts) + LF
  {
    if |parts| > 1 {
      BufferedIsJoined(parts[..|parts| - 1]);
    }
  }

  lemma BufferedAppend(parts: seq<string>, part: string)
    ensures Buffered(parts + [part]) == Buffered(parts) + part + LF
  {
    assert (parts + [part])[..|parts|] == parts;
  }

  predicate AllParse<T>(texts: seq<string>, parse: string -> Option<T>) {
    forall t :: t in texts ==> parse(t).Some?
  }

  /** The events of a list of texts, up to the first that does not parse. */
  function Parsed<T>(texts: seq<string>, parse: string -> Option<T>): seq<T> {
    if texts == [] || parse(texts[0]).None? then [] else [parse(texts[0]).value] + Parsed(texts[1..], parse)
  }

  lemma {:induction false} ParsedAppend<T>(texts: seq<string>, text: string, rest: seq<string>,
                                           parse: string -> Option<T>)
    requires AllParse(texts, parse)
    ensures Parsed(texts + ([text] + rest), parse) ==
      Parsed(texts, parse) + if parse(text).Some? then [parse(text).value] + Parsed(rest, parse) else []
  {
    var all := texts + ([text] + rest);
    if texts == [] {
      assert all == [text] + rest && all[1..] == rest;
    } else {
      assert texts[0] in texts && forall t :: t in texts[1..] ==> t in texts;
      ParsedAppend(texts[1..], text, rest, parse);
      assert all[0] == texts[0] && all[1..] == texts[1..] + ([text] + rest);
      ConcatAssociative([parse(texts[0]).value], Parsed(texts[1..], parse),
                        if parse(text).Some? then [parse(text).value] + Parsed(rest, parse) else []);
    }
  }

  /** Yields the events of the stream; `ok` is false when a frame holds no valid object. */
  method DecodeEventStream<T>(lines: seq<string>, parse: string -> Option<T>) returns (events: seq<T>, ok: bool)
    ensures events == Parsed(Standard(lines, ""), parse)
    ensures ok <==> AllParse(Standard(lines, ""), parse)
  {
    var dataLines: seq<string> := [];
    events := [];
    ghost var texts := [];
    var i := 0;
    while i < |lines|
      invariant 0 <= i <= |lines|
      invariant Standard(lines, "") == texts + Standard(lines[i..], Buffered(dataLines))
      invariant AllParse(texts, parse) && Parsed(texts, parse) == events
    {
      var line := lines[i];
      assert lines[i..][0] == line && lines[i..][1..] == lines[i + 1..];
      i := i + 1;
      if line == "" {
        if dataLines != [] {
          BufferedIsJoined(dataLines);
          assert Buffered(dataLines)[..|Buffered(dataLines)| - 1] == Join(dataLines);
          var text := Join(dataLines);
          ghost var rest := Standard(lines[i..], "");
          ParsedAppend(texts, text, rest, parse);
          ParsedAppend(texts, text, [], parse);
          var event := parse(text);
          if event.None? {
            assert text in Standard(lines, "");
            return events, false;
          }
          assert texts + ([text] + []) == texts + [text];
          ConcatAssociative(texts, [text], rest);
          texts := texts + [text];
          events := events + [event.value];
        }
        dataLines := [];
      } else if line[0] != ':' && Field(line) == "data" {
        BufferedAppend(dataLines, FieldValue(line));
        dataLines := dataLines + [FieldValue(line)];
      }
    }
    assert lines[i..] == [] && texts + [] == texts;
    return events, true;
  }

  // ------------------------------------------------------------------ frames

  /** One line of an event as a service may write it; only the first three kinds are data. */
  datatype Part = Data(value: string) | Tight(value: string) | Bare | Comment(text: string)
    | Other(name: string, value: string) | Named(name: string)
  {
    predicate WellFormed() {
      match this
      case Tight(value) => value == "" || value[0] != ' '
      case Other(name, _) => name != "" && ':' !in name && name != "data"
      case Named(name) => name != "" && ':' !in name && name != "data"
      case _ => true
    }
    function Line(): string {
      match this
      case Data(value) => "data: " + value
      case Tight(value) => "data:" + value
      case Bare => "data"
      case Comment(text) => ":" + text
      case Other(name, value) => name + ":" + value
      case Named(name) => name
    }
    function Value(): seq<string> {
      match this
      case Data(value) => [value]
      case Tight(value) => [value]
      case Bare => [""]
      case _ => []
    }
  }

  /** What the data lines of an event hold. */
  function Values(parts: seq<Part>): seq<string> {
    if parts == [] then [] else parts[0].Value() + Values(parts[1..])
  }

  /** One event as the service writes it: its lines, then a blank line. */
  function Frame(parts: seq<Part>): seq<string> {
    if parts == [] then [""] else [parts[0].Line()] + Frame(parts[1..])
  }

  function Frames(events: seq<seq<Part>>): seq<string> {
    if events == [] then [] else Frame(events[0]) + Frames(events[1..])
  }

  /** The text that these data lines make, if there are any. */
  function Text(values: seq<string>): seq<string> {
    if values == [] then [] else [Join(values)]
  }

  function Texts(events: seq<seq<Part>>): seq<string> {
    if events == [] then [] else Text(Values(events[0])) + Texts(events[1..])
  }

  ghost predicate WellFormed(parts: seq<Part>) {
    forall i :: 0 <= i < |parts| ==> parts[i].WellFormed()
  }

  lemma FieldOf(name: string, value: string)
    requires ':' !in name
    ensures Field(name + ":" + value) == name && Field(name) == name && FieldValue(name) == ""
    ensures FieldValue(name + ":" + value) == if value != "" && value[0] == ' ' then value[1..] else value
  {
    var line := name + ":" + value;
    assert line[|name|] == ':';
    assert Colon(line) == |name|;
    assert line[..|name|] == name && line[|name| + 1..] == value;
    assert Colon(name) == |name|;
  }

  lemma PartLine(part: Part)
    requires part.WellFormed()
    ensures part.Line() != ""
    ensures part.Value() == [] ==> part.Line()[0] == ':' || Field(part.Line()) != "data"
    ensures part.Value() != [] ==>
      part.Line()[0] != ':' && Field(part.Line()) == "data" && part.Value() == [FieldValue(part.Line())]
  {
    match part
    case Data(value) =>
      FieldOf("data", " " + value);
      assert "data" + ":" + (" " + value) == "data: " + value;
    case Tight(value) =>
      FieldOf("data", value);
      assert "data" + ":" + value == "data:" + value;
    case Bare =>
      FieldOf("data", "");
    case Comment(text) =>
    case Other(name, value) =>
      FieldOf(name, value);
    case Named(name) =>
      FieldOf(name, "");
  }

  /** A line of an event adds its value to the buffer, if it is data, and changes nothing otherwise. */
  lemma StandardPart(lines: seq<string>, before: seq<string>, part: Part)
    requires lines != [] && part.WellFormed() && lines[0] == part.Line()
    ensures Standard(lines, Buffered(before)) == Standard(lines[1..], Buffered(before + part.Value()))
  {
    PartLine(part);
    if part.Value() == [] {
      ConcatEmpty(before);
    } else {
      BufferedAppend(before, FieldValue(part.Line()));
    }
  }

  /** A blank line dispatches what is buffered. */
  lemma StandardBlank(lines: seq<string>, before: seq<string>)
    requires lines != [] && lines[0] == ""
    ensures Standard(lines, Buffered(before)) == Text(before) + Standard(lines[1..], "")
  {
    if before != [] {
      BufferedIsJoined(before);
      assert Buffered(before)[..|Buffered(before)| - 1] == Join(before);
    }
  }

  lemma FrameHead(parts: seq<Part>, rest: seq<string>)
    requires parts != []
    ensures Frame(parts) + rest == [parts[0].Line()] + (Frame(parts[1..]) + rest)
  {
  }

  lemma FrameCut(parts: seq<Part>, k: nat)
    requires parts != [] && 0 < k <= |Frame(parts)|
    ensures k - 1 <= |Frame(parts[1..])| && Frame(parts)[..k] == [parts[0].Line()] + Frame(parts[1..])[..k - 1]
  {
  }

  lemma Regroup(before: seq<string>, parts: seq<Part>)
    requires parts != []
    ensures (before + parts[0].Value()) + Values(parts[1..]) == before + Values(parts)
  {
  }

  /** The lines of a whole frame dispatch its text, if it has data. */
  lemma {:induction false} WholeFrame(before: seq<string>, parts: seq<Part>, rest: seq<string>)
    requires WellFormed(parts)
    ensures Standard(Frame(parts) + rest, Buffered(before)) == Text(before + Values(parts)) + Standard(rest, "")
    decreases |parts|
  {
    if parts == [] {
      assert ([""] + rest)[1..] == rest && before + [] == before;
      StandardBlank([""] + rest, before);
    } else {
      var head, tail := [parts[0].Line()], Frame(parts[1..]) + rest;
      FrameHead(parts, rest);
      assert (head + tail)[1..] == tail;
      StandardPart(head + tail, before, parts[0]);
      Regroup(before, parts);
      WholeFrame(before + parts[0].Value(), parts[1..], rest);
    }
  }

  /** A part of it dispatches nothing. */
  lemma {:induction false} PartialFrame(before: seq<string>, parts: seq<Part>, k: nat)
    requires WellFormed(parts) && k < |Frame(parts)|
    ensures Standard(Frame(parts)[..k], Buffered(before)) == []
    decreases |parts|
  {
    if parts != [] && k > 0 {
      var head, tail := [parts[0].Line()], Frame(parts[1..])[..k - 1];
      FrameCut(parts, k);
      assert (head + tail)[1..] == tail;
      StandardPart(head + tail, before, parts[0]);
      PartialFrame(before + parts[0].Value(), parts[1..], k - 1);
    }
  }

  /** A frame that arrived only in part dispatches nothing; a complete one dispatches the text of its data lines. */
  lemma FrameDispatches(parts: seq<Part>, rest: seq<string>, k: nat)
    requires WellFormed(parts) && k <= |Frame(parts)|
    ensures k < |Frame(parts)| ==> Standard(Frame(parts)[..k], "") == []
    ensures Standard(Frame(parts) + rest, "") == Text(Values(parts)) + Standard(rest, "")
  {
    if k < |Frame(parts)| {
      PartialFrame([], parts, k);
    }
    WholeFrame([], parts, rest);
    assert [] + Values(parts) == Values(parts);
  }

  /** How many whole frames are within the first k lines. */
  function Whole(events: seq<seq<Part>>, k: nat): (n: nat)
    ensures n <= |events|
  {
    if events == [] || k < |Frame(events[0])| then 0 else 1 + Whole(events[1..], k - |Frame(events[0])|)
  }

  lemma WholeTexts(events: seq<seq<Part>>, n: nat)
    requires events != [] && n <= |events| - 1
    ensures Texts(events[..1 + n]) == Text(Values(events[0])) + Texts(events[1..][..n])
  {
    assert events[..1 + n][1..] == events[1..][..n];
  }

  lemma WholeFrames(events: seq<seq<Part>>, k: nat)
    requires events != [] && |Frame(events[0])| <= k <= |Frames(events)|
    ensures k - |Frame(events[0])| <= |Frames(events[1..])|
    ensures Frames(events)[..k] == Frame(events[0]) + Frames(events[1..])[..k - |Frame(events[0])|]
  {
  }

  /**
   A stream that is cut after any line has dispatched exactly the texts of the events
   whose frames are complete; comments and other fields make no difference.
   */
  lemma {:induction false} CutStream(events: seq<seq<Part>>, k: nat)
    requires (forall i :: 0 <= i < |events| ==> WellFormed(events[i])) && k <= |Frames(events)|
    ensures Standard(Frames(events)[..k], "") == Texts(events[..Whole(events, k)])
  {
    if events != [] {
      var first := Frame(events[0]);
      if k < |first| {
        FrameDispatches(events[0], [], k);
        assert Frames(events)[..k] == first[..k];
      } else {
        WholeFrames(events, k);
        CutStream(events[1..], k - |first|);
        FrameDispatches(events[0], Frames(events[1..])[..k - |first|], |first|);
        WholeTexts(events, Whole(events[1..], k - |first|));
      }
    }
  }
}
