// Training conversations: the encoder into flat agent-chat messages and the
// renderer that the training dataset applies to them.
//
// A JSON codec is a parameter; a faithful one reads back what it writes.

module ChatRecords {
  import opened Outcomes
  import Sequences

  datatype Json =
    | Null
    | Bool(b: bool)
    | Number(digits: string)
    | Str(text: string)
    | Array(items: seq<Json>)
    | Object(fields: map<string, Json>)

  /** `compact` and `spaced` write a value, `loads` reads one. */
  datatype Codec = Codec(compact: Json -> string, spaced: Json -> string, loads: string -> Option<Json>) {
    ghost predicate Faithful() {
      forall v :: compact(v) != "" && loads(compact(v)) == Some(v)
    }
  }

  // -------------------------------------------------------------- conversations

  /** A tool call; a missing field is None. */
  datatype Call = Call(id: Option<Json>, name: Option<Json>, arguments: Option<Json>)

  /** A message of a conversation; a missing tool_call_id reads as null. */
  datatype Message = Message(role: string, content: Option<Json>, weight: Option<Json>, calls: seq<Call>, callId: Json)

  /** A flat message, as the encoder writes it or as a dataset may hold it. */
  datatype Flat = Flat(role: string, content: Option<Json>, weight: Option<Json>, reasoning: Option<Json>)

  datatype RenderedCall = RenderedCall(id: CallId, name: string, arguments: map<string, Json>)

  datatype Rendered = Rendered(role: string, content: string, calls: seq<RenderedCall>, callId: Option<CallId>,
                               reasoning: Option<string>)

  datatype Error =
    | NoAdjacentCall | ResponseOrder | NoAdjacentResponse | UnsupportedRole | MissingField
    | NoToolName | NotAnObject | NotText | NoFields | Unreadable

  // -------------------------------------------------------------------- encoder

  predicate SpokenRole(role: string) { role in {"system", "user", "assistant"} }

  /** The ids of calls, unless one has none. */
  function CallIds(calls: seq<Call>): (r: Option<seq<Json>>)
    ensures r.Some? ==> |r.value| == |calls| && forall k :: 0 <= k < |calls| ==> calls[k].id == Some(r.value[k])
  {
    if calls == [] then Some([])
    else
      var rest := CallIds(calls[1..]);
      if calls[0].id.None? || rest.None? then None else Some([calls[0].id.value] + rest.value)
  }

  function EncodedCall(call: Call, codec: Codec): Flat
    requires call.name.Some?
  {
    var arguments := if call.arguments.Some? then call.arguments.value else Object(map[]);
    Flat("tool_call", Some(Str(codec.compact(Object(map["name" := call.name.value, "arguments" := arguments])))),
         None, None)
  }

  function EncodedCalls(calls: seq<Call>, codec: Codec): (r: Option<seq<Flat>>)
    ensures r.Some? <==> forall k :: 0 <= k < |calls| ==> calls[k].name.Some?
    ensures r.Some? ==> |r.value| == |calls| && forall k :: 0 <= k < |calls| ==>
      r.value[k] == EncodedCall(calls[k], codec)
  {
    if calls == [] then Some([])
    else
      var rest := EncodedCalls(calls[1..], codec);
      if calls[0].name.None? then None
      else if rest.None? then None
      else
        var r := [EncodedCall(calls[0], codec)] + rest.value;
        Some(r)
  }

  /** What a spoken message becomes: itself, then its calls. */
  function EncodedOwner(m: Message, codec: Codec): (r: Result<(seq<Flat>, seq<Json>), Error>)
  {
    if !SpokenRole(m.role) then Failure(UnsupportedRole)
    else if m.content.None? then Failure(MissingField)
    else
      var ids, calls := CallIds(m.calls), EncodedCalls(m.calls, codec);
      if ids.None? || calls.None? then Failure(MissingField)
      else Success(([Flat(m.role, m.content, m.weight, None)] + calls.value, ids.value))
  }

  /** The encoding of what is left of a conversation while some calls are unanswered. */
  function EncodeFrom(messages: seq<Message>, pending: seq<Json>, codec: Codec): Result<seq<Flat>, Error> {
    if messages == [] then Success([])
    else
      var m := messages[0];
      if m.role == "tool" then
        if pending == [] then Failure(NoAdjacentCall)
        else if m.callId != pending[0] then Failure(ResponseOrder)
        else if m.content.None? then Failure(MissingField)
        else
          var rest := EncodeFrom(messages[1..], pending[1..], codec);
          if rest.Failure? then rest else Success([Flat("tool_response", m.content, None, None)] + rest.value)
      else if pending != [] then Failure(NoAdjacentResponse)
      else
        var owner := EncodedOwner(m, codec);
        if owner.Failure? then Failure(owner.error)
        else
          var rest := EncodeFrom(messages[1..], owner.value.1, codec);
          if rest.Failure? then rest else Success(owner.value.0 + rest.value)
  }

  /** A result that continues an output. */
  function Continued(output: seq<Flat>, rest: Result<seq<Flat>, Error>): Result<seq<Flat>, Error> {
    if rest.Failure? then rest else Success(output + rest.value)
  }

  method Encode(messages: seq<Message>, codec: Codec) returns (r: Result<seq<Flat>, Error>)
    ensures r == EncodeFrom(messages, [], codec)
  {
    var output: seq<Flat> := [];
    var pending: seq<Json> := [];
    var i := 0;
    assert messages[0..] == messages;
    ghost var whole := EncodeFrom(messages, [], codec);
    assert whole.Success? ==> [] + whole.value == whole.value;
    while i < |messages|
      invariant 0 <= i <= |messages|
      invariant Continued(output, EncodeFrom(messages[i..], pending, codec)) == EncodeFrom(messages, [], codec)
    {
      var m := messages[i];
      assert messages[i..][1..] == messages[i + 1..];
      if m.role == "tool" {
        if pending == [] {
          return Failure(NoAdjacentCall);
        }
        if m.callId != pending[0] {
          return Failure(ResponseOrder);
        }
        if m.content.None? {
          return Failure(MissingField);
        }
        ghost var rest := EncodeFrom(messages[i + 1..], pending[1..], codec);
        assert rest.Success? ==>
          output + ([Flat("tool_response", m.content, None, None)] + rest.value)
          == output + [Flat("tool_response", m.content, None, None)] + rest.value;
        pending := pending[1..];
        output := output + [Flat("tool_response", m.content, None, None)];
      } else {
        if pending != [] {
          return Failure(NoAdjacentResponse);
        }
        var owner := EncodedOwner(m, codec);
        if owner.Failure? {
          return Failure(owner.error);
        }
        ghost var rest := EncodeFrom(messages[i + 1..], owner.value.1, codec);
        assert rest.Success? ==> output + (owner.value.0 + rest.value) == output + owner.value.0 + rest.value;
        pending := owner.value.1;
        output := output + owner.value.0;
      }
      i := i + 1;
    }
    assert output + [] == output;
    return Success(output);
  }

  // ------------------------------------------------------------------- call ids

  /** A number in decimal. */
  function Decimal(n: nat): (text: string)
    ensures text != []
  {
    if n < 10 then [Digit(n)] else Decimal(n / 10) + [Digit(n % 10)]
  }

  function Digit(n: nat): char
    requires n < 10
  {
    "0123456789"[n]
  }

  lemma {:induction false} DecimalInjective(a: nat, b: nat)
    requires Decimal(a) == Decimal(b)
    ensures a == b
  {
    var s := Decimal(a);
    assert s[|s| - 1] == Digit(a % 10) == Digit(b % 10);
    assert a % 10 == b % 10;
    if a >= 10 && b >= 10 {
      assert s[..|s| - 1] == Decimal(a / 10) && s[..|s| - 1] == Decimal(b / 10);
      DecimalInjective(a / 10, b / 10);
    }
  }

  /** The id of the n-th call: a prefix, an underscore and the number. */
  datatype CallId = CallId(prefix: string, number: nat) {
    function Text(): string { prefix + "_" + Decimal(number) }
  }

  /** Calls with different numbers have different ids. */
  lemma CallIdsFresh(prefix: string, a: nat, b: nat)
    requires CallId(prefix, a).Text() == CallId(prefix, b).Text()
    ensures a == b
  {
    var p := prefix + "_";
    assert CallId(prefix, a).Text()[|p|..] == Decimal(a) && CallId(prefix, b).Text()[|p|..] == Decimal(b);
    DecimalInjective(a, b);
  }

  function FreshIds(prefix: string, from: nat, count: nat): (ids: seq<CallId>)
    ensures |ids| == count && forall k :: 0 <= k < count ==> ids[k] == CallId(prefix, from + k)
  {
    seq(count, k requires 0 <= k < count => CallId(prefix, from + k))
  }

  // ------------------------------------------------------------------- renderer

  /** What `content or "{}"` reads. */
  function CallText(m: Flat): Option<string> {
    if m.content.None? || Falsy(m.content.value) then Some("{}")
    else if m.content.value.Str? then Some(m.content.value.text)
    else None
  }

  /** The digits of a number that are all zero, up to its exponent. */
  predicate Zero(digits: string) {
    digits == "" || digits[0] in "eE" || (digits[0] in "-0." && Zero(digits[1..]))
  }

  predicate Falsy(v: Json) {
    match v
    case Null => true
    case Bool(b) => !b
    case Number(digits) => Zero(digits)
    case Str(text) => text == ""
    case Array(items) => items == []
    case Object(fields) => fields == map[]
  }

  /** The name and the arguments of a call, if it has fields at all; text arguments are read as JSON. */
  function CallOf(v: Json, codec: Codec): Result<(string, map<string, Json>), Error> {
    if !v.Object? then Failure(NoFields)
    else if "name" !in v.fields || !v.fields["name"].Str? || v.fields["name"].text == "" then Failure(NoToolName)
    else
      var given := if "arguments" in v.fields then v.fields["arguments"] else Object(map[]);
      var arguments := if given.Str? then codec.loads(given.text) else Some(given);
      if arguments.None? || !arguments.value.Object? then Failure(NotAnObject)
      else Success((v.fields["name"].text, arguments.value.fields))
  }

  function ReadCall(m: Flat, codec: Codec): Result<(string, map<string, Json>), Error> {
    var text := CallText(m);
    if text.None? then Failure(NotText)
    else
      var v := codec.loads(text.value);
      if v.None? then Failure(NotAnObject) else CallOf(v.value, codec)
  }

  /** The calls of a group, numbered from a counter. */
  function ReadCalls(group: seq<Flat>, prefix: string, counter: nat, codec: Codec)
    : (r: Result<seq<RenderedCall>, Error>)
    ensures r.Success? ==> |r.value| == |group|
  {
    if group == [] then Success([])
    else
      var first := ReadCall(group[0], codec);
      if first.Failure? then Failure(first.error)
      else
        var rest := ReadCalls(group[1..], prefix, counter + 1, codec);
        if rest.Failure? then rest
        else Success([RenderedCall(CallId(prefix, counter), first.value.0, first.value.1)] + rest.value)
  }

  /** How many messages at the front have one of these roles. */
  function Run(messages: seq<Flat>, roles: set<string>): (k: nat)
    ensures k <= |messages|
    ensures forall j :: 0 <= j < k ==> messages[j].role in roles
    ensures k < |messages| ==> messages[k].role !in roles
  {
    if messages == [] || messages[0].role !in roles then 0 else 1 + Run(messages[1..], roles)
  }

  /** A group of calls belongs to the assistant message before it, if that one has none yet. */
  function Attach(output: seq<Rendered>, calls: seq<RenderedCall>): seq<Rendered> {
    if output != [] && output[|output| - 1].role == "assistant" && output[|output| - 1].calls == []
    then output[..|output| - 1] + [output[|output| - 1].(calls := calls)]
    else output + [Rendered("assistant", "", calls, None, None)]
  }

  function ResponseText(content: Option<Json>, codec: Codec): string {
    if content.None? then "" else if content.value.Str? then content.value.text else codec.spaced(content.value)
  }

  function Responses(group: seq<Flat>, ids: seq<CallId>, codec: Codec): (r: seq<Rendered>)
    requires |group| <= |ids|
    ensures |r| == |group|
  {
    seq(|group|, k requires 0 <= k < |group| =>
      Rendered("tool", ResponseText(group[k].content, codec), [], Some(ids[k]), None))
  }

  function Spoken(m: Flat): Result<Rendered, Error> {
    if !SpokenRole(m.role) then Failure(UnsupportedRole)
    else if m.content.Some? && !m.content.value.Str? then Failure(NotText)
    else
      var text := if m.content.Some? then m.content.value.text else "";
      var reasoning := if m.role == "assistant" && m.reasoning.Some? && m.reasoning.value.Str? &&
        m.reasoning.value.text != ""
        then Some(m.reasoning.value.text) else None;
      Success(Rendered(m.role, text, [], None, reasoning))
  }

  const CALLS: set<string> := {"tool_call"}
  const RESPONSES: set<string> := {"tool_response", "tool"}

  /** What flat messages are read as; missing content is empty, and only an assistant's reasoning is kept. */
  lemma FlatMeaning(m: Flat, codec: Codec)
    ensures m.role in CALLS <==> m.role == "tool_call"
    ensures m.role in RESPONSES <==> m.role == "tool_response" || m.role == "tool"
    ensures m.content in {None, Some(Null), Some(Str("")), Some(Bool(false)), Some(Array([])), Some(Object(map[]))} ==>
      CallText(m) == Some("{}")
    ensures m.content.Some? && m.content.value.Str? && m.content.value.text != "" ==>
      CallText(m) == Some(m.content.value.text)
    ensures CallText(m).None? ==> m.content.Some? && !m.content.value.Str?
    ensures m.content.None? ==> ResponseText(m.content, codec) == ""
    ensures Spoken(m).Success? <==>
      m.role in {"system", "user", "assistant"} && (m.content.Some? ==> m.content.value.Str?)
    ensures Spoken(m).Success? ==>
      var r := Spoken(m).value;
      && r.role == m.role && r.calls == [] && r.callId.None?
      && m.content == (if m.content.None? && r.content == "" then None else Some(Str(r.content)))
      && (r.reasoning.Some? ==>
            m.role == "assistant" && m.reasoning == Some(Str(r.reasoning.value)) && r.reasoning.value != "")
      && (r.reasoning.None? && m.role == "assistant" ==>
            m.reasoning.None? || !m.reasoning.value.Str? || m.reasoning.value.text == "")
  {
  }

  /** The rendering of what is left, given the output so far, the ids of the last group and the next call number. */
  function RenderFrom(messages: seq<Flat>, output: seq<Rendered>, ids: seq<CallId>, counter: nat, prefix: string,
                      codec: Codec)
    : Result<seq<Rendered>, Error>
    decreases |messages|
  {
    if messages == [] then Success(output)
    else if messages[0].role in CALLS then
      var k := Run(messages, CALLS);
      var calls := ReadCalls(messages[..k], prefix, counter, codec);
      if calls.Failure? then Failure(calls.error)
      else RenderFrom(messages[k..], Attach(output, calls.value), FreshIds(prefix, counter, k), counter + k, prefix,
          codec)
    else if messages[0].role in RESPONSES then
      var k := Run(messages, RESPONSES);
      if k > |ids| then Failure(NoAdjacentCall)
      else if k < |ids| then Failure(NoAdjacentResponse)
      else RenderFrom(messages[k..], output + Responses(messages[..k], ids, codec), ids, counter, prefix, codec)
    else
      var spoken := Spoken(messages[0]);
      if spoken.Failure? then Failure(spoken.error)
      else RenderFrom(messages[1..], output + [spoken.value], [], counter, prefix, codec)
  }

  /** The calls read so far, continued by those that are left. */
  ghost predicate ReadSoFar(calls: seq<RenderedCall>, group: seq<Flat>, j: nat, prefix: string, counter: nat,
                            codec: Codec)
    requires j <= |group|
  {
    var rest := ReadCalls(group[j..], prefix, counter + j, codec);
    ReadCalls(group, prefix, counter, codec) == if rest.Failure? then rest else Success(calls + rest.value)
  }

  lemma ReadNext(calls: seq<RenderedCall>, group: seq<Flat>, j: nat, prefix: string, counter: nat, codec: Codec)
    requires j < |group| && ReadSoFar(calls, group, j, prefix, counter, codec)
    ensures
      var call := ReadCall(group[j], codec);
      if call.Failure? then ReadCalls(group, prefix, counter, codec) == Failure(call.error)
      else ReadSoFar(calls + [RenderedCall(CallId(prefix, counter + j), call.value.0, call.value.1)], group, j + 1,
          prefix, counter, codec)
  {
    assert group[j..][1..] == group[j + 1..];
    var call := ReadCall(group[j], codec);
    var rest := ReadCalls(group[j + 1..], prefix, counter + j + 1, codec);
    if call.Success? && rest.Success? {
      var read := [RenderedCall(CallId(prefix, counter + j), call.value.0, call.value.1)];
      Sequences.ConcatAssociative(calls, read, rest.value);
    }
  }

  lemma ReadStart(group: seq<Flat>, prefix: string, counter: nat, codec: Codec)
    ensures ReadSoFar([], group, 0, prefix, counter, codec)
  {
    assert group[0..] == group;
    var whole := ReadCalls(group, prefix, counter, codec);
    assert whole.Success? ==> [] + whole.value == whole.value;
  }

  lemma GroupAt(messages: seq<Flat>, index: nat, k: nat, j: nat)
    requires j < k && index + k <= |messages|
    ensures messages[index..][..k][j] == messages[index + j]
  {
  }

  lemma ReadAll(calls: seq<RenderedCall>, group: seq<Flat>, prefix: string, counter: nat, codec: Codec)
    requires ReadSoFar(calls, group, |group|, prefix, counter, codec)
    ensures ReadCalls(group, prefix, counter, codec) == Success(calls)
  {
    assert group[|group|..] == [] && calls + [] == calls;
  }

  /** One group of calls. */
  method RenderCalls(messages: seq<Flat>, index: nat, prefix: string, counter: nat, codec: Codec)
    returns (r: Result<seq<RenderedCall>, Error>, ids: seq<CallId>, after: nat)
    requires index < |messages| && messages[index].role in CALLS
    ensures
      var k := Run(messages[index..], CALLS);
      && r == ReadCalls(messages[index..][..k], prefix, counter, codec)
      && (r.Success? ==> after == index + k && ids == FreshIds(prefix, counter, k))
  {
    ghost var k := Run(messages[index..], CALLS);
    ghost var group := messages[index..][..k];
    var calls: seq<RenderedCall> := [];
    ids := [];
    after := index;
    ReadStart(group, prefix, counter, codec);
    while after < |messages| && messages[after].role in CALLS
      invariant index <= after <= index + k && |calls| == |ids| == after - index
      invariant forall j :: 0 <= j < |ids| ==> ids[j] == CallId(prefix, counter + j)
      invariant ReadSoFar(calls, group, after - index, prefix, counter, codec)
    {
      assert after < index + k;
      GroupAt(messages, index, k, after - index);
      ReadNext(calls, group, after - index, prefix, counter, codec);
      var call := ReadCall(messages[after], codec);
      if call.Failure? {
        return Failure(call.error), ids, after;
      }
      var id := CallId(prefix, counter + (after - index));
      ids := ids + [id];
      calls := calls + [RenderedCall(id, call.value.0, call.value.1)];
      after := after + 1;
    }
    ReadAll(calls, group, prefix, counter, codec);
    return Success(calls), ids, after;
  }

  /** One group of responses. */
  method RenderResponses(messages: seq<Flat>, index: nat, ids: seq<CallId>, codec: Codec)
    returns (r: Result<seq<Rendered>, Error>)
    requires index < |messages| && messages[index].role in RESPONSES
    ensures
      var k := Run(messages[index..], RESPONSES);
      r == if k > |ids| then Failure(NoAdjacentCall)
           else if k < |ids| then Failure(NoAdjacentResponse)
           else Success(Responses(messages[index..][..k], ids, codec))
  {
    ghost var k := Run(messages[index..], RESPONSES);
    var responses: seq<Rendered> := [];
    var i := index;
    while i < |messages| && messages[i].role in RESPONSES
      invariant index <= i <= index + k && i - index <= |ids|
      invariant responses == Responses(messages[index..i], ids, codec)
    {
      assert i < index + k;
      if i - index >= |ids| {
        return Failure(NoAdjacentCall);
      }
      assert messages[index..i + 1] == messages[index..i] + [messages[i]];
      responses := responses + [Rendered("tool", ResponseText(messages[i].content, codec), [], Some(ids[i - index]),
                                         None)];
      i := i + 1;
    }
    assert messages[index..][..k] == messages[index..i];
    if i - index != |ids| {
      return Failure(NoAdjacentResponse);
    }
    return Success(responses);
  }

  /** Where a rendering stands. */
  datatype State = State(index: nat, output: seq<Rendered>, ids: seq<CallId>, counter: nat)

  function Rest(messages: seq<Flat>, s: State, prefix: string, codec: Codec): Result<seq<Rendered>, Error>
    requires s.index <= |messages|
  {
    RenderFrom(messages[s.index..], s.output, s.ids, s.counter, prefix, codec)
  }

  /** A turn of the loop fails as the rest does, or moves on without changing what the rest comes to. */
  ghost predicate TurnOk(messages: seq<Flat>, s: State, r: Result<State, Error>, prefix: string, codec: Codec)
    requires s.index <= |messages|
  {
    if r.Failure? then Rest(messages, s, prefix, codec) == Failure(r.error)
    else
      && s.index < r.value.index <= |messages|
      && Rest(messages, r.value, prefix, codec) == Rest(messages, s, prefix, codec)
  }

  function AfterCalls(messages: seq<Flat>, s: State, prefix: string, codec: Codec): Result<State, Error>
    requires s.index < |messages|
  {
    var k := Run(messages[s.index..], CALLS);
    var calls := ReadCalls(messages[s.index..][..k], prefix, s.counter, codec);
    if calls.Failure? then Failure(calls.error)
    else Success(State(s.index + k, Attach(s.output, calls.value), FreshIds(prefix, s.counter, k), s.counter + k))
  }

  function AfterResponses(messages: seq<Flat>, s: State, codec: Codec): Result<State, Error>
    requires s.index < |messages|
  {
    var k := Run(messages[s.index..], RESPONSES);
    if k > |s.ids| then Failure(NoAdjacentCall)
    else if k < |s.ids| then Failure(NoAdjacentResponse)
    else Success(s.(index := s.index + k, output := s.output + Responses(messages[s.index..][..k], s.ids, codec)))
  }

  function AfterSpoken(messages: seq<Flat>, s: State): Result<State, Error>
    requires s.index < |messages|
  {
    var spoken := Spoken(messages[s.index]);
    if spoken.Failure? then Failure(spoken.error)
    else Success(State(s.index + 1, s.output + [spoken.value], [], s.counter))
  }

  lemma StepCalls(messages: seq<Flat>, s: State, prefix: string, codec: Codec)
    requires s.index < |messages| && messages[s.index].role in CALLS
    ensures TurnOk(messages, s, AfterCalls(messages, s, prefix, codec), prefix, codec)
  {
    var k := Run(messages[s.index..], CALLS);
    assert messages[s.index..][k..] == messages[s.index + k..];
  }

  lemma StepResponses(messages: seq<Flat>, s: State, prefix: string, codec: Codec)
    requires s.index < |messages| && messages[s.index].role in RESPONSES
    ensures TurnOk(messages, s, AfterResponses(messages, s, codec), prefix, codec)
  {
    var k := Run(messages[s.index..], RESPONSES);
    assert messages[s.index..][k..] == messages[s.index + k..];
  }

  lemma StepSpoken(messages: seq<Flat>, s: State, prefix: string, codec: Codec)
    requires s.index < |messages| && messages[s.index].role !in CALLS && messages[s.index].role !in RESPONSES
    ensures TurnOk(messages, s, AfterSpoken(messages, s), prefix, codec)
  {
    assert messages[s.index..][1..] == messages[s.index + 1..];
  }

  method TurnCalls(messages: seq<Flat>, s: State, prefix: string, codec: Codec) returns (r: Result<State, Error>)
    requires s.index < |messages| && messages[s.index].role in CALLS
    ensures r == AfterCalls(messages, s, prefix, codec)
  {
    var calls, ids, after := RenderCalls(messages, s.index, prefix, s.counter, codec);
    if calls.Failure? {
      return Failure(calls.error);
    }
    return Success(State(after, Attach(s.output, calls.value), ids, s.counter + |calls.value|));
  }

  method TurnResponses(messages: seq<Flat>, s: State, codec: Codec) returns (r: Result<State, Error>)
    requires s.index < |messages| && messages[s.index].role in RESPONSES
    ensures r == AfterResponses(messages, s, codec)
  {
    var responses := RenderResponses(messages, s.index, s.ids, codec);
    if responses.Failure? {
      return Failure(responses.error);
    }
    return Success(s.(index := s.index + |responses.value|, output := s.output + responses.value));
  }

  method TurnSpoken(messages: seq<Flat>, s: State) returns (r: Result<State, Error>)
    requires s.index < |messages|
    ensures r == AfterSpoken(messages, s)
  {
    var spoken := Spoken(messages[s.index]);
    if spoken.Failure? {
      return Failure(spoken.error);
    }
    return Success(State(s.index + 1, s.output + [spoken.value], [], s.counter));
  }

  method Render(messages: seq<Flat>, prefix: string, codec: Codec) returns (r: Result<seq<Rendered>, Error>)
    ensures r == RenderFrom(messages, [], [], 0, prefix, codec)
  {
    var s := State(0, [], [], 0);
    assert messages[0..] == messages;
    ghost var whole := RenderFrom(messages, [], [], 0, prefix, codec);
    while s.index < |messages|
      invariant s.index <= |messages| && Rest(messages, s, prefix, codec) == whole
      decreases |messages| - s.index
    {
      var turn;
      if messages[s.index].role in CALLS {
        StepCalls(messages, s, prefix, codec);
        turn := TurnCalls(messages, s, prefix, codec);
      } else if messages[s.index].role in RESPONSES {
        StepResponses(messages, s, prefix, codec);
        turn := TurnResponses(messages, s, codec);
      } else {
        StepSpoken(messages, s, prefix, codec);
        turn := TurnSpoken(messages, s);
      }
      if turn.Failure? {
        return Failure(turn.error);
      }
      s := turn.value;
    }
    return Success(s.output);
  }

  // ------------------------------------------------------- what comes back

  /** The arguments of a call as an object: none are an empty object, and text is read as JSON. */
  function ArgumentsOf(call: Call, codec: Codec): Option<map<string, Json>> {
    if call.arguments.None? then Some(map[])
    else
      var given := call.arguments.value;
      var read := if given.Str? then codec.loads(given.text) else Some(given);
      if read.Some? && read.value.Object? then Some(read.value.fields) else None
  }

  predicate GoodCall(call: Call, codec: Codec) {
    && call.name.Some? && call.name.value.Str? && call.name.value.text != ""
    && ArgumentsOf(call, codec).Some?
  }

  ghost predicate GoodCalls(calls: seq<Call>, codec: Codec) {
    forall k :: 0 <= k < |calls| ==> GoodCall(calls[k], codec)
  }

  function ExpectedCall(call: Call, id: CallId, codec: Codec): RenderedCall {
    RenderedCall(id, if call.name.Some? && call.name.value.Str? then call.name.value.text else "",
                 if ArgumentsOf(call, codec).Some? then ArgumentsOf(call, codec).value else map[])
  }

  function ExpectedCalls(calls: seq<Call>, prefix: string, counter: nat, codec: Codec): (r: seq<RenderedCall>)
    ensures |r| == |calls|
    ensures forall k :: 0 <= k < |calls| ==> r[k] == ExpectedCall(calls[k], CallId(prefix, counter + k), codec)
  {
    seq(|calls|, k requires 0 <= k < |calls| => ExpectedCall(calls[k], CallId(prefix, counter + k), codec))
  }

  function TextOf(m: Message, codec: Codec): string { ResponseText(m.content, codec) }

  /** A message with calls that no assistant made gets an assistant message for them. */
  function ExpectedOwner(m: Message, prefix: string, counter: nat, codec: Codec): seq<Rendered> {
    var calls := ExpectedCalls(m.calls, prefix, counter, codec);
    var plain := Rendered(m.role, TextOf(m, codec), [], None, None);
    if calls == [] then [plain]
    else if m.role == "assistant" then [plain.(calls := calls)]
    else [plain, Rendered("assistant", "", calls, None, None)]
  }

  function ExpectedAnswer(m: Message, ids: seq<CallId>, codec: Codec): Rendered {
    Rendered("tool", TextOf(m, codec), [], if ids == [] then None else Some(ids[0]), None)
  }

  function ExpectedHead(m: Message, ids: seq<CallId>, prefix: string, counter: nat, codec: Codec): seq<Rendered> {
    if m.role == "tool" then [ExpectedAnswer(m, ids, codec)] else ExpectedOwner(m, prefix, counter, codec)
  }

  function IdsAfter(m: Message, ids: seq<CallId>, prefix: string, counter: nat): seq<CallId> {
    if m.role != "tool" then FreshIds(prefix, counter, |m.calls|) else if ids == [] then [] else ids[1..]
  }

  function CounterAfter(m: Message, counter: nat): nat {
    if m.role == "tool" then counter else counter + |m.calls|
  }

  /** A conversation with its calls numbered anew; `ids` are those of the calls that are not answered yet. */
  function Expected(messages: seq<Message>, ids: seq<CallId>, prefix: string, counter: nat,
                    codec: Codec): seq<Rendered>
  {
    if messages == [] then []
    else
      var m := messages[0];
      ExpectedHead(m, ids, prefix, counter, codec)
      + Expected(messages[1..], IdsAfter(m, ids, prefix, counter), prefix, CounterAfter(m, counter), codec)
  }

  // ------------------------------------------------------------ reading calls

  lemma ReadEncodedCall(call: Call, codec: Codec)
    requires codec.Faithful() && call.name.Some?
    ensures
      var r := ReadCall(EncodedCall(call, codec), codec);
      && (r.Success? <==> GoodCall(call, codec))
      && (r.Success? ==> r.value == (call.name.value.text, ArgumentsOf(call, codec).value))
  {
    var arguments := if call.arguments.Some? then call.arguments.value else Object(map[]);
    var v := Object(map["name" := call.name.value, "arguments" := arguments]);
    assert codec.compact(v) != "" && codec.loads(codec.compact(v)) == Some(v);
    assert v.fields["name"] == call.name.value && v.fields["arguments"] == arguments;
  }

  /** The calls can be read if they are good, and then they are what is expected. */
  ghost predicate ReadsBack(calls: seq<Call>, read: Result<seq<RenderedCall>, Error>, prefix: string, counter: nat,
                            codec: Codec)
  {
    if GoodCalls(calls, codec) then read == Success(ExpectedCalls(calls, prefix, counter, codec)) else read.Failure?
  }

  lemma {:induction false} ReadEncodedCalls(calls: seq<Call>, flats: seq<Flat>, prefix: string, counter: nat,
                                            codec: Codec)
    requires codec.Faithful() && EncodedCalls(calls, codec) == Some(flats)
    ensures ReadsBack(calls, ReadCalls(flats, prefix, counter, codec), prefix, counter, codec)
  {
    if calls == [] {
      assert ExpectedCalls(calls, prefix, counter, codec) == [];
    } else {
      ReadEncodedCall(calls[0], codec);
      assert flats[1..] == EncodedCalls(calls[1..], codec).value;
      ReadEncodedCalls(calls[1..], flats[1..], prefix, counter + 1, codec);
      ReadsBackNext(calls, flats, prefix, counter, codec);
    }
  }

  lemma ReadsBackNext(calls: seq<Call>, flats: seq<Flat>, prefix: string, counter: nat, codec: Codec)
    requires |flats| == |calls| > 0
    requires
      var r := ReadCall(flats[0], codec);
      && (r.Success? <==> GoodCall(calls[0], codec))
      && (r.Success? ==> r.value == (calls[0].name.value.text, ArgumentsOf(calls[0], codec).value))
    requires ReadsBack(calls[1..], ReadCalls(flats[1..], prefix, counter + 1, codec), prefix, counter + 1, codec)
    ensures ReadsBack(calls, ReadCalls(flats, prefix, counter, codec), prefix, counter, codec)
  {
    GoodCallsSplit(calls, codec);
    ExpectedCallsNext(calls, prefix, counter, codec);
  }

  lemma ExpectedCallsNext(calls: seq<Call>, prefix: string, counter: nat, codec: Codec)
    requires calls != []
    ensures ExpectedCalls(calls, prefix, counter, codec) ==
      [ExpectedCall(calls[0], CallId(prefix, counter), codec)] + ExpectedCalls(calls[1..], prefix, counter + 1, codec)
  {
    var all := ExpectedCalls(calls, prefix, counter, codec);
    var rest := ExpectedCalls(calls[1..], prefix, counter + 1, codec);
    forall k | 0 <= k < |rest|
      ensures all[k + 1] == rest[k]
    {
      assert calls[1..][k] == calls[k + 1];
    }
  }

  lemma GoodCallsSplit(calls: seq<Call>, codec: Codec)
    requires calls != []
    ensures GoodCalls(calls, codec) <==> GoodCall(calls[0], codec) && GoodCalls(calls[1..], codec)
  {
    if GoodCall(calls[0], codec) && GoodCalls(calls[1..], codec) {
      forall k | 0 <= k < |calls|
        ensures GoodCall(calls[k], codec)
      {
        assert k > 0 ==> calls[k] == calls[1..][k - 1];
      }
    }
    if GoodCalls(calls, codec) {
      forall k | 0 <= k < |calls| - 1
        ensures GoodCall(calls[1..][k], codec)
      {
        assert calls[1..][k] == calls[k + 1];
      }
    }
  }

  lemma {:induction false} RunOf(a: seq<Flat>, b: seq<Flat>, roles: set<string>)
    requires forall k :: 0 <= k < |a| ==> a[k].role in roles
    requires b == [] || b[0].role !in roles
    ensures Run(a + b, roles) == |a|
    ensures (a + b)[..|a|] == a && (a + b)[|a|..] == b
  {
    if a == [] {
      assert a + b == b;
    } else {
      RunOf(a[1..], b, roles);
      assert (a + b)[1..] == a[1..] + b;
    }
  }

  // ----------------------------------------------------------------- one turn

  /** The answers that follow a message with n calls. */
  function AnswerCount(messages: seq<Message>, n: nat): nat {
    if n <= |messages| then n else |messages|
  }

  function EncodedAnswers(messages: seq<Message>): (r: seq<Flat>)
    ensures |r| == |messages|
    ensures forall k :: 0 <= k < |r| ==> r[k] == Flat("tool_response", messages[k].content, None, None)
  {
    seq(|messages|, k requires 0 <= k < |messages| => Flat("tool_response", messages[k].content, None, None))
  }

  lemma FirstAnswer(messages: seq<Message>, r: nat)
    requires 0 < r <= |messages|
    ensures EncodedAnswers(messages[..r]) ==
      [Flat("tool_response", messages[0].content, None, None)] + EncodedAnswers(messages[1..][..r - 1])
    ensures messages[1..][r - 1..] == messages[r..]
  {
    assert messages[1..][..r - 1] == messages[..r][1..];
  }

  /** One pending call is answered, or the conversation has ended. */
  lemma EncodeAnswer(messages: seq<Message>, pending: seq<Json>, codec: Codec)
    requires EncodeFrom(messages, pending, codec).Success? && pending != [] && messages != []
    ensures messages[0].role == "tool" && messages[0].callId == pending[0]
    ensures EncodeFrom(messages[1..], pending[1..], codec).Success?
    ensures EncodeFrom(messages, pending, codec).value ==
      [Flat("tool_response", messages[0].content, None, None)] + EncodeFrom(messages[1..], pending[1..], codec).value
  {
  }

  /** Pending calls are answered in order by the next messages, unless the conversation ends. */
  lemma {:induction false} AnswersInOrder(messages: seq<Message>, pending: seq<Json>, codec: Codec, k: nat)
    requires EncodeFrom(messages, pending, codec).Success? && k < AnswerCount(messages, |pending|)
    ensures messages[k].role == "tool" && messages[k].callId == pending[k]
  {
    EncodeAnswer(messages, pending, codec);
    if k > 0 {
      AnswersInOrder(messages[1..], pending[1..], codec, k - 1);
    }
  }

  lemma {:induction false} EncodeAnswers(messages: seq<Message>, pending: seq<Json>, codec: Codec)
    requires EncodeFrom(messages, pending, codec).Success?
    ensures
      var r := AnswerCount(messages, |pending|);
      var tail := EncodeFrom(messages[r..], [], codec);
      && tail.Success?
      && Some(EncodeFrom(messages, pending, codec).value) == Some(EncodedAnswers(messages[..r]) + tail.value)
  {
    var r := AnswerCount(messages, |pending|);
    if r == 0 {
      assert messages[0..] == messages;
      assert EncodedAnswers(messages[..0]) == [];
      Sequences.ConcatEmpty(EncodeFrom(messages, pending, codec).value);
    } else {
      EncodeAnswer(messages, pending, codec);
      EncodeAnswers(messages[1..], pending[1..], codec);
      FirstAnswer(messages, r);
      Sequences.ConcatAssociative([Flat("tool_response", messages[0].content, None, None)],
        EncodedAnswers(messages[1..][..r - 1]), EncodeFrom(messages[r..], [], codec).value);
    }
  }

  /** A turn starts with a spoken message. */
  lemma TurnHead(messages: seq<Message>, codec: Codec)
    requires EncodeFrom(messages, [], codec).Success? && messages != []
    ensures SpokenRole(messages[0].role) && EncodedOwner(messages[0], codec).Success?
    ensures EncodeFrom(messages, [], codec).value != [] && SpokenRole(EncodeFrom(messages, [], codec).value[0].role)
  {
  }

  lemma FirstResponse(messages: seq<Message>, ids: seq<CallId>, r: nat, codec: Codec)
    requires 0 < r <= |messages| && r <= |ids|
    ensures Responses(EncodedAnswers(messages[..r]), ids, codec) ==
      [ExpectedAnswer(messages[0], ids, codec)] + Responses(EncodedAnswers(messages[1..][..r - 1]), ids[1..], codec)
  {
    FirstAnswer(messages, r);
  }

  lemma ExpectedFirstAnswer(messages: seq<Message>, ids: seq<CallId>, prefix: string, counter: nat, codec: Codec)
    requires messages != [] && ids != [] && messages[0].role == "tool"
    ensures Expected(messages, ids, prefix, counter, codec) ==
      [ExpectedAnswer(messages[0], ids, codec)] + Expected(messages[1..], ids[1..], prefix, counter, codec)
  {
  }

  lemma DropTwice<T>(s: seq<T>, r: nat)
    requires 0 < r <= |s|
    ensures s[1..][r - 1..] == s[r..]
  {
  }

  lemma {:induction false} ExpectedAnswers(messages: seq<Message>, ids: seq<CallId>, r: nat, prefix: string,
                                           counter: nat, codec: Codec)
    requires r <= |messages| && r <= |ids| && forall k :: 0 <= k < r ==> messages[k].role == "tool"
    ensures Expected(messages, ids, prefix, counter, codec) ==
      Responses(EncodedAnswers(messages[..r]), ids, codec) + Expected(messages[r..], ids[r..], prefix, counter, codec)
    decreases r
  {
    if r == 0 {
      assert messages[0..] == messages && ids[0..] == ids;
      assert Responses(EncodedAnswers(messages[..0]), ids, codec) == [];
    } else {
      ExpectedAnswers(messages[1..], ids[1..], r - 1, prefix, counter, codec);
      ExpectedFirstAnswer(messages, ids, prefix, counter, codec);
      FirstResponse(messages, ids, r, codec);
      DropTwice(messages, r);
      DropTwice(ids, r);
      Sequences.ConcatAssociative([ExpectedAnswer(messages[0], ids, codec)],
        Responses(EncodedAnswers(messages[1..][..r - 1]), ids[1..], codec),
        Expected(messages[r..], ids[r..], prefix, counter, codec));
    }
  }

  // ---------------------------------------------------------- rendering a turn

  lemma RenderOwner(m: Message, rest: seq<Flat>, output: seq<Rendered>, ids: seq<CallId>, prefix: string,
                    counter: nat, codec: Codec)
    requires SpokenRole(m.role) && m.content.Some?
    ensures
      var r := RenderFrom([Flat(m.role, m.content, m.weight, None)] + rest, output, ids, counter, prefix, codec);
      if m.content.value.Str?
      then r == RenderFrom(rest, output + [Rendered(m.role, TextOf(m, codec), [], None, None)], [], counter, prefix,
          codec)
      else r.Failure?
  {
    var all := [Flat(m.role, m.content, m.weight, None)] + rest;
    assert all[1..] == rest;
  }

  /** A group of calls that ends where the rest begins. */
  lemma RenderGroup(group: seq<Flat>, rest: seq<Flat>, output: seq<Rendered>, ids: seq<CallId>, prefix: string,
                    counter: nat, codec: Codec)
    requires group != [] && forall k :: 0 <= k < |group| ==> group[k].role in CALLS
    requires rest == [] || rest[0].role !in CALLS
    ensures
      var read := ReadCalls(group, prefix, counter, codec);
      RenderFrom(group + rest, output, ids, counter, prefix, codec) ==
        if read.Failure? then Failure(read.error)
        else RenderFrom(rest, Attach(output, read.value), FreshIds(prefix, counter, |group|), counter + |group|,
            prefix, codec)
  {
    RunOf(group, rest, CALLS);
    assert (group + rest)[0] == group[0];
  }

  /** What a group of calls does to the rendering of the rest. */
  ghost predicate CallsRendered(calls: seq<Call>, rendered: Result<seq<Rendered>, Error>, rest: seq<Flat>,
                                output: seq<Rendered>,
                                prefix: string, counter: nat, codec: Codec)
  {
    if GoodCalls(calls, codec)
    then rendered == RenderFrom(rest, Attach(output, ExpectedCalls(calls, prefix, counter, codec)),
                                FreshIds(prefix, counter, |calls|), counter + |calls|, prefix, codec)
    else rendered.Failure?
  }

  lemma RenderEncodedCalls(calls: seq<Call>, flats: seq<Flat>, rest: seq<Flat>, output: seq<Rendered>, ids: seq<CallId>,
                           prefix: string, counter: nat, codec: Codec)
    requires flats != [] && |flats| == |calls| && forall k :: 0 <= k < |flats| ==> flats[k].role in CALLS
    requires ReadsBack(calls, ReadCalls(flats, prefix, counter, codec), prefix, counter, codec)
    requires rest == [] || rest[0].role !in CALLS
    ensures CallsRendered(calls, RenderFrom(flats + rest, output, ids, counter, prefix, codec), rest, output, prefix,
        counter, codec)
  {
    RenderGroup(flats, rest, output, ids, prefix, counter, codec);
  }

  lemma RenderEncodedAnswers(answers: seq<Message>, rest: seq<Flat>, output: seq<Rendered>, ids: seq<CallId>,
                             prefix: string, counter: nat, codec: Codec)
    requires answers != [] && (rest == [] || rest[0].role !in RESPONSES) && |answers| <= |ids|
    ensures
      var flats := EncodedAnswers(answers);
      var r := RenderFrom(flats + rest, output, ids, counter, prefix, codec);
      if |answers| == |ids|
      then r == RenderFrom(rest, output + Responses(flats, ids, codec), ids, counter, prefix, codec)
      else r.Failure?
  {
    var flats := EncodedAnswers(answers);
    RunOf(flats, rest, RESPONSES);
    assert (flats + rest)[0] == flats[0];
  }

  /** What one turn comes to: its message, and the answers to its calls. */
  function ExpectedTurn(m: Message, answers: seq<Message>, prefix: string, counter: nat, codec: Codec): seq<Rendered>
    requires |answers| <= |m.calls|
  {
    ExpectedOwner(m, prefix, counter, codec)
    + Responses(EncodedAnswers(answers), FreshIds(prefix, counter, |m.calls|), codec)
  }

  predicate TurnRenderable(m: Message, answers: nat, codec: Codec) {
    && m.content.Some? && m.content.value.Str?
    && (forall k :: 0 <= k < |m.calls| ==> GoodCall(m.calls[k], codec))
    && (answers == 0 || answers == |m.calls|)
  }

  lemma AttachToOwner(m: Message, output: seq<Rendered>, prefix: string, counter: nat, codec: Codec)
    requires m.calls != []
    ensures Attach(output + [Rendered(m.role, TextOf(m, codec), [], None, None)], ExpectedCalls(m.calls, prefix,
        counter, codec))
      == output + ExpectedOwner(m, prefix, counter, codec)
  {
    var plain := Rendered(m.role, TextOf(m, codec), [], None, None);
    assert (output + [plain])[..|output|] == output;
  }

  /** What a message and its calls do to the rendering of the rest. */
  ghost predicate OwnerRendered(m: Message, rendered: Result<seq<Rendered>, Error>, rest: seq<Flat>,
                                output: seq<Rendered>,
                                prefix: string, counter: nat, codec: Codec)
  {
    if m.content.Some? && m.content.value.Str? && GoodCalls(m.calls, codec)
    then rendered == RenderFrom(rest, output + ExpectedOwner(m, prefix, counter, codec),
                                FreshIds(prefix, counter, |m.calls|), counter + |m.calls|, prefix, codec)
    else rendered.Failure?
  }

  lemma RenderSilentOwner(m: Message, rest: seq<Flat>, output: seq<Rendered>, ids: seq<CallId>,
                          prefix: string, counter: nat, codec: Codec)
    requires SpokenRole(m.role) && m.content.Some? && m.calls == []
    ensures
      var all := [Flat(m.role, m.content, m.weight, None)] + rest;
      OwnerRendered(m, RenderFrom(all, output, ids, counter, prefix, codec), rest, output, prefix, counter, codec)
  {
    RenderOwner(m, rest, output, ids, prefix, counter, codec);
    assert FreshIds(prefix, counter, 0) == [];
  }

  lemma RenderCallingOwner(m: Message, flats: seq<Flat>, rest: seq<Flat>, output: seq<Rendered>, ids: seq<CallId>,
                           prefix: string, counter: nat, codec: Codec)
    requires SpokenRole(m.role) && m.content.Some? && |flats| == |m.calls| > 0
    requires forall k :: 0 <= k < |flats| ==> flats[k].role in CALLS
    requires ReadsBack(m.calls, ReadCalls(flats, prefix, counter, codec), prefix, counter, codec)
    requires rest == [] || rest[0].role !in CALLS
    ensures
      var all := [Flat(m.role, m.content, m.weight, None)] + (flats + rest);
      OwnerRendered(m, RenderFrom(all, output, ids, counter, prefix, codec), rest, output, prefix, counter, codec)
  {
    var plain := Rendered(m.role, TextOf(m, codec), [], None, None);
    RenderOwner(m, flats + rest, output, ids, prefix, counter, codec);
    RenderEncodedCalls(m.calls, flats, rest, output + [plain], [], prefix, counter, codec);
    AttachToOwner(m, output, prefix, counter, codec);
  }

  /** A message and its calls, whatever follows. */
  lemma RenderOwnerAndCalls(m: Message, flats: seq<Flat>, rest: seq<Flat>, output: seq<Rendered>, ids: seq<CallId>,
                            prefix: string, counter: nat, codec: Codec)
    requires codec.Faithful() && SpokenRole(m.role) && m.content.Some? && EncodedCalls(m.calls, codec) == Some(flats)
    requires rest == [] || rest[0].role !in CALLS
    ensures
      var all := [Flat(m.role, m.content, m.weight, None)] + (flats + rest);
      OwnerRendered(m, RenderFrom(all, output, ids, counter, prefix, codec), rest, output, prefix, counter, codec)
  {
    if m.calls == [] {
      assert flats + rest == rest;
      RenderSilentOwner(m, rest, output, ids, prefix, counter, codec);
    } else {
      ReadEncodedCalls(m.calls, flats, prefix, counter, codec);
      RenderCallingOwner(m, flats, rest, output, ids, prefix, counter, codec);
    }
  }

  /** How many answers follow the first message. */
  function TurnAnswers(messages: seq<Message>): nat
    requires messages != []
  {
    AnswerCount(messages[1..], |messages[0].calls|)
  }

  function AfterTurn(messages: seq<Message>): (rest: seq<Message>)
    requires messages != []
    ensures |rest| < |messages|
  {
    messages[1..][TurnAnswers(messages)..]
  }

  /** The parts of the encoding of a turn. */
  lemma EncodeTurn(messages: seq<Message>, codec: Codec)
    requires EncodeFrom(messages, [], codec).Success? && messages != []
    ensures
      var m, r := messages[0], TurnAnswers(messages);
      var tail := EncodeFrom(AfterTurn(messages), [], codec);
      && SpokenRole(m.role) && m.content.Some? && EncodedCalls(m.calls, codec).Some? && tail.Success?
      && EncodeFrom(messages, [], codec).value ==
         [Flat(m.role, m.content, m.weight, None)]
         + (EncodedCalls(m.calls, codec).value + (EncodedAnswers(messages[1..][..r]) + tail.value))
  {
    var m := messages[0];
    TurnHead(messages, codec);
    var owner := EncodedOwner(m, codec).value;
    EncodeAnswers(messages[1..], owner.1, codec);
    Sequences.ConcatAssociative([Flat(m.role, m.content, m.weight, None)], EncodedCalls(m.calls, codec).value,
      EncodeFrom(messages[1..], owner.1, codec).value);
  }

  /** What a turn does to the rendering of the turns after it. */
  ghost predicate TurnRendered(messages: seq<Message>, rendered: Result<seq<Rendered>, Error>, tail: seq<Flat>,
                               output: seq<Rendered>,
                               prefix: string, counter: nat, codec: Codec)
    requires messages != []
  {
    var m, r := messages[0], TurnAnswers(messages);
    if TurnRenderable(m, r, codec)
    then rendered == RenderFrom(tail, output + ExpectedTurn(m, messages[1..][..r], prefix, counter, codec),
                                FreshIds(prefix, counter, |m.calls|), counter + |m.calls|, prefix, codec)
    else rendered.Failure?
  }

  /** The answers of a turn, after its message and calls. */
  lemma RenderTurnAnswers(messages: seq<Message>, rendered: Result<seq<Rendered>, Error>, tail: seq<Flat>,
                          output: seq<Rendered>,
                          prefix: string, counter: nat, codec: Codec)
    requires messages != [] && (tail == [] || tail[0].role !in RESPONSES)
    requires OwnerRendered(messages[0], rendered, EncodedAnswers(messages[1..][..TurnAnswers(messages)]) + tail,
        output, prefix, counter, codec)
    requires TurnAnswers(messages) < |messages[0].calls| ==> tail == []
    ensures TurnRendered(messages, rendered, tail, output, prefix, counter, codec)
  {
    var m, r := messages[0], TurnAnswers(messages);
    var answers, numbered := messages[1..][..r], FreshIds(prefix, counter, |m.calls|);
    var spoken := output + ExpectedOwner(m, prefix, counter, codec);
    if r == 0 {
      assert EncodedAnswers(answers) + tail == tail;
      assert Responses(EncodedAnswers(answers), numbered, codec) == [];
      assert ExpectedTurn(m, answers, prefix, counter, codec) == ExpectedOwner(m, prefix, counter, codec);
    } else {
      RenderEncodedAnswers(answers, tail, spoken, numbered, prefix, counter + |m.calls|, codec);
      Sequences.ConcatAssociative(output, ExpectedOwner(m, prefix, counter, codec),
        Responses(EncodedAnswers(answers), numbered, codec));
    }
  }

  lemma RenderTurn(messages: seq<Message>, output: seq<Rendered>, ids: seq<CallId>, prefix: string, counter: nat,
                   codec: Codec)
    requires codec.Faithful() && EncodeFrom(messages, [], codec).Success? && messages != []
    ensures EncodeFrom(AfterTurn(messages), [], codec).Success?
    ensures TurnRendered(messages, RenderFrom(EncodeFrom(messages, [], codec).value, output, ids, counter, prefix,
        codec),
                         EncodeFrom(AfterTurn(messages), [], codec).value, output, prefix, counter, codec)
  {
    EncodeTurn(messages, codec);
    var m, r, rest := messages[0], TurnAnswers(messages), AfterTurn(messages);
    var tail := EncodeFrom(rest, [], codec).value;
    if rest != [] {
      TurnHead(rest, codec);
    }
    var flats, following := EncodedCalls(m.calls, codec).value, EncodedAnswers(messages[1..][..r]) + tail;
    assert following == [] || following[0].role !in CALLS;
    RenderOwnerAndCalls(m, flats, following, output, ids, prefix, counter, codec);
    RenderTurnAnswers(messages, RenderFrom(EncodeFrom(messages, [], codec).value, output, ids, counter, prefix, codec),
      tail, output, prefix, counter, codec);
  }

  // --------------------------------------------------------- whole conversations

  /** The answers at the end of a conversation. */
  function Trailing(messages: seq<Message>): (n: nat)
    ensures n <= |messages|
  {
    if messages == [] || messages[|messages| - 1].role != "tool" then 0
    else 1 + Trailing(messages[..|messages| - 1])
  }

  /** The last calls are all answered, or none of them is. */
  predicate Complete(messages: seq<Message>) {
    var n := Trailing(messages);
    n == 0 || n == |messages| || n == |messages[|messages| - 1 - n].calls|
  }

  predicate SpokenRenderable(m: Message, codec: Codec) {
    && m.content.Some? && m.content.value.Str?
    && forall k :: 0 <= k < |m.calls| ==> GoodCall(m.calls[k], codec)
  }

  /** What the renderer can read of what the encoder wrote. */
  predicate Renderable(messages: seq<Message>, codec: Codec) {
    && Complete(messages)
    && forall k :: 0 <= k < |messages| && messages[k].role != "tool" ==> SpokenRenderable(messages[k], codec)
  }

  lemma {:induction false} TrailingFrom(messages: seq<Message>, k: nat)
    requires k < |messages| && messages[k].role != "tool"
    ensures Trailing(messages) == Trailing(messages[k..]) < |messages| - k
  {
    var last := |messages| - 1;
    assert messages[k..][|messages[k..]| - 1] == messages[last];
    if messages[last].role == "tool" {
      TrailingFrom(messages[..last], k);
      assert messages[..last][k..] == messages[k..][..last - k];
    }
  }

  lemma {:induction false} AllTrailing(messages: seq<Message>)
    requires messages != [] && messages[0].role != "tool"
    requires forall k :: 1 <= k < |messages| ==> messages[k].role == "tool"
    ensures Trailing(messages) == |messages| - 1
  {
    if |messages| > 1 {
      AllTrailing(messages[..|messages| - 1]);
    }
  }

  lemma CompleteTurn(messages: seq<Message>)
    requires messages != [] && messages[0].role != "tool"
    requires forall k :: 1 <= k <= TurnAnswers(messages) ==> messages[k].role == "tool"
    requires AfterTurn(messages) != [] ==> AfterTurn(messages)[0].role != "tool"
    ensures
      var r, n := TurnAnswers(messages), |messages[0].calls|;
      Complete(messages) <==> (r == 0 || r == n) && Complete(AfterTurn(messages))
  {
    var r, rest := TurnAnswers(messages), AfterTurn(messages);
    assert rest == messages[1 + r..];
    if rest == [] {
      AllTrailing(messages);
    } else {
      TrailingFrom(messages, 1 + r);
      var n := Trailing(messages);
      assert messages[|messages| - 1 - n] == rest[|rest| - 1 - n];
    }
  }

  lemma RenderableTurn(messages: seq<Message>, codec: Codec)
    requires EncodeFrom(messages, [], codec).Success? && messages != []
    ensures EncodeFrom(AfterTurn(messages), [], codec).Success?
    ensures Renderable(messages, codec) <==>
      TurnRenderable(messages[0], TurnAnswers(messages), codec) && Renderable(AfterTurn(messages), codec)
  {
    var r, rest := TurnAnswers(messages), AfterTurn(messages);
    EncodeTurn(messages, codec);
    TurnHead(messages, codec);
    if rest != [] {
      TurnHead(rest, codec);
    }
    var ids := EncodedOwner(messages[0], codec).value.1;
    forall k | 1 <= k <= r
      ensures messages[k].role == "tool"
    {
      AnswersInOrder(messages[1..], ids, codec, k - 1);
    }
    CompleteTurn(messages);
    assert rest == messages[1 + r..];
    if TurnRenderable(messages[0], r, codec) && Renderable(rest, codec) {
      forall k | 0 <= k < |messages| && messages[k].role != "tool"
        ensures SpokenRenderable(messages[k], codec)
      {
        assert k > r ==> messages[k] == rest[k - 1 - r];
      }
    }
    if Renderable(messages, codec) {
      assert SpokenRenderable(messages[0], codec);
      forall k | 0 <= k < |rest| && rest[k].role != "tool"
        ensures SpokenRenderable(rest[k], codec)
      {
        assert rest[k] == messages[1 + r + k];
      }
    }
  }

  /** The messages after the first that belong to its turn are answers. */
  lemma TurnIsAnswers(messages: seq<Message>, codec: Codec)
    requires EncodeFrom(messages, [], codec).Success? && messages != []
    ensures messages[0].role != "tool"
    ensures forall k :: 0 <= k < TurnAnswers(messages) ==> messages[1..][k].role == "tool"
  {
    TurnHead(messages, codec);
    forall k | 0 <= k < TurnAnswers(messages)
      ensures messages[1..][k].role == "tool"
    {
      AnswersInOrder(messages[1..], EncodedOwner(messages[0], codec).value.1, codec, k);
    }
  }

  // The next lemmas equate lists inside Some, so that they are compared as values
  // and not element by element.

  lemma ExpectedFirstOwner(messages: seq<Message>, prefix: string, counter: nat, codec: Codec)
    requires messages != [] && messages[0].role != "tool"
    ensures
      var m := messages[0];
      Some(Expected(messages, [], prefix, counter, codec)) ==
        Some(ExpectedOwner(m, prefix, counter, codec)
             + Expected(messages[1..], FreshIds(prefix, counter, |m.calls|), prefix, counter + |m.calls|, codec))
  {
  }

  /** The output of a turn. */
  function TurnOutput(messages: seq<Message>, prefix: string, counter: nat, codec: Codec): seq<Rendered>
    requires messages != []
  {
    ExpectedTurn(messages[0], messages[1..][..TurnAnswers(messages)], prefix, counter, codec)
  }

  /** The answers of a turn, then the messages of the rest. */
  lemma ExpectedTurnAnswers(messages: seq<Message>, numbered: seq<CallId>, prefix: string, counter: nat, codec: Codec)
    requires messages != [] && |numbered| == |messages[0].calls|
    requires forall k :: 0 <= k < TurnAnswers(messages) ==> messages[1..][k].role == "tool"
    ensures Some(Expected(messages[1..], numbered, prefix, counter, codec)) ==
      Some(Responses(EncodedAnswers(messages[1..][..TurnAnswers(messages)]), numbered, codec)
           + Expected(AfterTurn(messages), [], prefix, counter, codec))
  {
    ExpectedAnswers(messages[1..], numbered, TurnAnswers(messages), prefix, counter, codec);
    NothingLeft(messages, numbered, prefix, counter, codec);
  }

  lemma OwnerThenAnswers(messages: seq<Message>, answers: seq<Rendered>, rest: seq<Rendered>, prefix: string,
                         counter: nat, codec: Codec)
    requires messages != [] && messages[0].role != "tool"
    requires
      var m := messages[0];
      Some(Expected(messages[1..], FreshIds(prefix, counter, |m.calls|), prefix, counter + |m.calls|, codec)) ==
      Some(answers + rest)
    ensures Some(Expected(messages, [], prefix, counter, codec)) ==
      Some((ExpectedOwner(messages[0], prefix, counter, codec) + answers) + rest)
  {
    ExpectedFirstOwner(messages, prefix, counter, codec);
    Sequences.ConcatAssociative(ExpectedOwner(messages[0], prefix, counter, codec), answers, rest);
  }

  /** The expected messages of a turn, then those of the rest. */
  lemma ExpectedByTurn(messages: seq<Message>, rest: seq<Rendered>, prefix: string, counter: nat, codec: Codec)
    requires messages != [] && messages[0].role != "tool"
    requires forall k :: 0 <= k < TurnAnswers(messages) ==> messages[1..][k].role == "tool"
    requires rest == Expected(AfterTurn(messages), [], prefix, counter + |messages[0].calls|, codec)
    ensures Some(Expected(messages, [], prefix, counter, codec)) ==
      Some(TurnOutput(messages, prefix, counter, codec) + rest)
  {
    var m, numbered := messages[0], FreshIds(prefix, counter, |messages[0].calls|);
    ExpectedTurnAnswers(messages, numbered, prefix, counter + |m.calls|, codec);
    OwnerThenAnswers(messages, Responses(EncodedAnswers(messages[1..][..TurnAnswers(messages)]), numbered, codec), rest,
      prefix, counter, codec);
  }

  /** A turn leaves no call open, or nothing follows it. */
  lemma NothingLeft(messages: seq<Message>, ids: seq<CallId>, prefix: string, counter: nat, codec: Codec)
    requires messages != [] && |ids| == |messages[0].calls|
    ensures Expected(AfterTurn(messages), ids[TurnAnswers(messages)..], prefix, counter, codec)
      == Expected(AfterTurn(messages), [], prefix, counter, codec)
  {
    if TurnAnswers(messages) < |ids| {
      assert AfterTurn(messages) == [];
    } else {
      assert ids[TurnAnswers(messages)..] == [];
    }
  }

  /** What a rendering comes to, whatever it fails with. */
  function Kept(rendered: Result<seq<Rendered>, Error>): Option<seq<Rendered>> {
    if rendered.Success? then Some(rendered.value) else None
  }

  /** A renderable conversation is rendered in full, and no other is. */
  function Planned(messages: seq<Message>, output: seq<Rendered>, prefix: string, counter: nat,
                   codec: Codec): Option<seq<Rendered>>
  {
    if Renderable(messages, codec) then Some(output + Expected(messages, [], prefix, counter, codec)) else None
  }

  lemma PlannedByTurn(messages: seq<Message>, output: seq<Rendered>, prefix: string, counter: nat, codec: Codec)
    requires EncodeFrom(messages, [], codec).Success? && messages != []
    ensures Planned(messages, output, prefix, counter, codec) ==
      if TurnRenderable(messages[0], TurnAnswers(messages), codec)
      then Planned(AfterTurn(messages), output + TurnOutput(messages, prefix, counter, codec), prefix,
                   counter + |messages[0].calls|, codec)
      else None
  {
    RenderableTurn(messages, codec);
    if TurnRenderable(messages[0], TurnAnswers(messages), codec) {
      TurnIsAnswers(messages, codec);
      var rest := Expected(AfterTurn(messages), [], prefix, counter + |messages[0].calls|, codec);
      ExpectedByTurn(messages, rest, prefix, counter, codec);
      Sequences.ConcatAssociative(output, TurnOutput(messages, prefix, counter, codec), rest);
    }
  }

  lemma KeptByTurn(messages: seq<Message>, flat: seq<Flat>, output: seq<Rendered>, ids: seq<CallId>, prefix: string,
                   counter: nat, codec: Codec)
    requires codec.Faithful() && EncodeFrom(messages, [], codec) == Success(flat) && messages != []
    ensures EncodeFrom(AfterTurn(messages), [], codec).Success?
    ensures Kept(RenderFrom(flat, output, ids, counter, prefix, codec)) ==
      if TurnRenderable(messages[0], TurnAnswers(messages), codec)
      then Kept(RenderFrom(EncodeFrom(AfterTurn(messages), [], codec).value,
                           output + TurnOutput(messages, prefix, counter, codec),
                           FreshIds(prefix, counter, |messages[0].calls|), counter + |messages[0].calls|, prefix,
                           codec))
      else None
  {
    RenderTurn(messages, output, ids, prefix, counter, codec);
  }

  lemma NothingRoundTripped(output: seq<Rendered>, ids: seq<CallId>, prefix: string, counter: nat, codec: Codec)
    ensures Kept(RenderFrom([], output, ids, counter, prefix, codec)) == Planned([], output, prefix, counter, codec)
  {
    assert output + [] == output;
  }

  lemma {:induction false} RoundTripFrom(messages: seq<Message>, flat: seq<Flat>, output: seq<Rendered>,
                                         ids: seq<CallId>,
                                         prefix: string, counter: nat, codec: Codec)
    requires codec.Faithful() && EncodeFrom(messages, [], codec) == Success(flat)
    ensures Kept(RenderFrom(flat, output, ids, counter, prefix, codec)) ==
      Planned(messages, output, prefix, counter, codec)
    decreases |messages|
  {
    if messages == [] {
      NothingRoundTripped(output, ids, prefix, counter, codec);
    } else {
      var calls := |messages[0].calls|;
      assert EncodeFrom(AfterTurn(messages), [], codec).Success? by {
        EncodeTurn(messages, codec);
      }
      KeptByTurn(messages, flat, output, ids, prefix, counter, codec);
      PlannedByTurn(messages, output, prefix, counter, codec);
      RoundTripFrom(AfterTurn(messages), EncodeFrom(AfterTurn(messages), [], codec).value,
        output + TurnOutput(messages, prefix, counter, codec), FreshIds(prefix, counter, calls), prefix,
            counter + calls, codec);
    }
  }

  /**
   Rendering undoes encoding: it succeeds exactly for conversations that are
   renderable, and then gives the expected messages.
   */
  lemma RoundTrip(messages: seq<Message>, prefix: string, codec: Codec)
    requires codec.Faithful() && EncodeFrom(messages, [], codec).Success?
    ensures
      var rendered := RenderFrom(EncodeFrom(messages, [], codec).value, [], [], 0, prefix, codec);
      && (rendered.Success? <==> Renderable(messages, codec))
      && (rendered.Success? ==> rendered.value == Expected(messages, [], prefix, 0, codec))
  {
    RoundTripFrom(messages, EncodeFrom(messages, [], codec).value, [], [], prefix, 0, codec);
    var expected := Expected(messages, [], prefix, 0, codec);
    assert [] + expected == expected;
  }

  // ---------------------------------------------------------- what is preserved

  /** Only assistants call tools. */
  predicate OnlyAssistantsCall(messages: seq<Message>) {
    forall k :: 0 <= k < |messages| && messages[k].role != "tool" && messages[k].calls != [] ==>
      messages[k].role == "assistant"
  }

  /** The same role, text, and calls with the same names and arguments. */
  ghost predicate SameMessage(m: Message, r: Rendered, codec: Codec) {
    && r.role == m.role && r.content == TextOf(m, codec)
    && (m.role == "tool" ==> r.calls == [])
    && (m.role != "tool" ==>
      && |r.calls| == |m.calls| && r.callId == None
      && forall j :: 0 <= j < |r.calls| ==> r.calls[j] == ExpectedCall(m.calls[j], r.calls[j].id, codec))
  }

  /** Message by message the same conversation, exactly if only assistants call tools. */
  lemma {:induction false} Preserved(messages: seq<Message>, ids: seq<CallId>, prefix: string, counter: nat,
                                     codec: Codec)
    ensures
      var expected := Expected(messages, ids, prefix, counter, codec);
      && |expected| >= |messages|
      && (|expected| == |messages| <==> OnlyAssistantsCall(messages))
      && (OnlyAssistantsCall(messages) ==> forall k :: 0 <= k < |messages| ==>
           SameMessage(messages[k], expected[k], codec))
    decreases |messages|
  {
    if messages != [] {
      var m, rest := messages[0], messages[1..];
      var left, after := IdsAfter(m, ids, prefix, counter), CounterAfter(m, counter);
      OnlyAssistantsSplit(messages);
      Preserved(rest, left, prefix, after, codec);
      if |ExpectedHead(m, ids, prefix, counter, codec)| == 1 {
        PreservedNext(messages, Expected(messages, ids, prefix, counter, codec),
                      Expected(rest, left, prefix, after, codec), codec);
      }
    }
  }

  lemma OnlyAssistantsSplit(messages: seq<Message>)
    requires messages != []
    ensures OnlyAssistantsCall(messages) <==>
      && (messages[0].role != "tool" && messages[0].calls != [] ==> messages[0].role == "assistant")
      && OnlyAssistantsCall(messages[1..])
  {
    if OnlyAssistantsCall(messages) {
      forall k | 0 <= k < |messages| - 1 && messages[1..][k].role != "tool" && messages[1..][k].calls != []
        ensures messages[1..][k].role == "assistant"
      {
        assert messages[1..][k] == messages[k + 1];
      }
    }
    if OnlyAssistantsCall(messages[1..]) {
      forall k | 1 <= k < |messages| && messages[k].role != "tool" && messages[k].calls != []
        ensures messages[k].role == "assistant"
      {
        assert messages[k] == messages[1..][k - 1];
      }
    }
  }

  lemma PreservedNext(messages: seq<Message>, expected: seq<Rendered>, rest: seq<Rendered>, codec: Codec)
    requires messages != [] && |expected| == 1 + |rest| && expected[1..] == rest &&
      SameMessage(messages[0], expected[0], codec)
    requires |rest| == |messages| - 1 ==> forall k :: 0 <= k < |rest| ==> SameMessage(messages[1..][k], rest[k], codec)
    ensures |expected| == |messages| ==> forall k :: 0 <= k < |messages| ==>
      SameMessage(messages[k], expected[k], codec)
  {
    if |expected| == |messages| {
      forall k | 0 <= k < |messages|
        ensures SameMessage(messages[k], expected[k], codec)
      {
        if k > 0 {
          assert messages[k] == messages[1..][k - 1] && expected[k] == rest[k - 1];
        }
      }
    }
  }

  /** The calls before a message. */
  function CallsBefore(messages: seq<Message>, k: nat): nat
    requires k <= |messages|
  {
    if k == 0 then 0
    else CallsBefore(messages, k - 1) + if messages[k - 1].role == "tool" then 0 else |messages[k - 1].calls|
  }

  /** With only assistants calling, every message is expected as one. */
  lemma ExpectedTail(messages: seq<Message>, ids: seq<CallId>, prefix: string, counter: nat, codec: Codec)
    requires messages != [] && OnlyAssistantsCall(messages)
    ensures
      var expected, m := Expected(messages, ids, prefix, counter, codec), messages[0];
      && expected != [] && [expected[0]] == ExpectedHead(m, ids, prefix, counter, codec)
      && expected[1..] == Expected(messages[1..], IdsAfter(m, ids, prefix, counter), prefix, CounterAfter(m, counter),
           codec)
  {
    OnlyAssistantsSplit(messages);
    assert |ExpectedHead(messages[0], ids, prefix, counter, codec)| == 1;
  }

  /** The ids that are not answered before a message. */
  function IdsBefore(messages: seq<Message>, k: nat, prefix: string): seq<CallId>
    requires k <= |messages|
  {
    if k == 0 then []
    else IdsAfter(messages[k - 1], IdsBefore(messages, k - 1, prefix), prefix, CallsBefore(messages, k - 1))
  }

  /** What is expected from a message on. */
  function ExpectedFrom(messages: seq<Message>, k: nat, prefix: string, codec: Codec): seq<Rendered>
    requires k <= |messages|
  {
    Expected(messages[k..], IdsBefore(messages, k, prefix), prefix, CallsBefore(messages, k), codec)
  }

  lemma ExpectedNext(messages: seq<Message>, k: nat, prefix: string, codec: Codec)
    requires OnlyAssistantsCall(messages) && k < |messages|
    ensures
      var here := ExpectedFrom(messages, k, prefix, codec);
      && here != [] && here[1..] == ExpectedFrom(messages, k + 1, prefix, codec)
      && [here[0]] == ExpectedHead(messages[k], IdsBefore(messages, k, prefix), prefix, CallsBefore(messages, k), codec)
  {
    RestOnlyAssistants(messages, k);
    ExpectedTail(messages[k..], IdsBefore(messages, k, prefix), prefix, CallsBefore(messages, k), codec);
    assert messages[k..][0] == messages[k] && messages[k..][1..] == messages[k + 1..];
  }

  lemma {:induction false} ExpectedSuffix(messages: seq<Message>, k: nat, prefix: string, codec: Codec)
    requires OnlyAssistantsCall(messages) && k <= |messages|
    ensures
      var expected := Expected(messages, [], prefix, 0, codec);
      k <= |expected| && expected[k..] == ExpectedFrom(messages, k, prefix, codec)
  {
    var expected := Expected(messages, [], prefix, 0, codec);
    if k == 0 {
      assert messages[0..] == messages && expected[0..] == expected;
    } else {
      ExpectedSuffix(messages, k - 1, prefix, codec);
      ExpectedNext(messages, k - 1, prefix, codec);
      assert expected[k - 1..][1..] == expected[k..];
    }
  }

  /** What is expected of a message depends on it and on the calls before it alone. */
  lemma ExpectedAt(messages: seq<Message>, k: nat, prefix: string, codec: Codec)
    requires OnlyAssistantsCall(messages) && k < |messages|
    ensures
      var expected := Expected(messages, [], prefix, 0, codec);
      && k < |expected|
      && [expected[k]] == ExpectedHead(messages[k], IdsBefore(messages, k, prefix), prefix, CallsBefore(messages, k),
           codec)
  {
    ExpectedSuffix(messages, k, prefix, codec);
    ExpectedNext(messages, k, prefix, codec);
    var expected := Expected(messages, [], prefix, 0, codec);
    assert expected[k..][0] == expected[k];
  }

  /** The id of the j-th call of the k-th message. */
  function IdAt(expected: seq<Rendered>, k: nat, j: nat): Option<CallId> {
    if k < |expected| && j < |expected[k].calls| then Some(expected[k].calls[j].id) else None
  }

  /** The id that the k-th message answers. */
  function AnswerIdAt(expected: seq<Rendered>, k: nat): Option<CallId> {
    if k < |expected| then expected[k].callId else None
  }

  /** The calls of a conversation are numbered in order. */
  lemma CallsNumbered(messages: seq<Message>, prefix: string, codec: Codec, k: nat, j: nat)
    requires OnlyAssistantsCall(messages) && k < |messages| && messages[k].role != "tool" && j < |messages[k].calls|
    ensures IdAt(Expected(messages, [], prefix, 0, codec), k, j) == Some(CallId(prefix, CallsBefore(messages, k) + j))
  {
    ExpectedAt(messages, k, prefix, codec);
    var head := ExpectedHead(messages[k], IdsBefore(messages, k, prefix), prefix, CallsBefore(messages, k), codec);
    assert head[0].calls == ExpectedCalls(messages[k].calls, prefix, CallsBefore(messages, k), codec);
  }

  /** No two calls of a conversation get the same id. */
  lemma IdsDistinct(messages: seq<Message>, prefix: string, codec: Codec, k: nat, j: nat, k': nat, j': nat)
    requires OnlyAssistantsCall(messages) && k <= k' < |messages| && messages[k].role != "tool" &&
      messages[k'].role != "tool"
    requires j < |messages[k].calls| && j' < |messages[k'].calls| && (k, j) != (k', j')
    ensures
      var a := IdAt(Expected(messages, [], prefix, 0, codec), k, j);
      var b := IdAt(Expected(messages, [], prefix, 0, codec), k', j');
      a.Some? && b.Some? && a.value.Text() != b.value.Text()
  {
    CallsNumbered(messages, prefix, codec, k, j);
    CallsNumbered(messages, prefix, codec, k', j');
    NumbersDistinct(messages, prefix, k, j, k', j');
  }

  lemma NumbersDistinct(messages: seq<Message>, prefix: string, k: nat, j: nat, k': nat, j': nat)
    requires k <= k' < |messages| && messages[k].role != "tool"
    requires j < |messages[k].calls| && (k, j) != (k', j')
    ensures CallId(prefix, CallsBefore(messages, k) + j).Text() != CallId(prefix, CallsBefore(messages, k') + j').Text()
  {
    if k < k' {
      CallsBeforeGrows(messages, k, k');
    }
    var a, b := CallsBefore(messages, k) + j, CallsBefore(messages, k') + j';
    if CallId(prefix, a).Text() == CallId(prefix, b).Text() {
      CallIdsFresh(prefix, a, b);
    }
  }

  lemma {:induction false} CallsBeforeGrows(messages: seq<Message>, k: nat, l: nat)
    requires k < l <= |messages| && messages[k].role != "tool"
    ensures CallsBefore(messages, l) >= CallsBefore(messages, k) + |messages[k].calls|
  {
    if l > k + 1 {
      CallsBeforeGrows(messages, k, l - 1);
    }
  }

  lemma RestOnlyAssistants(messages: seq<Message>, n: nat)
    requires OnlyAssistantsCall(messages) && n <= |messages|
    ensures OnlyAssistantsCall(messages[n..])
  {
    forall k | 0 <= k < |messages| - n && messages[n..][k].role != "tool" && messages[n..][k].calls != []
      ensures messages[n..][k].role == "assistant"
    {
      assert messages[n..][k] == messages[n + k];
    }
  }

  /** While the answers to a message follow it, the ids of its later calls are left. */
  lemma {:induction false} IdsLeft(messages: seq<Message>, k: nat, j: nat, prefix: string)
    requires k + j < |messages| && messages[k].role != "tool" && j < |messages[k].calls|
    requires forall i :: k < i <= k + j ==> messages[i].role == "tool"
    ensures IdsBefore(messages, k + 1 + j, prefix) ==
      FreshIds(prefix, CallsBefore(messages, k), |messages[k].calls|)[j..]
  {
    if j > 0 {
      IdsLeft(messages, k, j - 1, prefix);
      var numbered := FreshIds(prefix, CallsBefore(messages, k), |messages[k].calls|);
      assert numbered[j - 1..][1..] == numbered[j..];
    }
  }

  /** The j-th answer after a message carries the id of its j-th call. */
  lemma AnswersCarryIds(messages: seq<Message>, prefix: string, codec: Codec, k: nat, j: nat)
    requires EncodeFrom(messages, [], codec).Success? && OnlyAssistantsCall(messages)
    requires k < |messages| && messages[k].role != "tool" && j < |messages[k].calls| && k + 1 + j < |messages|
    ensures
      var expected := Expected(messages, [], prefix, 0, codec);
      IdAt(expected, k, j).Some? && AnswerIdAt(expected, k + 1 + j) == IdAt(expected, k, j)
  {
    forall i | k < i <= k + 1 + j
      ensures messages[i].role == "tool"
    {
      AnswersMatchCalls(messages, codec, k, i - k - 1);
    }
    CallsNumbered(messages, prefix, codec, k, j);
    AnswerNumbered(messages, prefix, codec, k, j);
  }

  lemma AnswerTakesFirst(m: Message, ids: seq<CallId>, prefix: string, counter: nat, codec: Codec)
    requires m.role == "tool" && ids != []
    ensures
      var head := ExpectedHead(m, ids, prefix, counter, codec);
      |head| == 1 && head[0].callId == Some(ids[0])
  {
  }

  lemma AnswerNumbered(messages: seq<Message>, prefix: string, codec: Codec, k: nat, j: nat)
    requires OnlyAssistantsCall(messages) && k + 1 + j < |messages| && messages[k].role != "tool" &&
      j < |messages[k].calls|
    requires forall i :: k < i <= k + 1 + j ==> messages[i].role == "tool"
    ensures AnswerIdAt(Expected(messages, [], prefix, 0, codec), k + 1 + j) ==
      Some(CallId(prefix, CallsBefore(messages, k) + j))
  {
    IdsLeft(messages, k, j, prefix);
    ExpectedAt(messages, k + 1 + j, prefix, codec);
    var numbered := FreshIds(prefix, CallsBefore(messages, k), |messages[k].calls|);
    assert numbered[j..][0] == numbered[j] == CallId(prefix, CallsBefore(messages, k) + j);
    AnswerTakesFirst(messages[k + 1 + j], IdsBefore(messages, k + 1 + j, prefix), prefix,
                     CallsBefore(messages, k + 1 + j), codec);
  }

  lemma RestAt(messages: seq<Message>, k: nat)
    requires messages != [] && TurnAnswers(messages) < k < |messages|
    ensures
      var n := 1 + TurnAnswers(messages);
      AfterTurn(messages) == messages[n..] && AfterTurn(messages)[k - n] == messages[k]
  {
  }

  /** In the encoded conversation, the j-th answer after a message answers its j-th call. */
  lemma {:induction false} AnswersMatchCalls(messages: seq<Message>, codec: Codec, k: nat, j: nat)
    requires EncodeFrom(messages, [], codec).Success?
    requires k < |messages| && messages[k].role != "tool" && j < |messages[k].calls| && k + 1 + j < |messages|
    ensures messages[k + 1 + j].role == "tool" && Some(messages[k + 1 + j].callId) == messages[k].calls[j].id
    decreases |messages|
  {
    if k == 0 {
      FirstAnswersMatch(messages, codec, j);
    } else {
      var rest, i := LaterTurn(messages, codec, k, j);
      AnswersMatchCalls(rest, codec, i, j);
    }
  }

  /** A later spoken message and an answer to it, in the encoded rest of the conversation after the first turn. */
  lemma LaterTurn(messages: seq<Message>, codec: Codec, k: nat, j: nat) returns (rest: seq<Message>, i: nat)
    requires EncodeFrom(messages, [], codec).Success?
    requires 0 < k && k + 1 + j < |messages| && messages[k].role != "tool"
    ensures EncodeFrom(rest, [], codec).Success? && |rest| < |messages| && i + 1 + j < |rest|
    ensures rest[i] == messages[k] && rest[i + 1 + j] == messages[k + 1 + j]
  {
    SpokenAfterTurn(messages, codec, k);
    rest, i := LaterRest(messages, k, j);
  }

  lemma LaterRest(messages: seq<Message>, k: nat, j: nat) returns (rest: seq<Message>, i: nat)
    requires messages != [] && TurnAnswers(messages) < k && k + 1 + j < |messages|
    ensures rest == AfterTurn(messages) && |rest| < |messages| && i + 1 + j < |rest|
    ensures rest[i] == messages[k] && rest[i + 1 + j] == messages[k + 1 + j]
  {
    rest, i := AfterTurn(messages), k - 1 - TurnAnswers(messages);
    RestAt(messages, k);
    RestAt(messages, k + 1 + j);
  }

  lemma FirstAnswersMatch(messages: seq<Message>, codec: Codec, j: nat)
    requires EncodeFrom(messages, [], codec).Success?
    requires messages != [] && j < |messages[0].calls| && 1 + j < |messages|
    ensures messages[1 + j].role == "tool" && Some(messages[1 + j].callId) == messages[0].calls[j].id
  {
    TurnHead(messages, codec);
    AnswersInOrder(messages[1..], EncodedOwner(messages[0], codec).value.1, codec, j);
  }

  /** A spoken message other than the first comes after a turn that is fully answered. */
  lemma SpokenAfterTurn(messages: seq<Message>, codec: Codec, k: nat)
    requires EncodeFrom(messages, [], codec).Success? && 0 < k < |messages| && messages[k].role != "tool"
    ensures k > TurnAnswers(messages) == |messages[0].calls|
    ensures EncodeFrom(AfterTurn(messages), [], codec).Success?
  {
    TurnHead(messages, codec);
    EncodeTurn(messages, codec);
    var ids := EncodedOwner(messages[0], codec).value.1;
    if k <= TurnAnswers(messages) {
      AnswersInOrder(messages[1..], ids, codec, k - 1);
    }
  }

  // -------------------------------------------------------------- what fails

  lemma IdsOfOne(a: Call)
    requires a.id.Some?
    ensures CallIds([a]) == Some([a.id.value])
  {
    assert CallIds([]) == Some([]);
    assert [a][1..] == [];
    assert [a.id.value] + [] == [a.id.value];
  }

  lemma IdsOfTwo(a: Call, b: Call)
    requires a.id.Some? && b.id.Some?
    ensures CallIds([a, b]) == Some([a.id.value, b.id.value])
  {
    IdsOfOne(b);
    assert [a, b][1..] == [b] && [a, b][0] == a;
    assert [a.id.value] + [b.id.value] == [a.id.value, b.id.value];
  }

  /** Accepted by the encoder, but not by the renderer: only the first of two calls is answered. */
  lemma PartlyAnsweredFails(codec: Codec, prefix: string)
    requires codec.Faithful()
    ensures
      var call := (id: string) => Call(Some(Str(id)), Some(Str("inspect")), None);
      var messages := [Message("assistant", Some(Str("")), None, [call("a"), call("b")], Null),
                       Message("tool", Some(Str("result")), None, [], Str("a"))];
      var encoded := EncodeFrom(messages, [], codec);
      encoded.Success? && RenderFrom(encoded.value, [], [], 0, prefix, codec).Failure?
  {
    var a, b := Call(Some(Str("a")), Some(Str("inspect")), None), Call(Some(Str("b")), Some(Str("inspect")), None);
    var asked := Message("assistant", Some(Str("")), None, [a, b], Null);
    var answered := Message("tool", Some(Str("result")), None, [], Str("a"));
    var messages := [asked, answered];
    assert messages[1..] == [answered] && [answered][1..] == [];
    assert asked.calls[1..] == [b] && [b][1..] == [];
    IdsOfTwo(a, b);
    assert CallIds(asked.calls) == Some([Str("a"), Str("b")]);
    assert EncodeFrom([answered], [Str("a"), Str("b")], codec).Success?;
    assert messages[..1] == [asked];
    assert Trailing([asked]) == 0 && Trailing(messages) == 1;
    assert !Renderable(messages, codec);
    RoundTrip(messages, prefix, codec);
  }

  /** Accepted by the encoder, but not by the renderer: a call of a tool without a name. */
  lemma UnnamedToolFails(codec: Codec, prefix: string)
    requires codec.Faithful()
    ensures
      var messages := [Message("assistant", Some(Str("")), None, [Call(Some(Str("a")), Some(Str("")), None)], Null)];
      var encoded := EncodeFrom(messages, [], codec);
      encoded.Success? && RenderFrom(encoded.value, [], [], 0, prefix, codec).Failure?
  {
    var call := Call(Some(Str("a")), Some(Str("")), None);
    var messages := [Message("assistant", Some(Str("")), None, [call], Null)];
    assert messages[1..] == [];
    assert [call][1..] == [];
    IdsOfOne(call);
    assert EncodeFrom([], [Str("a")], codec).Success?;
    assert !SpokenRenderable(messages[0], codec) by {
      assert !GoodCall(messages[0].calls[0], codec);
    }
    RoundTrip(messages, prefix, codec);
  }

  /** What a message must have and lacks: its content, or the id or the name of one of its calls. */
  predicate Lacks(m: Message) {
    m.content.None? || (m.role != "tool" && exists c :: c in m.calls && (c.id.None? || c.name.None?))
  }

  /** A message that may come while these calls are unanswered: the next answer, or a spoken one when there are none. */
  predicate InOrder(m: Message, pending: seq<Json>) {
    if m.role == "tool" then pending != [] && m.callId == pending[0]
    else pending == [] && m.role in {"system", "user", "assistant"}
  }

  /** The calls that are unanswered after one message in order. */
  function PendingNext(m: Message, pending: seq<Json>): seq<Json> {
    if m.role == "tool" then if pending == [] then [] else pending[1..]
    else if CallIds(m.calls).None? then [] else CallIds(m.calls).value
  }

  /** The calls that are unanswered after these messages. */
  function PendingAfter(messages: seq<Message>, pending: seq<Json>): seq<Json> {
    if messages == [] then pending else PendingAfter(messages[1..], PendingNext(messages[0], pending))
  }

  /** Message k is reached in order, and lacks something. */
  ghost predicate LacksAt(messages: seq<Message>, pending: seq<Json>, codec: Codec, k: nat) {
    && k < |messages| && EncodeFrom(messages[..k], pending, codec).Success?
    && InOrder(messages[k], PendingAfter(messages[..k], pending)) && Lacks(messages[k])
  }

  lemma {:induction false} CallIdsIff(calls: seq<Call>)
    ensures CallIds(calls).Some? <==> forall c :: c in calls ==> c.id.Some?
  {
    if calls != [] {
      CallIdsIff(calls[1..]);
      assert forall c :: c in calls <==> c == calls[0] || c in calls[1..];
    }
  }

  /** A spoken message is encoded exactly if it lacks nothing. */
  lemma OwnerLacks(m: Message, codec: Codec)
    requires SpokenRole(m.role)
    ensures EncodedOwner(m, codec) == Failure(MissingField) <==> Lacks(m)
    ensures EncodedOwner(m, codec).Success? <==> !Lacks(m)
    ensures EncodedOwner(m, codec).Success? ==> CallIds(m.calls) == Some(EncodedOwner(m, codec).value.1)
  {
    CallIdsIff(m.calls);
    if forall c :: c in m.calls ==> c.name.Some? {
      assert forall k :: 0 <= k < |m.calls| ==> m.calls[k] in m.calls;
    } else {
      var c :| c in m.calls && c.name.None?;
      var k :| 0 <= k < |m.calls| && m.calls[k] == c;
    }
  }

  /** One message of an encoding: an error of its own, or what follows decides. */
  lemma EncodeOne(messages: seq<Message>, pending: seq<Json>, codec: Codec)
    requires messages != []
    ensures
      var m, whole := messages[0], EncodeFrom(messages, pending, codec);
      if !InOrder(m, pending) then whole.Failure? && whole.error != MissingField
      else if Lacks(m) then whole == Failure(MissingField)
      else
        var rest := EncodeFrom(messages[1..], PendingNext(m, pending), codec);
        if rest.Failure? then whole == Failure(rest.error) else whole.Success?
  {
    var m := messages[0];
    if SpokenRole(m.role) {
      OwnerLacks(m, codec);
    }
  }

  lemma TakeNext(messages: seq<Message>, pending: seq<Json>, k: nat)
    requires messages != [] && 0 < k <= |messages|
    ensures messages[..k] != [] && messages[..k][0] == messages[0] && messages[..k][1..] == messages[1..][..k - 1]
    ensures PendingAfter(messages[..k], pending) ==
      PendingAfter(messages[1..][..k - 1], PendingNext(messages[0], pending))
  {
  }

  /** Being reached in order and lacking something moves with the first message. */
  lemma LacksLater(messages: seq<Message>, pending: seq<Json>, codec: Codec, k: nat)
    requires messages != [] && InOrder(messages[0], pending) && !Lacks(messages[0])
    ensures LacksAt(messages, pending, codec, k + 1) <==>
      LacksAt(messages[1..], PendingNext(messages[0], pending), codec, k)
  {
    if k + 1 < |messages| {
      TakeNext(messages, pending, k + 1);
      EncodeOne(messages[..k + 1], pending, codec);
    }
  }

  lemma {:induction false} MissingFieldFrom(messages: seq<Message>, pending: seq<Json>, codec: Codec)
    ensures EncodeFrom(messages, pending, codec) == Failure(MissingField) <==>
      exists k: nat :: LacksAt(messages, pending, codec, k)
  {
    if messages == [] {
    } else {
      var m := messages[0];
      EncodeOne(messages, pending, codec);
      assert messages[..0] == [];
      assert LacksAt(messages, pending, codec, 0) <==> InOrder(m, pending) && Lacks(m);
      if InOrder(m, pending) && !Lacks(m) {
        MissingFieldFrom(messages[1..], PendingNext(m, pending), codec);
        forall k: nat
          ensures LacksAt(messages, pending, codec, k + 1) <==>
            LacksAt(messages[1..], PendingNext(m, pending), codec, k)
        {
          LacksLater(messages, pending, codec, k);
        }
        if k: nat :| LacksAt(messages, pending, codec, k) {
          assert k == (k - 1) + 1;
          assert LacksAt(messages[1..], PendingNext(m, pending), codec, k - 1);
        }
        if k: nat :| LacksAt(messages[1..], PendingNext(m, pending), codec, k) {
          assert LacksAt(messages, pending, codec, k + 1);
        }
      } else {
        forall k: nat ensures LacksAt(messages, pending, codec, k) ==> k == 0 {
          if 0 < k < |messages| {
            TakeNext(messages, pending, k);
            EncodeOne(messages[..k], pending, codec);
          }
        }
      }
    }
  }

  /**
   The encoder meets a missing field exactly if some message, all before it encoded, is
   the next answer or a spoken one in order, and lacks its content or the id or the
   name of a call.
   */
  lemma MissingFieldExactly(messages: seq<Message>, codec: Codec)
    ensures EncodeFrom(messages, [], codec) == Failure(MissingField) <==>
      exists k: nat :: LacksAt(messages, [], codec, k)
  {
    MissingFieldFrom(messages, [], codec);
  }

  /** Every message is the next answer, or a spoken one when no answer is due, and lacks nothing. */
  ghost predicate AllInOrder(messages: seq<Message>, pending: seq<Json>) {
    forall k: nat :: k < |messages| ==>
      InOrder(messages[k], PendingAfter(messages[..k], pending)) && !Lacks(messages[k])
  }

  lemma {:induction false} EncodedExactly(messages: seq<Message>, pending: seq<Json>, codec: Codec)
    ensures EncodeFrom(messages, pending, codec).Success? <==> AllInOrder(messages, pending)
  {
    if messages != [] {
      var m, next := messages[0], PendingNext(messages[0], pending);
      EncodeOne(messages, pending, codec);
      EncodedExactly(messages[1..], next, codec);
      assert messages[..0] == [];
      forall k: nat | k < |messages| - 1
        ensures PendingAfter(messages[..k + 1], pending) == PendingAfter(messages[1..][..k], next)
        ensures messages[k + 1] == messages[1..][k]
      {
        TakeNext(messages, pending, k + 1);
      }
      if AllInOrder(messages, pending) {
        forall k: nat | k < |messages| - 1
          ensures InOrder(messages[1..][k], PendingAfter(messages[1..][..k], next)) && !Lacks(messages[1..][k])
        {
          assert InOrder(messages[k + 1], PendingAfter(messages[..k + 1], pending));
        }
      }
      if EncodeFrom(messages, pending, codec).Success? {
        forall k: nat | k < |messages|
          ensures InOrder(messages[k], PendingAfter(messages[..k], pending)) && !Lacks(messages[k])
        {
          if k > 0 {
            assert InOrder(messages[1..][k - 1], PendingAfter(messages[1..][..k - 1], next));
          }
        }
      }
    }
  }

  /** A user message, and a call without an id. */
  lemma MissingIdFails(codec: Codec)
    ensures
      var messages := [Message("user", Some(Str("hello")), None, [], Null),
                       Message("assistant", Some(Str("")), None, [Call(None, Some(Str("inspect")), None)], Null)];
      EncodeFrom(messages, [], codec) == Failure(MissingField)
  {
    var call := Call(None, Some(Str("inspect")), None);
    var asked := Message("user", Some(Str("hello")), None, [], Null);
    var calling := Message("assistant", Some(Str("")), None, [call], Null);
    var messages := [asked, calling];
    assert call in calling.calls && Lacks(calling);
    assert messages[..1] == [asked] && [asked][1..] == [];
    EncodeOne([asked], [], codec);
    assert LacksAt(messages, [], codec, 1);
    MissingFieldExactly(messages, codec);
  }
}
