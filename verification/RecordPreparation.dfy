// What becomes of one record of a corpus before it is weighed: encoded if it is a
// conversation, rendered, and counted in tokens. Errors of the kinds that the
// qualification handles reject the record; a missing key, or an attribute asked of a
// value that has none, ends the whole qualification.

module RecordPreparation {
  import opened Outcomes
  import opened ChatRecords
  import Weights = WeightExpansion

  // ---------------------------------------------------------- the first error

  /** The first error of a group of calls. */
  function CallsError(group: seq<Flat>, codec: Codec): Option<Error> {
    if group == [] then None
    else
      var call := ReadCall(group[0], codec);
      if call.Failure? then Some(call.error) else CallsError(group[1..], codec)
  }

  /** The first error of the renderer, when the last group of calls had `pending` members. */
  function RenderError(p: seq<Flat>, pending: nat, codec: Codec): Option<Error>
    decreases |p|
  {
    if p == [] then None
    else if p[0].role in CALLS then
      var k := Run(p, CALLS);
      var e := CallsError(p[..k], codec);
      if e.Some? then e else RenderError(p[k..], k, codec)
    else if p[0].role in RESPONSES then
      var k := Run(p, RESPONSES);
      if k > pending then Some(NoAdjacentCall)
      else if k < pending then Some(NoAdjacentResponse)
      else RenderError(p[k..], pending, codec)
    else
      var spoken := Spoken(p[0]);
      if spoken.Failure? then Some(spoken.error) else RenderError(p[1..], 0, codec)
  }

  function ErrorOf<T>(r: Result<T, Error>): Option<Error> {
    if r.Failure? then Some(r.error) else None
  }

  lemma {:induction false} CallsErrorIs(group: seq<Flat>, prefix: string, counter: nat, codec: Codec)
    ensures ErrorOf(ReadCalls(group, prefix, counter, codec)) == CallsError(group, codec)
  {
    if group != [] {
      CallsErrorIs(group[1..], prefix, counter + 1, codec);
    }
  }

  /** Whether and how a rendering fails depends neither on what was rendered before nor on the ids. */
  lemma {:induction false} RenderErrorIs(p: seq<Flat>, output: seq<Rendered>, ids: seq<CallId>, counter: nat,
                                         prefix: string, codec: Codec)
    ensures ErrorOf(RenderFrom(p, output, ids, counter, prefix, codec)) == RenderError(p, |ids|, codec)
    decreases |p|
  {
    if p != [] {
      if p[0].role in CALLS {
        var k := Run(p, CALLS);
        var calls := ReadCalls(p[..k], prefix, counter, codec);
        CallsErrorIs(p[..k], prefix, counter, codec);
        if calls.Success? {
          RenderErrorIs(p[k..], Attach(output, calls.value), FreshIds(prefix, counter, k), counter + k, prefix, codec);
        }
      } else if p[0].role in RESPONSES {
        var k := Run(p, RESPONSES);
        if k == |ids| {
          RenderErrorIs(p[k..], output + Responses(p[..k], ids, codec), ids, counter, prefix, codec);
        }
      } else if Spoken(p[0]).Success? {
        RenderErrorIs(p[1..], output + [Spoken(p[0]).value], [], counter, prefix, codec);
      }
    }
  }

  // ------------------------------------------------------- groups of messages

  lemma {:induction false} RunExtends(p: seq<Flat>, more: seq<Flat>, roles: set<string>)
    ensures Run(p, roles) < |p| ==> Run(p + more, roles) == Run(p, roles)
    ensures Run(p, roles) == |p| ==> Run(p + more, roles) == |p| + Run(more, roles)
  {
    if p == [] {
      assert p + more == more;
    } else {
      assert (p + more)[0] == p[0] && (p + more)[1..] == p[1..] + more;
      RunExtends(p[1..], more, roles);
    }
  }

  lemma RunTake(p: seq<Flat>, k: nat, roles: set<string>)
    requires k <= |p|
    ensures Run(p[..k], roles) == if k <= Run(p, roles) then k else Run(p, roles)
  {
    assert p == p[..k] + p[k..];
    RunExtends(p[..k], p[k..], roles);
  }

  lemma SplitAt(p: seq<Flat>, more: seq<Flat>, k: nat)
    requires k <= |p|
    ensures (p + more)[..k] == p[..k] && (p + more)[k..] == p[k..] + more
  {
  }

  lemma TakeAt(p: seq<Flat>, g: nat, k: nat)
    requires g <= k <= |p|
    ensures p[..k][..g] == p[..g] && p[..k][g..] == p[g..][..k - g]
  {
  }

  /** Calls that are read to their end were read up to any earlier one. */
  lemma {:induction false} CallsErrorPrefix(group: seq<Flat>, more: seq<Flat>, codec: Codec)
    requires CallsError(group + more, codec).None?
    ensures CallsError(group, codec).None?
  {
    if group != [] {
      assert (group + more)[0] == group[0] && (group + more)[1..] == group[1..] + more;
      CallsErrorPrefix(group[1..], more, codec);
    }
  }

  // ------------------------------------------------------- how far it renders

  /** The renderer looks at what comes after these messages without having failed. */
  predicate Reaches(p: seq<Flat>, pending: nat, codec: Codec)
    decreases |p|
  {
    if p == [] then true
    else if p[0].role in CALLS then
      var k := Run(p, CALLS);
      CallsError(p[..k], codec).None? && Reaches(p[k..], k, codec)
    else if p[0].role in RESPONSES then
      var k := Run(p, RESPONSES);
      k <= pending && (k == |p| || (k == pending && Reaches(p[k..], pending, codec)))
    else
      Spoken(p[0]).Success? && Reaches(p[1..], 0, codec)
  }

  lemma CallsReach(p: seq<Flat>, more: seq<Flat>, codec: Codec)
    requires p != [] && p[0].role in CALLS && CallsError((p + more)[..Run(p + more, CALLS)], codec).None?
    ensures CallsError(p[..Run(p, CALLS)], codec).None?
  {
    var k, n := Run(p, CALLS), Run(p + more, CALLS);
    RunExtends(p, more, CALLS);
    if k < |p| {
      SplitAt(p, more, k);
    } else {
      TakeThrough(p, more, n);
      CallsErrorPrefix(p, more[..n - k], codec);
    }
  }

  lemma TakeThrough(p: seq<Flat>, more: seq<Flat>, n: nat)
    requires |p| <= n <= |p| + |more|
    ensures (p + more)[..n] == p + more[..n - |p|] && p[..|p|] == p
  {
  }

  /** What renders together with what follows was reached. */
  lemma {:induction false} RenderedReaches(p: seq<Flat>, more: seq<Flat>, pending: nat, codec: Codec)
    requires RenderError(p + more, pending, codec).None?
    ensures Reaches(p, pending, codec)
    decreases |p|
  {
    if p != [] {
      assert (p + more)[0] == p[0];
      if p[0].role in CALLS {
        var k := Run(p, CALLS);
        CallsReach(p, more, codec);
        RunExtends(p, more, CALLS);
        SplitAt(p, more, k);
        if k < |p| {
          RenderedReaches(p[k..], more, k, codec);
        }
      } else if p[0].role in RESPONSES {
        var k := Run(p, RESPONSES);
        RunExtends(p, more, RESPONSES);
        SplitAt(p, more, k);
        if k < |p| {
          RenderedReaches(p[k..], more, pending, codec);
        }
      } else {
        SplitAt(p, more, 1);
        RenderedReaches(p[1..], more, 0, codec);
      }
    }
  }

  function Answers(n: nat): (answers: seq<Flat>)
    ensures |answers| == n && forall k :: 0 <= k < n ==> answers[k] == Flat("tool_response", None, None, None)
  {
    seq(n, _ => Flat("tool_response", None, None, None))
  }

  lemma {:induction false} RunAnswers(n: nat)
    ensures Run(Answers(n), RESPONSES) == n
  {
    if n > 0 {
      assert Answers(n)[1..] == Answers(n - 1);
      RunAnswers(n - 1);
    }
  }

  /** What is reached can be continued to something that renders: by the answers that are still missing. */
  lemma {:induction false} ReachedContinues(p: seq<Flat>, pending: nat, codec: Codec) returns (more: seq<Flat>)
    requires Reaches(p, pending, codec)
    ensures RenderError(p + more, pending, codec).None?
    decreases |p|
  {
    more := [];
    assert p + [] == p;
    if p != [] && p[0].role in CALLS {
      var k := Run(p, CALLS);
      if k < |p| {
        more := ReachedContinues(p[k..], k, codec);
        RunExtends(p, more, CALLS);
        SplitAt(p, more, k);
      }
    } else if p != [] && p[0].role in RESPONSES {
      var k := Run(p, RESPONSES);
      if k < |p| {
        more := ReachedContinues(p[k..], pending, codec);
        RunExtends(p, more, RESPONSES);
        SplitAt(p, more, k);
      } else {
        more := Answers(pending - k);
        RunAnswers(pending - k);
        RunExtends(p, more, RESPONSES);
        assert (p + more)[pending..] == [];
      }
    } else if p != [] {
      more := ReachedContinues(p[1..], 0, codec);
      SplitAt(p, more, 1);
    }
  }

  predicate Renders(p: seq<Flat>, prefix: string, codec: Codec) {
    RenderFrom(p, [], [], 0, prefix, codec).Success?
  }

  /** Some messages after these make a conversation that renders. */
  ghost predicate Continues(p: seq<Flat>, prefix: string, codec: Codec) {
    exists more :: Renders(p + more, prefix, codec)
  }

  /** The end of a list of messages is reached exactly if the list can be continued to one that renders. */
  lemma ReachesExactly(p: seq<Flat>, prefix: string, codec: Codec)
    ensures Reaches(p, 0, codec) <==> Continues(p, prefix, codec)
  {
    if Reaches(p, 0, codec) {
      var more := ReachedContinues(p, 0, codec);
      RenderErrorIs(p + more, [], [], 0, prefix, codec);
      assert Renders(p + more, prefix, codec);
    }
    if more :| Renders(p + more, prefix, codec) {
      RenderErrorIs(p + more, [], [], 0, prefix, codec);
      RenderedReaches(p, more, 0, codec);
    }
  }

  // ------------------------------------------------------ calls without fields

  /** A tool call whose text reads as a value without fields. */
  predicate Fieldless(m: Flat, codec: Codec) {
    && m.role in CALLS && CallText(m).Some?
    && codec.loads(CallText(m).value).Some? && !codec.loads(CallText(m).value).value.Object?
  }

  ghost predicate FieldlessCall(group: seq<Flat>, codec: Codec, j: nat) {
    j < |group| && Fieldless(group[j], codec) && CallsError(group[..j], codec).None?
  }

  lemma FieldlessLater(group: seq<Flat>, codec: Codec, j: nat)
    requires group != [] && ReadCall(group[0], codec).Success?
    ensures FieldlessCall(group, codec, j + 1) <==> FieldlessCall(group[1..], codec, j)
  {
    if j + 1 < |group| {
      assert group[..j + 1][0] == group[0] && group[..j + 1][1..] == group[1..][..j];
    }
  }

  lemma {:induction false} ReadFieldless(group: seq<Flat>, codec: Codec)
    requires forall m :: m in group ==> m.role in CALLS
    ensures CallsError(group, codec) == Some(NoFields) <==> exists j: nat :: FieldlessCall(group, codec, j)
  {
    if group != [] {
      var rest := group[1..];
      assert group[0] in group && group[..0] == [];
      assert FieldlessCall(group, codec, 0) <==> Fieldless(group[0], codec);
      if ReadCall(group[0], codec).Success? {
        ReadFieldless(rest, codec);
        if j: nat :| FieldlessCall(group, codec, j) {
          FieldlessLater(group, codec, j - 1);
        }
        if j: nat :| FieldlessCall(rest, codec, j) {
          FieldlessLater(group, codec, j);
        }
      } else if j: nat :| FieldlessCall(group, codec, j) && j > 0 {
        assert group[..j][0] == group[0];
      }
    }
  }

  /** A call without fields, before which everything renders. */
  ghost predicate FieldlessAt(p: seq<Flat>, pending: nat, codec: Codec, k: nat) {
    k < |p| && Fieldless(p[k], codec) && RenderError(p[..k], pending, codec).None?
  }

  /** Among the calls at the front: the group decides. */
  lemma FieldlessInCalls(p: seq<Flat>, pending: nat, codec: Codec, k: nat)
    requires p != [] && p[0].role in CALLS && k < Run(p, CALLS)
    ensures FieldlessAt(p, pending, codec, k) <==> FieldlessCall(p[..Run(p, CALLS)], codec, k)
  {
    var g, q := Run(p, CALLS), p[..k];
    assert p[..g][..k] == q;
    RunTake(p, k, CALLS);
    if k > 0 {
      assert q[0] == p[0] && q[..k] == q && q[k..] == [];
      assert RenderError([], k, codec).None?;
    }
  }

  /** After a group that renders: the rest decides. */
  lemma FieldlessAfterCalls(p: seq<Flat>, pending: nat, codec: Codec, k: nat)
    requires p != [] && p[0].role in CALLS && Run(p, CALLS) <= k < |p|
    requires CallsError(p[..Run(p, CALLS)], codec).None?
    ensures var g := Run(p, CALLS);
      FieldlessAt(p, pending, codec, k) <==> FieldlessAt(p[g..], g, codec, k - g)
  {
    var g := Run(p, CALLS);
    RunTake(p, k, CALLS);
    TakeAt(p, g, k);
    assert p[..k][0] == p[0];
  }

  lemma FieldlessAfterAnswers(p: seq<Flat>, pending: nat, codec: Codec, k: nat)
    requires p != [] && p[0].role in RESPONSES && p[0].role !in CALLS && Run(p, RESPONSES) <= k < |p|
    ensures var g := Run(p, RESPONSES);
      FieldlessAt(p, pending, codec, k) <==> g == pending && FieldlessAt(p[g..], pending, codec, k - g)
  {
    var g := Run(p, RESPONSES);
    RunTake(p, k, RESPONSES);
    TakeAt(p, g, k);
    assert p[..k][0] == p[0];
  }

  lemma FieldlessAfterSpoken(p: seq<Flat>, pending: nat, codec: Codec, k: nat)
    requires p != [] && p[0].role !in CALLS && p[0].role !in RESPONSES && 1 <= k < |p|
    ensures FieldlessAt(p, pending, codec, k) <==>
      Spoken(p[0]).Success? && FieldlessAt(p[1..], 0, codec, k - 1)
  {
    TakeAt(p, 1, k);
    assert p[..k][0] == p[0];
  }

  ghost predicate SomeFieldless(p: seq<Flat>, pending: nat, codec: Codec) {
    exists k: nat :: FieldlessAt(p, pending, codec, k)
  }

  /** Once a call of the first group fails, only that group counts. */
  lemma FailedCalls(p: seq<Flat>, pending: nat, codec: Codec)
    requires p != [] && p[0].role in CALLS && CallsError(p[..Run(p, CALLS)], codec).Some?
    ensures SomeFieldless(p, pending, codec) <==> exists j: nat :: FieldlessCall(p[..Run(p, CALLS)], codec, j)
  {
    var g := Run(p, CALLS);
    if k: nat :| FieldlessAt(p, pending, codec, k) {
      if k < g {
        FieldlessInCalls(p, pending, codec, k);
      } else {
        RunTake(p, k, CALLS);
        TakeAt(p, g, k);
        assert false;
      }
    }
    if j: nat :| FieldlessCall(p[..g], codec, j) {
      FieldlessInCalls(p, pending, codec, j);
    }
  }

  /** Once a group of calls is read, only what comes after it counts. */
  lemma ReadCallsPassed(p: seq<Flat>, pending: nat, codec: Codec)
    requires p != [] && p[0].role in CALLS && CallsError(p[..Run(p, CALLS)], codec).None?
    ensures SomeFieldless(p, pending, codec) <==> SomeFieldless(p[Run(p, CALLS)..], Run(p, CALLS), codec)
  {
    var g := Run(p, CALLS);
    if k: nat :| FieldlessAt(p, pending, codec, k) {
      if k < g {
        FieldlessInCalls(p, pending, codec, k);
        ReadFieldless(p[..g], codec);
        assert false;
      } else {
        FieldlessAfterCalls(p, pending, codec, k);
      }
    }
    if k: nat :| FieldlessAt(p[g..], g, codec, k) {
      FieldlessAfterCalls(p, pending, codec, g + k);
    }
  }

  lemma AnswersPassed(p: seq<Flat>, pending: nat, codec: Codec)
    requires p != [] && p[0].role in RESPONSES && p[0].role !in CALLS
    ensures SomeFieldless(p, pending, codec) <==>
      Run(p, RESPONSES) == pending && SomeFieldless(p[Run(p, RESPONSES)..], pending, codec)
  {
    var g := Run(p, RESPONSES);
    if k: nat :| FieldlessAt(p, pending, codec, k) {
      FieldlessAfterAnswers(p, pending, codec, k);
    }
    if k: nat :| g == pending && FieldlessAt(p[g..], pending, codec, k) {
      FieldlessAfterAnswers(p, pending, codec, g + k);
    }
  }

  lemma SpokenPassed(p: seq<Flat>, pending: nat, codec: Codec)
    requires p != [] && p[0].role !in CALLS && p[0].role !in RESPONSES
    ensures SomeFieldless(p, pending, codec) <==> Spoken(p[0]).Success? && SomeFieldless(p[1..], 0, codec)
  {
    if k: nat :| FieldlessAt(p, pending, codec, k) {
      FieldlessAfterSpoken(p, pending, codec, k);
    }
    if k: nat :| Spoken(p[0]).Success? && FieldlessAt(p[1..], 0, codec, k) {
      FieldlessAfterSpoken(p, pending, codec, 1 + k);
    }
  }

  /** The renderer meets a call without fields exactly if there is one before which everything renders. */
  lemma {:induction false} FieldlessFrom(p: seq<Flat>, pending: nat, codec: Codec)
    ensures RenderError(p, pending, codec) == Some(NoFields) <==>
      exists k: nat :: FieldlessAt(p, pending, codec, k)
    decreases |p|
  {
    if p != [] {
      if p[0].role in CALLS {
        var g := Run(p, CALLS);
        if CallsError(p[..g], codec).None? {
          ReadCallsPassed(p, pending, codec);
          FieldlessFrom(p[g..], g, codec);
        } else {
          FailedCalls(p, pending, codec);
          ReadFieldless(p[..g], codec);
        }
      } else if p[0].role in RESPONSES {
        AnswersPassed(p, pending, codec);
        FieldlessFrom(p[Run(p, RESPONSES)..], pending, codec);
      } else {
        SpokenPassed(p, pending, codec);
        FieldlessFrom(p[1..], 0, codec);
      }
    }
  }

  // ------------------------------------------------------------------ records

  /**
   A record that is already in training format, with the value of its messages if it
   has one; or a conversation, with its messages unless the normalization rejects it.
   */
  datatype Source = Formatted(messages: Option<Json>) | Conversation(normalized: Option<seq<Message>>)

  function FlatOf(v: Json): Flat
    requires v.Object?
  {
    var field := (name: string) => if name in v.fields then Some(v.fields[name]) else None;
    var role := field("role");
    Flat(if role.Some? && role.value.Str? then role.value.text else "", field("content"), field("weight"),
         field("reasoning_content"))
  }

  /** The messages before the first item that has no fields. */
  function Leading(items: seq<Json>): (p: seq<Flat>)
    ensures |p| <= |items|
  {
    if items == [] || !items[0].Object? then [] else [FlatOf(items[0])] + Leading(items[1..])
  }

  /** The items as they are rendered: one without fields fails when it is reached. */
  function RenderItems(items: seq<Json>, prefix: string, codec: Codec): Result<seq<Rendered>, Error> {
    var p := Leading(items);
    if |p| < |items| && Reaches(p, 0, codec) then Failure(NoFields) else RenderFrom(p, [], [], 0, prefix, codec)
  }

  function WithField(fields: map<string, Json>, name: string, value: Option<Json>): map<string, Json> {
    if value.Some? then fields[name := value.value] else fields
  }

  /** A message as it is written into the qualified corpus. */
  function Written(m: Flat): Json {
    Object(WithField(WithField(WithField(map["role" := Str(m.role)], "content", m.content), "weight", m.weight),
                     "reasoning_content", m.reasoning))
  }

  function AllWritten(p: seq<Flat>): seq<Json> {
    if p == [] then [] else [Written(p[0])] + AllWritten(p[1..])
  }

  lemma {:induction false} LeadingWritten(p: seq<Flat>)
    ensures Leading(AllWritten(p)) == p && |AllWritten(p)| == |p|
  {
    if p != [] {
      LeadingWritten(p[1..]);
      assert AllWritten(p)[1..] == AllWritten(p[1..]);
      assert FlatOf(Written(p[0])) == p[0];
    }
  }

  /** An encoded conversation that was written and is read again renders as the conversation does. */
  lemma WrittenRendersSame(messages: seq<Message>, prefix: string, codec: Codec)
    requires EncodeFrom(messages, [], codec).Success?
    ensures RenderSource(Formatted(Some(Array(AllWritten(EncodeFrom(messages, [], codec).value)))), prefix, codec) ==
      RenderSource(Conversation(Some(messages)), prefix, codec)
  {
    LeadingWritten(EncodeFrom(messages, [], codec).value);
  }

  /** Of messages that are no list, only the first element of a text or an object is asked for. */
  function RenderValue(v: Json, prefix: string, codec: Codec): Result<seq<Rendered>, Error> {
    match v
    case Array(items) => RenderItems(items, prefix, codec)
    case Str(text) => if text == "" then Success([]) else Failure(NoFields)
    case Object(fields) => if fields == map[] then Success([]) else Failure(MissingField)
    case _ => Failure(Unreadable)
  }

  function RenderSource(source: Source, prefix: string, codec: Codec): Result<seq<Rendered>, Error> {
    match source
    case Formatted(None) => Failure(MissingField)
    case Formatted(Some(v)) => RenderValue(v, prefix, codec)
    case Conversation(None) => Failure(Unreadable)
    case Conversation(Some(messages)) =>
      var encoded := EncodeFrom(messages, [], codec);
      if encoded.Failure? then Failure(encoded.error) else RenderFrom(encoded.value, [], [], 0, prefix, codec)
  }

  /** The errors that the qualification counts: all but a missing key and an attribute of a value that has none. */
  predicate Handled(e: Error) { e != MissingField && e != NoFields }

  /** What the tokenizer answers: a count, or an error that is counted, or one that is not. */
  datatype Tokens = Counted(total: nat, labels: nat) | Miscounted | Crashed

  function Prepare(source: Source, text: string, prefix: string, codec: Codec, tokens: seq<Rendered> -> Tokens)
    : Weights.Preparation
  {
    var rendered := RenderSource(source, prefix, codec);
    if rendered.Failure? then if Handled(rendered.error) then Weights.Rejected else Weights.Unhandled
    else if rendered.value == [] || rendered.value[|rendered.value| - 1].role != "assistant" then Weights.Rejected
    else
      match tokens(rendered.value)
      case Counted(total, labels) => Weights.Ready(Weights.Prepared(text, total, labels))
      case Miscounted => Weights.Rejected
      case Crashed => Weights.Unhandled
  }

  // ----------------------------------------------------- what nothing handles

  /** The items in order are rendered up to a call, or an item, without fields. */
  ghost predicate ItemsEscape(items: seq<Json>, prefix: string, codec: Codec) {
    var p := Leading(items);
    || (exists k: nat :: FieldlessAt(p, 0, codec, k))
    || (|p| < |items| && Continues(p, prefix, codec))
  }

  /** The records whose encoding or rendering raises an error that nothing handles. */
  ghost predicate Escapes(source: Source, prefix: string, codec: Codec) {
    match source
    case Formatted(None) => true
    case Formatted(Some(v)) =>
      (match v
       case Array(items) => ItemsEscape(items, prefix, codec)
       case Str(text) => text != ""
       case Object(fields) => fields != map[]
       case _ => false)
    case Conversation(None) => false
    case Conversation(Some(messages)) => exists k: nat :: LacksAt(messages, [], codec, k)
  }

  lemma {:induction false} CallsErrorKinds(group: seq<Flat>, codec: Codec)
    ensures CallsError(group, codec) != Some(MissingField)
  {
    if group != [] {
      CallsErrorKinds(group[1..], codec);
    }
  }

  /** The renderer never misses a key. */
  lemma {:induction false} RenderErrorKinds(p: seq<Flat>, pending: nat, codec: Codec)
    ensures RenderError(p, pending, codec) != Some(MissingField)
    decreases |p|
  {
    if p != [] {
      if p[0].role in CALLS {
        CallsErrorKinds(p[..Run(p, CALLS)], codec);
        RenderErrorKinds(p[Run(p, CALLS)..], Run(p, CALLS), codec);
      } else if p[0].role in RESPONSES {
        RenderErrorKinds(p[Run(p, RESPONSES)..], pending, codec);
      } else {
        RenderErrorKinds(p[1..], 0, codec);
      }
    }
  }

  lemma {:induction false} EncodeErrorKinds(messages: seq<Message>, pending: seq<Json>, codec: Codec)
    ensures EncodeFrom(messages, pending, codec) != Failure(NoFields)
  {
    if messages != [] {
      EncodeErrorKinds(messages[1..], PendingNext(messages[0], pending), codec);
      EncodeOne(messages, pending, codec);
      if !InOrder(messages[0], pending) {
        OutOfOrder(messages, pending, codec);
      }
    }
  }

  lemma OutOfOrder(messages: seq<Message>, pending: seq<Json>, codec: Codec)
    requires messages != [] && !InOrder(messages[0], pending)
    ensures EncodeFrom(messages, pending, codec).Failure?
    ensures EncodeFrom(messages, pending, codec).error in
      {NoAdjacentCall, ResponseOrder, NoAdjacentResponse, UnsupportedRole}
  {
  }

  lemma EncodedCallFields(call: Call, codec: Codec)
    requires codec.Faithful() && call.name.Some?
    ensures !Fieldless(EncodedCall(call, codec), codec)
  {
    var flat := EncodedCall(call, codec);
    assert CallText(flat) == Some(flat.content.value.text);
  }

  ghost predicate Fielded(p: seq<Flat>, codec: Codec) {
    forall k :: 0 <= k < |p| ==> !Fieldless(p[k], codec)
  }

  lemma FieldedCalls(calls: seq<Call>, codec: Codec)
    requires codec.Faithful() && EncodedCalls(calls, codec).Some?
    ensures Fielded(EncodedCalls(calls, codec).value, codec)
  {
    var flats := EncodedCalls(calls, codec).value;
    forall k | 0 <= k < |flats| ensures !Fieldless(flats[k], codec) {
      EncodedCallFields(calls[k], codec);
    }
  }

  lemma FieldedOwner(m: Message, codec: Codec)
    requires codec.Faithful() && EncodedOwner(m, codec).Success?
    ensures Fielded(EncodedOwner(m, codec).value.0, codec)
  {
    FieldedCalls(m.calls, codec);
    FieldedAppend([Flat(m.role, m.content, m.weight, None)], EncodedCalls(m.calls, codec).value, codec);
  }

  lemma FieldedAppend(a: seq<Flat>, b: seq<Flat>, codec: Codec)
    requires Fielded(a, codec) && Fielded(b, codec)
    ensures Fielded(a + b, codec)
  {
  }

  /** The calls that the encoder writes have fields. */
  lemma {:induction false} EncodedFields(messages: seq<Message>, pending: seq<Json>, codec: Codec)
    requires codec.Faithful() && EncodeFrom(messages, pending, codec).Success?
    ensures Fielded(EncodeFrom(messages, pending, codec).value, codec)
  {
    if messages != [] {
      var m := messages[0];
      if m.role == "tool" {
        EncodedFields(messages[1..], pending[1..], codec);
        var response := Flat("tool_response", m.content, None, None);
        FieldedAppend([response], EncodeFrom(messages[1..], pending[1..], codec).value, codec);
      } else {
        var owner := EncodedOwner(m, codec).value;
        EncodedFields(messages[1..], owner.1, codec);
        FieldedOwner(m, codec);
        FieldedAppend(owner.0, EncodeFrom(messages[1..], owner.1, codec).value, codec);
      }
    }
  }

  lemma ConversationEscapes(messages: seq<Message>, prefix: string, codec: Codec)
    requires codec.Faithful()
    ensures
      var r := RenderSource(Conversation(Some(messages)), prefix, codec);
      r.Failure? && !Handled(r.error) <==> exists k: nat :: LacksAt(messages, [], codec, k)
  {
    MissingFieldExactly(messages, codec);
    EncodeErrorKinds(messages, [], codec);
    var encoded := EncodeFrom(messages, [], codec);
    if encoded.Success? {
      EncodedFields(messages, [], codec);
      RenderErrorIs(encoded.value, [], [], 0, prefix, codec);
      RenderErrorKinds(encoded.value, 0, codec);
      FieldlessFrom(encoded.value, 0, codec);
    }
  }

  lemma ItemsEscapeExactly(items: seq<Json>, prefix: string, codec: Codec)
    ensures
      var r := RenderItems(items, prefix, codec);
      r.Failure? && !Handled(r.error) <==> ItemsEscape(items, prefix, codec)
  {
    var p := Leading(items);
    RenderErrorIs(p, [], [], 0, prefix, codec);
    RenderErrorKinds(p, 0, codec);
    FieldlessFrom(p, 0, codec);
    ReachesExactly(p, prefix, codec);
  }

  /**
   Preparing a record raises an error that nothing handles exactly if the record
   escapes, or it renders to an answer of the assistant on which the tokenizer crashes.
   */
  lemma UnhandledExactly(source: Source, text: string, prefix: string, codec: Codec, tokens: seq<Rendered> -> Tokens)
    requires codec.Faithful()
    ensures Prepare(source, text, prefix, codec, tokens).Unhandled? <==>
      Escapes(source, prefix, codec) || Crashes(source, prefix, codec, tokens)
  {
    if source.Conversation? {
      if source.normalized.Some? {
        ConversationEscapes(source.normalized.value, prefix, codec);
      }
    } else if source.messages.Some? && source.messages.value.Array? {
      ItemsEscapeExactly(source.messages.value.items, prefix, codec);
    }
  }

  ghost predicate Crashes(source: Source, prefix: string, codec: Codec, tokens: seq<Rendered> -> Tokens) {
    var rendered := RenderSource(source, prefix, codec);
    && rendered.Success? && rendered.value != [] && rendered.value[|rendered.value| - 1].role == "assistant"
    && tokens(rendered.value).Crashed?
  }

  // ------------------------------------------------------------------ a corpus

  /** A line of a corpus: blank, not a JSON object, or a record with the text that is written for it. */
  datatype Row =
    | Empty | NoObject
    | Given(weight: Option<Weights.Fraction>, source: Source, text: string, prefix: string)

  function LineOf(row: Row, codec: Codec, tokens: seq<Rendered> -> Tokens): Weights.Line {
    match row
    case Empty => Weights.Blank
    case NoObject => Weights.Record(None, Weights.Rejected)
    case Given(weight, source, text, prefix) => Weights.Record(weight, Prepare(source, text, prefix, codec, tokens))
  }

  function LinesOf(rows: seq<Row>, codec: Codec, tokens: seq<Rendered> -> Tokens): (lines: seq<Weights.Line>)
    ensures |lines| == |rows|
    ensures forall k :: 0 <= k < |rows| ==> lines[k] == LineOf(rows[k], codec, tokens)
  {
    seq(|rows|, k requires 0 <= k < |rows| => LineOf(rows[k], codec, tokens))
  }

  /** A record that ends the qualification when it is reached. */
  ghost predicate Ends(row: Row, codec: Codec, tokens: seq<Rendered> -> Tokens) {
    && row.Given? && Weights.RecordWeight(row.weight).Success?
    && (Escapes(row.source, row.prefix, codec) || Crashes(row.source, row.prefix, codec, tokens))
  }

  lemma AbortsExactly(row: Row, codec: Codec, tokens: seq<Rendered> -> Tokens, sequenceLength: nat)
    requires codec.Faithful()
    ensures Weights.Judge(LineOf(row, codec, tokens), sequenceLength).Aborts? <==> Ends(row, codec, tokens)
  {
    if row.Given? {
      UnhandledExactly(row.source, row.text, row.prefix, codec, tokens);
    }
  }

  lemma {:induction false} FittingGrows(lines: seq<Weights.Line>, sequenceLength: nat, j: nat, k: nat)
    requires j <= k <= |lines|
    ensures |Weights.Fitting(lines[..j], sequenceLength)| <= |Weights.Fitting(lines[..k], sequenceLength)|
    decreases k
  {
    if j < k {
      FittingGrows(lines, sequenceLength, j, k - 1);
      Weights.ScanNext(lines, k - 1, sequenceLength);
    }
  }

  /** Fewer records than asked for are selected before row k, and it is the first that ends the qualification. */
  ghost predicate FirstEnds(rows: seq<Row>, codec: Codec, tokens: seq<Rendered> -> Tokens, sequenceLength: nat,
                            maximum: Option<nat>, k: nat)
  {
    && k < |rows| && Ends(rows[k], codec, tokens) && (forall j :: 0 <= j < k ==> !Ends(rows[j], codec, tokens))
    && !Weights.Full(LinesOf(rows, codec, tokens), sequenceLength, maximum, k)
  }

  lemma FirstEndsReads(rows: seq<Row>, codec: Codec, tokens: seq<Rendered> -> Tokens, sequenceLength: nat,
                       maximum: Option<nat>, k: nat)
    requires codec.Faithful() && FirstEnds(rows, codec, tokens, sequenceLength, maximum, k)
    ensures Weights.Reads(LinesOf(rows, codec, tokens), sequenceLength, maximum, k)
  {
    var lines := LinesOf(rows, codec, tokens);
    AbortsExactly(rows[k], codec, tokens, sequenceLength);
    forall j: nat | j < k
      ensures !Weights.Full(lines, sequenceLength, maximum, j) && !Weights.Judge(lines[j], sequenceLength).Aborts?
    {
      AbortsExactly(rows[j], codec, tokens, sequenceLength);
      FittingGrows(lines, sequenceLength, j, k);
    }
  }

  /**
   Qualifies a corpus. It fails with an error that nothing handles exactly if some
   record ends it before enough are selected.
   */
  method Qualify(rows: seq<Row>, sequenceLength: nat, maximum: Option<nat>, codec: Codec,
                 tokens: seq<Rendered> -> Tokens)
    returns (r: Result<seq<string>, Weights.Error>, ghost read: nat)
    requires codec.Faithful() && Weights.AllReduced(LinesOf(rows, codec, tokens))
    ensures r == Failure(Weights.UnhandledError) <==>
      exists k: nat :: FirstEnds(rows, codec, tokens, sequenceLength, maximum, k)
    ensures read <= |rows| && forall k :: 0 <= k < read ==> !Ends(rows[k], codec, tokens)
    ensures
      var items := Weights.Fitting(LinesOf(rows, codec, tokens)[..read], sequenceLength);
      && (r == Failure(Weights.NothingFits) <==> r != Failure(Weights.UnhandledError) && items == [])
      && (r.Success? ==> Weights.AllWeighted(items) && r.value == Weights.Expansion(items, Weights.Scale(items)))
  {
    var lines := LinesOf(rows, codec, tokens);
    var counts, scale;
    ghost var items;
    r, counts, scale, items, read := Weights.Qualify(lines, sequenceLength, maximum);
    forall k | 0 <= k < |rows|
      ensures Weights.Judge(lines[k], sequenceLength).Aborts? <==> Ends(rows[k], codec, tokens)
    {
      AbortsExactly(rows[k], codec, tokens, sequenceLength);
    }
    if r == Failure(Weights.UnhandledError) {
      assert FirstEnds(rows, codec, tokens, sequenceLength, maximum, read);
    }
    if k: nat :| FirstEnds(rows, codec, tokens, sequenceLength, maximum, k) {
      FirstEndsReads(rows, codec, tokens, sequenceLength, maximum, k);
      Weights.ReadsOnce(lines, sequenceLength, maximum, k, read);
    }
  }

  /** A conversation with a call that has no id. */
  lemma MissingIdAborts(text: string, prefix: string, codec: Codec, tokens: seq<Rendered> -> Tokens)
    ensures
      var messages := [Message("user", Some(Str("hello")), None, [], Null),
                       Message("assistant", Some(Str("")), None, [Call(None, Some(Str("inspect")), None)], Null)];
      Prepare(Conversation(Some(messages)), text, prefix, codec, tokens).Unhandled?
  {
    MissingIdFails(codec);
  }

  /** A formatted record whose only message is a text, and one whose call reads as a list: no key is missing. */
  lemma FieldlessAborts(text: string, prefix: string, codec: Codec, tokens: seq<Rendered> -> Tokens)
    requires codec.loads("[]") == Some(Array([]))
    ensures Prepare(Formatted(Some(Array([Str("hi")]))), text, prefix, codec, tokens).Unhandled?
    ensures
      var call := Object(map["role" := Str("tool_call"), "content" := Str("[]")]);
      Prepare(Formatted(Some(Array([call]))), text, prefix, codec, tokens).Unhandled?
  {
    var call := Object(map["role" := Str("tool_call"), "content" := Str("[]")]);
    var p := Leading([call]);
    assert [call][1..] == [] && p == [FlatOf(call)];
    assert Fieldless(p[0], codec) && p[..0] == [];
    assert FieldlessAt(p, 0, codec, 0);
    ItemsEscapeExactly([call], prefix, codec);
  }
}
