/** The messages of a cloud request, and every text of them that the policy scans. */
module EgressMessages {
  import opened Wrappers
  import opened Texts
  import opened Sorting
  import opened CanonicalJson
  import opened JsonRecords

  datatype ToolCall = ToolCall(id: Text, name: Text, arguments: Text)

  datatype Message =
    | SystemMessage(content: Text)
    | UserMessage(content: Text)
    | AssistantMessage(text: Option<Text>, toolCalls: Option<seq<ToolCall>>)
    | ToolMessage(content: Text, callId: Text)

  /** `messageContent` */
  function Content(m: Message): Text {
    match m
    case SystemMessage(content) => content
    case UserMessage(content) => content
    case AssistantMessage(text, _) => text.GetOr([])
    case ToolMessage(content, _) => content
  }

  function Contents(messages: seq<Message>): (contents: seq<Text>)
    ensures |contents| == |messages|
    ensures forall i :: 0 <= i < |messages| ==> contents[i] == Content(messages[i])
  {
    seq(|messages|, i requires 0 <= i < |messages| => Content(messages[i]))
  }

  predicate UsesToolProtocol(m: Message) {
    m.ToolMessage? || (m.AssistantMessage? && m.toolCalls.Some?)
  }

  // ----- The canonical messages

  const PLAIN_KEYS: seq<Text> := [Ascii("role"), Ascii("content")]
  const TOOL_KEYS: seq<Text> := [Ascii("role"), Ascii("content"), Ascii("tool_call_id")]
  const CALLING_KEYS: seq<Text> := [Ascii("role"), Ascii("content"), Ascii("tool_calls")]
  const CALL_KEYS: seq<Text> := [Ascii("id"), Ascii("type"), Ascii("function")]
  const FUNCTION_KEYS: seq<Text> := [Ascii("name"), Ascii("arguments")]

  function TextOrNull(text: Option<Text>): Value {
    match text
    case None => Null
    case Some(t) => Str(t)
  }

  /** `canonicalToolCall` */
  function CallValue(call: ToolCall): Value {
    Record(CALL_KEYS, [Str(call.id), Str(Ascii("function")), Record(FUNCTION_KEYS, [Str(call.name), Str(call.arguments)])])
  }

  /** `canonicalProviderMessage` */
  function MessageValue(m: Message): Value {
    match m
    case SystemMessage(content) => Record(PLAIN_KEYS, [Str(Ascii("system")), Str(content)])
    case UserMessage(content) => Record(PLAIN_KEYS, [Str(Ascii("user")), Str(content)])
    case ToolMessage(content, callId) => Record(TOOL_KEYS, [Str(Ascii("tool")), Str(content), Str(callId)])
    case AssistantMessage(text, None) => Record(PLAIN_KEYS, [Str(Ascii("assistant")), TextOrNull(text)])
    case AssistantMessage(text, Some(calls)) =>
      Record(CALLING_KEYS, [Str(Ascii("assistant")), TextOrNull(text), ListOf(CallValue, calls)])
  }

  lemma KeysDiffer()
    ensures NoRepeats(PLAIN_KEYS) && NoRepeats(TOOL_KEYS) && NoRepeats(CALLING_KEYS)
    ensures NoRepeats(CALL_KEYS) && NoRepeats(FUNCTION_KEYS)
  {
    assert |TOOL_KEYS[0]| == 4 && |TOOL_KEYS[1]| == 7 && |TOOL_KEYS[2]| == 12;
    assert |CALLING_KEYS[0]| == 4 && |CALLING_KEYS[1]| == 7 && |CALLING_KEYS[2]| == 10;
    assert |CALL_KEYS[0]| == 2 && |CALL_KEYS[1]| == 4 && |CALL_KEYS[2]| == 8;
    assert |PLAIN_KEYS[0]| == 4 && |PLAIN_KEYS[1]| == 7 && |FUNCTION_KEYS[0]| == 4 && |FUNCTION_KEYS[1]| == 9;
  }

  lemma CallIsAdmitted(call: ToolCall)
    ensures WellFormed(CallValue(call)) && Admitted(CallValue(call))
  {
    KeysDiffer();
    var function_ := [Str(call.name), Str(call.arguments)];
    RecordIsWellFormed(FUNCTION_KEYS, function_);
    RecordIsAdmitted(FUNCTION_KEYS, function_);
    hide Record;
    var values := [Str(call.id), Str(Ascii("function")), Record(FUNCTION_KEYS, function_)];
    RecordIsWellFormed(CALL_KEYS, values);
    RecordIsAdmitted(CALL_KEYS, values);
  }

  /** Every message has a canonical text. */
  lemma MessageIsAdmitted(m: Message)
    ensures WellFormed(MessageValue(m)) && Admitted(MessageValue(m))
  {
    KeysDiffer();
    if m.AssistantMessage? && m.toolCalls.Some? {
      var calls := m.toolCalls.value;
      forall i | 0 <= i < |calls| ensures WellFormed(CallValue(calls[i])) && Admitted(CallValue(calls[i])) {
        CallIsAdmitted(calls[i]);
      }
      ListIsAdmitted(CallValue, calls);
      hide Record, ListOf, CallValue;
      var values := [Str(Ascii("assistant")), TextOrNull(m.text), ListOf(CallValue, calls)];
      RecordIsWellFormed(CALLING_KEYS, values);
      RecordIsAdmitted(CALLING_KEYS, values);
    } else {
      PlainIsAdmitted(m);
    }
  }

  lemma PlainIsAdmitted(m: Message)
    requires !(m.AssistantMessage? && m.toolCalls.Some?)
    ensures WellFormed(MessageValue(m)) && Admitted(MessageValue(m))
  {
    KeysDiffer();
    hide Record;
    match m
    case SystemMessage(content) =>
      RecordIsWellFormed(PLAIN_KEYS, [Str(Ascii("system")), Str(content)]);
      RecordIsAdmitted(PLAIN_KEYS, [Str(Ascii("system")), Str(content)]);
    case UserMessage(content) =>
      RecordIsWellFormed(PLAIN_KEYS, [Str(Ascii("user")), Str(content)]);
      RecordIsAdmitted(PLAIN_KEYS, [Str(Ascii("user")), Str(content)]);
    case ToolMessage(content, callId) =>
      RecordIsWellFormed(TOOL_KEYS, [Str(Ascii("tool")), Str(content), Str(callId)]);
      RecordIsAdmitted(TOOL_KEYS, [Str(Ascii("tool")), Str(content), Str(callId)]);
    case AssistantMessage(text, _) =>
      RecordIsWellFormed(PLAIN_KEYS, [Str(Ascii("assistant")), TextOrNull(text)]);
      RecordIsAdmitted(PLAIN_KEYS, [Str(Ascii("assistant")), TextOrNull(text)]);
  }

  /** The request as it is sent: the canonical text of its messages. */
  function Serialized(messages: seq<Message>): Text {
    var value := ListOf(MessageValue, messages);
    MessagesAreAdmitted(messages);
    Canonical(value).value
  }

  lemma MessagesAreAdmitted(messages: seq<Message>)
    ensures Canonical(ListOf(MessageValue, messages)).Success?
  {
    forall i | 0 <= i < |messages| ensures WellFormed(MessageValue(messages[i])) && Admitted(MessageValue(messages[i])) {
      MessageIsAdmitted(messages[i]);
    }
    ListIsAdmitted(MessageValue, messages);
    hide ListOf, Canonical, WellFormed, Admitted, MessageValue;
    CanonicalIffAdmitted(ListOf(MessageValue, messages));
  }

  // ----- The scanned texts

  /** `stringLeaves` */
  function Leaves(v: Value): seq<Text>
    decreases Size(v), 0
  {
    match v
    case Str(text) => [text]
    case Arr(items) => LeavesOfItems(items)
    case Obj(_, fields) => LeavesOfFields(fields)
    case _ => []
  }

  function LeavesOfItems(items: seq<Value>): seq<Text>
    decreases SizeOfItems(items), 1
  {
    if items == [] then [] else Leaves(items[0]) + LeavesOfItems(items[1..])
  }

  function LeavesOfFields(fields: seq<Field>): seq<Text>
    decreases SizeOfFields(fields), 1
  {
    if fields == [] then [] else Leaves(fields[0].value) + LeavesOfFields(fields[1..])
  }

  /** The serialized request, and every string in it. */
  function Scanned(messages: seq<Message>): seq<Text> {
    [Serialized(messages)] + Leaves(ListOf(MessageValue, messages))
  }

  lemma {:induction false} ItemLeaves(items: seq<Value>, i: nat, text: Text)
    requires i < |items| && text in Leaves(items[i])
    ensures text in LeavesOfItems(items)
    decreases i
  {
    hide Leaves;
    if i > 0 {
      ItemLeaves(items[1..], i - 1, text);
    }
  }

  lemma {:induction false} FieldLeaves(fields: seq<Field>, i: nat, text: Text)
    requires i < |fields| && text in Leaves(fields[i].value)
    ensures text in LeavesOfFields(fields)
    decreases i
  {
    hide Leaves;
    if i > 0 {
      FieldLeaves(fields[1..], i - 1, text);
    }
  }

  lemma ContentIsLeaf(m: Message)
    requires Content(m) != []
    ensures Content(m) in Leaves(MessageValue(m))
  {
    var fields := MessageValue(m).fields;
    assert fields[1].value == Str(Content(m));
    assert Leaves(fields[1].value) == [Content(m)];
    FieldLeaves(fields, 1, Content(m));
  }

  /** Every message's content is among the scanned texts. */
  lemma ContentsAreScanned(messages: seq<Message>, m: nat)
    requires m < |messages| && Content(messages[m]) != []
    ensures Content(messages[m]) in Scanned(messages)
  {
    ContentIsLeaf(messages[m]);
    var items := ListOf(MessageValue, messages).items;
    ItemLeaves(items, m, Content(messages[m]));
    hide MessageValue, Serialized;
  }

  // ----- Every text of a message

  /** The texts a tool call carries. */
  function TextsOfCall(call: ToolCall): seq<Text> {
    [call.id, call.name, call.arguments]
  }

  function TextsOfCalls(calls: seq<ToolCall>): seq<Text> {
    if calls == [] then [] else TextsOfCall(calls[0]) + TextsOfCalls(calls[1..])
  }

  /** The texts a message carries: its role, its content, and whatever a tool protocol adds. */
  function TextsOf(m: Message): seq<Text> {
    match m
    case SystemMessage(content) => [Ascii("system"), content]
    case UserMessage(content) => [Ascii("user"), content]
    case ToolMessage(content, callId) => [Ascii("tool"), content, callId]
    case AssistantMessage(text, calls) =>
      [Ascii("assistant")] + (if text.Some? then [text.value] else []) + (if calls.Some? then TextsOfCalls(calls.value) else [])
  }

  lemma CallIsScanned(call: ToolCall, text: Text)
    requires text in TextsOfCall(call)
    ensures text in Leaves(CallValue(call))
  {
    var fields := CallValue(call).fields;
    var inner := fields[2].value.fields;
    assert Leaves(fields[0].value) == [call.id];
    assert Leaves(inner[0].value) == [call.name] && Leaves(inner[1].value) == [call.arguments];
    hide Leaves;
    if text == call.id {
      FieldLeaves(fields, 0, text);
    } else {
      FieldLeaves(inner, if text == call.name then 0 else 1, text);
      LeavesOfObject(fields[2].value);
      FieldLeaves(fields, 2, text);
    }
  }

  lemma LeavesOfObject(v: Value)
    requires v.Obj?
    ensures Leaves(v) == LeavesOfFields(v.fields)
  {
  }

  lemma {:induction false} CallsAreScanned(calls: seq<ToolCall>, text: Text) returns (i: nat)
    requires text in TextsOfCalls(calls)
    ensures i < |calls| && text in TextsOfCall(calls[i])
  {
    if text in TextsOfCall(calls[0]) {
      i := 0;
    } else {
      var j := CallsAreScanned(calls[1..], text);
      i := j + 1;
    }
  }

  lemma CallsTextIsLeaf(m: Message, text: Text)
    requires m.AssistantMessage? && m.toolCalls.Some? && text in TextsOfCalls(m.toolCalls.value)
    ensures text in Leaves(MessageValue(m))
  {
    var calls := m.toolCalls.value;
    var fields := MessageValue(m).fields;
    var i := CallsAreScanned(calls, text);
    CallIsScanned(calls[i], text);
    hide TextsOfCalls, TextsOfCall, CallValue;
    var items := ListOf(CallValue, calls).items;
    ItemLeaves(items, i, text);
    assert Leaves(fields[2].value) == LeavesOfItems(items);
    FieldLeaves(fields, 2, text);
  }

  lemma PlainTextIsLeaf(m: Message, text: Text)
    requires text in TextsOf(m) && !(m.AssistantMessage? && m.toolCalls.Some? && text in TextsOfCalls(m.toolCalls.value))
    ensures text in Leaves(MessageValue(m))
  {
    hide TextsOfCalls, CallValue;
    var fields := MessageValue(m).fields;
    var k := if text == RoleOf(m) then 0 else if text == Content(m) && !(m.AssistantMessage? && m.text.None?) then 1 else 2;
    assert fields[k].value == Str(text);
    StringIsLeaf(text);
    hide Leaves;
    FieldLeaves(fields, k, text);
    LeavesOfObject(MessageValue(m));
  }

  lemma StringIsLeaf(text: Text)
    ensures Leaves(Str(text)) == [text]
  {
  }

  lemma TextIsLeaf(m: Message, text: Text)
    requires text in TextsOf(m)
    ensures text in Leaves(MessageValue(m))
  {
    hide TextsOf, MessageValue, Leaves;
    if m.AssistantMessage? && m.toolCalls.Some? && text in TextsOfCalls(m.toolCalls.value) {
      CallsTextIsLeaf(m, text);
    } else {
      PlainTextIsLeaf(m, text);
    }
  }

  function RoleOf(m: Message): Text {
    match m
    case SystemMessage(_) => Ascii("system")
    case UserMessage(_) => Ascii("user")
    case AssistantMessage(_, _) => Ascii("assistant")
    case ToolMessage(_, _) => Ascii("tool")
  }

  /** Everything a message says is scanned: role, content, call identities, names and arguments; and so is the request as sent. */
  lemma EveryTextIsScanned(messages: seq<Message>, m: nat, text: Text)
    requires m < |messages| && text in TextsOf(messages[m])
    ensures text in Scanned(messages) && Serialized(messages) in Scanned(messages)
  {
    TextIsLeaf(messages[m], text);
    var items := ListOf(MessageValue, messages).items;
    ItemLeaves(items, m, text);
    hide MessageValue, Serialized;
  }
}
