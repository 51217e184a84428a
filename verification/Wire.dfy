// The OpenAI-compatible adapter: converting a window to wire messages and reading a
// reply back.
module Wire {
  import opened Text
  import opened Conversation
  import opened Exchanges

  /** The text json.dumps gives for an object, or any other argument text. */
  datatype JsonText = Dump(fields: Input) | NonObject | Malformed | Empty

  datatype Arguments = Object(fields: Input) | Encoded(text: JsonText) | OtherValue

  datatype WireCall = NotADict | NoFunction(id: string) | WireCall(id: string, name: string, arguments: Arguments)

  datatype WireMessage =
    | System(text: string)
    | Chat(role: Role, text: string)
    | AssistantTurn(content: Option<string>, calls: seq<WireCall>)
    | ToolAnswer(callId: string, text: string)

  function ParseArguments(a: Arguments): Input
  {
    match a
    case Object(fields) => fields
    case Encoded(Dump(fields)) => fields
    case Encoded(_) => map[]
    case OtherValue => map[]
  }

  // ---------------------------------------------------------------------
  // Reference conversions
  // ---------------------------------------------------------------------

  function TextParts(blocks: seq<Block>): seq<string>
  {
    if blocks == [] then []
    else
      var b := blocks[|blocks| - 1];
      TextParts(blocks[..|blocks| - 1]) + if b.TextBlock? && b.text != "" then [b.text] else []
  }

  function Calls(blocks: seq<Block>): seq<WireCall>
  {
    if blocks == [] then []
    else
      var b := blocks[|blocks| - 1];
      Calls(blocks[..|blocks| - 1]) + if b.ToolUse? then [WireCall(b.id, b.name, Encoded(Dump(b.input)))] else []
  }

  function ToAssistant(blocks: seq<Block>): WireMessage
  {
    var parts := TextParts(blocks);
    AssistantTurn(if parts == [] then None else Some(JoinWith(parts, "\n")), Calls(blocks))
  }

  function ToAnswers(blocks: seq<Block>): seq<WireMessage>
  {
    if blocks == [] then []
    else
      var b := blocks[|blocks| - 1];
      ToAnswers(blocks[..|blocks| - 1]) + if b.ToolResult? then [ToolAnswer(b.useId, b.output)] else []
  }

  predicate IsToolResultBlocks(blocks: seq<Block>)
  {
    blocks != [] && forall b | b in blocks :: b.ToolResult?
  }

  function ShownText(b: Block): string
  {
    match b
    case TextBlock(text) => text
    case ToolResult(_, output, _) => output
    case _ => ""
  }

  function ShownTexts(blocks: seq<Block>): seq<string>
  {
    seq(|blocks|, i requires 0 <= i < |blocks| => ShownText(blocks[i]))
  }

  function ToWire(m: Message): seq<WireMessage>
  {
    match m.content
    case Plain(text) => [Chat(m.role, text)]
    case Blocks(blocks) =>
      if IsToolResultBlocks(blocks) then ToAnswers(blocks)
      else if m.role.Assistant? then [ToAssistant(blocks)]
      else [Chat(m.role, JoinWith(ShownTexts(blocks), "\n"))]
  }

  function Wires(ms: seq<Message>): seq<seq<WireMessage>>
  {
    seq(|ms|, i requires 0 <= i < |ms| => ToWire(ms[i]))
  }

  function AllToWire(ms: seq<Message>): seq<WireMessage>
  {
    Flatten(Wires(ms))
  }

  function ToOpenAi(system: string, ms: seq<Message>): seq<WireMessage>
  {
    (if system != "" then [System(system)] else []) + AllToWire(ms)
  }

  function DecodedCalls(calls: seq<WireCall>): seq<Block>
  {
    if calls == [] then []
    else
      DecodedCalls(calls[..|calls| - 1]) +
      match calls[|calls| - 1]
      case NotADict => []
      case NoFunction(id) => [ToolUse(id, "", map[])]
      case WireCall(id, name, arguments) => [ToolUse(id, name, ParseArguments(arguments))]
  }

  /** The content blocks of a reply. */
  function Decoded(content: Option<string>, calls: seq<WireCall>): seq<Block>
  {
    (if content.Some? && content.value != "" then [TextBlock(content.value)] else []) + DecodedCalls(calls)
  }

  // ---------------------------------------------------------------------
  // The conversions as they are run
  // ---------------------------------------------------------------------

  method ToAssistantMessage(blocks: seq<Block>) returns (message: WireMessage)
    ensures message == ToAssistant(blocks)
  {
    var textParts: seq<string>, toolCalls: seq<WireCall> := [], [];
    for i := 0 to |blocks|
      invariant textParts == TextParts(blocks[..i]) && toolCalls == Calls(blocks[..i])
    {
      assert blocks[..i + 1][..i] == blocks[..i];
      match blocks[i] {
        case TextBlock(text) =>
          if text != "" {
            textParts := textParts + [text];
          }
        case ToolUse(id, name, input) =>
          toolCalls := toolCalls + [WireCall(id, name, Encoded(Dump(input)))];
        case _ =>
      }
    }
    assert blocks[..|blocks|] == blocks;
    message := AssistantTurn(if textParts == [] then None else Some(JoinWith(textParts, "\n")), toolCalls);
  }

  method ToToolResultMessages(blocks: seq<Block>) returns (messages: seq<WireMessage>)
    ensures messages == ToAnswers(blocks)
    ensures (forall i | 0 <= i < |blocks| :: blocks[i].ToolResult?) ==>
      |messages| == |blocks|
      && forall i | 0 <= i < |blocks| :: messages[i] == ToolAnswer(blocks[i].useId, blocks[i].output)
  {
    messages := [];
    for i := 0 to |blocks|
      invariant messages == ToAnswers(blocks[..i])
    {
      assert blocks[..i + 1][..i] == blocks[..i];
      if !blocks[i].ToolResult? {
        continue;
      }
      messages := messages + [ToolAnswer(blocks[i].useId, blocks[i].output)];
    }
    assert blocks[..|blocks|] == blocks;
    if forall i | 0 <= i < |blocks| :: blocks[i].ToolResult? {
      AnswersSay(blocks);
    }
  }

  method ToOpenAiMessages(system: string, messages: seq<Message>) returns (converted: seq<WireMessage>)
    ensures converted == ToOpenAi(system, messages)
    ensures SaysAll(system, messages, converted)
  {
    converted := [];
    if system != "" {
      converted := converted + [System(system)];
    }
    ghost var head := converted;
    assert Wires([]) == [];
    for i := 0 to |messages|
      invariant Shown(head, messages, i, converted)
    {
      ShownNext(head, messages, i, converted);
      var shown := ConvertMessage(messages[i]);
      converted := converted + shown;
    }
    assert messages[..|messages|] == messages;
    WindowSays(system, messages);
  }

  /** The messages before the i-th are converted. */
  ghost predicate Shown(head: seq<WireMessage>, ms: seq<Message>, i: nat, converted: seq<WireMessage>)
  {
    i <= |ms| && converted == head + AllToWire(ms[..i])
  }

  lemma ShownNext(head: seq<WireMessage>, ms: seq<Message>, i: nat, converted: seq<WireMessage>)
    requires i < |ms| && Shown(head, ms, i, converted)
    ensures Shown(head, ms, i + 1, converted + ToWire(ms[i]))
  {
    assert Wires(ms[..i + 1])[..i] == Wires(ms[..i]);
  }

  /** The branches of the conversion loop. */
  method ConvertMessage(m: Message) returns (shown: seq<WireMessage>)
    ensures shown == ToWire(m)
  {
    if m.content.Plain? {
      return [Chat(m.role, m.content.text)];
    }
    var blocks := m.content.blocks;
    if IsToolResultBlocks(blocks) {
      shown := ToToolResultMessages(blocks);
    } else if m.role.Assistant? {
      var turn := ToAssistantMessage(blocks);
      shown := [turn];
    } else {
      shown := [Chat(m.role, JoinWith(ShownTexts(blocks), "\n"))];
    }
  }

  method ToModelResponse(content: Option<string>, calls: seq<WireCall>) returns (blocks: seq<Block>)
    ensures blocks == Decoded(content, calls)
  {
    blocks := [];
    if content.Some? && content.value != "" {
      blocks := [TextBlock(content.value)];
    }
    ghost var head := blocks;
    for i := 0 to |calls|
      invariant blocks == head + DecodedCalls(calls[..i])
    {
      assert calls[..i + 1][..i] == calls[..i];
      if calls[i].NotADict? {
        continue;
      }
      var name, input := "", map[];
      if calls[i].WireCall? {
        name, input := calls[i].name, ParseArguments(calls[i].arguments);
      }
      blocks := blocks + [ToolUse(calls[i].id, name, input)];
    }
    assert calls[..|calls|] == calls;
  }

  // ---------------------------------------------------------------------
  // A window converts to a valid message sequence
  // ---------------------------------------------------------------------

  function CallId(c: WireCall): string
  {
    if c.NotADict? then "" else c.id
  }

  /** The answers open with one tool message per call, id by id. */
  predicate Answered(calls: seq<WireCall>, answers: seq<WireMessage>)
  {
    |calls| <= |answers|
    && forall i | 0 <= i < |calls| :: answers[i].ToolAnswer? && answers[i].callId == CallId(calls[i])
  }

  /** How many messages belong to the first one: an assistant turn takes its answers along. */
  function Width(w: WireMessage): nat
  {
    if w.AssistantTurn? then 1 + |w.calls| else 1
  }

  /** The list opens well: with no stray answer, and each call of an assistant turn answered. */
  predicate OpensWell(ws: seq<WireMessage>)
    requires ws != []
    ensures OpensWell(ws) ==> Width(ws[0]) <= |ws|
  {
    !ws[0].ToolAnswer? && (ws[0].AssistantTurn? ==> Answered(ws[0].calls, ws[1..]))
  }

  /** Every assistant turn is followed by exactly the answers to its calls; no answer stands elsewhere. */
  predicate ValidWire(ws: seq<WireMessage>)
    decreases |ws|
  {
    ws != [] ==> OpensWell(ws) && ValidWire(ws[Width(ws[0])..])
  }

  lemma OpensWellConcat(a: seq<WireMessage>, b: seq<WireMessage>)
    requires a != [] && OpensWell(a)
    ensures OpensWell(a + b)
  {
    assert (a + b)[1..] == a[1..] + b;
  }

  lemma ValidWireCons(ws: seq<WireMessage>, n: nat)
    requires ws != [] && OpensWell(ws) && n == Width(ws[0]) && ValidWire(ws[n..])
    ensures ValidWire(ws)
  {
  }

  lemma {:induction false} ValidWireConcat(a: seq<WireMessage>, b: seq<WireMessage>)
    requires ValidWire(a) && ValidWire(b)
    ensures ValidWire(a + b)
    decreases |a|
  {
    if a == [] {
      assert a + b == b;
    } else {
      var n := Width(a[0]);
      ValidWireConcat(a[n..], b);
      ValidWireBehind(a, b, n);
    }
  }

  lemma ValidWireBehind(a: seq<WireMessage>, b: seq<WireMessage>, n: nat)
    requires a != [] && OpensWell(a) && n == Width(a[0]) && ValidWire(a[n..] + b)
    ensures ValidWire(a + b)
  {
    OpensWellConcat(a, b);
    assert (a + b)[n..] == a[n..] + b;
    ValidWireCons(a + b, n);
  }

  lemma {:induction false} CallIdsAre(blocks: seq<Block>)
    ensures |Calls(blocks)| == |UseIds(blocks)|
    ensures forall i | 0 <= i < |Calls(blocks)| :: CallId(Calls(blocks)[i]) == UseIds(blocks)[i]
  {
    if blocks != [] {
      var head := blocks[..|blocks| - 1];
      CallIdsAre(head);
      UseIdsSnoc(head, blocks[|blocks| - 1]);
      assert head + [blocks[|blocks| - 1]] == blocks;
    }
  }

  lemma {:induction false} UseIdsSnoc(blocks: seq<Block>, b: Block)
    ensures UseIds(blocks + [b]) == UseIds(blocks) + if b.ToolUse? then [b.id] else []
  {
    if blocks == [] {
      assert blocks + [b] == [b] && [b][1..] == [];
    } else {
      UseIdsSnoc(blocks[1..], b);
      assert (blocks + [b])[1..] == blocks[1..] + [b];
    }
  }

  lemma {:induction false} ResultIdsSnoc(blocks: seq<Block>, b: Block)
    ensures ResultIds(blocks + [b]) == ResultIds(blocks) + if b.ToolResult? then [b.useId] else []
  {
    if blocks == [] {
      assert blocks + [b] == [b] && [b][1..] == [];
    } else {
      ResultIdsSnoc(blocks[1..], b);
      assert (blocks + [b])[1..] == blocks[1..] + [b];
    }
  }

  lemma {:induction false} AnswerIdsAre(blocks: seq<Block>)
    ensures |ToAnswers(blocks)| == |ResultIds(blocks)|
    ensures forall i | 0 <= i < |ToAnswers(blocks)| ::
      ToAnswers(blocks)[i].ToolAnswer? && ToAnswers(blocks)[i].callId == ResultIds(blocks)[i]
  {
    if blocks != [] {
      var head := blocks[..|blocks| - 1];
      AnswerIdsAre(head);
      ResultIdsSnoc(head, blocks[|blocks| - 1]);
      assert head + [blocks[|blocks| - 1]] == blocks;
    }
  }

  /** An assistant message never holds tool results: providers return text and tool_use blocks. */
  predicate FromProvider(m: Message)
  {
    m.role.Assistant? && m.content.Blocks? ==> forall b | b in m.content.blocks :: !b.ToolResult?
  }

  lemma PlainToWire(m: Message)
    requires IsPlain(m) && FromProvider(m)
    ensures ValidWire(ToWire(m))
  {
    var ws := ToWire(m);
    if m.content.Blocks? {
      var blocks := m.content.blocks;
      assert !IsToolResultBlocks(blocks) by {
        if blocks != [] {
          assert blocks[0] in blocks;
        }
      }
      if m.role.Assistant? {
        NoCalls(blocks);
        assert ws[1..] == [];
      }
    }
    assert ws[1..] == [];
  }

  lemma {:induction false} NoCalls(blocks: seq<Block>)
    requires forall b | b in blocks :: !b.ToolUse?
    ensures Calls(blocks) == []
  {
    if blocks != [] {
      assert blocks[|blocks| - 1] in blocks;
      NoCalls(blocks[..|blocks| - 1]);
    }
  }

  lemma ExchangeToWire(call: Message, answer: Message)
    requires IsExchange(call, answer) && FromProvider(call)
    ensures ValidWire(ToWire(call) + ToWire(answer))
  {
    var blocks, results := call.content.blocks, answer.content.blocks;
    var use :| use in blocks && use.ToolUse?;
    assert !IsToolResultBlocks(blocks);
    CallIdsAre(blocks);
    AnswerIdsAre(results);
    var ws := ToWire(call) + ToWire(answer);
    assert ws[1..] == ToAnswers(results);
    assert ws[1 + |Calls(blocks)|..] == [];
  }

  lemma AllToWireConcat(a: seq<Message>, b: seq<Message>)
    ensures AllToWire(a + b) == AllToWire(a) + AllToWire(b)
  {
    WiresConcat(a, b);
    FlattenConcat(Wires(a), Wires(b));
  }

  lemma WiresConcat(a: seq<Message>, b: seq<Message>)
    ensures Wires(a + b) == Wires(a) + Wires(b)
  {
  }

  lemma AllToWireOne(m: Message)
    ensures AllToWire([m]) == ToWire(m)
  {
    assert Wires([m]) == [ToWire(m)];
    FlattenOne(ToWire(m));
  }

  lemma OpeningToWire(ms: seq<Message>) returns (n: nat)
    requires ms != [] && Paired(ms) && forall m | m in ms :: FromProvider(m)
    ensures 0 < n <= |ms| && Paired(ms[n..])
    ensures ValidWire(AllToWire(ms[..n]))
  {
    assert ms[0] in ms;
    AllToWireOne(ms[0]);
    if IsPlain(ms[0]) {
      n := 1;
      PlainToWire(ms[0]);
      assert ms[..1] == [ms[0]];
    } else {
      n := 2;
      AllToWireOne(ms[1]);
      AllToWireConcat([ms[0]], [ms[1]]);
      assert ms[..2] == [ms[0]] + [ms[1]];
      ExchangeToWire(ms[0], ms[1]);
    }
  }

  lemma {:induction false} PairedToWire(ms: seq<Message>)
    requires Paired(ms) && forall m | m in ms :: FromProvider(m)
    ensures ValidWire(AllToWire(ms))
    decreases |ms|
  {
    if ms == [] {
      assert Wires(ms) == [];
    } else {
      var n := OpeningToWire(ms);
      PairedToWire(ms[n..]);
      ValidInParts(ms, n);
    }
  }

  lemma ValidInParts(ms: seq<Message>, n: nat)
    requires n <= |ms| && ValidWire(AllToWire(ms[..n])) && ValidWire(AllToWire(ms[n..]))
    ensures ValidWire(AllToWire(ms))
  {
    assert ms == ms[..n] + ms[n..];
    AllToWireConcat(ms[..n], ms[n..]);
    ValidWireConcat(AllToWire(ms[..n]), AllToWire(ms[n..]));
  }

  /** Every window a run sends converts to a sequence the wire format allows. */
  lemma WindowConvertsToValidWire(system: string, task: Message, ms: seq<Message>)
    requires Window(task, ms) && IsPlain(task)
    requires forall m | m in ms :: FromProvider(m)
    ensures ValidWire(ToOpenAi(system, ms))
  {
    assert Paired(ms);
    PairedToWire(ms);
    var head := if system != "" then [System(system)] else [];
    assert ValidWire(head) by {
      if system != "" {
        assert head[1..] == [];
      }
    }
    ValidWireConcat(head, AllToWire(ms));
  }

  // ---------------------------------------------------------------------
  // Round trips of an assistant turn
  // ---------------------------------------------------------------------

  function ToolUses(blocks: seq<Block>): seq<Block>
  {
    if blocks == [] then []
    else
      var b := blocks[|blocks| - 1];
      ToolUses(blocks[..|blocks| - 1]) + if b.ToolUse? then [b] else []
  }

  /** One joined text block, then the tool calls. */
  function Normalized(blocks: seq<Block>): seq<Block>
  {
    var parts := TextParts(blocks);
    (if parts == [] then [] else [TextBlock(JoinWith(parts, "\n"))]) + ToolUses(blocks)
  }

  lemma {:induction false} CallsRoundTrip(blocks: seq<Block>)
    ensures DecodedCalls(Calls(blocks)) == ToolUses(blocks)
  {
    if blocks != [] {
      var head, b := blocks[..|blocks| - 1], blocks[|blocks| - 1];
      CallsRoundTrip(head);
      if b.ToolUse? {
        var calls := Calls(blocks);
        assert calls[..|calls| - 1] == Calls(head);
        assert calls[|calls| - 1] == WireCall(b.id, b.name, Encoded(Dump(b.input)));
        assert b == ToolUse(b.id, b.name, b.input);
      } else {
        assert Calls(blocks) == Calls(head) && ToolUses(blocks) == ToolUses(head);
      }
    }
  }

  lemma {:induction false} PartsAreNotEmpty(blocks: seq<Block>)
    ensures forall part | part in TextParts(blocks) :: part != ""
  {
    if blocks != [] {
      PartsAreNotEmpty(blocks[..|blocks| - 1]);
    }
  }

  /** Sending content blocks and reading them back keeps every call and joins the texts. */
  lemma DecodeAfterEncode(blocks: seq<Block>)
    ensures var turn := ToAssistant(blocks); Decoded(turn.content, turn.calls) == Normalized(blocks)
  {
    CallsRoundTrip(blocks);
    PartsAreNotEmpty(blocks);
    var parts := TextParts(blocks);
    if parts != [] {
      assert parts[0] in parts;
    }
  }

  /** At most one text block, in front, then tool calls only. */
  predicate ReplyForm(blocks: seq<Block>)
  {
    forall i | 0 <= i < |blocks| :: blocks[i].ToolUse? || (i == 0 && blocks[0].TextBlock? && blocks[0].text != "")
  }

  lemma {:induction false} DecodedCallsAreUses(calls: seq<WireCall>)
    ensures forall i | 0 <= i < |DecodedCalls(calls)| :: DecodedCalls(calls)[i].ToolUse?
  {
    if calls != [] {
      DecodedCallsAreUses(calls[..|calls| - 1]);
    }
  }

  lemma ReplyFormParts(blocks: seq<Block>)
    requires ReplyForm(blocks)
    ensures var text := blocks != [] && blocks[0].TextBlock?;
      && TextParts(blocks) == (if text then [blocks[0].text] else [])
      && ToolUses(blocks) == (if text then blocks[1..] else blocks)
  {
    if blocks != [] && blocks[0].TextBlock? {
      var first := blocks[0];
      assert blocks == [first] + blocks[1..] && [first][..0] == [];
      assert TextParts([first]) == [first.text] && ToolUses([first]) == [];
      UsesBehind([first], blocks[1..]);
    } else {
      assert [] + blocks == blocks;
      UsesBehind([], blocks);
    }
  }

  /** Tool calls behind other blocks add no text, and follow the calls among those. */
  predicate Behind(head: seq<Block>, uses: seq<Block>)
  {
    TextParts(head + uses) == TextParts(head) && ToolUses(head + uses) == ToolUses(head) + uses
  }

  lemma {:induction false} UsesBehind(head: seq<Block>, uses: seq<Block>)
    requires forall i | 0 <= i < |uses| :: uses[i].ToolUse?
    ensures Behind(head, uses)
  {
    if uses == [] {
      assert head + uses == head;
    } else {
      var older, last := uses[..|uses| - 1], uses[|uses| - 1];
      UsesBehind(head, older);
      UseBehind(head, older, last);
      assert uses == older + [last];
    }
  }

  lemma UseBehind(head: seq<Block>, older: seq<Block>, last: Block)
    requires last.ToolUse? && Behind(head, older)
    ensures Behind(head, older + [last])
  {
    var all := head + older;
    assert head + (older + [last]) == all + [last];
    assert (all + [last])[..|all|] == all;
    assert ToolUses(head) + (older + [last]) == ToolUses(head) + older + [last];
  }

  /** What the adapter reads from a reply has the reply form, and survives re-encoding unchanged. */
  lemma ResponseSurvives(content: Option<string>, calls: seq<WireCall>)
    ensures var blocks := Decoded(content, calls);
      && ReplyForm(blocks)
      && var turn := ToAssistant(blocks);
         Decoded(turn.content, turn.calls) == blocks
  {
    var blocks := Decoded(content, calls);
    DecodedIsReply(content, calls);
    ReplyIsNormal(blocks);
    DecodeAfterEncode(blocks);
  }

  lemma DecodedIsReply(content: Option<string>, calls: seq<WireCall>)
    ensures ReplyForm(Decoded(content, calls))
  {
    DecodedCallsAreUses(calls);
  }

  lemma ReplyIsNormal(blocks: seq<Block>)
    requires ReplyForm(blocks)
    ensures Normalized(blocks) == blocks
  {
    ReplyFormParts(blocks);
    if blocks != [] && blocks[0].TextBlock? {
      assert blocks == [blocks[0]] + blocks[1..];
      assert JoinWith([blocks[0].text], "\n") == blocks[0].text;
    } else {
      assert [] + blocks == blocks;
    }
  }

  /** A well-formed reply whose arguments are dumped objects. */
  predicate CanonicalReply(content: Option<string>, calls: seq<WireCall>)
  {
    content != Some("")
    && forall i | 0 <= i < |calls| ::
      calls[i].WireCall? && calls[i].arguments.Encoded? && calls[i].arguments.text.Dump?
  }

  lemma {:induction false} CanonicalCalls(calls: seq<WireCall>)
    requires CanonicalReply(None, calls)
    ensures Calls(DecodedCalls(calls)) == calls && TextParts(DecodedCalls(calls)) == []
  {
    if calls != [] {
      CanonicalCalls(calls[..|calls| - 1]);
      var blocks := DecodedCalls(calls);
      assert blocks[..|blocks| - 1] == DecodedCalls(calls[..|calls| - 1]);
    }
  }

  lemma {:induction false} PrependText(text: string, blocks: seq<Block>)
    requires text != ""
    ensures TextParts([TextBlock(text)] + blocks) == [text] + TextParts(blocks)
    ensures Calls([TextBlock(text)] + blocks) == Calls(blocks)
  {
    var all := [TextBlock(text)] + blocks;
    if blocks == [] {
      assert all[..0] == [];
      assert TextParts([]) == [] && Calls([]) == [];
    } else {
      assert all[..|all| - 1] == [TextBlock(text)] + blocks[..|blocks| - 1];
      PrependText(text, blocks[..|blocks| - 1]);
    }
  }

  /** The model's own well-formed turn is sent back to it verbatim. */
  lemma EncodeAfterDecode(content: Option<string>, calls: seq<WireCall>)
    requires CanonicalReply(content, calls)
    ensures ToAssistant(Decoded(content, calls)) == AssistantTurn(content, calls)
  {
    CanonicalCalls(calls);
    if content.Some? {
      PrependText(content.value, DecodedCalls(calls));
    } else {
      assert Decoded(content, calls) == DecodedCalls(calls);
    }
  }

  // ---------------------------------------------------------------------
  // What the messages of a window say on the wire
  // ---------------------------------------------------------------------

  /** One answer per tool result, in order: its id and its output. */
  lemma {:induction false} AnswersSay(blocks: seq<Block>)
    requires forall i | 0 <= i < |blocks| :: blocks[i].ToolResult?
    ensures |ToAnswers(blocks)| == |blocks|
    ensures forall i | 0 <= i < |blocks| :: ToAnswers(blocks)[i] == ToolAnswer(blocks[i].useId, blocks[i].output)
  {
    if blocks != [] {
      AnswersSay(blocks[..|blocks| - 1]);
    }
  }

  /** The wire messages of one message tell all it says. */
  ghost predicate Says(m: Message, part: seq<WireMessage>)
  {
    match m.content
    case Plain(text) => part == [Chat(m.role, text)]
    case Blocks(blocks) =>
      if blocks != [] && forall i | 0 <= i < |blocks| :: blocks[i].ToolResult? then
        |part| == |blocks| && forall i | 0 <= i < |blocks| :: part[i] == ToolAnswer(blocks[i].useId, blocks[i].output)
      else if m.role.Assistant? then
        && |part| == 1 && part[0].AssistantTurn?
        && Decoded(part[0].content, part[0].calls) == Normalized(blocks)
      else part == [Chat(User, JoinWith(ShownTexts(blocks), "\n"))]
  }

  lemma MessageSays(m: Message)
    ensures Says(m, ToWire(m))
  {
    if m.content.Blocks? {
      var blocks := m.content.blocks;
      assert IsToolResultBlocks(blocks) <==> blocks != [] && forall i | 0 <= i < |blocks| :: blocks[i].ToolResult? by {
        assert forall b | b in blocks :: exists i | 0 <= i < |blocks| :: b == blocks[i];
      }
      if IsToolResultBlocks(blocks) {
        AnswersSay(blocks);
      } else if m.role.Assistant? {
        DecodeAfterEncode(blocks);
      }
    }
  }

  /** What is sent is the system prompt, if any, and then what the messages say, one after the other. */
  ghost predicate SaysAll(system: string, ms: seq<Message>, sent: seq<WireMessage>)
  {
    exists parts: seq<seq<WireMessage>> ::
      && sent == (if system != "" then [System(system)] else []) + Flatten(parts)
      && |parts| == |ms| && forall i | 0 <= i < |ms| :: Says(ms[i], parts[i])
  }

  lemma WindowSays(system: string, ms: seq<Message>)
    ensures SaysAll(system, ms, ToOpenAi(system, ms))
  {
    forall i | 0 <= i < |ms| ensures Says(ms[i], Wires(ms)[i]) {
      MessageSays(ms[i]);
    }
  }

  /** On the wire each call of an exchange is answered by the output recorded for its id. */
  lemma ExchangeSays(call: Message, answer: Message, i: nat)
    requires IsExchange(call, answer) && FromProvider(call) && i < |Calls(call.content.blocks)|
    ensures ToWire(call) == [ToAssistant(call.content.blocks)]
    ensures |ToWire(answer)| == |answer.content.blocks| == |Calls(call.content.blocks)|
    ensures answer.content.blocks[i].useId == CallId(Calls(call.content.blocks)[i])
    ensures ToWire(answer)[i] == ToolAnswer(CallId(Calls(call.content.blocks)[i]), answer.content.blocks[i].output)
  {
    var blocks, results := call.content.blocks, answer.content.blocks;
    var use :| use in blocks && use.ToolUse?;
    assert !IsToolResultBlocks(blocks);
    CallIdsAre(blocks);
    AnswerIdsAre(results);
    AnswersSay(results);
  }

  /** Encoding works block by block: texts, calls and answers of a list are those of its parts, in order. */
  lemma {:induction false} TextsInOrder(a: seq<Block>, b: seq<Block>)
    ensures TextParts(a + b) == TextParts(a) + TextParts(b)
  {
    if b == [] {
      assert a + b == a;
    } else {
      var head := b[..|b| - 1];
      TextsInOrder(a, head);
      assert (a + b)[..|a + b| - 1] == a + head;
    }
  }

  lemma {:induction false} CallsInOrder(a: seq<Block>, b: seq<Block>)
    ensures Calls(a + b) == Calls(a) + Calls(b)
  {
    if b == [] {
      assert a + b == a;
    } else {
      var head := b[..|b| - 1];
      CallsInOrder(a, head);
      assert (a + b)[..|a + b| - 1] == a + head;
    }
  }

  lemma {:induction false} AnswersInOrder(a: seq<Block>, b: seq<Block>)
    ensures ToAnswers(a + b) == ToAnswers(a) + ToAnswers(b)
  {
    if b == [] {
      assert a + b == a;
    } else {
      var head := b[..|b| - 1];
      AnswersInOrder(a, head);
      assert (a + b)[..|a + b| - 1] == a + head;
    }
  }

  /** Joined texts stand in order, with one separator between two of them. */
  lemma {:induction false} JoinInOrder(a: seq<string>, b: seq<string>, separator: string)
    requires a != [] && b != []
    ensures JoinWith(a + b, separator) == JoinWith(a, separator) + separator + JoinWith(b, separator)
  {
    if |a| == 1 {
      assert (a + b)[1..] == b;
    } else {
      JoinInOrder(a[1..], b, separator);
      assert (a + b)[1..] == a[1..] + b;
    }
  }

  lemma DecodesLast(calls: seq<WireCall>, c: WireCall)
    ensures DecodedCalls(calls + [c]) == DecodedCalls(calls) + DecodedCalls([c])
  {
    assert (calls + [c])[..|calls|] == calls && [c][..0] == [];
  }

  /** Reading works call by call. */
  ghost predicate DecodedApart(a: seq<WireCall>, b: seq<WireCall>) {
    DecodedCalls(a + b) == DecodedCalls(a) + DecodedCalls(b)
  }

  lemma {:induction false} DecodesInOrder(a: seq<WireCall>, b: seq<WireCall>)
    ensures DecodedApart(a, b)
  {
    if b == [] {
      assert a + b == a;
    } else {
      DecodesInOrder(a, b[..|b| - 1]);
      DecodesOneMore(a, b[..|b| - 1], b[|b| - 1]);
      assert b == b[..|b| - 1] + [b[|b| - 1]];
    }
  }

  lemma {:induction false} DecodesOneMore(a: seq<WireCall>, head: seq<WireCall>, last: WireCall)
    requires DecodedApart(a, head)
    ensures DecodedApart(a, head + [last])
  {
    DecodesLast(a + head, last);
    DecodesLast(head, last);
    assert a + (head + [last]) == a + head + [last];
  }

  /**
   * What one call is read as: nothing if it is no dictionary, a nameless call without
   * input if it has no function, and input only from an object, as such or as text.
   */
  lemma DecodesOne(c: WireCall)
    ensures c.NotADict? ==> DecodedCalls([c]) == []
    ensures c.NoFunction? ==> DecodedCalls([c]) == [ToolUse(c.id, "", map[])]
    ensures c.WireCall? ==>
      var input := if c.arguments.Object? then c.arguments.fields
                   else if c.arguments.Encoded? && c.arguments.text.Dump? then c.arguments.text.fields else map[];
      DecodedCalls([c]) == [ToolUse(c.id, c.name, input)]
  {
    assert [c][..0] == [];
  }

  /** Blocks shown as plain text: texts and outputs, and nothing for other blocks. */
  lemma ShownTextsTell(blocks: seq<Block>, i: nat)
    requires i < |blocks|
    ensures |ShownTexts(blocks)| == |blocks|
    ensures blocks[i].TextBlock? ==> ShownTexts(blocks)[i] == blocks[i].text
    ensures blocks[i].ToolResult? ==> ShownTexts(blocks)[i] == blocks[i].output
    ensures blocks[i].ToolUse? || blocks[i].OtherBlock? ==> ShownTexts(blocks)[i] == ""
  {
  }
}
