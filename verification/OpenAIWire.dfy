/** OpenAI's wire format, one wire message per history message, and the proof that it carries the
    same conversation as Anthropic's. */
module OpenAIWire {
  import opened Collections
  import opened Messages
  import Anthropic = AnthropicWire

  datatype FunctionCall = FunctionCall(id: string, name: string, arguments: string)

  datatype WireMessage =
    | ToolReply(toolCallId: Option<string>, content: string)
    | Request(text: Option<string>, calls: seq<FunctionCall>)
    | Plain(role: Role, content: string)

  function FunctionCalls(calls: seq<ToolCall>): seq<FunctionCall> {
    seq(|calls|, i requires 0 <= i < |calls| => FunctionCall(calls[i].id, calls[i].name, calls[i].arguments))
  }

  /** A failure has no channel of its own in this format, so it is folded into the text. */
  function ResultText(m: Message): string {
    if m.isError then "Error: " + m.content else m.content
  }

  function EncodeOne(m: Message): WireMessage {
    if m.role == Tool then ToolReply(m.toolCallId, ResultText(m))
    else if AsksTools(m) then
      Request(if m.content == "" then None else Some(m.content), FunctionCalls(m.toolCalls.value))
    else Plain(m.role, m.content)
  }

  function Encode(ms: seq<Message>): (r: seq<WireMessage>)
    ensures |r| == |ms| && forall i :: 0 <= i < |ms| ==> r[i] == EncodeOne(ms[i])
  {
    seq(|ms|, i requires 0 <= i < |ms| => EncodeOne(ms[i]))
  }

  method ToOpenAIMessages(messages: seq<Message>) returns (wire: seq<WireMessage>)
    ensures wire == Encode(messages)
  {
    wire := [];
    for i := 0 to |messages|
      invariant wire == Encode(messages[..i])
    {
      var message := messages[i];
      assert messages[..i + 1] == messages[..i] + [message];
      if message.role == Tool {
        var content := message.content;
        if message.isError {
          content := "Error: " + content;
        }
        wire := wire + [ToolReply(message.toolCallId, content)];
        continue;
      }
      if message.role == Assistant && message.toolCalls.Some? && message.toolCalls.value != [] {
        wire := wire + [Request(if message.content != "" then Some(message.content) else None,
                                FunctionCalls(message.toolCalls.value))];
        continue;
      }
      wire := wire + [Plain(message.role, message.content)];
    }
    assert messages[..|messages|] == messages;
  }

  // ----- the conversation a wire list tells

  datatype Item =
    | Said(byUser: bool, text: string)
    | Called(id: string, name: string, arguments: string)
    | Answered(callId: Option<string>, text: string)

  function CalledAll(calls: seq<FunctionCall>): seq<Item> {
    if calls == [] then [] else [Called(calls[0].id, calls[0].name, calls[0].arguments)] + CalledAll(calls[1..])
  }

  function ReadOne(w: WireMessage): seq<Item> {
    match w
    case ToolReply(id, text) => [Answered(id, text)]
    case Request(text, calls) => (if text.Some? then [Said(false, text.value)] else []) + CalledAll(calls)
    case Plain(role, text) => [Said(role == User, text)]
  }

  function Read(ws: seq<WireMessage>): seq<Item> {
    if ws == [] then [] else ReadOne(ws[0]) + Read(ws[1..])
  }

  function ReadBlock(byUser: bool, b: Anthropic.Block): Item {
    match b
    case TextBlock(text) => Said(byUser, text)
    case ToolUse(id, name, input) => Called(id, name, input)
    case ToolResult(id, text, isError) => Answered(id, if isError then "Error: " + text else text)
  }

  function ReadBlocks(byUser: bool, bs: seq<Anthropic.Block>): seq<Item> {
    if bs == [] then [] else [ReadBlock(byUser, bs[0])] + ReadBlocks(byUser, bs[1..])
  }

  function ReadAnthropicOne(w: Anthropic.WireMessage): seq<Item> {
    match w.body
    case Text(text) => [Said(w.role == Anthropic.UserRole, text)]
    case Blocks(bs) => ReadBlocks(w.role == Anthropic.UserRole, bs)
  }

  function ReadAnthropic(ws: seq<Anthropic.WireMessage>): seq<Item> {
    if ws == [] then [] else ReadAnthropicOne(ws[0]) + ReadAnthropic(ws[1..])
  }

  lemma {:induction false} ReadUses(calls: seq<ToolCall>)
    ensures ReadBlocks(false, Anthropic.UseBlocks(calls)) == CalledAll(FunctionCalls(calls))
  {
    if calls != [] {
      ReadUses(calls[1..]);
      assert Anthropic.UseBlocks(calls)[1..] == Anthropic.UseBlocks(calls[1..]);
      assert FunctionCalls(calls)[1..] == FunctionCalls(calls[1..]);
    }
  }

  lemma {:induction false} SpokenReadsTheSame(m: Message)
    requires m.role != Tool
    ensures ReadAnthropicOne(Anthropic.EncodeSpoken(m)) == ReadOne(EncodeOne(m))
  {
    if AsksTools(m) {
      var uses := Anthropic.UseBlocks(m.toolCalls.value);
      ReadUses(m.toolCalls.value);
      if m.content == "" {
        assert [] + uses == uses;
      } else {
        assert ([Anthropic.TextBlock(m.content)] + uses)[1..] == uses;
      }
    }
  }

  lemma {:induction false} ResultsReadTheSame(ms: seq<Message>)
    requires forall i :: 0 <= i < |ms| ==> ms[i].role == Tool
    ensures ReadBlocks(true, Anthropic.ResultBlocks(ms)) == Read(Encode(ms))
  {
    if ms != [] {
      ResultsReadTheSame(ms[1..]);
      assert Anthropic.ResultBlocks(ms)[1..] == Anthropic.ResultBlocks(ms[1..]);
      assert Encode(ms)[1..] == Encode(ms[1..]);
    }
  }

  lemma {:induction false} ReadAppend(a: seq<WireMessage>, b: seq<WireMessage>)
    ensures Read(a + b) == Read(a) + Read(b)
  {
    if a == [] {
      assert a + b == b;
    } else {
      assert (a + b)[1..] == a[1..] + b;
      ReadAppend(a[1..], b);
      Regroup(ReadOne(a[0]), Read(a[1..]), Read(b));
    }
  }

  lemma {:induction false} EncodeSplit(ms: seq<Message>, n: nat)
    requires n <= |ms|
    ensures Encode(ms) == Encode(ms[..n]) + Encode(ms[n..])
  {
  }

  /** What one Anthropic message says is what the OpenAI messages for the same run say. */
  lemma {:induction false} FirstRunReadsTheSame(ms: seq<Message>)
    requires ms != []
    ensures ReadAnthropicOne(Anthropic.Encode(ms)[0]) == Read(Encode(ms[..Anthropic.FirstRun(ms)]))
  {
    var n := Anthropic.FirstRun(ms);
    if ms[0].role == Tool {
      ResultsReadTheSame(ms[..n]);
    } else {
      SpokenReadsTheSame(ms[0]);
      var one := Encode(ms[..1]);
      assert Read(one[1..]) == [];
    }
  }

  /** Both formats tell the same sequence of texts, tool calls and tool results, for every history. */
  lemma {:induction false} FormatsTellTheSameStory(ms: seq<Message>)
    ensures ReadAnthropic(Anthropic.Encode(ms)) == Read(Encode(ms))
    decreases |ms|
  {
    if ms != [] {
      var n := Anthropic.FirstRun(ms);
      Anthropic.FirstIsDecoded(ms);
      FirstRunReadsTheSame(ms);
      FormatsTellTheSameStory(ms[n..]);
      EncodeSplit(ms, n);
      ReadAppend(Encode(ms[..n]), Encode(ms[n..]));
    }
  }
}
