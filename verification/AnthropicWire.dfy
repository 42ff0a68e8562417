/** Anthropic's wire format: no tool role, and all results answering one turn's calls in one message. */
module AnthropicWire {
  import opened Collections
  import opened Messages

  datatype WireRole = UserRole | AssistantRole

  datatype Block =
    | TextBlock(text: string)
    | ToolUse(id: string, name: string, input: string)
    | ToolResult(toolUseId: Option<string>, content: string, isError: bool)

  datatype Body = Text(text: string) | Blocks(blocks: seq<Block>)

  datatype WireMessage = WireMessage(role: WireRole, body: Body)

  function ResultBlock(m: Message): Block {
    ToolResult(m.toolCallId, m.content, m.isError)
  }

  function ResultBlocks(ms: seq<Message>): seq<Block> {
    seq(|ms|, i requires 0 <= i < |ms| => ResultBlock(ms[i]))
  }

  function UseBlocks(calls: seq<ToolCall>): seq<Block> {
    seq(|calls|, i requires 0 <= i < |calls| => ToolUse(calls[i].id, calls[i].name, calls[i].arguments))
  }

  /** One message that is not a tool result. */
  function EncodeSpoken(m: Message): WireMessage {
    if AsksTools(m) then
      WireMessage(AssistantRole,
                  Blocks((if m.content == "" then [] else [TextBlock(m.content)]) + UseBlocks(m.toolCalls.value)))
    else WireMessage(if m.role == User then UserRole else AssistantRole, Text(m.content))
  }

  function EncodeResults(ms: seq<Message>): WireMessage {
    WireMessage(UserRole, Blocks(ResultBlocks(ms)))
  }

  /** The length of the run of tool messages `ms` starts with. */
  function ToolRun(ms: seq<Message>): (n: nat)
    ensures n <= |ms|
    ensures forall i :: 0 <= i < n ==> ms[i].role == Tool
    ensures n < |ms| ==> ms[n].role != Tool
  {
    if ms == [] || ms[0].role != Tool then 0 else 1 + ToolRun(ms[1..])
  }

  /** Each maximal run of tool messages becomes one wire message, every other message its own. */
  function Encode(ms: seq<Message>): seq<WireMessage>
    decreases |ms|
  {
    if ms == [] then []
    else if ms[0].role == Tool then [EncodeResults(ms[..ToolRun(ms)])] + Encode(ms[ToolRun(ms)..])
    else [EncodeSpoken(ms[0])] + Encode(ms[1..])
  }

  lemma {:induction false} ToolRunIs(ms: seq<Message>, n: nat)
    requires n <= |ms|
    requires forall i :: 0 <= i < n ==> ms[i].role == Tool
    requires n < |ms| ==> ms[n].role != Tool
    ensures ToolRun(ms) == n
  {
  }

  lemma {:induction false} OneMoreResult(ms: seq<Message>, start: nat, i: nat)
    requires start <= i < |ms|
    ensures ResultBlocks(ms[start..i + 1]) == ResultBlocks(ms[start..i]) + [ResultBlock(ms[i])]
  {
  }

  /** `wire` encodes the first `i` messages, and what is left can be encoded on its own. */
  ghost predicate Encoded(wire: seq<WireMessage>, messages: seq<Message>, i: nat) {
    i <= |messages| && wire + Encode(messages[i..]) == Encode(messages)
  }

  lemma {:induction false} SpokenIsEncoded(wire: seq<WireMessage>, ms: seq<Message>, i: nat)
    requires i < |ms| && ms[i].role != Tool && Encoded(wire, ms, i)
    ensures Encoded(wire + [EncodeSpoken(ms[i])], ms, i + 1)
  {
  }

  lemma {:induction false} RunIsEncoded(wire: seq<WireMessage>, ms: seq<Message>, start: nat, end: nat)
    requires start < end <= |ms| && Encoded(wire, ms, start)
    requires forall j :: start <= j < end ==> ms[j].role == Tool
    requires end < |ms| ==> ms[end].role != Tool
    ensures Encoded(wire + [EncodeResults(ms[start..end])], ms, end)
  {
    ToolRunIs(ms[start..], end - start);
    assert ms[start..][..end - start] == ms[start..end];
    assert ms[start..][end - start..] == ms[end..];
    Regroup(wire, [EncodeResults(ms[start..end])], Encode(ms[end..]));
  }

  /** The two nested loops of the encoder. */
  method ToAnthropicMessages(messages: seq<Message>) returns (wire: seq<WireMessage>)
    ensures wire == Encode(messages)
  {
    wire := [];
    var i := 0;
    while i < |messages|
      invariant Encoded(wire, messages, i)
    {
      var message := messages[i];
      if message.role == Tool {
        var blocks: seq<Block> := [];
        ghost var start := i;
        while i < |messages| && messages[i].role == Tool
          invariant start <= i <= |messages|
          invariant forall j :: start <= j < i ==> messages[j].role == Tool
          invariant blocks == ResultBlocks(messages[start..i])
        {
          OneMoreResult(messages, start, i);
          blocks := blocks + [ToolResult(messages[i].toolCallId, messages[i].content, messages[i].isError)];
          i := i + 1;
        }
        RunIsEncoded(wire, messages, start, i);
        wire := wire + [WireMessage(UserRole, Blocks(blocks))];
        continue;
      }
      SpokenIsEncoded(wire, messages, i);
      if message.role == Assistant && message.toolCalls.Some? && message.toolCalls.value != [] {
        var blocks := [];
        if message.content != "" {
          blocks := [TextBlock(message.content)];
        }
        blocks := blocks + UseBlocks(message.toolCalls.value);
        wire := wire + [WireMessage(AssistantRole, Blocks(blocks))];
        i := i + 1;
        continue;
      }
      wire := wire + [WireMessage(if message.role == User then UserRole else AssistantRole, Text(message.content))];
      i := i + 1;
    }
    assert wire + [] == wire;
  }

  /** Encoding splits at any point that does not cut a run of tool messages. */
  lemma {:induction false} EncodeAppend(a: seq<Message>, b: seq<Message>)
    requires a != [] && b != [] ==> a[|a| - 1].role != Tool || b[0].role != Tool
    ensures Encode(a + b) == Encode(a) + Encode(b)
    decreases |a|
  {
    if a == [] {
      assert a + b == b;
    } else if b == [] {
      assert a + b == a;
    } else if a[0].role == Tool {
      var n := ToolRun(a);
      ToolRunIs(a + b, n);
      assert (a + b)[..n] == a[..n];
      assert (a + b)[n..] == a[n..] + b;
      EncodeAppend(a[n..], b);
      Regroup([EncodeResults(a[..n])], Encode(a[n..]), Encode(b));
    } else {
      assert (a + b)[1..] == a[1..] + b;
      EncodeAppend(a[1..], b);
      Regroup([EncodeSpoken(a[0])], Encode(a[1..]), Encode(b));
    }
  }

  lemma {:induction false} EncodeOne(m: Message)
    requires m.role != Tool
    ensures Encode([m]) == [EncodeSpoken(m)]
  {
  }

  lemma {:induction false} EncodeRun(ms: seq<Message>)
    requires ms != [] && forall i :: 0 <= i < |ms| ==> ms[i].role == Tool
    ensures Encode(ms) == [EncodeResults(ms)]
  {
    ToolRunIs(ms, |ms|);
    assert ms[..|ms|] == ms && ms[|ms|..] == [];
  }

  // ----- reading the format back

  function DecodeResult(b: Block): Message {
    if b.ToolResult? then ToolMessage(b.toolUseId, b.content, b.isError) else ToolMessage(None, "", false)
  }

  function DecodeUse(b: Block): ToolCall {
    if b.ToolUse? then ToolCall(b.id, b.name, b.input) else ToolCall("", "", "")
  }

  function DecodeUses(bs: seq<Block>): seq<ToolCall> {
    seq(|bs|, i requires 0 <= i < |bs| => DecodeUse(bs[i]))
  }

  function DecodeOne(w: WireMessage): seq<Message> {
    match w
    case WireMessage(UserRole, Text(t)) => [UserMessage(t)]
    case WireMessage(AssistantRole, Text(t)) => [AssistantMessage(t)]
    case WireMessage(UserRole, Blocks(bs)) => seq(|bs|, i requires 0 <= i < |bs| => DecodeResult(bs[i]))
    case WireMessage(AssistantRole, Blocks(bs)) =>
      if bs != [] && bs[0].TextBlock? then [AssistantCalls(bs[0].text, DecodeUses(bs[1..]))]
      else [AssistantCalls("", DecodeUses(bs))]
  }

  function Decode(ws: seq<WireMessage>): seq<Message> {
    if ws == [] then [] else DecodeOne(ws[0]) + Decode(ws[1..])
  }

  lemma {:induction false} UsesDecode(calls: seq<ToolCall>)
    ensures DecodeUses(UseBlocks(calls)) == calls
  {
    var blocks := UseBlocks(calls);
    assert forall i :: 0 <= i < |calls| ==> DecodeUse(blocks[i]) == calls[i];
  }

  lemma {:induction false} DecodeAsking(m: Message)
    requires m.role != Tool && AsksTools(m)
    ensures DecodeOne(EncodeSpoken(m)) == [Visible(m)]
  {
    var calls := m.toolCalls.value;
    var blocks := UseBlocks(calls);
    UsesDecode(calls);
    if m.content != "" {
      var all := [TextBlock(m.content)] + blocks;
      assert all[0] == TextBlock(m.content) && all[1..] == blocks;
    } else {
      assert [] + blocks == blocks;
    }
  }

  lemma {:induction false} DecodeSpoken(m: Message)
    requires m.role != Tool
    ensures DecodeOne(EncodeSpoken(m)) == [Visible(m)]
  {
    if AsksTools(m) {
      DecodeAsking(m);
    }
  }

  /** How many messages the first wire message stands for. */
  function FirstRun(ms: seq<Message>): (n: nat)
    requires ms != []
    ensures 0 < n <= |ms|
  {
    if ms[0].role == Tool then ToolRun(ms) else 1
  }

  lemma {:induction false} FirstIsDecoded(ms: seq<Message>)
    requires ms != []
    ensures var n := FirstRun(ms);
            && Encode(ms) != [] && Encode(ms)[1..] == Encode(ms[n..])
            && DecodeOne(Encode(ms)[0]) == VisibleAll(ms[..n])
  {
    var n := FirstRun(ms);
    if ms[0].role == Tool {
      assert DecodeOne(EncodeResults(ms[..n])) == VisibleAll(ms[..n]);
    } else {
      DecodeSpoken(ms[0]);
      assert VisibleAll(ms[..1]) == [Visible(ms[0])];
    }
  }

  lemma {:induction false} VisibleSplit(ms: seq<Message>, n: nat)
    requires n <= |ms|
    ensures VisibleAll(ms) == VisibleAll(ms[..n]) + VisibleAll(ms[n..])
  {
  }

  /** Decoding the encoded history gives back every message as a provider can see it. */
  lemma {:induction false} DecodeEncode(ms: seq<Message>)
    ensures Decode(Encode(ms)) == VisibleAll(ms)
    decreases |ms|
  {
    if ms != [] {
      var n := FirstRun(ms);
      FirstIsDecoded(ms);
      DecodeEncode(ms[n..]);
      VisibleSplit(ms, n);
    }
  }

  /** The encoder is invertible on exactly the canonical histories. */
  lemma {:induction false} EncoderIsInvertible(ms: seq<Message>)
    ensures Decode(Encode(ms)) == ms <==> forall i :: 0 <= i < |ms| ==> Canonical(ms[i])
  {
    DecodeEncode(ms);
    forall i | 0 <= i < |ms|
      ensures VisibleAll(ms)[i] == ms[i] <==> Canonical(ms[i])
    {
      CanonicalIsVisible(ms[i]);
    }
    if forall i :: 0 <= i < |ms| ==> Canonical(ms[i]) {
      assert VisibleAll(ms) == ms;
    }
  }

  predicate IsResults(w: WireMessage) {
    w.role == UserRole && w.body.Blocks?
  }

  /** Every maximal run of tool messages becomes one wire message: no two adjacent ones carry results. */
  lemma {:induction false} RunsAreMerged(ms: seq<Message>)
    ensures forall i :: 0 < i < |Encode(ms)| ==> !(IsResults(Encode(ms)[i - 1]) && IsResults(Encode(ms)[i]))
    ensures Encode(ms) != [] ==> (IsResults(Encode(ms)[0]) <==> ms[0].role == Tool)
    decreases |ms|
  {
    if ms != [] {
      var n := FirstRun(ms);
      RunsAreMerged(ms[n..]);
      assert Encode(ms)[1..] == Encode(ms[n..]);
    }
  }

  // ----- what the API accepts

  function UseIdsOf(bs: seq<Block>): seq<Option<string>> {
    if bs == [] then [] else (if bs[0].ToolUse? then [Some(bs[0].id)] else []) + UseIdsOf(bs[1..])
  }

  function UseIds(w: WireMessage): seq<Option<string>> {
    match w.body
    case Text(_) => []
    case Blocks(bs) => UseIdsOf(bs)
  }

  function ResultIdsOf(bs: seq<Block>): seq<Option<string>> {
    if bs == [] then [] else (if bs[0].ToolResult? then [bs[0].toolUseId] else []) + ResultIdsOf(bs[1..])
  }

  function ResultIds(w: WireMessage): seq<Option<string>> {
    match w.body
    case Text(_) => []
    case Blocks(bs) => ResultIdsOf(bs)
  }

  /** Roles alternate from user; every message with tool uses is followed at once by the results for
      exactly those ids in order, and results come nowhere else. */
  ghost predicate Linked(ws: seq<WireMessage>) {
    && (forall i :: 0 <= i < |ws| ==> ws[i].role == if i % 2 == 0 then UserRole else AssistantRole)
    && (forall i :: 0 <= i < |ws| && UseIds(ws[i]) != [] ==> i + 1 < |ws|)
    && (forall i :: 0 < i < |ws| ==> ResultIds(ws[i]) == UseIds(ws[i - 1]))
    && (ws != [] ==> ResultIds(ws[0]) == [])
  }

  /** A request the API accepts: linked, and it starts and ends with a user message. */
  ghost predicate Legal(ws: seq<WireMessage>) {
    Linked(ws) && ws != [] && ws[0].role == UserRole && ws[|ws| - 1].role == UserRole
  }

  lemma {:induction false} LinksMeet(a: seq<WireMessage>, b: seq<WireMessage>, i: nat)
    requires Linked(a) && Linked(b) && 0 < i < |a| + |b|
    ensures ResultIds((a + b)[i]) == UseIds((a + b)[i - 1])
  {
    var ws := a + b;
    if i < |a| {
      assert ws[i] == a[i] && ws[i - 1] == a[i - 1];
    } else if i == |a| {
      assert ws[i] == b[0] && ws[i - 1] == a[|a| - 1];
      assert UseIds(a[|a| - 1]) == [];
    } else {
      var j := i - |a|;
      assert ws[i] == b[j] && ws[i - 1] == b[j - 1];
    }
  }

  /** A complete exchange may be followed by any other. */
  lemma {:induction false} LinkedAppend(a: seq<WireMessage>, b: seq<WireMessage>)
    requires Linked(a) && Linked(b) && |a| % 2 == 0
    ensures Linked(a + b)
  {
    var ws := a + b;
    forall i | 0 < i < |ws|
      ensures ResultIds(ws[i]) == UseIds(ws[i - 1])
    {
      LinksMeet(a, b, i);
    }
    forall i | 0 <= i < |ws|
      ensures ws[i].role == if i % 2 == 0 then UserRole else AssistantRole
    {
      assert ws[i] == if i < |a| then a[i] else b[i - |a|];
    }
    assert ws != [] ==> ws[|ws| - 1] == if b == [] then a[|a| - 1] else b[|b| - 1];
    assert ws != [] ==> ws[0] == if a == [] then b[0] else a[0];
  }

  lemma {:induction false} AnswersFollow(a: seq<WireMessage>, uses: WireMessage, results: WireMessage, i: nat)
    requires Linked(a) && a != [] && 0 < i < |a| + 2
    requires ResultIds(uses) == [] && ResultIds(results) == UseIds(uses)
    ensures var ws := a + [uses, results]; ResultIds(ws[i]) == UseIds(ws[i - 1])
  {
    var ws := a + [uses, results];
    if i < |a| {
      assert ws[i] == a[i] && ws[i - 1] == a[i - 1];
    } else if i == |a| {
      assert ws[i] == uses && ws[i - 1] == a[|a| - 1];
    } else {
      assert ws[i] == results && ws[i - 1] == uses;
    }
  }

  /** A tool round may be appended to an open exchange. */
  lemma {:induction false} LinkedRound(a: seq<WireMessage>, uses: WireMessage, results: WireMessage)
    requires Linked(a) && |a| % 2 == 1
    requires uses.role == AssistantRole && results.role == UserRole
    requires ResultIds(uses) == [] && UseIds(results) == [] && ResultIds(results) == UseIds(uses)
    ensures Linked(a + [uses, results]) && |a + [uses, results]| % 2 == 1
  {
    var ws := a + [uses, results];
    forall i | 0 < i < |ws|
      ensures ResultIds(ws[i]) == UseIds(ws[i - 1])
    {
      AnswersFollow(a, uses, results, i);
    }
    forall i | 0 <= i < |ws|
      ensures ws[i].role == if i % 2 == 0 then UserRole else AssistantRole
    {
      if i < |a| { assert ws[i] == a[i]; }
    }
    assert ws[|a| + 1] == results;
    assert ws[0] == a[0];
  }
}
