/** The provider-agnostic conversation history. Tool arguments are kept as their serialised text. */
module Messages {
  import opened Collections

  datatype Role = User | Assistant | Tool

  datatype ToolCall = ToolCall(id: string, name: string, arguments: string)

  datatype Message = Message(
    role: Role, content: string, toolCalls: Option<seq<ToolCall>>, toolCallId: Option<string>, isError: bool)

  function UserMessage(text: string): Message {
    Message(User, text, None, None, false)
  }

  function AssistantMessage(text: string): Message {
    Message(Assistant, text, None, None, false)
  }

  function AssistantCalls(text: string, calls: seq<ToolCall>): Message {
    Message(Assistant, text, Some(calls), None, false)
  }

  function ToolMessage(id: Option<string>, text: string, isError: bool): Message {
    Message(Tool, text, None, id, isError)
  }

  /** An assistant message that asked for tools; an empty list counts as none. */
  predicate AsksTools(m: Message) {
    m.role == Assistant && m.toolCalls.Some? && m.toolCalls.value != []
  }

  /** What a provider can see of a message: the fields that matter for its role. */
  function Visible(m: Message): Message {
    match m.role
    case Tool => ToolMessage(m.toolCallId, m.content, m.isError)
    case User => UserMessage(m.content)
    case Assistant => if AsksTools(m) then AssistantCalls(m.content, m.toolCalls.value) else AssistantMessage(m.content)
  }

  function VisibleAll(ms: seq<Message>): (r: seq<Message>)
    ensures |r| == |ms| && forall i :: 0 <= i < |ms| ==> r[i] == Visible(ms[i])
  {
    seq(|ms|, i requires 0 <= i < |ms| => Visible(ms[i]))
  }

  /** Tool calls only on assistant messages and never an empty list; result fields only on tool messages. */
  predicate Canonical(m: Message) {
    && (m.role != Tool ==> m.toolCallId.None? && !m.isError)
    && (m.toolCalls.Some? ==> m.role == Assistant && m.toolCalls.value != [])
  }

  /** A message is seen unchanged exactly when it is canonical. */
  lemma {:induction false} CanonicalIsVisible(m: Message)
    ensures Visible(m) == m <==> Canonical(m)
  {
  }
}
