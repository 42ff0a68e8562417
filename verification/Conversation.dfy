/** One call's conversation, as a log of answered turns. The LLM and the tool executor are arbitrary
    oracles that may fail at every request. `ConversationManager` keeps a flat, trimmed message list
    instead of the log; that file proves the two agree. */
module Conversation {
  import opened Collections
  import opened Messages
  import opened StructuredReply
  import opened SpeechPath

  const FALLBACK_MESSAGE: string :=
    "I'm sorry, I'm having trouble processing that right now. Let me transfer you to a member of our team."

  const CALL_LIMIT_MESSAGE: string :=
    "We've been on the line for a while -- let me transfer you to a member of our team so we can keep helping you."

  datatype AgentReply = AgentReply(text: string, intent: Intent, transferToHuman: bool)

  const FALLBACK_REPLY: AgentReply := AgentReply(FALLBACK_MESSAGE, General, true)

  const CALL_LIMIT_REPLY: AgentReply := AgentReply(CALL_LIMIT_MESSAGE, HumanTransfer, true)

  predicate IsTransferIntent(intent: Intent) {
    intent == HumanTransfer || intent == Urgent
  }

  /** The constructor's arguments; `lower` is the lower-casing function, times are in seconds. */
  datatype Config = Config(
    lower: string -> string,
    maxHistoryTurns: nat,
    hasTools: bool,
    maxToolIterations: int,
    maxConversationTurns: Option<int>,
    maxCallDuration: Option<real>,
    startedAt: real)

  // ----- the oracles

  datatype LLMOutcome = ProviderError | Completion(content: string, toolCalls: Option<seq<ToolCall>>)

  datatype ToolOutcome = Raised | Returned(text: string, isError: bool)

  /** What the LLM answers to the k-th request of one utterance, and what the j-th tool call of the
      k-th answer produces. */
  datatype Oracle = Oracle(llm: nat -> LLMOutcome, tool: (nat, nat) -> ToolOutcome)

  /** A streamed completion: its deltas, and whether the provider failed after them. */
  datatype Stream = Stream(deltas: seq<string>, failed: bool)

  // ----- turns

  datatype Exchange = Exchange(call: ToolCall, answer: string, isError: bool)

  datatype Round = Round(content: string, exchanges: seq<Exchange>)

  datatype Turn = Turn(callerText: string, rounds: seq<Round>, reply: string)

  function Calls(exchanges: seq<Exchange>): seq<ToolCall> {
    seq(|exchanges|, i requires 0 <= i < |exchanges| => exchanges[i].call)
  }

  function Answers(exchanges: seq<Exchange>): (r: seq<Message>)
    ensures |r| == |exchanges|
    ensures forall i :: 0 <= i < |r|
                        ==> r[i] == ToolMessage(Some(exchanges[i].call.id), exchanges[i].answer, exchanges[i].isError)
  {
    seq(|exchanges|, i requires 0 <= i < |exchanges| =>
      ToolMessage(Some(exchanges[i].call.id), exchanges[i].answer, exchanges[i].isError))
  }

  function RenderRound(r: Round): seq<Message> {
    [AssistantCalls(r.content, Calls(r.exchanges))] + Answers(r.exchanges)
  }

  /** A turn not yet answered: what the LLM is shown of it after some tool rounds. */
  function RenderOpen(callerText: string, rounds: seq<Round>): seq<Message> {
    if rounds == [] then [UserMessage(callerText)]
    else RenderOpen(callerText, rounds[..|rounds| - 1]) + RenderRound(rounds[|rounds| - 1])
  }

  function Render(t: Turn): seq<Message> {
    RenderOpen(t.callerText, t.rounds) + [AssistantMessage(t.reply)]
  }

  function RenderAll(log: seq<Turn>): seq<Message> {
    if log == [] then [] else RenderAll(log[..|log| - 1]) + Render(log[|log| - 1])
  }

  lemma {:induction false} RenderAppend(a: seq<Turn>, b: seq<Turn>)
    ensures RenderAll(a + b) == RenderAll(a) + RenderAll(b)
    decreases |b|
  {
    if b == [] {
      assert a + b == a;
    } else {
      var front, last := b[..|b| - 1], b[|b| - 1];
      assert (a + b)[..|a + b| - 1] == a + front;
      RenderAppend(a, front);
      Regroup(RenderAll(a), RenderAll(front), Render(last));
    }
  }

  /** The turns kept in the history. A limit of 0 keeps every turn: the cut-off index is then the
      first user message. */
  function Kept(log: seq<Turn>, limit: nat): seq<Turn> {
    if limit == 0 then log else LastN(log, limit)
  }

  /** The message list that stands for a log. */
  function History(cfg: Config, log: seq<Turn>): seq<Message> {
    RenderAll(Kept(log, cfg.maxHistoryTurns))
  }

  /** The documented bound, "at most `limit` turns", holds for every log exactly when the limit is positive. */
  lemma {:induction false} HistoryBoundHolds(limit: nat)
    ensures (forall log: seq<Turn> :: |Kept(log, limit)| <= limit) <==> limit > 0
  {
    if limit == 0 {
      var t := Turn("", [], "");
      assert |Kept([t], 0)| == 1;
    }
  }

  // ----- one utterance

  datatype Session = Session(log: seq<Turn>, turnCount: nat, lastReply: Option<AgentReply>)

  const NEW_SESSION: Session := Session([], 0, None)

  /** What one utterance does: the new session, the reply, every message list sent to the LLM, and
      the pieces of text yielded (streaming only). */
  datatype Outcome = Outcome(session: Session, reply: AgentReply, requests: seq<seq<Message>>, yielded: seq<string>)

  predicate LimitReached(cfg: Config, turnCount: nat, now: real) {
    || (cfg.maxConversationTurns.Some? && turnCount >= cfg.maxConversationTurns.value)
    || (cfg.maxCallDuration.Some? && now - cfg.startedAt >= cfg.maxCallDuration.value)
  }

  predicate WantsTools(outcome: LLMOutcome) {
    outcome.Completion? && outcome.toolCalls.Some? && outcome.toolCalls.value != []
  }

  function ExecuteTool(cfg: Config, call: ToolCall, outcome: ToolOutcome): Exchange {
    if !cfg.hasTools then Exchange(call, "Tool '" + call.name + "' is not available.", true)
    else match outcome
      case Raised => Exchange(call, "An internal error occurred while executing this action.", true)
      case Returned(text, isError) => Exchange(call, text, isError)
  }

  function ExecuteAll(cfg: Config, calls: seq<ToolCall>, o: Oracle, k: nat): (r: seq<Exchange>)
    ensures |r| == |calls| && forall j :: 0 <= j < |r| ==> r[j] == ExecuteTool(cfg, calls[j], o.tool(k, j))
  {
    seq(|calls|, j requires 0 <= j < |calls| => ExecuteTool(cfg, calls[j], o.tool(k, j)))
  }

  /** The k-th tool round. */
  function RoundAt(cfg: Config, o: Oracle, k: nat): Round
    requires WantsTools(o.llm(k))
  {
    Round(o.llm(k).content, ExecuteAll(cfg, o.llm(k).toolCalls.value, o, k))
  }

  /** How many answers in a row, from the k-th on, ask for tools, up to `limit`. */
  function ToolRounds(o: Oracle, k: nat, limit: nat): (n: nat)
    requires k <= limit
    ensures k <= n <= limit
    ensures forall i :: k <= i < n ==> WantsTools(o.llm(i))
    ensures n < limit ==> !WantsTools(o.llm(n))
    decreases limit - k
  {
    if k == limit || !WantsTools(o.llm(k)) then k else ToolRounds(o, k + 1, limit)
  }

  function Rounds(cfg: Config, o: Oracle, n: nat): (r: seq<Round>)
    requires forall i :: 0 <= i < n ==> WantsTools(o.llm(i))
    ensures |r| == n && forall i :: 0 <= i < n ==> r[i] == RoundAt(cfg, o, i)
  {
    seq(n, i requires 0 <= i < n => RoundAt(cfg, o, i))
  }

  /** The message lists of the first `calls` requests of a turn. */
  function Requests(history: seq<Message>, callerText: string, rounds: seq<Round>, calls: nat): (r: seq<seq<Message>>)
    requires calls <= |rounds| + 1
    ensures |r| == calls && forall k :: 0 <= k < calls ==> r[k] == history + RenderOpen(callerText, rounds[..k])
  {
    seq(calls, k requires 0 <= k < calls => history + RenderOpen(callerText, rounds[..k]))
  }

  function IterationLimit(cfg: Config): nat {
    if cfg.maxToolIterations < 0 then 0 else cfg.maxToolIterations
  }

  /** An answered turn joins the log with all its tool rounds; a turn that fails, or that is still
      asking for tools at the iteration limit, counts as a turn and leaves nothing else behind. */
  function Utter(cfg: Config, s: Session, callerText: string, now: real, o: Oracle): Outcome {
    if LimitReached(cfg, s.turnCount, now) then Outcome(s, CALL_LIMIT_REPLY, [], [])
    else
      var limit := IterationLimit(cfg);
      var n := ToolRounds(o, 0, limit);
      var rounds := Rounds(cfg, o, n);
      var history := History(cfg, s.log);
      var counted := s.(turnCount := s.turnCount + 1);
      if n == limit then Outcome(counted, FALLBACK_REPLY, Requests(history, callerText, rounds, n), [])
      else
        var requests := Requests(history, callerText, rounds, n + 1);
        match o.llm(n)
        case ProviderError => Outcome(counted, FALLBACK_REPLY, requests, [])
        case Completion(content, _) =>
          var p := ParseStructuredReply(cfg.lower, content);
          var reply := AgentReply(p.reply, p.intent, IsTransferIntent(p.intent));
          Outcome(counted.(log := s.log + [Turn(callerText, rounds, p.reply)]), reply, requests, [])
  }

  /** The streaming counterpart, fully consumed. With tools configured it falls back to `Utter`. */
  function UtterStream(cfg: Config, s: Session, callerText: string, now: real, o: Oracle, stream: Stream): Outcome {
    if cfg.hasTools then
      var u := Utter(cfg, s, callerText, now, o);
      var yielded := if u.reply.text == "" then [] else [u.reply.text];
      Outcome(u.session.(lastReply := Some(u.reply)), u.reply, u.requests, yielded)
    else if LimitReached(cfg, s.turnCount, now) then
      Outcome(s.(lastReply := Some(CALL_LIMIT_REPLY)), CALL_LIMIT_REPLY, [], [CALL_LIMIT_MESSAGE])
    else
      var counted := s.(turnCount := s.turnCount + 1);
      var requests := [History(cfg, s.log) + [UserMessage(callerText)]];
      if stream.failed then
        Outcome(counted.(lastReply := Some(FALLBACK_REPLY)), FALLBACK_REPLY, requests,
                NonEmpty(SpokenBy(stream.deltas)) + [FALLBACK_MESSAGE])
      else
        var f := Conclude(cfg.lower, AbsorbAll(stream.deltas));
        var reply := AgentReply(f.text, f.intent, IsTransferIntent(f.intent));
        Outcome(Session(s.log + [Turn(callerText, [], f.text)], s.turnCount + 1, Some(reply)), reply, requests,
                Yielded(stream.deltas))
  }

  // ----- a whole call

  datatype Event = Event(callerText: string, now: real, oracle: Oracle, stream: Stream, streaming: bool)

  /** The most LLM requests one utterance can make. */
  function RequestCap(cfg: Config): nat {
    if cfg.hasTools then IterationLimit(cfg) else if IterationLimit(cfg) == 0 then 1 else IterationLimit(cfg)
  }

  /** An utterance within the caps counts as one turn; one beyond them calls no LLM. */
  function Handle(cfg: Config, s: Session, e: Event): (out: Outcome)
    ensures |out.requests| <= RequestCap(cfg)
    ensures LimitReached(cfg, s.turnCount, e.now) ==> out.session.turnCount == s.turnCount && out.requests == []
    ensures !LimitReached(cfg, s.turnCount, e.now) ==> out.session.turnCount == s.turnCount + 1
  {
    if e.streaming then UtterStream(cfg, s, e.callerText, e.now, e.oracle, e.stream)
    else Utter(cfg, s, e.callerText, e.now, e.oracle)
  }

  datatype Call = Call(session: Session, requests: seq<seq<Message>>, replies: seq<AgentReply>)

  /** The events handled one after another, each by `step`. */
  function RunWith(step: (Session, Event) -> Outcome, start: Session, events: seq<Event>): Call {
    if events == [] then Call(start, [], [])
    else
      var before := RunWith(step, start, events[..|events| - 1]);
      var out := step(before.session, events[|events| - 1]);
      Call(out.session, before.requests + out.requests, before.replies + [out.reply])
  }

  function Handler(cfg: Config): (Session, Event) -> Outcome {
    (s, e) => Handle(cfg, s, e)
  }

  function Run(cfg: Config, start: Session, events: seq<Event>): Call {
    RunWith(Handler(cfg), start, events)
  }
}
