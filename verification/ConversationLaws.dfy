/** What holds of every call, whatever the caller says, the LLM answers and the tools do. */
module ConversationLaws {
  import opened Collections
  import opened Text
  import opened Messages
  import opened StructuredReply
  import opened SpeechPath
  import opened Conversation
  import opened AnthropicWire
  import OpenAI = OpenAIWire

  // ----- every request is legal

  /** Every tool round of the log made at least one call. */
  ghost predicate ProperRounds(rounds: seq<Round>) {
    forall k :: 0 <= k < |rounds| ==> rounds[k].exchanges != []
  }

  ghost predicate ProperLog(log: seq<Turn>) {
    forall k :: 0 <= k < |log| ==> ProperRounds(log[k].rounds)
  }

  function CallIds(exchanges: seq<Exchange>): seq<Option<string>> {
    if exchanges == [] then [] else [Some(exchanges[0].call.id)] + CallIds(exchanges[1..])
  }

  lemma {:induction false} UsesCarryTheIds(exchanges: seq<Exchange>)
    ensures UseIdsOf(UseBlocks(Calls(exchanges))) == CallIds(exchanges)
    ensures ResultIdsOf(UseBlocks(Calls(exchanges))) == []
  {
    if exchanges != [] {
      UsesCarryTheIds(exchanges[1..]);
      assert UseBlocks(Calls(exchanges))[1..] == UseBlocks(Calls(exchanges[1..]));
    }
  }

  lemma {:induction false} AnswersCarryTheIds(exchanges: seq<Exchange>)
    ensures ResultIdsOf(ResultBlocks(Answers(exchanges))) == CallIds(exchanges)
    ensures UseIdsOf(ResultBlocks(Answers(exchanges))) == []
  {
    if exchanges != [] {
      AnswersCarryTheIds(exchanges[1..]);
      assert ResultBlocks(Answers(exchanges))[1..] == ResultBlocks(Answers(exchanges[1..]));
    }
  }

  lemma {:induction false} TextBeforeUses(text: string, uses: seq<Block>)
    ensures UseIdsOf([TextBlock(text)] + uses) == UseIdsOf(uses)
    ensures ResultIdsOf([TextBlock(text)] + uses) == ResultIdsOf(uses)
  {
  }

  /** The assistant message of a round asks for exactly the ids its results answer. */
  lemma {:induction false} RoundOnTheWire(r: Round) returns (uses: WireMessage, results: WireMessage)
    requires r.exchanges != []
    ensures Encode(RenderRound(r)) == [uses, results]
    ensures uses.role == AssistantRole && results.role == UserRole
    ensures ResultIds(uses) == [] && UseIds(results) == []
    ensures UseIds(uses) == ResultIds(results) == CallIds(r.exchanges)
  {
    var asking, answers := AssistantCalls(r.content, Calls(r.exchanges)), Answers(r.exchanges);
    uses, results := EncodeSpoken(asking), EncodeResults(answers);
    EncodeOne(asking);
    EncodeRun(answers);
    EncodeAppend([asking], answers);
    UsesCarryTheIds(r.exchanges);
    AnswersCarryTheIds(r.exchanges);
    var blocks := UseBlocks(Calls(r.exchanges));
    TextBeforeUses(r.content, blocks);
    assert [] + blocks == blocks;
  }

  lemma {:induction false} OpenStartsWithTheCaller(callerText: string, rounds: seq<Round>)
    ensures RenderOpen(callerText, rounds) != [] && RenderOpen(callerText, rounds)[0] == UserMessage(callerText)
  {
    if rounds != [] {
      OpenStartsWithTheCaller(callerText, rounds[..|rounds| - 1]);
    }
  }

  lemma {:induction false} TurnStartsWithTheCaller(t: Turn)
    ensures Render(t) != [] && Render(t)[0].role == User
  {
    OpenStartsWithTheCaller(t.callerText, t.rounds);
  }

  /** The messages encode to a linked list that any other exchange may follow. */
  ghost predicate Complete(ms: seq<Message>) {
    Linked(Encode(ms)) && |Encode(ms)| % 2 == 0
  }

  /** A complete exchange followed by any linked one stays linked when both are encoded together. */
  lemma {:induction false} EncodedAppend(a: seq<Message>, b: seq<Message>)
    requires Complete(a) && Linked(Encode(b))
    requires a != [] && b != [] ==> b[0].role == User
    ensures Linked(Encode(a + b)) && |Encode(a + b)| == |Encode(a)| + |Encode(b)|
  {
    EncodeAppend(a, b);
    LinkedAppend(Encode(a), Encode(b));
  }

  lemma {:induction false} CompleteAppend(a: seq<Message>, b: seq<Message>)
    requires Complete(a) && Complete(b)
    requires a != [] && b != [] ==> b[0].role == User
    ensures Complete(a + b)
  {
    EncodedAppend(a, b);
  }

  /** A tool round may follow an unanswered turn. */
  lemma {:induction false} EncodedRound(a: seq<Message>, r: Round)
    requires Linked(Encode(a)) && |Encode(a)| % 2 == 1 && r.exchanges != []
    ensures Linked(Encode(a + RenderRound(r))) && |Encode(a + RenderRound(r))| % 2 == 1
  {
    var uses, results := RoundOnTheWire(r);
    var before := Encode(a);
    EncodeAppend(a, RenderRound(r));
    assert Encode(a + RenderRound(r)) == before + [uses, results];
    LinkedRound(before, uses, results);
  }

  /** An unanswered turn is linked on the wire and ends with a user message. */
  lemma {:induction false} OpenTurnOnTheWire(callerText: string, rounds: seq<Round>)
    requires ProperRounds(rounds)
    ensures Linked(Encode(RenderOpen(callerText, rounds)))
    ensures |Encode(RenderOpen(callerText, rounds))| % 2 == 1
  {
    if rounds == [] {
      EncodeOne(UserMessage(callerText));
    } else {
      var front, last := rounds[..|rounds| - 1], rounds[|rounds| - 1];
      OpenTurnOnTheWire(callerText, front);
      EncodedRound(RenderOpen(callerText, front), last);
    }
  }

  lemma {:induction false} LinkedReply(a: seq<WireMessage>, reply: WireMessage)
    requires Linked(a) && |a| % 2 == 1
    requires reply.role == AssistantRole && ResultIds(reply) == [] && UseIds(reply) == []
    ensures Linked(a + [reply]) && |a + [reply]| % 2 == 0
  {
    var ws := a + [reply];
    assert UseIds(a[|a| - 1]) == [];
    forall i | 0 < i < |ws|
      ensures ResultIds(ws[i]) == UseIds(ws[i - 1])
    {
      if i < |a| { assert ws[i] == a[i] && ws[i - 1] == a[i - 1]; }
    }
    forall i | 0 <= i < |ws|
      ensures ws[i].role == if i % 2 == 0 then UserRole else AssistantRole
    {
      if i < |a| { assert ws[i] == a[i]; }
    }
    assert ws[0] == a[0];
  }

  /** An answered turn is linked and even, so any other exchange may follow it. */
  lemma {:induction false} TurnOnTheWire(t: Turn)
    requires ProperRounds(t.rounds)
    ensures Complete(Render(t))
  {
    var open, last := RenderOpen(t.callerText, t.rounds), AssistantMessage(t.reply);
    OpenTurnOnTheWire(t.callerText, t.rounds);
    EncodeOne(last);
    EncodeAppend(open, [last]);
    var before, reply := Encode(open), EncodeSpoken(last);
    assert reply == WireMessage(AssistantRole, Text(t.reply));
    assert Encode(open + [last]) == before + [reply];
    LinkedReply(before, reply);
  }

  lemma {:induction false} LogOnTheWire(log: seq<Turn>)
    requires ProperLog(log)
    ensures Complete(RenderAll(log))
  {
    if log != [] {
      var front, last := log[..|log| - 1], log[|log| - 1];
      LogOnTheWire(front);
      TurnOnTheWire(last);
      TurnStartsWithTheCaller(last);
      CompleteAppend(RenderAll(front), Render(last));
    }
  }

  lemma {:induction false} OddIsLegal(ws: seq<WireMessage>)
    requires Linked(ws) && |ws| % 2 == 1
    ensures Legal(ws)
  {
  }

  lemma {:induction false} EncodedRequest(a: seq<Message>, b: seq<Message>)
    requires Complete(a) && Linked(Encode(b)) && |Encode(b)| % 2 == 1
    requires b != [] && b[0].role == User
    ensures Legal(Encode(a + b))
  {
    EncodedAppend(a, b);
    OddIsLegal(Encode(a + b));
  }

  /** A log followed by an open turn encodes to a legal request. */
  lemma {:induction false} RequestIsLegal(log: seq<Turn>, callerText: string, rounds: seq<Round>)
    requires ProperLog(log) && ProperRounds(rounds)
    ensures Legal(Encode(RenderAll(log) + RenderOpen(callerText, rounds)))
  {
    LogOnTheWire(log);
    OpenTurnOnTheWire(callerText, rounds);
    OpenStartsWithTheCaller(callerText, rounds);
    EncodedRequest(RenderAll(log), RenderOpen(callerText, rounds));
  }

  // ----- the same for OpenAI's format

  predicate AnswersCall(w: OpenAI.WireMessage, call: OpenAI.FunctionCall) {
    w.ToolReply? && w.toolCallId == Some(call.id)
  }

  /** `ws` starts with one reply per call, ids in order. */
  ghost predicate Answered(ws: seq<OpenAI.WireMessage>, calls: seq<OpenAI.FunctionCall>) {
    |calls| <= |ws| && forall j :: 0 <= j < |calls| ==> AnswersCall(ws[j], calls[j])
  }

  /** Every message with calls is followed at once by one reply per call, ids in order, and replies
      come nowhere else. */
  ghost predicate Paired(ws: seq<OpenAI.WireMessage>)
    decreases |ws|
  {
    ws == [] ||
    match ws[0]
    case Plain(_, _) => Paired(ws[1..])
    case ToolReply(_, _) => false
    case Request(_, calls) => calls != [] && Answered(ws[1..], calls) && Paired(ws[1..][|calls|..])
  }

  lemma {:induction false} AnsweredBefore(a: seq<OpenAI.WireMessage>, b: seq<OpenAI.WireMessage>,
                                          calls: seq<OpenAI.FunctionCall>)
    requires Answered(a, calls)
    ensures Answered(a + b, calls) && (a + b)[|calls|..] == a[|calls|..] + b
  {
  }

  lemma {:induction false} PairedAppend(a: seq<OpenAI.WireMessage>, b: seq<OpenAI.WireMessage>)
    requires Paired(a) && Paired(b)
    ensures Paired(a + b)
    decreases |a|
  {
    if a == [] {
      assert a + b == b;
    } else {
      var rest := a[1..];
      assert (a + b)[1..] == rest + b;
      if a[0].Request? {
        AnsweredBefore(rest, b, a[0].calls);
        PairedAppend(rest[|a[0].calls|..], b);
      } else {
        PairedAppend(rest, b);
      }
    }
  }

  lemma {:induction false} EncodeJoin(a: seq<Message>, b: seq<Message>)
    ensures OpenAI.Encode(a + b) == OpenAI.Encode(a) + OpenAI.Encode(b)
  {
  }

  lemma {:induction false} PairedJoin(a: seq<Message>, b: seq<Message>)
    requires Paired(OpenAI.Encode(a)) && Paired(OpenAI.Encode(b))
    ensures Paired(OpenAI.Encode(a + b))
  {
    EncodeJoin(a, b);
    PairedAppend(OpenAI.Encode(a), OpenAI.Encode(b));
  }

  lemma {:induction false} PlainIsPaired(m: Message)
    requires m.role != Tool && !AsksTools(m)
    ensures Paired(OpenAI.Encode([m]))
  {
  }

  lemma {:induction false} RoundIsPaired(r: Round)
    requires r.exchanges != []
    ensures Paired(OpenAI.Encode(RenderRound(r)))
  {
    var asking, replies := AssistantCalls(r.content, Calls(r.exchanges)), OpenAI.Encode(Answers(r.exchanges));
    EncodeJoin([asking], Answers(r.exchanges));
    assert OpenAI.Encode([asking]) == [OpenAI.EncodeOne(asking)];
    assert ([OpenAI.EncodeOne(asking)] + replies)[1..] == replies;
    assert replies[|r.exchanges|..] == [];
  }

  lemma {:induction false} OpenTurnIsPaired(callerText: string, rounds: seq<Round>)
    requires ProperRounds(rounds)
    ensures Paired(OpenAI.Encode(RenderOpen(callerText, rounds)))
  {
    if rounds == [] {
      PlainIsPaired(UserMessage(callerText));
    } else {
      var front, last := rounds[..|rounds| - 1], rounds[|rounds| - 1];
      OpenTurnIsPaired(callerText, front);
      RoundIsPaired(last);
      PairedJoin(RenderOpen(callerText, front), RenderRound(last));
    }
  }

  lemma {:induction false} LogIsPaired(log: seq<Turn>)
    requires ProperLog(log)
    ensures Paired(OpenAI.Encode(RenderAll(log)))
  {
    if log != [] {
      var front, last := log[..|log| - 1], log[|log| - 1];
      LogIsPaired(front);
      OpenTurnIsPaired(last.callerText, last.rounds);
      PlainIsPaired(AssistantMessage(last.reply));
      PairedJoin(RenderOpen(last.callerText, last.rounds), [AssistantMessage(last.reply)]);
      PairedJoin(RenderAll(front), Render(last));
    }
  }

  // ----- in every run

  /** A request is whole answered turns, at most as many as the history keeps, and then one open turn. */
  ghost predicate Shaped(request: seq<Message>, limit: nat) {
    exists log, callerText, rounds ::
      ProperLog(log) && ProperRounds(rounds) && (limit > 0 ==> |log| <= limit)
      && request == RenderAll(log) + RenderOpen(callerText, rounds)
  }

  ghost predicate AllShaped(requests: seq<seq<Message>>, limit: nat) {
    forall k :: 0 <= k < |requests| ==> Shaped(requests[k], limit)
  }

  lemma {:induction false} RequestsAreShaped(cfg: Config, log: seq<Turn>, callerText: string, rounds: seq<Round>,
                                             calls: nat)
    requires ProperLog(log) && ProperRounds(rounds) && calls <= |rounds| + 1
    ensures AllShaped(Requests(History(cfg, log), callerText, rounds, calls), cfg.maxHistoryTurns)
  {
  }

  lemma {:induction false} UtterIsShaped(cfg: Config, s: Session, callerText: string, now: real, o: Oracle)
    requires ProperLog(s.log)
    ensures ProperLog(Utter(cfg, s, callerText, now, o).session.log)
    ensures AllShaped(Utter(cfg, s, callerText, now, o).requests, cfg.maxHistoryTurns)
  {
    var n := ToolRounds(o, 0, IterationLimit(cfg));
    var rounds := Rounds(cfg, o, n);
    RequestsAreShaped(cfg, s.log, callerText, rounds, n);
    RequestsAreShaped(cfg, s.log, callerText, rounds, n + 1);
  }

  lemma {:induction false} HandleIsShaped(cfg: Config, s: Session, e: Event)
    requires ProperLog(s.log)
    ensures ProperLog(Handle(cfg, s, e).session.log) && AllShaped(Handle(cfg, s, e).requests, cfg.maxHistoryTurns)
  {
    if cfg.hasTools || !e.streaming {
      UtterIsShaped(cfg, s, e.callerText, e.now, e.oracle);
    } else {
      RequestsAreShaped(cfg, s.log, e.callerText, [], 1);
      assert Requests(History(cfg, s.log), e.callerText, [], 1) == [History(cfg, s.log) + [UserMessage(e.callerText)]];
    }
  }

  /** The turn grammar survives every run: whatever fails, each request is whole turns and an open one. */
  lemma {:induction false} EveryRequestIsShaped(cfg: Config, events: seq<Event>)
    ensures AllShaped(Run(cfg, NEW_SESSION, events).requests, cfg.maxHistoryTurns)
    ensures ProperLog(Run(cfg, NEW_SESSION, events).session.log)
  {
    if events != [] {
      var front := events[..|events| - 1];
      EveryRequestIsShaped(cfg, front);
      HandleIsShaped(cfg, Run(cfg, NEW_SESSION, front).session, events[|events| - 1]);
    }
  }

  lemma {:induction false} ShapedIsLegal(request: seq<Message>, limit: nat)
    requires Shaped(request, limit)
    ensures Legal(Encode(request)) && Paired(OpenAI.Encode(request))
  {
    var log, callerText, rounds :|
      ProperLog(log) && ProperRounds(rounds) && (limit > 0 ==> |log| <= limit)
      && request == RenderAll(log) + RenderOpen(callerText, rounds);
    RequestIsLegal(log, callerText, rounds);
    LogIsPaired(log);
    OpenTurnIsPaired(callerText, rounds);
    PairedJoin(RenderAll(log), RenderOpen(callerText, rounds));
  }

  /** In every run, every message list sent to the LLM is legal in both formats. For Anthropic: roles
      alternate, it starts and ends with user, tool uses and results match id by id. For OpenAI: each
      tool request is followed by exactly its replies. */
  lemma {:induction false} EveryRequestIsLegal(cfg: Config, events: seq<Event>, k: nat)
    requires k < |Run(cfg, NEW_SESSION, events).requests|
    ensures var request := Run(cfg, NEW_SESSION, events).requests[k];
            Legal(Encode(request)) && Paired(OpenAI.Encode(request))
  {
    EveryRequestIsShaped(cfg, events);
    ShapedIsLegal(Run(cfg, NEW_SESSION, events).requests[k], cfg.maxHistoryTurns);
  }

  // ----- the log

  /** One utterance either leaves the log alone, and then the reply is the fallback or the call-limit
      transfer, or appends exactly the turn it answered. */
  lemma {:induction false} OnlyAnsweredTurnsAreLogged(cfg: Config, s: Session, e: Event)
    ensures var out := Handle(cfg, s, e);
            || (out.session.log == s.log && out.reply in {FALLBACK_REPLY, CALL_LIMIT_REPLY})
            || (exists rounds :: out.session.log == s.log + [Turn(e.callerText, rounds, out.reply.text)])
  {
  }

  // ----- the cost bound

  /** `turns` times `cap`, as a sum. */
  function Budget(turns: nat, cap: nat): nat {
    if turns == 0 then 0 else Budget(turns - 1, cap) + cap
  }

  lemma {:induction false} BudgetIsProduct(turns: nat, cap: nat)
    ensures Budget(turns, cap) == turns * cap
  {
    if turns > 0 {
      BudgetIsProduct(turns - 1, cap);
    }
  }

  lemma {:induction false} BudgetGrows(a: nat, b: nat, cap: nat)
    requires a <= b
    ensures Budget(a, cap) <= Budget(b, cap)
    decreases b
  {
    if a < b {
      BudgetGrows(a, b - 1, cap);
    }
  }

  /** At most one turn a step, and requests, at most `cap` of them, only if it is a turn. */
  ghost predicate Metered(s: Session, out: Outcome, cap: nat) {
    || (out.session.turnCount == s.turnCount && out.requests == [])
    || (out.session.turnCount == s.turnCount + 1 && |out.requests| <= cap)
  }

  ghost predicate AllMetered(step: (Session, Event) -> Outcome, cap: nat) {
    forall s, e :: Metered(s, step(s, e), cap)
  }

  lemma {:induction false} MeteredRun(step: (Session, Event) -> Outcome, cap: nat, start: Session, events: seq<Event>)
    requires AllMetered(step, cap)
    ensures var call := RunWith(step, start, events);
            && start.turnCount <= call.session.turnCount
            && |call.requests| <= Budget(call.session.turnCount - start.turnCount, cap)
  {
    if events != [] {
      var front, last := events[..|events| - 1], events[|events| - 1];
      MeteredRun(step, cap, start, front);
      assert Metered(RunWith(step, start, front).session, step(RunWith(step, start, front).session, last), cap);
    }
  }

  lemma {:induction false} HandleIsMetered(cfg: Config, s: Session, e: Event)
    ensures Metered(s, Handle(cfg, s, e), RequestCap(cfg))
  {
  }

  lemma {:induction false} HandlerIsMetered(cfg: Config)
    ensures AllMetered(Handler(cfg), RequestCap(cfg))
  {
    forall s, e
      ensures Metered(s, Handler(cfg)(s, e), RequestCap(cfg))
    {
      HandleIsMetered(cfg, s, e);
    }
  }

  ghost predicate WithinBudget(call: Call, cap: nat) {
    |call.requests| <= Budget(call.session.turnCount, cap)
  }

  lemma {:induction false} MeteredFromNew(step: (Session, Event) -> Outcome, cap: nat, events: seq<Event>)
    requires AllMetered(step, cap)
    ensures WithinBudget(RunWith(step, NEW_SESSION, events), cap)
  {
    MeteredRun(step, cap, NEW_SESSION, events);
  }

  lemma {:induction false} RequestsWithinBudget(cfg: Config, events: seq<Event>)
    ensures WithinBudget(Run(cfg, NEW_SESSION, events), RequestCap(cfg))
  {
    HandlerIsMetered(cfg);
    MeteredFromNew(Handler(cfg), RequestCap(cfg), events);
  }

  /** LLM requests never exceed turns times the per-turn cap. */
  lemma {:induction false} CostIsBounded(cfg: Config, events: seq<Event>)
    ensures var call := Run(cfg, NEW_SESSION, events);
            |call.requests| <= call.session.turnCount * RequestCap(cfg)
  {
    RequestsWithinBudget(cfg, events);
    BudgetIsProduct(Run(cfg, NEW_SESSION, events).session.turnCount, RequestCap(cfg));
  }

  /** A cap on turns is never exceeded. */
  lemma {:induction false} TurnsAreCapped(cfg: Config, events: seq<Event>, turns: nat)
    requires cfg.maxConversationTurns == Some(turns)
    ensures Run(cfg, NEW_SESSION, events).session.turnCount <= turns
  {
    if events != [] {
      var front := events[..|events| - 1];
      TurnsAreCapped(cfg, front, turns);
    }
  }

  /** With a cap on turns, a whole call makes at most that many turns' worth of LLM requests. */
  lemma {:induction false} TotalCost(cfg: Config, events: seq<Event>, turns: nat)
    requires cfg.maxConversationTurns == Some(turns)
    ensures |Run(cfg, NEW_SESSION, events).requests| <= turns * RequestCap(cfg)
  {
    RequestsWithinBudget(cfg, events);
    TurnsAreCapped(cfg, events, turns);
    BudgetGrows(Run(cfg, NEW_SESSION, events).session.turnCount, turns, RequestCap(cfg));
    BudgetIsProduct(turns, RequestCap(cfg));
  }

  ghost predicate NotBefore(events: seq<Event>, t: real) {
    forall k :: 0 <= k < |events| ==> events[k].now >= t
  }

  /** Once a cap is hit it stays hit: under a clock that does not run backwards, every later
      utterance transfers the caller, calls no LLM, and changes neither the log nor the turn count. */
  lemma {:induction false} CapsAreFinal(cfg: Config, s: Session, t: real, events: seq<Event>)
    requires LimitReached(cfg, s.turnCount, t) && NotBefore(events, t)
    ensures var call := Run(cfg, s, events);
            && call.requests == []
            && call.session.log == s.log && call.session.turnCount == s.turnCount
            && |call.replies| == |events|
            && (forall k :: 0 <= k < |events| ==> call.replies[k] == CALL_LIMIT_REPLY)
  {
    if events != [] {
      var front := events[..|events| - 1];
      CapsAreFinal(cfg, s, t, front);
      assert LimitReached(cfg, s.turnCount, events[|events| - 1].now);
    }
  }

  // ----- streaming simulates batch

  /** The batch oracle that returns the streamed text as one completion, or the same failure. */
  function Batch(stream: Stream): Oracle {
    Oracle((k: nat) => if stream.failed then ProviderError else Completion(Flatten(stream.deltas), None),
           (k: nat, j: nat) => Raised)
  }

  /** Two logs of the same shape whose replies agree up to surrounding whitespace. */
  ghost predicate SameTurn(a: Turn, b: Turn) {
    a.callerText == b.callerText && a.rounds == b.rounds && Strip(a.reply) == Strip(b.reply)
  }

  ghost predicate SameLog(a: seq<Turn>, b: seq<Turn>) {
    |a| == |b| && forall k :: 0 <= k < |a| ==> SameTurn(a[k], b[k])
  }

  lemma {:induction false} BatchRounds(cfg: Config, stream: Stream)
    requires cfg.maxToolIterations > 0
    ensures ToolRounds(Batch(stream), 0, IterationLimit(cfg)) == 0
    ensures Rounds(cfg, Batch(stream), 0) == []
  {
  }

  /** The batch call on the streamed text: one request, and an answer unless the provider fails. */
  lemma {:induction false} BatchOutcome(cfg: Config, s: Session, callerText: string, now: real, stream: Stream)
    requires cfg.maxToolIterations > 0 && !LimitReached(cfg, s.turnCount, now)
    ensures var out := Utter(cfg, s, callerText, now, Batch(stream));
            var p := ParseStructuredReply(cfg.lower, Flatten(stream.deltas));
            var answered := s.log + [Turn(callerText, [], p.reply)];
            && |out.requests| == 1
            && out.session == Session(if stream.failed then s.log else answered, s.turnCount + 1, s.lastReply)
            && out.reply == if stream.failed then FALLBACK_REPLY
                            else AgentReply(p.reply, p.intent, IsTransferIntent(p.intent))
  {
    BatchRounds(cfg, stream);
  }

  /** The streamed call: one request, and an answer unless the provider fails. */
  lemma {:induction false} LiveOutcome(cfg: Config, s: Session, callerText: string, now: real, o: Oracle,
                                       stream: Stream)
    requires !cfg.hasTools && !LimitReached(cfg, s.turnCount, now)
    ensures var out := UtterStream(cfg, s, callerText, now, o, stream);
            var f := Conclude(cfg.lower, AbsorbAll(stream.deltas));
            var answered := s.log + [Turn(callerText, [], f.text)];
            && |out.requests| == 1
            && out.session == Session(if stream.failed then s.log else answered, s.turnCount + 1, Some(out.reply))
            && out.reply == if stream.failed then FALLBACK_REPLY
                            else AgentReply(f.text, f.intent, IsTransferIntent(f.intent))
  {
  }

  lemma {:induction false} OneTurnMore(a: seq<Turn>, b: seq<Turn>, x: Turn, y: Turn)
    requires |a| == |b|
    ensures SameLog(a + [x], b + [y]) <==> SameLog(a, b) && SameTurn(x, y)
  {
    var c, d := a + [x], b + [y];
    assert c[|a|] == x && d[|a|] == y;
    assert forall k :: 0 <= k < |a| ==> c[k] == a[k] && d[k] == b[k];
  }

  lemma {:induction false} RepliesAgree(cfg: Config, deltas: seq<string>)
    ensures var f, p := Conclude(cfg.lower, AbsorbAll(deltas)), ParseStructuredReply(cfg.lower, Flatten(deltas));
            && f.intent == p.intent
            && (Strip(f.text) == Strip(p.reply) <==> !BlankBeforeMarker(Flatten(deltas)))
  {
    ExtractorRefinesParser(cfg.lower, deltas);
    var text := Flatten(deltas);
    StripTwice(text);
    StripTwice(Speakable(text));
  }

  /** An answer on either side: the logs and texts agree up to whitespace, or the replies literally,
      exactly when the stream allows it. */
  lemma {:induction false} AnswersAgreeIff(cfg: Config, a: seq<Turn>, b: seq<Turn>, callerText: string,
                                           deltas: seq<string>)
    requires SameLog(a, b)
    ensures var f, p := Conclude(cfg.lower, AbsorbAll(deltas)), ParseStructuredReply(cfg.lower, Flatten(deltas));
            && f.intent == p.intent
            && (SameLog(a + [Turn(callerText, [], f.text)], b + [Turn(callerText, [], p.reply)])
                && Strip(f.text) == Strip(p.reply)
                <==> !BlankBeforeMarker(Flatten(deltas)))
            && (f.text == p.reply <==> Verbatim(deltas))
  {
    var f, p := Conclude(cfg.lower, AbsorbAll(deltas)), ParseStructuredReply(cfg.lower, Flatten(deltas));
    RepliesAgree(cfg, deltas);
    TextsAreEqualIff(cfg.lower, deltas);
    OneTurnMore(a, b, Turn(callerText, [], f.text), Turn(callerText, [], p.reply));
  }

  /** Without tools, the fully consumed stream simulates the batch call on the same LLM text: same
      intent, transfer flag, turn count, request and log shape. The replies are the same up to
      surrounding whitespace exactly when the text does not have a marker with only whitespace before
      it, and literally the same exactly when the stream is verbatim. */
  lemma {:induction false} StreamSimulatesBatch(cfg: Config, s: Session, b: Session, callerText: string, now: real,
                                                o: Oracle, stream: Stream)
    requires !cfg.hasTools && cfg.maxToolIterations > 0
    requires s.turnCount == b.turnCount && SameLog(s.log, b.log)
    ensures var live := UtterStream(cfg, s, callerText, now, o, stream);
            var batch := Utter(cfg, b, callerText, now, Batch(stream));
            && live.session.lastReply == Some(live.reply)
            && live.reply.intent == batch.reply.intent
            && live.reply.transferToHuman == batch.reply.transferToHuman
            && live.session.turnCount == batch.session.turnCount
            && |live.session.log| == |batch.session.log| && |live.requests| == |batch.requests|
            && (SameLog(live.session.log, batch.session.log) && Strip(live.reply.text) == Strip(batch.reply.text)
                <==> stream.failed || LimitReached(cfg, s.turnCount, now) || !BlankBeforeMarker(Flatten(stream.deltas)))
            && (live.reply == batch.reply
                <==> stream.failed || LimitReached(cfg, s.turnCount, now) || Verbatim(stream.deltas))
  {
    if !LimitReached(cfg, s.turnCount, now) {
      LiveOutcome(cfg, s, callerText, now, o, stream);
      BatchOutcome(cfg, b, callerText, now, stream);
      if !stream.failed {
        AnswersAgreeIff(cfg, s.log, b.log, callerText, stream.deltas);
      }
    }
  }

  // ----- and whole calls do

  /** The event is answered by the LLM: within the caps, and without a provider failure. */
  predicate IsAnswered(cfg: Config, turnCount: nat, e: Event) {
    !LimitReached(cfg, turnCount, e.now) && !e.stream.failed
  }

  function BatchEvent(e: Event): Event {
    Event(e.callerText, e.now, Batch(e.stream), e.stream, false)
  }

  /** One streamed event and the same event handled by the batch call. */
  lemma {:induction false} EventSimulates(cfg: Config, s: Session, b: Session, e: Event)
    requires !cfg.hasTools && cfg.maxToolIterations > 0 && e.streaming && s.turnCount == b.turnCount
    ensures var live, batch := Handle(cfg, s, e), Handle(cfg, b, BatchEvent(e));
            var x := Turn(e.callerText, [], live.reply.text);
            var y := Turn(e.callerText, [], batch.reply.text);
            && live.reply.intent == batch.reply.intent
            && live.reply.transferToHuman == batch.reply.transferToHuman
            && live.session.turnCount == batch.session.turnCount
            && |live.requests| == |batch.requests|
            && live.session.log == (if IsAnswered(cfg, s.turnCount, e) then s.log + [x] else s.log)
            && batch.session.log == (if IsAnswered(cfg, s.turnCount, e) then b.log + [y] else b.log)
            && (!IsAnswered(cfg, s.turnCount, e) ==> live.reply == batch.reply)
            && (IsAnswered(cfg, s.turnCount, e) ==>
                  && (SameTurn(x, y) <==> !BlankBeforeMarker(Flatten(e.stream.deltas)))
                  && (x == y <==> Verbatim(e.stream.deltas))
                  && (live.reply == batch.reply <==> Verbatim(e.stream.deltas)))
  {
    if !LimitReached(cfg, s.turnCount, e.now) {
      LiveOutcome(cfg, s, e.callerText, e.now, e.oracle, e.stream);
      BatchOutcome(cfg, b, e.callerText, e.now, e.stream);
    }
    if IsAnswered(cfg, s.turnCount, e) {
      RepliesAgree(cfg, e.stream.deltas);
      TextsAreEqualIff(cfg.lower, e.stream.deltas);
    }
  }

  function BatchEvents(events: seq<Event>): (r: seq<Event>)
    ensures |r| == |events| && forall k :: 0 <= k < |r| ==> r[k] == BatchEvent(events[k])
  {
    seq(|events|, k requires 0 <= k < |events| => BatchEvent(events[k]))
  }

  ghost predicate AllStreamed(events: seq<Event>) {
    forall k :: 0 <= k < |events| ==> events[k].streaming
  }

  /** The deltas of the events a call answers, in order. */
  function AnsweredStreams(cfg: Config, events: seq<Event>): seq<seq<string>> {
    if events == [] then []
    else
      var front, last := events[..|events| - 1], events[|events| - 1];
      AnsweredStreams(cfg, front)
      + if IsAnswered(cfg, Run(cfg, NEW_SESSION, front).session.turnCount, last) then [last.stream.deltas] else []
  }

  ghost predicate NoneBlankBeforeMarker(streams: seq<seq<string>>) {
    forall k :: 0 <= k < |streams| ==> !BlankBeforeMarker(Flatten(streams[k]))
  }

  ghost predicate AllVerbatim(streams: seq<seq<string>>) {
    forall k :: 0 <= k < |streams| ==> Verbatim(streams[k])
  }

  lemma {:induction false} OneStreamMore(streams: seq<seq<string>>, last: seq<string>)
    ensures NoneBlankBeforeMarker(streams + [last])
            <==> NoneBlankBeforeMarker(streams) && !BlankBeforeMarker(Flatten(last))
    ensures AllVerbatim(streams + [last]) <==> AllVerbatim(streams) && Verbatim(last)
  {
    var all := streams + [last];
    assert all[|streams|] == last;
    assert forall k :: 0 <= k < |streams| ==> all[k] == streams[k];
  }

  lemma {:induction false} LastDiffers<T>(a: seq<T>, b: seq<T>, x: T, y: T)
    requires |a| == |b|
    ensures a + [x] == b + [y] <==> a == b && x == y
  {
    if a + [x] == b + [y] {
      assert (a + [x])[|a|] == (b + [y])[|b|];
      assert a == (a + [x])[..|a|] && b == (b + [y])[..|b|];
    }
  }

  /** Same intents and transfers, event by event. */
  ghost predicate SameDecisions(a: seq<AgentReply>, b: seq<AgentReply>) {
    && |a| == |b|
    && forall k :: 0 <= k < |a| ==> a[k].intent == b[k].intent && a[k].transferToHuman == b[k].transferToHuman
  }

  /** Two calls that agree on all but the texts, and on these as far as the answered streams allow. */
  ghost predicate Simulates(live: Call, batch: Call, streams: seq<seq<string>>) {
    && SameDecisions(live.replies, batch.replies)
    && live.session.turnCount == batch.session.turnCount
    && |live.requests| == |batch.requests| && |live.session.log| == |batch.session.log|
    && (SameLog(live.session.log, batch.session.log) <==> NoneBlankBeforeMarker(streams))
    && (live.session.log == batch.session.log <==> AllVerbatim(streams))
    && (live.replies == batch.replies <==> AllVerbatim(streams))
  }

  /** A call after one more event. */
  function AfterEvent(call: Call, out: Outcome): Call {
    Call(out.session, call.requests + out.requests, call.replies + [out.reply])
  }

  /** An answered event adds one turn, one reply and one stream on either side. */
  lemma {:induction false} AnswerExtends(live: Call, batch: Call, streams: seq<seq<string>>, out: Outcome,
                                         other: Outcome, x: Turn, y: Turn, deltas: seq<string>)
    requires Simulates(live, batch, streams)
    requires out.reply.intent == other.reply.intent && out.reply.transferToHuman == other.reply.transferToHuman
    requires out.session.turnCount == other.session.turnCount && |out.requests| == |other.requests|
    requires out.session.log == live.session.log + [x] && other.session.log == batch.session.log + [y]
    requires SameTurn(x, y) <==> !BlankBeforeMarker(Flatten(deltas))
    requires (x == y <==> Verbatim(deltas)) && (out.reply == other.reply <==> Verbatim(deltas))
    ensures Simulates(AfterEvent(live, out), AfterEvent(batch, other), streams + [deltas])
  {
    OneStreamMore(streams, deltas);
    LastDiffers(live.replies, batch.replies, out.reply, other.reply);
    LastDiffers(live.session.log, batch.session.log, x, y);
    OneTurnMore(live.session.log, batch.session.log, x, y);
  }

  lemma {:induction false} OneAnswerMore(cfg: Config, live: Call, batch: Call, streams: seq<seq<string>>, e: Event)
    requires !cfg.hasTools && cfg.maxToolIterations > 0 && e.streaming && Simulates(live, batch, streams)
    requires IsAnswered(cfg, live.session.turnCount, e)
    ensures Simulates(AfterEvent(live, Handle(cfg, live.session, e)),
                      AfterEvent(batch, Handle(cfg, batch.session, BatchEvent(e))), streams + [e.stream.deltas])
  {
    var out, other := Handle(cfg, live.session, e), Handle(cfg, batch.session, BatchEvent(e));
    EventSimulates(cfg, live.session, batch.session, e);
    AnswerExtends(live, batch, streams, out, other, Turn(e.callerText, [], out.reply.text),
                  Turn(e.callerText, [], other.reply.text), e.stream.deltas);
  }

  lemma {:induction false} NoAnswerMore(cfg: Config, live: Call, batch: Call, streams: seq<seq<string>>, e: Event)
    requires !cfg.hasTools && cfg.maxToolIterations > 0 && e.streaming && Simulates(live, batch, streams)
    requires !IsAnswered(cfg, live.session.turnCount, e)
    ensures Simulates(AfterEvent(live, Handle(cfg, live.session, e)),
                      AfterEvent(batch, Handle(cfg, batch.session, BatchEvent(e))), streams)
  {
    var out, other := Handle(cfg, live.session, e), Handle(cfg, batch.session, BatchEvent(e));
    EventSimulates(cfg, live.session, batch.session, e);
    LastDiffers(live.replies, batch.replies, out.reply, other.reply);
  }

  lemma {:induction false} RunOneMore(cfg: Config, events: seq<Event>)
    requires events != []
    ensures var n := |events| - 1;
            var before := Run(cfg, NEW_SESSION, events[..n]);
            Run(cfg, NEW_SESSION, events) == AfterEvent(before, Handle(cfg, before.session, events[n]))
  {
  }

  /** A whole call without tools, streamed or not: every caller gets the same decisions, after the same
      number of turns and requests; the recorded turns are the same up to surrounding whitespace exactly
      when no answered completion has a marker with only whitespace before it, and turns and replies are
      literally the same exactly when every answered stream is verbatim. */
  lemma {:induction false} CallSimulates(cfg: Config, events: seq<Event>)
    requires !cfg.hasTools && cfg.maxToolIterations > 0 && AllStreamed(events)
    ensures Simulates(Run(cfg, NEW_SESSION, events), Run(cfg, NEW_SESSION, BatchEvents(events)),
                      AnsweredStreams(cfg, events))
  {
    if events != [] {
      var n := |events| - 1;
      var front := events[..n];
      CallSimulates(cfg, front);
      RunOneMore(cfg, events);
      RunOneMore(cfg, BatchEvents(events));
      assert BatchEvents(events)[..n] == BatchEvents(front);
      var live, batch := Run(cfg, NEW_SESSION, front), Run(cfg, NEW_SESSION, BatchEvents(front));
      if IsAnswered(cfg, live.session.turnCount, events[n]) {
        OneAnswerMore(cfg, live, batch, AnsweredStreams(cfg, front), events[n]);
      } else {
        NoAnswerMore(cfg, live, batch, AnsweredStreams(cfg, front), events[n]);
        assert AnsweredStreams(cfg, front) + [] == AnsweredStreams(cfg, front);
      }
    }
  }

  /** The batch call answers a plain completion exactly when it may ask at least once; with no
      iterations allowed it always falls back, without calling the LLM. */
  lemma {:induction false} BatchNeedsAnIteration(cfg: Config, s: Session, callerText: string, now: real, stream: Stream)
    requires !stream.failed && !LimitReached(cfg, s.turnCount, now)
    ensures var batch := Utter(cfg, s, callerText, now, Batch(stream));
            && (batch.session.log != s.log <==> cfg.maxToolIterations > 0)
            && (batch.requests != [] <==> cfg.maxToolIterations > 0)
            && (cfg.maxToolIterations <= 0 ==> batch.reply == FALLBACK_REPLY)
  {
  }

  /** A completion in the prompted shape, streamed in any chunks, is answered with its intent, and the
      caller is transferred exactly for an urgent matter or when a human is asked for. The text is the
      reply, followed by the newline before the marker only when the completing delta starts with the
      marker's last character. */
  lemma {:induction false} EscalationFollowsTheLabel(cfg: Config, s: Session, callerText: string, now: real,
                                                     o: Oracle, stream: Stream, reply: string, intent: Intent)
    requires !cfg.hasTools && !stream.failed && !LimitReached(cfg, s.turnCount, now)
    requires Flatten(stream.deltas) == Prompted(reply, intent)
    requires Find(reply, INTENT_MARKER) == -1 && Strip(reply) == reply != ""
    requires cfg.lower(LabelOf(intent)) == LabelOf(intent)
    ensures Find(Flatten(stream.deltas), INTENT_MARKER) == |reply| + 1
    ensures var live := UtterStream(cfg, s, callerText, now, o, stream);
            && live.reply.text == (if Before(stream.deltas) == |reply| + |INTENT_MARKER| then reply + "\n" else reply)
            && live.reply.intent == intent
            && (live.reply.transferToHuman <==> intent in {Urgent, HumanTransfer})
  {
    LiveOutcome(cfg, s, callerText, now, o, stream);
    PromptedShapeParses(cfg.lower, reply, intent);
    IntentsAgree(cfg.lower, stream.deltas);
    PromptedText(cfg.lower, stream.deltas, reply, intent);
  }

  /** On success the pieces yielded to the speech node concatenate to the text of `last_reply`. */
  lemma {:induction false} YieldedConcatenatesToReply(cfg: Config, s: Session, callerText: string, now: real,
                                                      o: Oracle, stream: Stream)
    requires cfg.hasTools || LimitReached(cfg, s.turnCount, now) || !stream.failed
    ensures var live := UtterStream(cfg, s, callerText, now, o, stream);
            Flatten(live.yielded) == live.reply.text && "" !in live.yielded
  {
    var live := UtterStream(cfg, s, callerText, now, o, stream);
    FlattenSingle(live.reply.text);
    YieldedIsTheReply(cfg.lower, stream.deltas);
  }
}
