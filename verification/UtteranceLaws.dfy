/** What one utterance does, in terms of what the LLM answered and the tools returned: which lists are sent,
    message by message, what is replied, what is logged, and who is transferred. */
module UtteranceLaws {
  import opened Collections
  import opened Text
  import opened Messages
  import opened StructuredReply
  import opened SpeechPath
  import opened Conversation
  import Manager = ConversationManager

  // ----- what the model is shown of a tool round

  /** A completion with at least one tool call. */
  predicate Asks(answer: LLMOutcome) {
    answer.Completion? && answer.toolCalls.Some? && answer.toolCalls.value != []
  }

  /** The first `n` answers ask for tools, and the next one does not, unless it would be beyond the limit. */
  ghost predicate AsksTimes(o: Oracle, n: nat, limit: int) {
    && (forall j :: 0 <= j < n ==> Asks(o.llm(j)))
    && (n <= limit || n == 0) && (n < limit ==> !Asks(o.llm(n)))
  }

  /** The message tells what became of one call: what the tool returned, or why it did not. */
  predicate TellsResult(m: Message, hasTools: bool, call: ToolCall, outcome: ToolOutcome) {
    && m.role == Tool && m.toolCalls == None && m.toolCallId == Some(call.id)
    && (!hasTools ==> m.content == "Tool '" + call.name + "' is not available." && m.isError)
    && (hasTools && outcome.Raised? ==>
          m.content == "An internal error occurred while executing this action." && m.isError)
    && (hasTools && outcome.Returned? ==> m.content == outcome.text && m.isError == outcome.isError)
  }

  /** The j-th answer with its calls, and then one result per call, in order. */
  ghost predicate TellsRound(ms: seq<Message>, hasTools: bool, o: Oracle, j: nat)
    requires Asks(o.llm(j))
  {
    var calls := o.llm(j).toolCalls.value;
    && |ms| == 1 + |calls|
    && ms[0] == Message(Assistant, o.llm(j).content, Some(calls), None, false)
    && forall i :: 0 <= i < |calls| ==> TellsResult(ms[1 + i], hasTools, calls[i], o.tool(j, i))
  }

  ghost predicate TellsRounds(rounds: seq<seq<Message>>, hasTools: bool, o: Oracle)
    requires forall j :: 0 <= j < |rounds| ==> Asks(o.llm(j))
  {
    forall j :: 0 <= j < |rounds| ==> TellsRound(rounds[j], hasTools, o, j)
  }

  /** What the caller said, as it stands in the history. */
  function Heard(callerText: string): Message {
    Message(User, callerText, None, None, false)
  }

  lemma {:induction false} RoundTells(cfg: Config, o: Oracle, j: nat)
    requires Asks(o.llm(j))
    ensures TellsRound(RenderRound(RoundAt(cfg, o, j)), cfg.hasTools, o, j)
  {
    var calls := o.llm(j).toolCalls.value;
    var exchanges := ExecuteAll(cfg, calls, o, j);
    var ms := RenderRound(RoundAt(cfg, o, j));
    assert Calls(exchanges) == calls;
    forall i | 0 <= i < |calls|
      ensures TellsResult(ms[1 + i], cfg.hasTools, calls[i], o.tool(j, i))
    {
      assert ms[1 + i] == Answers(exchanges)[i];
    }
  }

  /** Each round as its own list of messages. */
  function Apart(rounds: seq<Round>): (r: seq<seq<Message>>)
    ensures |r| == |rounds| && forall j :: 0 <= j < |rounds| ==> r[j] == RenderRound(rounds[j])
  {
    seq(|rounds|, j requires 0 <= j < |rounds| => RenderRound(rounds[j]))
  }

  lemma {:induction false} OpenIsApart(callerText: string, rounds: seq<Round>)
    ensures RenderOpen(callerText, rounds) == [Heard(callerText)] + Flatten(Apart(rounds))
  {
    if rounds == [] {
      assert [Heard(callerText)] + Flatten(Apart(rounds)) == [Heard(callerText)];
    } else {
      var front, last := rounds[..|rounds| - 1], rounds[|rounds| - 1];
      OpenIsApart(callerText, front);
      assert Apart(rounds) == Apart(front) + [RenderRound(last)];
      FlattenSnoc(Apart(front), RenderRound(last));
      Regroup([Heard(callerText)], Flatten(Apart(front)), RenderRound(last));
    }
  }

  // ----- what the model is shown of earlier turns

  /** A logged round, as messages. */
  ghost predicate TellsExchanges(ms: seq<Message>, r: Round) {
    && |ms| == 1 + |r.exchanges|
    && ms[0].role == Assistant && ms[0].content == r.content && ms[0].toolCalls.Some?
    && |ms[0].toolCalls.value| == |r.exchanges|
    && forall i :: 0 <= i < |r.exchanges| ==>
         var x := r.exchanges[i];
         && ms[0].toolCalls.value[i] == x.call
         && ms[1 + i] == Message(Tool, x.answer, None, Some(x.call.id), x.isError)
  }

  lemma {:induction false} RoundIsTold(r: Round)
    ensures TellsExchanges(RenderRound(r), r)
  {
  }

  /** A logged turn, as messages: what the caller said, every round, and the reply. */
  ghost predicate TellsTurn(ms: seq<Message>, t: Turn) {
    exists rounds: seq<seq<Message>> ::
      && |rounds| == |t.rounds|
      && (forall j :: 0 <= j < |rounds| ==> TellsExchanges(rounds[j], t.rounds[j]))
      && ms == ([Heard(t.callerText)] + Flatten(rounds)) + [Message(Assistant, t.reply, None, None, false)]
  }

  lemma {:induction false} TurnIsTold(t: Turn)
    ensures TellsTurn(Render(t), t)
  {
    var rounds := Apart(t.rounds);
    OpenIsApart(t.callerText, t.rounds);
    forall j | 0 <= j < |rounds|
      ensures TellsExchanges(rounds[j], t.rounds[j])
    {
      RoundIsTold(t.rounds[j]);
    }
  }

  ghost predicate TellsTurns(turns: seq<seq<Message>>, log: seq<Turn>) {
    |turns| == |log| && forall i :: 0 <= i < |turns| ==> TellsTurn(turns[i], log[i])
  }

  function TurnsApart(log: seq<Turn>): (r: seq<seq<Message>>)
    ensures |r| == |log| && forall i :: 0 <= i < |log| ==> r[i] == Render(log[i])
  {
    seq(|log|, i requires 0 <= i < |log| => Render(log[i]))
  }

  lemma {:induction false} LogIsApart(log: seq<Turn>)
    ensures RenderAll(log) == Flatten(TurnsApart(log))
  {
    if log != [] {
      var front, last := log[..|log| - 1], log[|log| - 1];
      LogIsApart(front);
      assert TurnsApart(log) == TurnsApart(front) + [Render(last)];
      FlattenSnoc(TurnsApart(front), Render(last));
    }
  }

  lemma {:induction false} TurnsAreTold(log: seq<Turn>)
    ensures TellsTurns(TurnsApart(log), log)
  {
    var turns := TurnsApart(log);
    forall i | 0 <= i < |log|
      ensures TellsTurn(turns[i], log[i])
    {
      TurnIsTold(log[i]);
    }
  }

  lemma {:induction false} KeptIs(log: seq<Turn>, limit: nat) returns (kept: seq<Turn>)
    ensures kept == log[|log| - (if limit == 0 || |log| < limit then |log| else limit)..] == Kept(log, limit)
  {
    kept := Kept(log, limit);
  }

  /** The history of a session is its last turns, as many as the limit allows and all without one, whole and
      message by message. */
  lemma {:induction false} HistoryIsTold(cfg: Config, log: seq<Turn>)
    returns (kept: seq<Turn>, turns: seq<seq<Message>>)
    ensures var limit := cfg.maxHistoryTurns;
            kept == log[|log| - (if limit == 0 || |log| < limit then |log| else limit)..]
    ensures TellsTurns(turns, kept) && History(cfg, log) == Flatten(turns)
  {
    kept := KeptIs(log, cfg.maxHistoryTurns);
    turns := TurnsApart(kept);
    LogIsApart(kept);
    TurnsAreTold(kept);
  }

  // ----- one utterance

  /** A cap on turns or on time is reached. */
  predicate AtCap(cfg: Config, turnCount: nat, now: real) {
    || (cfg.maxConversationTurns.Some? && turnCount >= cfg.maxConversationTurns.value)
    || (cfg.maxCallDuration.Some? && now >= cfg.startedAt + cfg.maxCallDuration.value)
  }

  /** At a cap, and only there, the caller is transferred with a fixed message, no LLM is called and nothing
      changes; every other utterance counts as a turn. */
  lemma {:induction false} CapTransfers(cfg: Config, s: Session, callerText: string, now: real, o: Oracle,
                                        stream: Stream)
    ensures var out, live := Utter(cfg, s, callerText, now, o), UtterStream(cfg, s, callerText, now, o, stream);
            if AtCap(cfg, s.turnCount, now) then
              var transfer := AgentReply(CALL_LIMIT_MESSAGE, HumanTransfer, true);
              && out == Outcome(s, transfer, [], [])
              && live == Outcome(s.(lastReply := Some(transfer)), transfer, [], [CALL_LIMIT_MESSAGE])
            else
              out.session.turnCount == live.session.turnCount == s.turnCount + 1
  {
    assert CALL_LIMIT_MESSAGE != "" by { assert |CALL_LIMIT_MESSAGE| > 0; }
  }

  /** The escalating labels. */
  ghost predicate NamesTransfer(lower: string -> string, text: string) {
    var m := Find(text, "###INTENT:");
    m != -1 && lower(Strip(text[m + 10..])) in ["urgent", "human_transfer"]
  }

  /** The reply read off a completion: its parsed text, the intent its label names, and a transfer exactly for
      an urgent matter or a request for a human. */
  ghost predicate IsReadFrom(reply: AgentReply, text: string, lower: string -> string, completion: string) {
    && reply.text == text && IsIntentOf(reply.intent, lower, completion)
    && (reply.transferToHuman <==> NamesTransfer(lower, completion))
  }

  lemma {:induction false} LabelTransfers(lower: string -> string, text: string, intent: Intent)
    requires IsIntentOf(intent, lower, text)
    ensures IsTransferIntent(intent) <==> NamesTransfer(lower, text)
  {
    var m := Find(text, "###INTENT:");
    if m != -1 {
      var name := lower(Strip(text[m + 10..]));
      assert name in ["urgent", "human_transfer"] <==> name == "urgent" || name == "human_transfer";
    }
  }

  /** The `k` first rounds told, after the history and what the caller said. */
  ghost predicate IsRequest(request: seq<Message>, history: seq<Message>, callerText: string, rounds: seq<seq<Message>>)
  {
    request == history + ([Heard(callerText)] + Flatten(rounds))
  }

  ghost predicate AreRequests(requests: seq<seq<Message>>, history: seq<Message>, callerText: string,
                              rounds: seq<seq<Message>>)
    requires |requests| <= |rounds| + 1
  {
    forall k :: 0 <= k < |requests| ==> IsRequest(requests[k], history, callerText, rounds[..k])
  }

  lemma {:induction false} RoundsTell(cfg: Config, o: Oracle, n: nat)
    requires forall j :: 0 <= j < n ==> Asks(o.llm(j))
    ensures forall j :: 0 <= j < n ==> WantsTools(o.llm(j))
    ensures TellsRounds(Apart(Rounds(cfg, o, n)), cfg.hasTools, o)
  {
    var rounds := Apart(Rounds(cfg, o, n));
    forall j | 0 <= j < n
      ensures TellsRound(rounds[j], cfg.hasTools, o, j)
    {
      RoundTells(cfg, o, j);
    }
  }

  lemma {:induction false} RequestsAreApart(history: seq<Message>, callerText: string, rounds: seq<Round>, calls: nat)
    requires calls <= |rounds| + 1
    ensures AreRequests(Requests(history, callerText, rounds, calls), history, callerText, Apart(rounds))
  {
    var requests := Requests(history, callerText, rounds, calls);
    forall k | 0 <= k < calls
      ensures IsRequest(requests[k], history, callerText, Apart(rounds)[..k])
    {
      OpenIsApart(callerText, rounds[..k]);
      assert Apart(rounds[..k]) == Apart(rounds)[..k];
    }
  }

  lemma {:induction false} CountsRounds(cfg: Config, o: Oracle, n: nat)
    requires AsksTimes(o, n, cfg.maxToolIterations)
    ensures ToolRounds(o, 0, IterationLimit(cfg)) == n
    ensures n == IterationLimit(cfg) <==> n >= cfg.maxToolIterations
  {
    Manager.RoundsAreCounted(o, n, IterationLimit(cfg));
  }

  /** Every oracle asks for tools some number of times. */
  lemma {:induction false} SomeTimes(cfg: Config, o: Oracle) returns (n: nat)
    ensures AsksTimes(o, n, cfg.maxToolIterations)
  {
    n := ToolRounds(o, 0, IterationLimit(cfg));
  }

  /** An utterance within the caps whose first `n` answers ask for tools. Every list sent is the history, what
      the caller said, and each answer so far with the results of its calls; the last is the one that is
      answered, fails, or is the last allowed. */
  lemma {:induction false} RequestsTellEverything(cfg: Config, s: Session, callerText: string, now: real, o: Oracle,
                                                  n: nat)
    returns (rounds: seq<seq<Message>>)
    requires !AtCap(cfg, s.turnCount, now) && AsksTimes(o, n, cfg.maxToolIterations)
    ensures |rounds| == n && TellsRounds(rounds, cfg.hasTools, o)
    ensures var out := Utter(cfg, s, callerText, now, o);
            && |out.requests| == (if n < cfg.maxToolIterations then n + 1 else n)
            && AreRequests(out.requests, History(cfg, s.log), callerText, rounds)
  {
    RoundsTell(cfg, o, n);
    rounds := Apart(Rounds(cfg, o, n));
    CountsRounds(cfg, o, n);
    RequestsAreApart(History(cfg, s.log), callerText, Rounds(cfg, o, n), n);
    RequestsAreApart(History(cfg, s.log), callerText, Rounds(cfg, o, n), n + 1);
  }

  /** The turn has the text, the rounds as they were told, and the reply. */
  ghost predicate IsTurn(t: Turn, callerText: string, rounds: seq<seq<Message>>, reply: string) {
    && t.callerText == callerText && t.reply == reply && |t.rounds| == |rounds|
    && forall j :: 0 <= j < |rounds| ==> TellsExchanges(rounds[j], t.rounds[j])
  }

  lemma {:induction false} BatchReading(lower: string -> string, completion: string)
    ensures var p := ParseStructuredReply(lower, completion);
            IsReadFrom(AgentReply(p.reply, p.intent, IsTransferIntent(p.intent)), p.reply, lower, completion)
  {
    LabelDecides(lower, completion);
    LabelTransfers(lower, completion, ParseStructuredReply(lower, completion).intent);
  }

  /** When the next answer is a completion without calls, it is parsed, answered and logged with all its
      rounds. */
  lemma {:induction false} UtteranceIsAnswered(cfg: Config, s: Session, callerText: string, now: real, o: Oracle,
                                               n: nat)
    returns (rounds: seq<seq<Message>>, turn: Turn)
    requires !AtCap(cfg, s.turnCount, now) && AsksTimes(o, n, cfg.maxToolIterations)
    requires n < cfg.maxToolIterations && o.llm(n).Completion?
    ensures |rounds| == n && TellsRounds(rounds, cfg.hasTools, o)
    ensures var text := ParseStructuredReply(cfg.lower, o.llm(n).content).reply;
            var out := Utter(cfg, s, callerText, now, o);
            && IsReadFrom(out.reply, text, cfg.lower, o.llm(n).content)
            && IsTurn(turn, callerText, rounds, text)
            && out.session == Session(s.log + [turn], s.turnCount + 1, s.lastReply)
  {
    RoundsTell(cfg, o, n);
    CountsRounds(cfg, o, n);
    var content := o.llm(n).content;
    var p := ParseStructuredReply(cfg.lower, content);
    rounds, turn := Apart(Rounds(cfg, o, n)), Turn(callerText, Rounds(cfg, o, n), p.reply);
    BatchReading(cfg.lower, content);
    forall j | 0 <= j < n
      ensures TellsExchanges(rounds[j], turn.rounds[j])
    {
      RoundIsTold(turn.rounds[j]);
    }
  }

  /** When the provider fails, or every allowed answer asks for tools, the caller is transferred with the
      fallback message, and nothing but the turn count changes. */
  lemma {:induction false} UtteranceFails(cfg: Config, s: Session, callerText: string, now: real, o: Oracle, n: nat)
    requires !AtCap(cfg, s.turnCount, now) && AsksTimes(o, n, cfg.maxToolIterations)
    requires n >= cfg.maxToolIterations || o.llm(n).ProviderError?
    ensures var out := Utter(cfg, s, callerText, now, o);
            && out.reply == AgentReply(FALLBACK_MESSAGE, General, true)
            && out.session == Session(s.log, s.turnCount + 1, s.lastReply)
  {
    CountsRounds(cfg, o, n);
  }

  // ----- the same, streamed

  /** With tools configured the streaming call is the batch call on the same oracle: same reply, requests, log
      and turn count; the reply is recorded, and yielded in one piece unless it is empty. */
  lemma {:induction false} StreamWithTools(cfg: Config, s: Session, callerText: string, now: real, o: Oracle,
                                           stream: Stream)
    requires cfg.hasTools
    ensures var out, live := Utter(cfg, s, callerText, now, o), UtterStream(cfg, s, callerText, now, o, stream);
            && live.reply == out.reply && live.requests == out.requests
            && live.session == Session(out.session.log, out.session.turnCount, Some(out.reply))
            && live.yielded == if out.reply.text == "" then [] else [out.reply.text]
  {
  }

  lemma {:induction false} StreamedReply(lower: string -> string, deltas: seq<string>)
    ensures var f := Conclude(lower, AbsorbAll(deltas));
            IsReadFrom(AgentReply(f.text, f.intent, IsTransferIntent(f.intent)), f.text, lower, Flatten(deltas))
  {
    IntentIsRead(lower, deltas);
    LabelTransfers(lower, Flatten(deltas), Conclude(lower, AbsorbAll(deltas)).intent);
  }

  /** Without tools: one request, the history and what the caller said. A stream that ends is answered with
      the extractor's text and the intent its label names, recorded and logged; all of the text is yielded,
      in order. */
  lemma {:induction false} StreamIsAnswered(cfg: Config, s: Session, callerText: string, now: real, o: Oracle,
                                            stream: Stream)
    requires !cfg.hasTools && !AtCap(cfg, s.turnCount, now) && !stream.failed
    ensures var live := UtterStream(cfg, s, callerText, now, o, stream);
            var text := Conclude(cfg.lower, AbsorbAll(stream.deltas)).text;
            && live.requests == [History(cfg, s.log) + [Heard(callerText)]]
            && IsReadFrom(live.reply, text, cfg.lower, Flatten(stream.deltas))
            && live.session == Session(s.log + [Turn(callerText, [], text)], s.turnCount + 1, Some(live.reply))
            && Flatten(live.yielded) == text && "" !in live.yielded
  {
    StreamedReply(cfg.lower, stream.deltas);
    YieldedIsTheReply(cfg.lower, stream.deltas);
  }

  /** A stream that fails: what had been released has been spoken, the fallback message follows, the caller is
      transferred, and nothing but the turn count and the recorded reply changes. */
  lemma {:induction false} StreamFails(cfg: Config, s: Session, callerText: string, now: real, o: Oracle,
                                       stream: Stream)
    requires !cfg.hasTools && !AtCap(cfg, s.turnCount, now) && stream.failed
    ensures var live := UtterStream(cfg, s, callerText, now, o, stream);
            var fallback := AgentReply(FALLBACK_MESSAGE, General, true);
            && live.requests == [History(cfg, s.log) + [Heard(callerText)]]
            && live.reply == fallback && live.session == Session(s.log, s.turnCount + 1, Some(fallback))
            && Flatten(live.yielded) == AbsorbAll(stream.deltas).released + FALLBACK_MESSAGE
  {
    SpokenIsReleased(stream.deltas);
    NonEmptyFlatten(SpokenBy(stream.deltas));
    FlattenSnoc(NonEmpty(SpokenBy(stream.deltas)), FALLBACK_MESSAGE);
  }

  /** Streamed or not, with tools or without: whoever is answered by the LLM is transferred exactly when the
      label after the first marker of the answer asks for it. */
  lemma {:induction false} TransferFollowsTheLabel(cfg: Config, s: Session, callerText: string, now: real, o: Oracle,
                                                   stream: Stream, n: nat)
    requires !AtCap(cfg, s.turnCount, now) && AsksTimes(o, n, cfg.maxToolIterations)
    ensures n < cfg.maxToolIterations && o.llm(n).Completion? ==>
              (Utter(cfg, s, callerText, now, o).reply.transferToHuman
               <==> NamesTransfer(cfg.lower, o.llm(n).content))
    ensures var live := UtterStream(cfg, s, callerText, now, o, stream);
            && (cfg.hasTools && n < cfg.maxToolIterations && o.llm(n).Completion? ==>
                  (live.reply.transferToHuman <==> NamesTransfer(cfg.lower, o.llm(n).content)))
            && (!cfg.hasTools && !stream.failed ==>
                  (live.reply.transferToHuman <==> NamesTransfer(cfg.lower, Flatten(stream.deltas))))
  {
    if n < cfg.maxToolIterations && o.llm(n).Completion? {
      var _, _ := UtteranceIsAnswered(cfg, s, callerText, now, o, n);
    }
    if cfg.hasTools {
      StreamWithTools(cfg, s, callerText, now, o, stream);
    } else if !stream.failed {
      StreamIsAnswered(cfg, s, callerText, now, o, stream);
    }
  }

  // ----- a whole call

  function RequestsOf(outs: seq<Outcome>): seq<seq<seq<Message>>> {
    seq(|outs|, k requires 0 <= k < |outs| => outs[k].requests)
  }

  /** What one utterance of a call does, streamed or not. */
  ghost predicate IsOutcome(out: Outcome, cfg: Config, s: Session, e: Event) {
    out == if e.streaming then UtterStream(cfg, s, e.callerText, e.now, e.oracle, e.stream)
           else Utter(cfg, s, e.callerText, e.now, e.oracle)
  }

  function SessionAfter(outs: seq<Outcome>, start: Session): Session {
    if outs == [] then start else outs[|outs| - 1].session
  }

  /** One outcome per utterance, each starting from the session the one before it left. */
  ghost predicate AreOutcomes(outs: seq<Outcome>, cfg: Config, start: Session, events: seq<Event>) {
    && |outs| == |events|
    && forall k :: 0 <= k < |outs| ==> IsOutcome(outs[k], cfg, SessionAfter(outs[..k], start), events[k])
  }

  /** A call whose utterances had these outcomes: nothing is sent or answered besides. */
  ghost predicate TellsCall(call: Call, outs: seq<Outcome>, start: Session) {
    && call.session == SessionAfter(outs, start)
    && call.requests == Flatten(RequestsOf(outs))
    && |call.replies| == |outs| && forall k :: 0 <= k < |outs| ==> call.replies[k] == outs[k].reply
  }

  lemma {:induction false} OneOutcomeMore(outs: seq<Outcome>, last: Outcome, cfg: Config, start: Session,
                                          events: seq<Event>, e: Event)
    requires AreOutcomes(outs, cfg, start, events) && IsOutcome(last, cfg, SessionAfter(outs, start), e)
    ensures AreOutcomes(outs + [last], cfg, start, events + [e])
  {
    var all := outs + [last];
    forall k | 0 <= k < |all|
      ensures IsOutcome(all[k], cfg, SessionAfter(all[..k], start), (events + [e])[k])
    {
      assert all[..k] == outs[..k];
      assert outs[..|outs|] == outs;
    }
  }

  lemma {:induction false} CallGoesOn(call: Call, outs: seq<Outcome>, start: Session, last: Outcome)
    requires TellsCall(call, outs, start)
    ensures TellsCall(Call(last.session, call.requests + last.requests, call.replies + [last.reply]), outs + [last],
                      start)
  {
    assert RequestsOf(outs + [last]) == RequestsOf(outs) + [last.requests];
    FlattenSnoc(RequestsOf(outs), last.requests);
  }

  /** A call is its utterances one after another, whatever they are. */
  lemma {:induction false} CallIsItsUtterances(cfg: Config, start: Session, events: seq<Event>)
    returns (outs: seq<Outcome>)
    ensures AreOutcomes(outs, cfg, start, events) && TellsCall(Run(cfg, start, events), outs, start)
  {
    outs := [];
    if events != [] {
      var n := |events| - 1;
      outs := CallIsItsUtterances(cfg, start, events[..n]);
      var last := Handle(cfg, Run(cfg, start, events[..n]).session, events[n]);
      OneOutcomeMore(outs, last, cfg, start, events[..n], events[n]);
      CallGoesOn(Run(cfg, start, events[..n]), outs, start, last);
      FrontAndLast(events);
      outs := outs + [last];
    }
  }

  /** The bound on the requests of one utterance is reached: by an LLM that keeps asking for tools, or, when no
      tool round is allowed at all, by a stream. */
  lemma {:induction false} RequestCapIsReached(cfg: Config, s: Session, callerText: string, now: real)
    returns (e: Event)
    requires !AtCap(cfg, s.turnCount, now)
    ensures e.callerText == callerText && e.now == now && |Handle(cfg, s, e).requests| == RequestCap(cfg)
  {
    var asking := Completion("", Some([ToolCall("", "", "")]));
    var o := Oracle((k: nat) => asking, (k: nat, j: nat) => Raised);
    e := Event(callerText, now, o, Stream([], false), !cfg.hasTools && cfg.maxToolIterations <= 0);
    if !e.streaming {
      var _ := RequestsTellEverything(cfg, s, callerText, now, o, IterationLimit(cfg));
    }
  }
}
