/** The object that owns one call: a flat message list, a turn counter and the last streamed reply.
    Its methods are proved against the log-based description in `Conversation`. */
module ConversationManager {
  import opened Collections
  import opened Messages
  import opened StructuredReply
  import opened SpeechPath
  import opened Conversation

  // ----- trimming

  /** The positions of the user messages, in order. */
  function UserIndices(history: seq<Message>): (r: seq<nat>)
    ensures forall k :: 0 <= k < |r| ==> r[k] < |history| && history[r[k]].role == User
  {
    if history == [] then []
    else
      var n := |history| - 1;
      UserIndices(history[..n]) + if history[n].role == User then [n] else []
  }

  /** What trimming leaves. With a limit of 0 the cut-off is the first user message. */
  function Trimmed(history: seq<Message>, limit: nat): seq<Message> {
    var users := UserIndices(history);
    if |users| > limit then history[users[if limit == 0 then 0 else |users| - limit]..] else history
  }

  lemma {:induction false} NoMoreUsers(a: seq<Message>, b: seq<Message>)
    requires forall i :: 0 <= i < |b| ==> b[i].role != User
    ensures UserIndices(a + b) == UserIndices(a)
    decreases |b|
  {
    if b == [] {
      assert a + b == a;
    } else {
      var front := b[..|b| - 1];
      assert (a + b)[..|a + b| - 1] == a + front;
      NoMoreUsers(a, front);
    }
  }

  lemma {:induction false} OneMoreUser(a: seq<Message>, text: string)
    ensures UserIndices(a + [UserMessage(text)]) == UserIndices(a) + [|a|]
  {
  }

  /** A turn, answered or not, has one user message, its first. */
  lemma {:induction false} OpenTurnUsers(a: seq<Message>, callerText: string, rounds: seq<Round>)
    ensures UserIndices(a + RenderOpen(callerText, rounds)) == UserIndices(a) + [|a|]
    decreases |rounds|
  {
    if rounds == [] {
      OneMoreUser(a, callerText);
    } else {
      var front, last := rounds[..|rounds| - 1], rounds[|rounds| - 1];
      OpenTurnUsers(a, callerText, front);
      NoMoreUsers(a + RenderOpen(callerText, front), RenderRound(last));
      Regroup(a, RenderOpen(callerText, front), RenderRound(last));
    }
  }

  lemma {:induction false} TurnUsers(a: seq<Message>, t: Turn)
    ensures UserIndices(a + Render(t)) == UserIndices(a) + [|a|]
  {
    var open := RenderOpen(t.callerText, t.rounds);
    OpenTurnUsers(a, t.callerText, t.rounds);
    NoMoreUsers(a + open, [AssistantMessage(t.reply)]);
    Regroup(a, open, [AssistantMessage(t.reply)]);
  }

  lemma {:induction false} LogUserCount(log: seq<Turn>)
    ensures |UserIndices(RenderAll(log))| == |log|
  {
    if log != [] {
      var n := |log| - 1;
      LogUserCount(log[..n]);
      TurnUsers(RenderAll(log[..n]), log[n]);
    }
  }

  /** The k-th user message of a log starts its k-th turn. */
  lemma {:induction false} LogUserAt(log: seq<Turn>, k: nat)
    requires k < |log|
    ensures |UserIndices(RenderAll(log))| == |log| && UserIndices(RenderAll(log))[k] == |RenderAll(log[..k])|
    decreases |log|
  {
    var n := |log| - 1;
    var front := log[..n];
    LogUserCount(front);
    TurnUsers(RenderAll(front), log[n]);
    assert RenderAll(log) == RenderAll(front) + Render(log[n]);
    if k < n {
      LogUserAt(front, k);
      assert front[..k] == log[..k];
    } else {
      assert log[..k] == front;
    }
  }

  lemma {:induction false} DropTurns(log: seq<Turn>, k: nat)
    requires k <= |log|
    ensures |RenderAll(log[..k])| <= |RenderAll(log)|
    ensures RenderAll(log)[|RenderAll(log[..k])|..] == RenderAll(log[k..])
  {
    RenderAppend(log[..k], log[k..]);
    CutAt(log, k);
  }

  lemma {:induction false} TrimmedAtTurn(log: seq<Turn>, limit: nat, k: nat)
    requires limit < |log| && k == if limit == 0 then 0 else |log| - limit
    ensures Trimmed(RenderAll(log), limit) == RenderAll(log[k..])
  {
    var history := RenderAll(log);
    var users := UserIndices(history);
    LogUserAt(log, k);
    DropTurns(log, k);
    assert Trimmed(history, limit) == history[users[k]..];
  }

  /** Trimming removes whole turns from the front and never splits a tool exchange. */
  lemma {:induction false} TrimmingKeepsWholeTurns(log: seq<Turn>, limit: nat)
    ensures Trimmed(RenderAll(log), limit) == RenderAll(Kept(log, limit))
  {
    LogUserCount(log);
    if |log| > limit {
      var k := if limit == 0 then 0 else |log| - limit;
      TrimmedAtTurn(log, limit, k);
      assert Kept(log, limit) == log[k..];
    } else {
      assert Kept(log, limit) == log;
    }
  }

  lemma {:induction false} KeepTwice(log: seq<Turn>, t: Turn, limit: nat)
    ensures Kept(Kept(log, limit) + [t], limit) == Kept(log + [t], limit)
  {
  }

  /** Trimming after every answered turn keeps the same turns as trimming the whole log once. */
  lemma {:induction false} TrimmingIsIncremental(cfg: Config, log: seq<Turn>, t: Turn)
    ensures Trimmed(History(cfg, log) + Render(t), cfg.maxHistoryTurns) == History(cfg, log + [t])
  {
    var kept := Kept(log, cfg.maxHistoryTurns);
    assert RenderAll(kept) + Render(t) == RenderAll(kept + [t]) by {
      assert (kept + [t])[..|kept|] == kept;
    }
    TrimmingKeepsWholeTurns(kept + [t], cfg.maxHistoryTurns);
    KeepTwice(log, t, cfg.maxHistoryTurns);
  }

  // ----- what the tool loop has sent and appended so far

  lemma {:induction false} OneMoreRequest(history: seq<Message>, callerText: string, rounds: seq<Round>, k: nat)
    requires k <= |rounds|
    ensures Requests(history, callerText, rounds, k + 1)
            == Requests(history, callerText, rounds, k) + [history + RenderOpen(callerText, rounds[..k])]
  {
  }

  lemma {:induction false} OneMoreRound(cfg: Config, o: Oracle, n: nat)
    requires forall i :: 0 <= i <= n ==> WantsTools(o.llm(i))
    ensures Rounds(cfg, o, n + 1) == Rounds(cfg, o, n) + [RoundAt(cfg, o, n)]
  {
  }

  lemma {:induction false} SameRequests(history: seq<Message>, callerText: string, rounds: seq<Round>, more: Round)
    ensures Requests(history, callerText, rounds, |rounds| + 1)
            == Requests(history, callerText, rounds + [more], |rounds| + 1)
  {
    forall k | 0 <= k <= |rounds|
      ensures rounds[..k] == (rounds + [more])[..k]
    {
    }
  }

  lemma {:induction false} RoundsAreCounted(o: Oracle, n: nat, limit: nat)
    requires n <= limit
    requires forall i :: 0 <= i < n ==> WantsTools(o.llm(i))
    requires n < limit ==> !WantsTools(o.llm(n))
    ensures ToolRounds(o, 0, limit) == n
  {
  }

  lemma {:induction false} OpenGrows(callerText: string, rounds: seq<Round>, last: Round)
    ensures RenderOpen(callerText, rounds + [last]) == RenderOpen(callerText, rounds) + RenderRound(last)
  {
  }

  /** After `n` tool rounds of a turn: what the history holds and what has been sent. */
  ghost predicate InTurn(cfg: Config, o: Oracle, base: seq<Message>, callerText: string, n: nat,
                         history: seq<Message>, sent: seq<seq<Message>>)
  {
    && (forall i :: 0 <= i < n ==> WantsTools(o.llm(i)))
    && history == base + RenderOpen(callerText, Rounds(cfg, o, n))
    && sent == Requests(base, callerText, Rounds(cfg, o, n), n)
  }

  /** The list passed to the LLM is the next request. */
  lemma {:induction false} NextRequest(cfg: Config, o: Oracle, base: seq<Message>, callerText: string, n: nat,
                    history: seq<Message>, sent: seq<seq<Message>>)
    requires InTurn(cfg, o, base, callerText, n, history, sent)
    ensures sent + [history] == Requests(base, callerText, Rounds(cfg, o, n), n + 1)
  {
    var rounds := Rounds(cfg, o, n);
    OneMoreRequest(base, callerText, rounds, n);
    assert rounds[..n] == rounds;
  }

  /** Appending one whole round leads to the next iteration. */
  lemma {:induction false} NextRound(cfg: Config, o: Oracle, base: seq<Message>, callerText: string, n: nat,
                  history: seq<Message>, sent: seq<seq<Message>>)
    requires InTurn(cfg, o, base, callerText, n, history, sent) && WantsTools(o.llm(n))
    ensures InTurn(cfg, o, base, callerText, n + 1, history + RenderRound(RoundAt(cfg, o, n)), sent + [history])
  {
    var rounds, next := Rounds(cfg, o, n), RoundAt(cfg, o, n);
    OneMoreRound(cfg, o, n);
    NextRequest(cfg, o, base, callerText, n, history, sent);
    SameRequests(base, callerText, rounds, next);
    OpenGrows(callerText, rounds, next);
    Regroup(base, RenderOpen(callerText, rounds), RenderRound(next));
  }

  /** A provider failure after `n` tool rounds: the whole turn is dropped. */
  lemma {:induction false} TurnFails(cfg: Config, s: Session, callerText: string, now: real, o: Oracle, n: nat,
                  history: seq<Message>, sent: seq<seq<Message>>)
    requires !LimitReached(cfg, s.turnCount, now) && n < IterationLimit(cfg) && o.llm(n).ProviderError?
    requires InTurn(cfg, o, History(cfg, s.log), callerText, n, history, sent)
    ensures Utter(cfg, s, callerText, now, o)
            == Outcome(s.(turnCount := s.turnCount + 1), FALLBACK_REPLY, sent + [history], [])
  {
    RoundsAreCounted(o, n, IterationLimit(cfg));
    NextRequest(cfg, o, History(cfg, s.log), callerText, n, history, sent);
  }

  /** A completion without tool calls after `n` tool rounds: the turn is logged with all of them. */
  lemma {:induction false} TurnIsAnswered(cfg: Config, s: Session, callerText: string, now: real, o: Oracle, n: nat,
                       history: seq<Message>, sent: seq<seq<Message>>)
    requires !LimitReached(cfg, s.turnCount, now) && n < IterationLimit(cfg)
    requires o.llm(n).Completion? && !WantsTools(o.llm(n))
    requires InTurn(cfg, o, History(cfg, s.log), callerText, n, history, sent)
    ensures var p := ParseStructuredReply(cfg.lower, o.llm(n).content);
            Utter(cfg, s, callerText, now, o)
            == Outcome(Session(s.log + [Turn(callerText, Rounds(cfg, o, n), p.reply)], s.turnCount + 1, s.lastReply),
                       AgentReply(p.reply, p.intent, IsTransferIntent(p.intent)), sent + [history], [])
  {
    RoundsAreCounted(o, n, IterationLimit(cfg));
    NextRequest(cfg, o, History(cfg, s.log), callerText, n, history, sent);
  }

  /** Still asking for tools at the iteration limit: the whole turn is dropped. */
  lemma {:induction false} TurnIsAbandoned(cfg: Config, s: Session, callerText: string, now: real, o: Oracle,
                        history: seq<Message>, sent: seq<seq<Message>>)
    requires !LimitReached(cfg, s.turnCount, now)
    requires InTurn(cfg, o, History(cfg, s.log), callerText, IterationLimit(cfg), history, sent)
    ensures Utter(cfg, s, callerText, now, o) == Outcome(s.(turnCount := s.turnCount + 1), FALLBACK_REPLY, sent, [])
  {
  }

  /** A streamed turn within the caps, failed or answered. */
  lemma {:induction false} StreamedTurn(cfg: Config, s: Session, callerText: string, now: real, o: Oracle,
                                        stream: Stream)
    requires !cfg.hasTools && !LimitReached(cfg, s.turnCount, now)
    ensures var f, spoken := Conclude(cfg.lower, AbsorbAll(stream.deltas)), NonEmpty(SpokenBy(stream.deltas));
            var reply := AgentReply(f.text, f.intent, IsTransferIntent(f.intent));
            UtterStream(cfg, s, callerText, now, o, stream)
            == if stream.failed then
                 Outcome(Session(s.log, s.turnCount + 1, Some(FALLBACK_REPLY)), FALLBACK_REPLY,
                         [History(cfg, s.log) + [UserMessage(callerText)]], spoken + [FALLBACK_MESSAGE])
               else
                 Outcome(Session(s.log + [Turn(callerText, [], f.text)], s.turnCount + 1, Some(reply)), reply,
                         [History(cfg, s.log) + [UserMessage(callerText)]],
                         if f.trailing == "" then spoken else spoken + [f.trailing])
  {
  }

  lemma {:induction false} DeltaArrives(deltas: seq<string>, n: nat)
    requires n < |deltas|
    ensures var fed := Absorb(AbsorbAll(deltas[..n]), deltas[n]);
            && AbsorbAll(deltas[..n + 1]) == fed.next
            && NonEmpty(SpokenBy(deltas[..n + 1]))
               == NonEmpty(SpokenBy(deltas[..n])) + if fed.speakable == "" then [] else [fed.speakable]
  {
    var next, spoken := deltas[..n + 1], SpokenBy(deltas[..n]);
    assert next[..n] == deltas[..n] && next[n] == deltas[n];
    var fed := Absorb(AbsorbAll(deltas[..n]), deltas[n]);
    assert SpokenBy(next) == spoken + [fed.speakable];
    assert (spoken + [fed.speakable])[..|spoken|] == spoken;
    assert NonEmpty(spoken) + [] == NonEmpty(spoken);
  }

  class ConversationManager {
    const cfg: Config
    var history: seq<Message>
    var turnCount: nat
    var lastReply: Option<AgentReply>

    /** Every turn answered so far, trimmed or not, and every message list sent to the LLM. */
    ghost var log: seq<Turn>
    ghost var sent: seq<seq<Message>>

    /** The flat history is the last turns of the log, whole. */
    ghost predicate Valid()
      reads this
    {
      history == History(cfg, log)
    }

    ghost function Session(): Session
      reads this
    {
      Conversation.Session(log, turnCount, lastReply)
    }

    constructor (cfg: Config)
      ensures Valid() && this.cfg == cfg && Session() == NEW_SESSION && sent == []
    {
      this.cfg := cfg;
      history, turnCount, lastReply := [], 0, None;
      log, sent := [], [];
    }

    method TrimHistory()
      modifies this`history
      ensures history == Trimmed(old(history), cfg.maxHistoryTurns)
    {
      var userIndices := UserIndices(history);
      if |userIndices| > cfg.maxHistoryTurns {
        var cutoff := userIndices[if cfg.maxHistoryTurns == 0 then 0 else |userIndices| - cfg.maxHistoryTurns];
        history := history[cutoff..];
      }
    }

    /** One assistant message with its calls, then one tool message per call. */
    method RunTools(content: string, calls: seq<ToolCall>, o: Oracle, iteration: nat)
      requires o.llm(iteration) == Completion(content, Some(calls)) && calls != []
      modifies this`history
      ensures history == old(history) + RenderRound(RoundAt(cfg, o, iteration))
    {
      history := history + [AssistantCalls(content, calls)];
      ghost var exchanges := ExecuteAll(cfg, calls, o, iteration);
      for j := 0 to |calls|
        invariant history == old(history) + [AssistantCalls(content, calls)] + Answers(exchanges[..j])
      {
        var result := ExecuteTool(cfg, calls[j], o.tool(iteration, j));
        var message := ToolMessage(Some(calls[j].id), result.answer, result.isError);
        assert Answers(exchanges[..j + 1]) == Answers(exchanges[..j]) + [message];
        history := history + [message];
      }
      assert exchanges[..|calls|] == exchanges;
      assert Calls(exchanges) == calls;
    }

    /** The final assistant message closes the turn; only then is the history trimmed. */
    method CloseTurn(reply: string, ghost turn: Turn)
      requires history == History(cfg, log) + RenderOpen(turn.callerText, turn.rounds)
      requires reply == turn.reply
      modifies this`history, this`log
      ensures Valid() && log == old(log) + [turn]
    {
      Regroup(History(cfg, log), RenderOpen(turn.callerText, turn.rounds), [AssistantMessage(reply)]);
      TrimmingIsIncremental(cfg, log, turn);
      history := history + [AssistantMessage(reply)];
      TrimHistory();
      log := log + [turn];
    }

    /** `HandleUtterance` for an utterance within the caps: the tool loop. */
    method TakeTurn(callerText: string, now: real, o: Oracle, ghost before: Session) returns (reply: AgentReply)
      requires Valid() && !LimitReached(cfg, before.turnCount, now)
      requires Session() == before.(turnCount := before.turnCount + 1)
      modifies this`history, this`log, this`sent
      ensures Valid()
      ensures var out := Utter(cfg, before, callerText, now, o);
              Session() == out.session && reply == out.reply && sent == old(sent) + out.requests
    {
      var turnStart := |history|;
      ghost var base: seq<Message> := history;
      ghost var requests: seq<seq<Message>> := [];
      history := history + [UserMessage(callerText)];
      var limit := IterationLimit(cfg);
      for iteration := 0 to limit
        invariant log == before.log && sent == old(sent) + requests
        invariant InTurn(cfg, o, base, callerText, iteration, history, requests)
      {
        ghost var sofar := requests;
        requests := sofar + [history];
        Regroup(old(sent), sofar, [history]);
        sent := sent + [history];
        var response := o.llm(iteration);
        if response.ProviderError? {
          TurnFails(cfg, before, callerText, now, o, iteration, history, sofar);
          history := history[..turnStart];
          return FALLBACK_REPLY;
        }
        if response.toolCalls.Some? && response.toolCalls.value != [] {
          NextRound(cfg, o, base, callerText, iteration, history, sofar);
          RunTools(response.content, response.toolCalls.value, o, iteration);
          continue;
        }
        var parsed := ParseStructuredReply(cfg.lower, response.content);
        TurnIsAnswered(cfg, before, callerText, now, o, iteration, history, sofar);
        CloseTurn(parsed.reply, Turn(callerText, Rounds(cfg, o, iteration), parsed.reply));
        return AgentReply(parsed.reply, parsed.intent, IsTransferIntent(parsed.intent));
      }
      TurnIsAbandoned(cfg, before, callerText, now, o, history, requests);
      history := history[..turnStart];
      return FALLBACK_REPLY;
    }

    method HandleUtterance(callerText: string, now: real, o: Oracle) returns (reply: AgentReply)
      requires Valid()
      modifies this
      ensures Valid()
      ensures var out := Utter(cfg, old(Session()), callerText, now, o);
              Session() == out.session && reply == out.reply && sent == old(sent) + out.requests
    {
      if LimitReached(cfg, turnCount, now) {
        assert sent + [] == sent;
        return CALL_LIMIT_REPLY;
      }
      turnCount := turnCount + 1;
      reply := TakeTurn(callerText, now, o, old(Session()));
    }

    /** Feeds every delta to a fresh extractor and yields what it releases. */
    static method ConsumeStream(deltas: seq<string>) returns (extractor: StreamingReplyExtractor, yielded: seq<string>)
      ensures fresh(extractor) && extractor.State() == AbsorbAll(deltas)
      ensures yielded == NonEmpty(SpokenBy(deltas))
    {
      yielded := [];
      extractor := new StreamingReplyExtractor();
      for n := 0 to |deltas|
        invariant fresh(extractor)
        invariant extractor.State() == AbsorbAll(deltas[..n])
        invariant yielded == NonEmpty(SpokenBy(deltas[..n]))
      {
        DeltaArrives(deltas, n);
        var speakable := extractor.Feed(deltas[n]);
        if speakable != "" {
          yielded := yielded + [speakable];
        }
      }
      assert deltas[..|deltas|] == deltas;
    }

    /** `HandleUtteranceStream` without tools and within the caps. */
    method StreamTurn(callerText: string, now: real, ghost o: Oracle, stream: Stream, ghost before: Session)
      returns (yielded: seq<string>)
      requires Valid() && !cfg.hasTools && !LimitReached(cfg, before.turnCount, now)
      requires Session() == before.(turnCount := before.turnCount + 1)
      modifies this`history, this`lastReply, this`log, this`sent
      ensures Valid()
      ensures var out := UtterStream(cfg, before, callerText, now, o, stream);
              && Session() == out.session && lastReply == Some(out.reply)
              && sent == old(sent) + out.requests && yielded == out.yielded
    {
      StreamedTurn(cfg, before, callerText, now, o, stream);
      var turnStart := |history|;
      history := history + [UserMessage(callerText)];
      sent := sent + [history];
      var extractor;
      extractor, yielded := ConsumeStream(stream.deltas);
      if stream.failed {
        history := history[..turnStart];
        lastReply := Some(FALLBACK_REPLY);
        return yielded + [FALLBACK_MESSAGE];
      }
      var replyText, trailing, intent := extractor.Finalize(cfg.lower);
      if trailing != "" {
        yielded := yielded + [trailing];
      }
      CloseTurn(replyText, Turn(callerText, [], replyText));
      lastReply := Some(AgentReply(replyText, intent, IsTransferIntent(intent)));
    }

    /** The streaming method, consumed to the end: `yielded` lists the pieces in order. */
    method HandleUtteranceStream(callerText: string, now: real, o: Oracle, stream: Stream)
      returns (yielded: seq<string>)
      requires Valid()
      modifies this
      ensures Valid()
      ensures var out := UtterStream(cfg, old(Session()), callerText, now, o, stream);
              && Session() == out.session && lastReply == Some(out.reply)
              && sent == old(sent) + out.requests && yielded == out.yielded
    {
      if cfg.hasTools {
        var reply := HandleUtterance(callerText, now, o);
        lastReply := Some(reply);
        yielded := if reply.text == "" then [] else [reply.text];
        return;
      }
      if LimitReached(cfg, turnCount, now) {
        lastReply := Some(CALL_LIMIT_REPLY);
        assert sent + [] == sent;
        return [CALL_LIMIT_MESSAGE];
      }
      turnCount := turnCount + 1;
      yielded := StreamTurn(callerText, now, o, stream, old(Session()));
    }
  }
}
