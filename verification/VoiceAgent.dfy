/** One caller utterance from the LLM's deltas to the sentences synthesized: the reply is streamed by
    the conversation and spoken by the sentence splitter. */
module VoiceAgent {
  import opened Collections
  import opened StructuredReply
  import opened SentenceSplitter
  import opened SpeechPath
  import opened Conversation
  import opened ConversationLaws
  import Manager = ConversationManager

  class OpenVoiceAgent {
    const conversation: Manager.ConversationManager

    constructor (conversation: Manager.ConversationManager)
      ensures this.conversation == conversation
    {
      this.conversation := conversation;
    }

    /** What is spoken is exactly what is recorded as the reply, unless the provider fails midway; and it
        is what the batch parser would have said exactly when the completion does not have a marker
        with only whitespace before it. The call is transferred when the reply says so. */
    method Answer(callerText: string, now: real, o: Oracle, stream: Stream)
      returns (sentences: seq<string>, transfer: bool)
      requires conversation.Valid()
      modifies conversation
      ensures conversation.Valid()
      ensures var out := UtterStream(conversation.cfg, old(conversation.Session()), callerText, now, o, stream);
              && conversation.Session() == out.session
              && sentences == Sentences(Flatten(out.yielded)) && transfer == out.reply.transferToHuman
      ensures conversation.lastReply.Some?
      ensures conversation.cfg.hasTools || !stream.failed
              || LimitReached(conversation.cfg, old(conversation.turnCount), now)
              ==> sentences == Sentences(conversation.lastReply.value.text)
      ensures !conversation.cfg.hasTools && !stream.failed
              && !LimitReached(conversation.cfg, old(conversation.turnCount), now)
              ==> var text := Flatten(stream.deltas);
                  (sentences == Sentences(ParseStructuredReply(conversation.cfg.lower, text).reply)
                   <==> !BlankBeforeMarker(text))
    {
      ghost var before := conversation.Session();
      var pieces := conversation.HandleUtteranceStream(callerText, now, o, stream);
      ghost var progress;
      sentences, progress := SpeakSentences(pieces);
      transfer := conversation.lastReply.Some? && conversation.lastReply.value.transferToHuman;
      if conversation.cfg.hasTools || !stream.failed || LimitReached(conversation.cfg, before.turnCount, now) {
        YieldedConcatenatesToReply(conversation.cfg, before, callerText, now, o, stream);
      }
      StreamSpeaksTheParsedReply(conversation.cfg.lower, stream.deltas);
    }
  }
}
