# OpenVoice: verified model of the voice agent's core

OpenVoice answers phone calls: an LLM writes a reply, the reply is spoken while it is still being
written, and booking tools act on a calendar and a database. This project models the parts of it that
carry state and invariants, and proves them for every input, every way of cutting a stream, and every run.

| files | what they model |
|---|---|
| `Collections`, `Text` | optional values, flattening, Python's `find` / `strip` / `rstrip` |
| `StructuredReply` | the batch parser and the incremental extractor of "reply ###INTENT: label" |
| `SentenceSplitter` | cutting streamed text into sentences for speech synthesis |
| `SpeechPath`, `VoiceAgent` | extractor and splitter together; one utterance from deltas to spoken sentences |
| `Messages`, `AnthropicWire`, `OpenAIWire` | the history and its two wire encodings |
| `Conversation`, `ConversationManager`, `ConversationLaws`, `UtteranceLaws` | turns, the tool loop, rollback, trimming, caps; the object that owns a call; laws of whole calls; what one utterance sends and answers, message by message |
| `Slots`, `SlotLaws`, `SlotAnswers`, `SlotSearch` | what the search for free slots should return and when it leaves the calendar; laws of that; the same in dates and hours; its loops |
| `Booking`, `BookingLaws`, `OfferedSlots` | book, cancel, reschedule over calendar and database; laws of whole runs |
| `BookingTools`, `BookingToolLaws`, `ToolAnswers` | the tool dispatcher bound to one caller; laws of its sessions; what each call answers |
| `Audio` | resampling arithmetic in exact rationals |

Objects that the program updates in place are classes (`StreamingReplyExtractor`, `ConversationManager`,
`Calendar`, `Database`, `BookingService`, `BookingToolExecutor`, `OpenVoiceAgent`); each method's contract
ties the new state to a function of the old one, and the laws are proved about those functions. What an
operation answers is also stated without the functions that compute it, in terms of the completion, the tool
results, the stored rows and the arguments alone.

Every lemma switches Dafny's automatic induction off, so each proof rests on its body alone.

How the outside world enters the model: the LLM and the tools are arbitrary functions from request
numbers to outcomes, failure included (`Conversation.Oracle`, `Conversation.Stream`); lower-casing is an
arbitrary function of text; the time is an argument; calendar and database faults, fresh ids and the row
an unordered query returns first are arguments (`Booking.Surroundings`).

## What was found where the code and its documentation differ

The model follows the code. Each line names the lemma with the exact condition or the concrete input.

- A completion whose marker has only whitespace before it: the batch parser returns the raw text, marker
  included, and the stream says nothing. This is the only family on which the two differ by more than
  surrounding whitespace, and so the only one on which other sentences are spoken
  (`StructuredReply.ExtractorRefinesParser`, `SpeechPath.StreamSpeaksTheParsedReply`,
  `StructuredReply.BlankBeforeMarkerWitness`).
- `last_reply` is documented to be "the same `AgentReply`" that `handle_utterance` would have returned. It is,
  literally, exactly when the stream is verbatim: without a marker, the text carries no whitespace at its ends;
  with one, the text before it begins with ink and none of the whitespace next to the marker had been released
  when the marker was complete (`StructuredReply.TextsAreEqualIff`, `ConversationLaws.StreamSimulatesBatch`, for
  whole calls `ConversationLaws.CallSimulates`). It fails in the prompted shape itself: for every reply, when the
  delta that completes the marker starts with the marker's last character, the newline before the marker has
  been spoken and stays in `last_reply` and in the history (`StructuredReply.PromptedText`,
  `StructuredReply.NewlineIsKept`, `StructuredReply.NewlineIsKeptWitness`).
- "Keep at most `max_history_turns` full turns" holds exactly for positive limits; 0 keeps everything
  (`Conversation.HistoryBoundHolds`).
- "Available slots within business hours": every slot found runs forward exactly when the duration is
  positive or nothing is found; a negative duration is accepted and gives free slots that run backwards from
  the opening (`SlotLaws.SlotsRunForwardIff`, `SlotLaws.NegativeDurationRunsBackwards`). A duration of zero
  whose first opening is busy is searched for ever (`SlotLaws.UnanswerableNeverEnds`).
- A slot of the last day may end after the search window, where the busy list says nothing; it cannot exactly
  when that day's last whole slot ends by the window, or nothing is searched (`SlotLaws.SlotsEndInTimeIff`,
  `SlotLaws.SlotMayEndAfterTheSearch`).
- Nothing checks that an interval is positive before the calendar is changed, and the database then refuses
  the row: an orphan event or a moved event stays behind (`BookingLaws.BookAgreesIff`,
  `BookingLaws.RescheduleAgreesIff`, `BookingLaws.EmptyIntervalLeavesAnOrphan`).
- The tool dispatcher is documented never to raise. With calendar and database working it does so exactly for a
  confirmed booking or move to an interval that ends no later than it starts, where the refused commit escapes,
  and for a search whose window or slots leave the range of `datetime` and `timedelta`, where the overflow does
  (`BookingToolLaws.RaisesIff`, `BookingToolLaws.EmptyBookingRaises`, `BookingToolLaws.FarSearchRaises`; under the
  modelled faults `BookingToolLaws.CallCrashesIff`). For a positive duration the search keeps to the calendar,
  whatever is busy, exactly when the window, the last day's cut-off and the day after it do
  (`SlotLaws.InRangeIff`).
- Rescheduling does not look for overlaps (`BookingLaws.RescheduleKeepsDisjointIff`,
  `BookingLaws.RescheduleCanDoubleBook`).
- Resampling down and back up need not restore the length (`Audio.DownAndBackKeepsTheLengthIff`,
  `Audio.DownAndBackMayNot`).

## Model

| member | source | states |
|---|---|---|
| StructuredReply.PromptedShapeParses | src/openvoice/agent/structured_reply.py:58-85 | a completion written exactly as prompted parses back to its reply and its intent, for every intent and every marker-free trimmed reply |
| StructuredReply.BatchReply | src/openvoice/agent/structured_reply.py:68-85 | the parsed reply is the stripped text before the first marker exactly when that text is usable, and otherwise the whole stripped completion |
| StructuredReply.IntentIsRead | src/openvoice/agent/structured_reply.py:68-177 | for every completion and every chunking, batch and streamed: each of the four special intents is read if and only if the lower-cased, stripped text after the first marker is exactly its label; anything else, and no marker, is general |
| StructuredReply.StreamingReplyExtractor.constructor | src/openvoice/agent/structured_reply.py:108-112 | a fresh extractor has heard and released nothing |
| StructuredReply.StreamingReplyExtractor.Feed | src/openvoice/agent/structured_reply.py:114-152 | the in-place update makes exactly the step the laws are proved about, and returns exactly its piece |
| StructuredReply.StreamingReplyExtractor.Finalize | src/openvoice/agent/structured_reply.py:154-177 | full text, trailing text and intent of the conclusion; the held-back text is released exactly when no marker was found; `FinalText` and `IntentIsRead` say what these are |
| StructuredReply.AbsorbKeepsHeard | src/openvoice/agent/structured_reply.py:114-152 | every delta keeps the invariant: before the marker, released plus pending is the whole marker-free text with nothing released or exactly nine characters held back; after it, what was dropped is whitespace next to the marker and the rest is kept for the label |
| StructuredReply.HeldBackTextSuffices | src/openvoice/agent/structured_reply.py:128-150 | searching only the held-back characters plus the new delta finds the marker exactly where the whole text has its first one |
| StructuredReply.SpokenIsReleased | src/openvoice/agent/structured_reply.py:119-152 | the pieces handed out concatenate to the released text |
| StructuredReply.FinalTextIsSpeakable | src/openvoice/agent/structured_reply.py:154-177 | for every chunking the final text is the text before the first marker minus trailing whitespace at most |
| StructuredReply.ExtractorRefinesParser | src/openvoice/agent/structured_reply.py:58-177 | for every text and every chunking the intents agree, and the stripped texts agree if and only if there is no marker with only whitespace before it |
| StructuredReply.NothingUnsafeIsSpoken | src/openvoice/agent/structured_reply.py:88-104 | after any deltas, what was spoken is a prefix of the text before the first marker of every possible continuation |
| StructuredReply.AllButTheTailIsSpoken | src/openvoice/agent/structured_reply.py:142-152 | while no marker has arrived, all but the last nine characters have been spoken |
| StructuredReply.HoldBackIsTight | src/openvoice/agent/structured_reply.py:142-150 | releasing one more character would speak part of a marker in some continuation |
| StructuredReply.LastPieceIsTrimmed | src/openvoice/agent/structured_reply.py:131-140 | the piece that precedes the marker never ends in whitespace |
| StructuredReply.BlankBeforeMarkerWitness | src/openvoice/agent/structured_reply.py:81-85 | "###INTENT:" alone: the batch reply is the marker itself, the streamed one is empty |
| StructuredReply.BeforeIs | src/openvoice/agent/structured_reply.py:128-141 | the quantity the next laws depend on is the length of the text before the delta with which the marker is first complete |
| StructuredReply.FinalText | src/openvoice/agent/structured_reply.py:114-177 | the final text of every text and chunking: all of it without a marker, otherwise the text before the marker up to its last ink or to what had been released, whichever is further |
| StructuredReply.TextsAreEqualIff | src/openvoice/agent/structured_reply.py:68-177 | the streamed text is literally the batch parser's reply if and only if the stream is verbatim |
| StructuredReply.PromptedText | src/openvoice/agent/structured_reply.py:131-141 | a stream in the prompted shape keeps its reply, with the newline before the marker exactly when the completing delta starts with the marker's last character |
| StructuredReply.NewlineIsKept | src/openvoice/agent/structured_reply.py:131-152 | for every reply and intent, cutting the prompted completion there gives a text that is not the batch reply |
| StructuredReply.NewlineIsKeptWitness | src/openvoice/agent/structured_reply.py:131-152 | the same for the reply "Hi" |
| Text.SpaceIsListed | src/openvoice/agent/structured_reply.py:71-74 | `strip` removes exactly Python's 29 whitespace code points |
| SentenceSplitter.FindSentenceEnd | src/openvoice/telephony/livekit_agent.py:241-260 | the first sentence boundary, or none exactly when the buffer has no boundary |
| SentenceSplitter.SpeakSentences | src/openvoice/telephony/livekit_agent.py:202-219 | for every chunking, the sentences synthesized are those of the whole text, and what has been handed over each time the loop waits for a chunk is what `SpeaksAllThatIsCertain` is about |
| SentenceSplitter.Pieces | src/openvoice/telephony/livekit_agent.py:202-219 | the pieces concatenate to the text, meet at boundaries, and have none inside |
| SentenceSplitter.SplitIsUnique | src/openvoice/telephony/livekit_agent.py:245-255 | a text has exactly one such split: it is cut at all boundaries and nowhere else |
| SentenceSplitter.NothingIsLost | src/openvoice/telephony/livekit_agent.py:252-255 | the non-whitespace characters spoken are exactly those of the text, in order |
| SentenceSplitter.SpokenAreTrimmed | src/openvoice/telephony/livekit_agent.py:207-218 | every sentence is non-blank and stripped |
| SentenceSplitter.StrippingIsHarmless | src/openvoice/telephony/livekit_agent.py:202-219 | whitespace around a text changes none of its sentences |
| SentenceSplitter.SentencesGoOn | src/openvoice/telephony/livekit_agent.py:203-214 | whatever text follows, the sentences spoken so far start the sentences of the whole, and the rest are those of the unfinished text and what follows |
| SentenceSplitter.SpeaksAllThatIsCertain | src/openvoice/telephony/livekit_agent.py:194-216 | a list of sentences starts the sentences of every continuation if and only if it starts those already spoken: nothing is spoken too early and nothing certain is held back |
| SpeechPath.YieldedIsTheReply | src/openvoice/agent/conversation.py:234-254 | the non-empty pieces yielded concatenate to the final reply text |
| SpeechPath.StreamSpeaksTheParsedReply | src/openvoice/telephony/livekit_agent.py:163-219 | end to end, for every completion and chunking, the sentences spoken are those of the parsed reply if and only if there is no marker with only whitespace before it |
| VoiceAgent.OpenVoiceAgent.Answer | src/openvoice/telephony/livekit_agent.py:163-219 | what is spoken is what is recorded as the reply (unless the provider fails midway), equals the parsed reply's sentences exactly outside the blank-before-marker family, and a transfer happens when the reply says so |
| Messages.CanonicalIsVisible | src/openvoice/llm/base.py:47-64 | a provider sees a message unchanged exactly when it is canonical |
| AnthropicWire.ToAnthropicMessages | src/openvoice/llm/providers/anthropic.py:155-200 | the nested loops produce the encoding: one message per maximal tool run, one per other message |
| AnthropicWire.EncodeAppend | src/openvoice/llm/providers/anthropic.py:166-200 | encoding splits at every point that does not cut a tool run |
| AnthropicWire.DecodeEncode | src/openvoice/llm/providers/anthropic.py:165-200 | decoding the encoding gives back every history as a provider can see it |
| AnthropicWire.EncoderIsInvertible | src/openvoice/llm/providers/anthropic.py:165-200 | the encoder is invertible on exactly the canonical histories |
| AnthropicWire.RunsAreMerged | src/openvoice/llm/providers/anthropic.py:158-163 | no two adjacent wire messages both carry tool results |
| OpenAIWire.ToOpenAIMessages | src/openvoice/llm/providers/openai_compatible.py:174-210 | the loop produces the per-message encoding |
| OpenAIWire.FormatsTellTheSameStory | src/openvoice/llm/providers/openai_compatible.py:174-210 | for every history both formats tell the same sequence of texts, tool calls and tool results, errors folded into the text |
| ConversationManager.ConversationManager.constructor | src/openvoice/agent/conversation.py:96-110 | a new call has an empty history, no turns and no reply |
| ConversationManager.ConversationManager.HandleUtterance | src/openvoice/agent/conversation.py:117-187 | for every LLM and tool behaviour: session, reply and every list sent to the LLM are those of the log-based description, which `UtteranceIsAnswered`, `UtteranceFails`, `CapTransfers` and `RequestsTellEverything` are about; the flat history stays the last turns of the log |
| ConversationManager.ConversationManager.TakeTurn | src/openvoice/agent/conversation.py:133-187 | the same for its tool loop, on an utterance within the caps |
| ConversationManager.ConversationManager.RunTools | src/openvoice/agent/conversation.py:149-172 | one assistant message with its calls, then one result per call with its id and error flag; `RequestsTellEverything` says which text and flag |
| ConversationManager.ConversationManager.HandleUtteranceStream | src/openvoice/agent/conversation.py:189-263 | the same for the streaming method consumed to the end, its yields included; `StreamWithTools`, `StreamIsAnswered` and `StreamFails` say what it answers |
| ConversationManager.ConversationManager.StreamTurn | src/openvoice/agent/conversation.py:231-263 | the same for its streamed turn, without tools and within the caps |
| ConversationManager.ConversationManager.TrimHistory | src/openvoice/agent/conversation.py:293-306 | the in-place cut is the one `TrimmingKeepsWholeTurns` is about |
| ConversationManager.TrimmingKeepsWholeTurns | src/openvoice/agent/conversation.py:293-306 | trimming a rendered log leaves exactly its last turns, whole: no tool exchange is split |
| ConversationManager.TrimmingIsIncremental | src/openvoice/agent/conversation.py:177-178 | trimming after each answered turn equals trimming the whole log once |
| Conversation.HistoryBoundHolds | src/openvoice/agent/conversation.py:294-306 | the documented bound on turns holds for all logs if and only if the limit is positive |
| ConversationManager.TurnFails | src/openvoice/agent/conversation.py:141-147 | a provider failure after any number of tool rounds drops the whole turn and sends nothing more |
| ConversationManager.TurnIsAbandoned | src/openvoice/agent/conversation.py:185-187 | still asking for tools at the iteration limit drops the whole turn |
| ConversationManager.TurnIsAnswered | src/openvoice/agent/conversation.py:174-183 | a final completion logs the turn with all its tool rounds |
| ConversationLaws.OnlyAnsweredTurnsAreLogged | src/openvoice/agent/conversation.py:117-187 | an utterance either leaves the log alone and answers with a fixed message, or appends exactly the turn it answered |
| ConversationLaws.EveryRequestIsShaped | src/openvoice/agent/conversation.py:133-172 | in every run every request is whole answered turns, at most as many as are kept, and one open turn |
| ConversationLaws.EveryRequestIsLegal | src/openvoice/llm/providers/anthropic.py:155-200 | in every run every request is legal in both formats: roles alternate, first and last are user, and tool uses and results match id by id in order |
| ConversationLaws.RoundOnTheWire | src/openvoice/llm/providers/anthropic.py:165-195 | a tool round becomes one assistant message and one user message whose result ids are its use ids |
| ConversationLaws.RequestIsLegal | src/openvoice/llm/providers/anthropic.py:158-163 | any log followed by any open turn encodes to a legal Anthropic request |
| ConversationLaws.RoundIsPaired | src/openvoice/llm/providers/openai_compatible.py:178-206 | a tool round becomes one request and exactly its replies, ids in order |
| Conversation.Handle | src/openvoice/agent/conversation.py:122-136 | an utterance within the caps is one turn with a bounded number of requests; beyond them it sends none |
| ConversationLaws.CostIsBounded | src/openvoice/agent/conversation.py:58-71 | in every run LLM requests never exceed turns times the per-turn cap |
| ConversationLaws.TotalCost | src/openvoice/agent/conversation.py:64-71 | with a turn cap, a whole call makes at most that many turns' worth of requests |
| ConversationLaws.TurnsAreCapped | src/openvoice/agent/conversation.py:265-270 | the turn cap is never exceeded |
| ConversationLaws.CapsAreFinal | src/openvoice/agent/conversation.py:265-275 | once a turn or time cap is hit, under a clock that does not run backwards, every later utterance transfers and changes neither log nor turn count |
| ConversationLaws.StreamSimulatesBatch | src/openvoice/agent/conversation.py:189-263 | without tools the stream and the batch call agree on intent, transfer, turn count and log shape; on the text up to whitespace if and only if outside the blank-before-marker family; and on the whole reply, literally, if and only if the stream is verbatim or the reply is a fixed message |
| ConversationLaws.CallSimulates | src/openvoice/agent/conversation.py:189-263 | the same for a whole call: decisions, turns and numbers of requests always agree, logs up to whitespace if and only if no answered completion is in that family, logs and replies literally if and only if every answered stream is verbatim |
| ConversationLaws.EscalationFollowsTheLabel | src/openvoice/agent/conversation.py:37-40 | a completion in the prompted shape, streamed in any chunks, is answered with its intent and its reply, plus the newline exactly when the completing delta starts with the marker's last character, and the caller is transferred exactly for an urgent matter or a request for a human |
| ConversationLaws.BatchNeedsAnIteration | src/openvoice/agent/conversation.py:136-187 | the batch call answers a plain completion exactly when at least one iteration is allowed |
| ConversationLaws.YieldedConcatenatesToReply | src/openvoice/agent/conversation.py:189-263 | unless the provider fails midway, the yielded pieces concatenate to the reply's text |
| UtteranceLaws.HistoryIsTold | src/openvoice/agent/conversation.py:293-306 | the history of a session is its last turns, as many as the limit allows and all for 0, each message by message: the caller's text, every answer with its calls and one result per call, and the reply |
| UtteranceLaws.RequestsTellEverything | src/openvoice/agent/conversation.py:133-172 | every list sent in an utterance: the history, the caller's text, then for each answer so far its text with its calls and one tool message per call, with that call's id and what the tool returned, the internal-error text when it raised, or "not available" without tools |
| UtteranceLaws.CapTransfers | src/openvoice/agent/conversation.py:265-275 | at a cap on turns or on elapsed time, and only there, the fixed transfer is the whole answer, streamed or not; any other utterance counts as a turn |
| UtteranceLaws.UtteranceIsAnswered | src/openvoice/agent/conversation.py:136-183 | when an answer within the iteration limit asks for no tools, its parsed text is the reply, with the intent and the transfer its label names, and the turn is logged with all its rounds as they were told |
| UtteranceLaws.UtteranceFails | src/openvoice/agent/conversation.py:141-187 | when the provider fails or every allowed answer asks for tools, the fallback message transfers the caller and only the turn count changes |
| UtteranceLaws.StreamWithTools | src/openvoice/agent/conversation.py:209-213 | with tools the streaming call has the reply, requests, log and turn count of the batch call, records the reply and yields its text, or nothing when it is empty |
| UtteranceLaws.StreamIsAnswered | src/openvoice/agent/conversation.py:229-263 | without tools a stream that ends is answered with the extractor's text and the intent and transfer its label names, recorded and logged; one request, and the pieces yielded are that text |
| UtteranceLaws.StreamFails | src/openvoice/agent/conversation.py:242-250 | a stream that fails has spoken what was released, then the fallback message; the caller is transferred and nothing is logged |
| UtteranceLaws.TransferFollowsTheLabel | src/openvoice/agent/conversation.py:37-40 | streamed or not, with tools or without, an answered caller is transferred if and only if the lower-cased label after the first marker is "urgent" or "human_transfer" |
| UtteranceLaws.CallIsItsUtterances | src/openvoice/agent/conversation.py:43-48 | a call is its utterances one after another, each from the session the last one left, and nothing is sent or answered besides |
| UtteranceLaws.RequestCapIsReached | src/openvoice/agent/conversation.py:56-62 | the per-turn cap on requests is reached, in every session within the caps |
| SlotSearch.FindAvailableSlots | src/openvoice/booking/service.py:49-81 | for every duration, positive or not, exactly the specified list on every search that ends within the calendar, an overflow on every search that leaves it, and the calendar's failure in between; every slot proposed lasts as many minutes as asked for, or the default for none or 0 |
| SlotSearch.ScanDay | src/openvoice/booking/service.py:70-76 | the inner loop, for either sign of the duration: it ends, adds what the day offers, and overflows exactly when the last slot tried on the day ends out of range |
| SlotSearch.ScanNextDay | src/openvoice/booking/service.py:68-79 | one day of the outer loop keeps its state, or shows that the whole search is out of range |
| SlotSearch.ScanDays | src/openvoice/booking/service.py:69-79 | the outer loop from a given first opening: the first free candidates of all scanned days, or the first free steps back, or an overflow exactly when the whole search is out of range |
| SlotLaws.GridIs | src/openvoice/booking/service.py:63-79 | the candidates are exactly the whole multiples of the duration after each scanned day's opening that end by closing |
| SlotLaws.FreeIs | src/openvoice/booking/service.py:235-236 | a candidate is kept exactly when no busy interval overlaps it |
| SlotLaws.FoundMayBeOffered | src/openvoice/booking/service.py:58-81 | every slot found is on the grid and free; slots are sorted, disjoint, at most `max_results`, and none starts before the search |
| SlotLaws.NoneIsSkipped | src/openvoice/booking/service.py:69-76 | a slot that could be offered is left out only when enough earlier ones were found |
| SlotLaws.SlotsEndInTimeIff | src/openvoice/booking/service.py:62-79 | no slot found runs past the search window, whatever is busy, if and only if the last whole slot of the last scanned day ends by it, or nothing is searched |
| SlotLaws.SlotMayEndAfterTheSearch | src/openvoice/booking/service.py:69-76 | a concrete search whose slot ends after the window |
| SlotLaws.SlotsRunForwardIff | src/openvoice/booking/service.py:61-76 | every slot found runs forward if and only if the duration is positive or the search finds nothing |
| SlotLaws.BackwardIsFree | src/openvoice/booking/service.py:70-76 | for a duration that is not positive every slot found is free, and starts at the opening or before it and ends no later than it starts |
| SlotLaws.BackwardSkipsNone | src/openvoice/booking/service.py:70-76 | such a search leaves out no free step back before the last one it found |
| SlotLaws.NegativeDurationRunsBackwards | src/openvoice/booking/service.py:61-76 | a concrete search with a negative duration, whose slot ends before it starts |
| SlotLaws.UnanswerableNeverEnds | src/openvoice/booking/service.py:70-76 | with valid hours, the searches on which nothing is stated are those that stay in the inner loop for ever |
| SlotLaws.InRangeIff | src/openvoice/booking/service.py:58-79 | for a positive duration, the search keeps to the calendar whatever is busy if and only if its window, first opening, last cut-off and the day after the last one are in range |
| SlotLaws.CutOffIs | src/openvoice/booking/service.py:70-76 | the first slot end past closing is the opening plus one slot more than fit |
| SlotLaws.LastOpeningIs | src/openvoice/booking/service.py:68-79 | the last day searched opens the last whole number of days after the first that is within the window |
| SlotLaws.StepsBackTooFar | src/openvoice/booking/service.py:70-76 | with a duration that is not positive, two steps back past the first date overflow |
| SlotAnswers.OverlapIs | src/openvoice/booking/service.py:235-236 | two intervals that run forward overlap if and only if they share a moment |
| SlotAnswers.GridIsOfficeHours | src/openvoice/booking/service.py:63-79 | the candidates are exactly the slots that start a whole number of slots after the opening hour of a date whose opening is in the window, and end by the closing hour of that date |
| SlotAnswers.SlotsHaveTheDuration | src/openvoice/booking/service.py:58-75 | every slot found has exactly the duration of the search, whatever its sign |
| SlotAnswers.ProposalsAre | src/openvoice/booking/service.py:58-81 | for a positive duration: in office hours, clear of everything busy, in order, at most `max_results`, and no such slot is left out unless enough earlier ones were found |
| SlotAnswers.SearchAnswers | src/openvoice/booking/service.py:58-81 | without a window in the calendar's range the search overflows before the calendar is asked, with one the calendar's failure is reported if and only if it fails, and a full result leaves room for the next try |
| SlotAnswers.SettledIff | src/openvoice/booking/service.py:69-76 | with valid hours, nothing is stated about a search if and only if it scans days for slots of no length and its first opening, within the window, lies strictly inside something busy |
| Booking.BookingService.BookAppointment | src/openvoice/booking/service.py:83-147 | exact repeat, conflict, calendar failure, refused commit and success, with the whole new state |
| Booking.BookingService.CancelAppointment | src/openvoice/booking/service.py:171-178 | the event goes first, then the row; a calendar error changes nothing |
| Booking.BookingService.RescheduleAppointment | src/openvoice/booking/service.py:180-200 | refused without an event; the event moves first, then the row |
| Booking.Database.FindOverlapping | src/openvoice/booking/service.py:202-214 | some active overlapping row of the client, or none exactly when no row of the client is active and overlaps |
| Booking.Database.Commit | src/openvoice/db/models/appointment.py:33-35 | a row whose interval is not positive is refused and the stored rows stay as they were |
| BookingLaws.AnyFaultMayHappen | src/openvoice/booking/service.py:202-214 | in every state a booking may meet any combination of faults and any of the conflicting rows |
| BookingLaws.BookDoes | src/openvoice/booking/service.py:112-147 | with a conflicting appointment only the answer differs, without one exactly one event and one confirmed row for it appear, or what is left when calendar or database refuse |
| BookingLaws.CancelDoes | src/openvoice/booking/service.py:175-178 | exactly the row's event goes and exactly its status changes, or what is left when calendar or database refuse |
| BookingLaws.RescheduleDoes | src/openvoice/booking/service.py:189-200 | exactly the row's event moves and exactly its time and status change, or what is left when calendar or database refuse |
| BookingLaws.StepAgrees | src/openvoice/booking/service.py:112-200 | from any agreeing state, an operation keeps rows and events in one-to-one agreement if and only if it does not tear, which is read off the state and the request: the calendar would be changed, and the commit fails or the interval is not positive |
| BookingLaws.BookAgreesIff | src/openvoice/booking/service.py:112-144 | with everything working, booking keeps the agreement if and only if the interval is positive or already taken by the client |
| BookingLaws.RescheduleAgreesIff | src/openvoice/booking/service.py:180-200 | with everything working, rescheduling keeps it if and only if the new interval is positive or the appointment is cancelled |
| BookingLaws.EmptyIntervalLeavesAnOrphan | src/openvoice/booking/service.py:127-143 | a concrete empty interval leaves an event no row knows |
| BookingLaws.RunAgrees | src/openvoice/booking/service.py:112-200 | the agreement holds throughout a run if and only if no step of it tears, whatever other events the calendar has |
| BookingLaws.SoundRunAgrees | src/openvoice/booking/service.py:112-200 | when every request has a positive interval and a working database, the agreement holds throughout, calendar faults included |
| BookingLaws.BookKeepsDisjoint | src/openvoice/booking/service.py:99-125 | booking never makes two active appointments of one client overlap |
| BookingLaws.RescheduleKeepsDisjointIff | src/openvoice/booking/service.py:180-200 | rescheduling keeps them apart if and only if there is no event, the calendar or the database refuses, the interval is not positive, or no other active appointment of the client overlaps the new time |
| BookingLaws.RescheduleCanDoubleBook | src/openvoice/booking/service.py:180-200 | moving the second of any two appointments onto the first succeeds and double-books |
| BookingLaws.RunKeepsDisjoint | src/openvoice/booking/service.py:99-125 | no client's active appointments ever overlap in a run if and only if no step of it moves an appointment onto another |
| BookingLaws.RepeatHitsOnlyTheRow | src/openvoice/booking/service.py:112-125 | after a successful booking the overlap query of an exact repeat has that row as its only hit |
| BookingLaws.RepeatsAreIdempotent | src/openvoice/booking/service.py:99-104 | repeating a booking any number of times returns the same row and creates at most one event in all |
| BookingLaws.LaterRepeatFindsTheRow | src/openvoice/booking/service.py:99-125 | with any other requests in between, none of which addresses the row or moves another appointment onto it, a later exact repeat returns the same row and changes nothing |
| OfferedSlots.OfferedIsClear | src/openvoice/booking/service.py:58-76 | a slot found with a busy list covering the calendar is clear of the client's appointments |
| OfferedSlots.AllOfferedSlotsCanBeBooked | src/openvoice/booking/service.py:49-147 | any selection of the found slots ending in the window can be booked one after another in any order, no booking fails, and each creates one row and one event |
| BookingTools.BookingToolExecutor.Execute | src/openvoice/agent/tools/booking.py:178-204 | the dispatcher does exactly the described action, its order of checks included, offers exactly the slots of the search, and raises when that overflows; `RefusedIff`, `DoneAndReported`, `OffersAreAsAsked` and `ListIs` say what each call answers |
| BookingTools.BookingToolExecutor.BookIt | src/openvoice/agent/tools/booking.py:252-292 | validation, confirmation, times, caller record, then the service |
| BookingTools.BookingToolExecutor.CancelIt | src/openvoice/agent/tools/booking.py:295-318 | validation, confirmation, ownership, then the service |
| BookingTools.BookingToolExecutor.RescheduleIt | src/openvoice/agent/tools/booking.py:321-354 | validation, confirmation, times, ownership, then the service |
| BookingToolLaws.SessionKeepsOthers | src/openvoice/agent/tools/booking.py:17-20 | any sequence of tool calls leaves all other clients' rows exactly as they were |
| BookingToolLaws.OthersKeepTheirEvents | src/openvoice/agent/tools/booking.py:357-369 | with database and calendar agreeing at the start, no sequence of tool calls moves or removes an event of anybody else, whatever fails on the way |
| BookingToolLaws.UnconfirmedChangesNothing | src/openvoice/agent/tools/booking.py:5-15 | a call without the caller's confirmation changes nothing, and a mutating one is an error |
| BookingToolLaws.UnconfirmedSessionChangesNothing | src/openvoice/agent/tools/booking.py:5-15 | nor does any sequence of such calls |
| BookingToolLaws.ErrorsChangeNothing | src/openvoice/agent/tools/booking.py:197-202 | an answer reported as an error means nothing was changed |
| BookingToolLaws.ActsAsRequested | src/openvoice/agent/tools/booking.py:178-354 | a call either changes nothing, and raises exactly when it searches out of range, or is the one service step it asks for, and raises exactly when that step's commit is refused |
| BookingToolLaws.CallCrashesIff | src/openvoice/agent/tools/booking.py:178-202 | under the modelled faults, a call raises if and only if it searches out of the calendar's range, or gets as far as the database and the commit fails or the interval is not positive |
| BookingToolLaws.RaisesIff | src/openvoice/agent/tools/base.py:10-13 | with everything working, a call raises if and only if it is a confirmed booking of a known caller with nothing there, or a confirmed move of the caller's own active appointment, to an interval that ends no later than it starts, or a search that leaves the calendar's range |
| BookingToolLaws.EmptyBookingRaises | src/openvoice/agent/tools/booking.py:252-292 | a concrete confirmed booking of an empty interval raises and leaves an orphan event |
| BookingToolLaws.FarSearchRaises | src/openvoice/booking/service.py:59 | a search ten million days ahead raises, whatever the time, the settings, the stored state and the calendar |
| BookingToolLaws.ReachKeepsToCalendar | src/openvoice/agent/tools/booking.py:206-219 | a search with a positive duration whose reach is in range does not leave the calendar, whatever is busy |
| BookingToolLaws.ToolKeepsAgreement | src/openvoice/agent/tools/booking.py:178-204 | a tool call keeps rows and events in agreement if and only if the service step it asks for does not tear |
| BookingToolLaws.SessionAgreesIff | src/openvoice/agent/tools/booking.py:178-204 | the agreement holds throughout a sequence of tool calls if and only if none of them tears |
| BookingToolLaws.SoundSessionNeverRaises | src/openvoice/agent/tools/booking.py:178-204 | when every call names a positive interval, or none, and searches within the calendar, and the database takes the commits, no call raises and the agreement holds throughout |
| BookingToolLaws.AnswersAreTrue | src/openvoice/agent/tools/booking.py:288-354 | what the model is told was booked, moved or cancelled is so, and belongs to this caller |
| ToolAnswers.RefusedIff | src/openvoice/agent/tools/booking.py:178-369 | each refusal is given if and only if its check is the first to fail, in the order of the code, and is an error |
| ToolAnswers.DoneAndReported | src/openvoice/agent/tools/booking.py:252-354 | a mutating call that is not refused is one service step for exactly the times and the row it names, and reports that step's outcome |
| ToolAnswers.OffersAreAsAsked | src/openvoice/agent/tools/booking.py:207-225 | what is offered lasts as long as asked for or the default, at most five; for a positive duration it is in office hours of the days asked for or seven, clear of everything busy, and leaves out nothing earlier |
| ToolAnswers.ListIs | src/openvoice/booking/service.py:149-169 | listed is exactly what is stored, is this caller's, is not cancelled and starts no earlier than now |
| ToolAnswers.ListFollowsTheCall | src/openvoice/agent/tools/booking.py:228-249 | a future appointment just booked or moved is on the next list, and one just cancelled is not |
| ToolAnswers.ListedIsKnown | src/openvoice/booking/service.py:154-157 | once listed, an appointment is known to every later call of the session that cancels or moves it |
| Audio.LengthIsNearest | src/openvoice/audio.py:25 | the output length is within one half of count times to over from, unless clamped to one |
| Audio.RoundIsUnique | src/openvoice/audio.py:25 | an integer closer than one half is the one rounding gives |
| Audio.OutputLength | src/openvoice/audio.py:21-25 | samples at the same rate and empty input are returned as they are; otherwise the number of samples is the nearest to the exact ratio, ties to the even number, and at least one |
| Audio.TruncatesTowardsZero | src/openvoice/audio.py:31 | dropping the fraction keeps the sign and the whole part of the magnitude |
| Audio.OutputIs | src/openvoice/audio.py:26-31 | output sample i of n is the input sample at i * (count - 1) / (n - 1) when that is whole, otherwise the mean of the two around it weighted by nearness, fraction dropped |
| Audio.UpAndBackKeepsTheLength | src/openvoice/audio.py:21-31 | resampling up and back down returns exactly the original number of samples |
| Audio.DownAndBackKeepsTheLengthIff | src/openvoice/audio.py:21-31 | resampling down and back up returns the original number of samples if and only if the way down rounds by less than half a sample of the way up, or by exactly half and the number is even |
| Audio.DownAndBackMayNot | src/openvoice/audio.py:25 | a concrete input for which going down first loses samples |
| Audio.OutputIsBetween | src/openvoice/audio.py:26-31 | every output sample lies between the two input samples around its position |
| Audio.LineStaysALine | src/openvoice/audio.py:26-31 | interpolation is linear: a straight line stays that line, fractions dropped |
| Audio.OutputFits | src/openvoice/audio.py:31 | the 16-bit conversion never overflows, and the first and last samples are kept |

## Left out

- SlotSearch.FindAvailableSlots: about searches that end, which leaves out exactly a zero duration whose first opening is busy; opening and closing hours must be below 24, as `datetime.replace` demands; times are UTC, so there is no daylight saving.
- ConversationManager.ConversationManager.HandleUtteranceStream: consumed to the end; abandoned generators and task cancellation are not modelled.
- ConversationManager.ConversationManager.HandleUtterance: errors other than `LLMProviderError` from the LLM, and negative `max_history_turns`, which can raise an index error, are not modelled.
- ConversationLaws.StreamSimulatesBatch: for at least one allowed iteration; `ConversationLaws.BatchNeedsAnIteration` covers the rest.
- Booking.BookingService.BookAppointment: requests are sequential; two truly concurrent bookings are documented as not closed. Confirmation messages, notes and call ids are not modelled.
- Booking.Database.Commit: SQLAlchemy sessions are replaced by a map of rows; a commit applies one row or nothing.
- BookingToolLaws.CallCrashesIff: the modelled faults are a calendar that fails and a commit that is refused; a failing query, or `refresh` raising after a commit, is not modelled.
- BookingTools.BookingToolExecutor.Execute: answers are data, not text, and the upcoming list is a set, without its order.
- Audio.Resample: floating-point rounding in numpy, and byte strings of odd length, which numpy rejects.
- Text.IsSpace: `strip` uses Python's whitespace table; normalisation and case folding are not modelled, lower-casing is an arbitrary function.
- JSON: tool arguments are kept as their serialised text; parsing of JSON, UUIDs and ISO datetimes is replaced by parsed values.
- Provider calls, retries, LiveKit sessions, voice activity detection, SIP transfer, speech recognition and synthesis: foreign code.
- HTTP routers, settings, factories, logging, metrics, migrations, prompts, summaries, `stt_node`, `_synthesize_to_frames`: plumbing without an invariant of their own.
