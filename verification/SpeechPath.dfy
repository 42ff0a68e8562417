/** From LLM deltas to spoken sentences: the extractor feeds the splitter, and the result is compared
    with splitting the batch parser's reply. */
module SpeechPath {
  import opened Collections
  import opened Text
  import opened StructuredReply
  import opened SentenceSplitter

  function NonEmpty(parts: seq<string>): seq<string> {
    if parts == [] then []
    else
      var front, last := NonEmpty(parts[..|parts| - 1]), parts[|parts| - 1];
      if last == "" then front else front + [last]
  }

  /** What a completed stream hands to the speech node, one item per non-empty yield. */
  function Yielded(deltas: seq<string>): seq<string> {
    var st := AbsorbAll(deltas);
    NonEmpty(SpokenBy(deltas)) + if st.markerFound || st.pending == "" then [] else [st.pending]
  }

  lemma {:induction false} NonEmptyFlatten(parts: seq<string>)
    ensures Flatten(NonEmpty(parts)) == Flatten(parts)
    ensures "" !in NonEmpty(parts)
  {
    if parts != [] {
      var front, last := parts[..|parts| - 1], parts[|parts| - 1];
      NonEmptyFlatten(front);
      FlattenSnoc(NonEmpty(front), last);
    }
  }

  /** The yielded pieces concatenate to the final reply text, and none is empty. */
  lemma {:induction false} YieldedIsTheReply(lower: string -> string, deltas: seq<string>)
    ensures Flatten(Yielded(deltas)) == Conclude(lower, AbsorbAll(deltas)).text
    ensures "" !in Yielded(deltas)
  {
    var st := AbsorbAll(deltas);
    SpokenIsReleased(deltas);
    NonEmptyFlatten(SpokenBy(deltas));
    if !st.markerFound && st.pending != "" {
      FlattenSnoc(NonEmpty(SpokenBy(deltas)), st.pending);
    } else {
      FlattenAppend(NonEmpty(SpokenBy(deltas)), []);
      AbsorbAllHeard(deltas);
    }
  }

  lemma {:induction false} EmptyHasNoSentences()
    ensures Sentences("") == []
  {
  }

  /** A blank text has no sentences, and a text with ink has at least one. */
  lemma {:induction false} SentencesOfBlank(s: string)
    ensures Blank(s) <==> Sentences(s) == []
  {
    NothingIsLost(s);
    InkBlank(s);
    StrippingIsHarmless(s);
    StripBlank(s);
    if Blank(s) {
      EmptyHasNoSentences();
    }
  }

  lemma {:induction false} BlankStreamIsSilent(lower: string -> string, text: string)
    requires BlankBeforeMarker(text)
    ensures Sentences(Strip(Speakable(text))) == [] != Sentences(ParseStructuredReply(lower, text).reply)
  {
    StripBlank(Speakable(text));
    EmptyHasNoSentences();
    MarkerIsInk(text);
    SentencesOfBlank(text);
    StrippingIsHarmless(text);
  }

  /** End to end: for every completion and every way of cutting it into deltas, the sentences spoken
      are those of the batch parser's reply, exactly when the completion does not have a marker with
      only whitespace before it. */
  lemma {:induction false} StreamSpeaksTheParsedReply(lower: string -> string, deltas: seq<string>)
    ensures var text := Flatten(deltas);
            Sentences(Flatten(Yielded(deltas))) == Sentences(ParseStructuredReply(lower, text).reply)
            <==> !BlankBeforeMarker(text)
  {
    var text := Flatten(deltas);
    YieldedIsTheReply(lower, deltas);
    FinalTextStripped(lower, deltas);
    StrippingIsHarmless(Flatten(Yielded(deltas)));
    BatchReply(lower, text);
    if BlankBeforeMarker(text) {
      BlankStreamIsSilent(lower, text);
    }
  }
}
