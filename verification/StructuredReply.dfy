/** One LLM completion is "<spoken reply> ###INTENT: <label>": the batch parser, the incremental
    extractor that reads the same text from arbitrarily cut deltas, and the proof that they agree. */
module StructuredReply {
  import opened Collections
  import opened Text

  datatype Intent = Booking | SupportQuestion | Urgent | HumanTransfer | General

  const INTENT_MARKER: string := "###INTENT:"

  /** How many trailing characters might still turn out to be the start of a marker. */
  const HOLD_BACK: nat := |INTENT_MARKER| - 1

  /** The label as the `Intent` enumeration spells it, or General for anything else. */
  function IntentOfLabel(name: string): Intent {
    if name == "booking" then Booking
    else if name == "support_question" then SupportQuestion
    else if name == "urgent" then Urgent
    else if name == "human_transfer" then HumanTransfer
    else General
  }

  /** The intent read from whatever follows the marker; `lower` is the lower-casing function. */
  function ReadIntent(lower: string -> string, afterMarker: string): Intent {
    IntentOfLabel(lower(Strip(afterMarker)))
  }

  datatype Parsed = Parsed(intent: Intent, reply: string)

  /** The batch parser, on a whole completion. */
  function ParseStructuredReply(lower: string -> string, raw: string): Parsed {
    var m := Find(raw, INTENT_MARKER);
    if m == -1 then Parsed(General, Strip(raw))
    else
      var reply := Strip(raw[..m]);
      var intent := ReadIntent(lower, raw[m + |INTENT_MARKER|..]);
      Parsed(intent, if reply == "" then Strip(raw) else reply)
  }

  /** The text before the first marker: all that may ever be spoken. */
  function Speakable(text: string): string {
    var m := Find(text, INTENT_MARKER);
    if m == -1 then text else text[..m]
  }

  /** The one family of completions on which the streamed and the batch reply differ: there is a
      marker, and nothing but whitespace precedes it. */
  ghost predicate BlankBeforeMarker(text: string) {
    Find(text, INTENT_MARKER) != -1 && Blank(Speakable(text))
  }

  // ----- the incremental extractor, on values

  datatype Extractor = Extractor(pending: string, released: string, markerFound: bool, afterMarker: string)

  const FRESH_EXTRACTOR: Extractor := Extractor("", "", false, "")

  datatype Absorbed = Absorbed(next: Extractor, speakable: string)

  /** Before the marker: `pending` is everything not yet released, this delta included. */
  function Scan(st: Extractor, pending: string): Absorbed {
    var m := Find(pending, INTENT_MARKER);
    if m != -1 then
      var newlySafe := RStrip(pending[..m]);
      Absorbed(Extractor("", st.released + newlySafe, true, pending[m + |INTENT_MARKER|..]), newlySafe)
    else if |pending| <= HOLD_BACK then Absorbed(st.(pending := pending), "")
    else
      var cut := |pending| - HOLD_BACK;
      Absorbed(st.(pending := pending[cut..], released := st.released + pending[..cut]), pending[..cut])
  }

  function Absorb(st: Extractor, delta: string): Absorbed {
    if delta == "" then Absorbed(st, "")
    else if st.markerFound then Absorbed(st.(afterMarker := st.afterMarker + delta), "")
    else Scan(st, st.pending + delta)
  }

  datatype Final = Final(text: string, trailing: string, intent: Intent)

  function Conclude(lower: string -> string, st: Extractor): Final {
    if !st.markerFound then Final(st.released + st.pending, st.pending, General)
    else Final(st.released, "", ReadIntent(lower, st.afterMarker))
  }

  /** The state after a list of deltas. */
  function AbsorbAll(deltas: seq<string>): Extractor {
    if deltas == [] then FRESH_EXTRACTOR
    else Absorb(AbsorbAll(deltas[..|deltas| - 1]), deltas[|deltas| - 1]).next
  }

  /** What each delta of the list made speakable. */
  function SpokenBy(deltas: seq<string>): seq<string> {
    if deltas == [] then []
    else
      var front := deltas[..|deltas| - 1];
      SpokenBy(front) + [Absorb(AbsorbAll(front), deltas[|deltas| - 1]).speakable]
  }

  // ----- the invariant

  /** How much of `n` marker-free characters has been released. */
  function Safe(n: nat): nat {
    if n <= HOLD_BACK then 0 else n - HOLD_BACK
  }

  /** `st` is what an extractor may look like after `text`, however it was cut. */
  ghost predicate Heard(st: Extractor, text: string) {
    var m := Find(text, INTENT_MARKER);
    if !st.markerFound then
      && m == -1
      && st.afterMarker == ""
      && st.released == text[..Safe(|text|)]
      && st.pending == text[Safe(|text|)..]
    else
      && m != -1
      && st.pending == ""
      && st.afterMarker == text[m + |INTENT_MARKER|..]
      && st.released <= text[..m]
      && Blank(text[|st.released|..m])
  }

  /** A first marker stays the first marker when more text arrives. */
  lemma {:induction false} MarkerStays(text: string, more: string)
    requires Find(text, INTENT_MARKER) != -1
    ensures Find(text + more, INTENT_MARKER) == Find(text, INTENT_MARKER)
  {
    var m := Find(text, INTENT_MARKER);
    forall j | 0 <= j <= m
      ensures OccursAt(text + more, INTENT_MARKER, j) <==> OccursAt(text, INTENT_MARKER, j)
    {
      OccursInPrefix(text, more, INTENT_MARKER, j);
    }
    FindIsFirst(text + more, INTENT_MARKER, m);
  }

  /** In a text extending a marker-free one, a marker starts in the held-back part or later. */
  lemma {:induction false} MarkerIsNotReleased(text: string, delta: string, i: int)
    requires Find(text, INTENT_MARKER) == -1
    requires OccursAt(text + delta, INTENT_MARKER, i)
    ensures Safe(|text|) <= i
  {
    if i <= |text| - |INTENT_MARKER| {
      OccursInPrefix(text, delta, INTENT_MARKER, i);
      assert false;
    }
  }

  /** Looking for the marker in the held-back characters alone finds it where the whole text has it. */
  lemma {:induction false} HeldBackTextSuffices(text: string, delta: string)
    requires Find(text, INTENT_MARKER) == -1
    ensures var m := Find(text[Safe(|text|)..] + delta, INTENT_MARKER);
            Find(text + delta, INTENT_MARKER) == if m == -1 then -1 else Safe(|text|) + m
  {
    var k, whole := Safe(|text|), text + delta;
    forall i | 0 <= i < k
      ensures !OccursAt(whole, INTENT_MARKER, i)
    {
      if OccursAt(whole, INTENT_MARKER, i) {
        MarkerIsNotReleased(text, delta, i);
      }
    }
    FindInSuffix(whole, k, INTENT_MARKER);
    assert whole[k..] == text[k..] + delta;
  }

  lemma {:induction false} AfterTheMarker(st: Extractor, text: string, delta: string)
    requires Heard(st, text) && st.markerFound && delta != ""
    ensures Heard(Absorb(st, delta).next, text + delta)
  {
    MarkerStays(text, delta);
    var m, n := Find(text, INTENT_MARKER), |INTENT_MARKER|;
    assert (text + delta)[..m] == text[..m];
    assert (text + delta)[m + n..] == text[m + n..] + delta;
    assert (text + delta)[|st.released|..m] == text[|st.released|..m];
  }

  lemma {:induction false} MarkerArrives(released: string, pending: string, whole: string, m: nat)
    requires whole == released + pending && m + |INTENT_MARKER| <= |pending|
    ensures var k, piece := |released|, RStrip(pending[..m]);
            && released + piece <= whole[..k + m]
            && Blank(whole[k + |piece|..k + m])
            && whole[k + m + |INTENT_MARKER|..] == pending[m + |INTENT_MARKER|..]
  {
    var k, piece := |released|, RStrip(pending[..m]);
    assert whole[..k + m] == released + pending[..m];
    assert whole[k + |piece|..k + m] == pending[..m][|piece|..];
  }

  lemma {:induction false} NothingArrives(released: string, pending: string, whole: string)
    requires whole == released + pending && (released == "" || |pending| > HOLD_BACK)
    ensures |pending| <= HOLD_BACK ==> whole[..Safe(|whole|)] == "" && whole[Safe(|whole|)..] == pending
    ensures |pending| > HOLD_BACK ==>
              var cut := |pending| - HOLD_BACK;
              whole[..Safe(|whole|)] == released + pending[..cut] && whole[Safe(|whole|)..] == pending[cut..]
  {
  }

  lemma {:induction false} ScanKeepsHeard(st: Extractor, pending: string, whole: string)
    requires !st.markerFound && st.afterMarker == ""
    requires |st.released| == 0 || |pending| > HOLD_BACK
    requires whole == st.released + pending
    requires var m := Find(pending, INTENT_MARKER);
             Find(whole, INTENT_MARKER) == if m == -1 then -1 else |st.released| + m
    ensures Heard(Scan(st, pending).next, whole)
  {
    var m := Find(pending, INTENT_MARKER);
    if m != -1 {
      MarkerArrives(st.released, pending, whole, m);
    } else {
      NothingArrives(st.released, pending, whole);
    }
  }

  lemma {:induction false} BeforeTheMarker(st: Extractor, text: string, delta: string)
    requires Heard(st, text) && !st.markerFound && delta != ""
    ensures Heard(Absorb(st, delta).next, text + delta)
  {
    var k := Safe(|text|);
    HeldBackTextSuffices(text, delta);
    CutAt(text, k);
    Regroup(text[..k], text[k..], delta);
    ScanKeepsHeard(st, text[k..] + delta, text + delta);
  }

  /** Every delta keeps the invariant, whatever it contains. */
  lemma {:induction false} AbsorbKeepsHeard(st: Extractor, text: string, delta: string)
    requires Heard(st, text)
    ensures Heard(Absorb(st, delta).next, text + delta)
  {
    if delta == "" {
      assert text + delta == text;
    } else if st.markerFound {
      AfterTheMarker(st, text, delta);
    } else {
      BeforeTheMarker(st, text, delta);
    }
  }

  lemma {:induction false} AbsorbAllHeard(deltas: seq<string>)
    ensures Heard(AbsorbAll(deltas), Flatten(deltas))
  {
    if deltas != [] {
      var front := deltas[..|deltas| - 1];
      AbsorbAllHeard(front);
      AbsorbKeepsHeard(AbsorbAll(front), Flatten(front), deltas[|deltas| - 1]);
    }
  }

  /** The released text is exactly the pieces handed out, in order. */
  lemma {:induction false} SpokenIsReleased(deltas: seq<string>)
    ensures Flatten(SpokenBy(deltas)) == AbsorbAll(deltas).released
    ensures |SpokenBy(deltas)| == |deltas|
  {
    if deltas != [] {
      var front := deltas[..|deltas| - 1];
      SpokenIsReleased(front);
      FlattenSnoc(SpokenBy(front), Absorb(AbsorbAll(front), deltas[|deltas| - 1]).speakable);
    }
  }

  // ----- main results

  /** What an extractor has heard, it gives back up to the marker, less whitespace next to it. */
  lemma {:induction false} ConcludesSpeakable(lower: string -> string, st: Extractor, text: string)
    requires Heard(st, text)
    ensures var f := Conclude(lower, st);
            f.text <= Speakable(text) && Blank(Speakable(text)[|f.text|..])
  {
    var m, k := Find(text, INTENT_MARKER), |st.released|;
    if st.markerFound {
      var speakable := text[..m];
      assert speakable[k..] == text[k..m];
    } else {
      CutAt(text, Safe(|text|));
    }
  }

  /** The final text keeps everything before the marker except whitespace next to it. */
  lemma {:induction false} FinalTextIsSpeakable(lower: string -> string, deltas: seq<string>)
    ensures var text, f := Flatten(deltas), Conclude(lower, AbsorbAll(deltas));
            f.text <= Speakable(text) && Blank(Speakable(text)[|f.text|..])
  {
    AbsorbAllHeard(deltas);
    ConcludesSpeakable(lower, AbsorbAll(deltas), Flatten(deltas));
  }

  lemma {:induction false} StripPrefix(s: string, front: string)
    requires front <= s && Blank(s[|front|..])
    ensures Strip(front) == Strip(s)
  {
  }

  lemma {:induction false} FinalTextStripped(lower: string -> string, deltas: seq<string>)
    ensures Strip(Conclude(lower, AbsorbAll(deltas)).text) == Strip(Speakable(Flatten(deltas)))
  {
    FinalTextIsSpeakable(lower, deltas);
    StripPrefix(Speakable(Flatten(deltas)), Conclude(lower, AbsorbAll(deltas)).text);
  }

  lemma {:induction false} IntentsAgree(lower: string -> string, deltas: seq<string>)
    ensures Conclude(lower, AbsorbAll(deltas)).intent == ParseStructuredReply(lower, Flatten(deltas)).intent
  {
    AbsorbAllHeard(deltas);
  }

  /** A completion with a marker is never blank. */
  lemma {:induction false} MarkerIsInk(text: string)
    requires Find(text, INTENT_MARKER) != -1
    ensures !Blank(text)
  {
    var m := Find(text, INTENT_MARKER);
    assert text[m] == text[m..m + |INTENT_MARKER|][0];
  }

  /** The batch reply is the stripped text before the marker, or the stripped completion, marker included,
      when there is a marker and nothing but whitespace before it; only then are the two different. */
  lemma {:induction false} BatchReply(lower: string -> string, text: string)
    ensures Strip(Speakable(text)) == ParseStructuredReply(lower, text).reply <==> !BlankBeforeMarker(text)
    ensures BlankBeforeMarker(text) ==> ParseStructuredReply(lower, text).reply == Strip(text) != ""
  {
    StripBlank(Speakable(text));
    if BlankBeforeMarker(text) {
      MarkerIsInk(text);
      StripBlank(text);
    }
  }

  /** The extractor refines the batch parser, for every text and every way of cutting it: the intents
      always agree, and the texts agree up to surrounding whitespace exactly outside the
      blank-before-marker family. */
  lemma {:induction false} ExtractorRefinesParser(lower: string -> string, deltas: seq<string>)
    ensures var text, f := Flatten(deltas), Conclude(lower, AbsorbAll(deltas));
            var p := ParseStructuredReply(lower, text);
            && f.intent == p.intent
            && (Strip(f.text) == p.reply <==> !BlankBeforeMarker(text))
  {
    IntentsAgree(lower, deltas);
    FinalTextStripped(lower, deltas);
    BatchReply(lower, Flatten(deltas));
  }

  /** Where they differ: the batch parser returns the raw text, marker included; the stream says nothing. */
  lemma {:induction false} BlankBeforeMarkerWitness(lower: string -> string)
    ensures BlankBeforeMarker("###INTENT:")
    ensures ParseStructuredReply(lower, "###INTENT:").reply == "###INTENT:"
    ensures Conclude(lower, AbsorbAll(["###INTENT:"])).text == ""
  {
    var raw := "###INTENT:";
    assert OccursAt(raw, INTENT_MARKER, 0);
    FindIsFirst(raw, INTENT_MARKER, 0);
    CoreIsUnique(raw, 0, |raw|);
    StripBlank("");
    assert ["###INTENT:"][..0] == [];
    assert AbsorbAll(["###INTENT:"]) == Absorb(FRESH_EXTRACTOR, raw).next;
    assert "" + raw == raw;
  }

  lemma {:induction false} SafePrefix(st: Extractor, text: string, rest: string)
    requires Heard(st, text)
    ensures st.released <= Speakable(text + rest)
  {
    if st.markerFound {
      MarkerStays(text, rest);
    } else {
      HeldBackTextSuffices(text, rest);
      assert text[..Safe(|text|)] == (text + rest)[..Safe(|text|)];
    }
  }

  /** Online safety: what has been spoken after some deltas is part of the speakable text of every
      possible completion of the stream, so no marker character is ever spoken. */
  lemma {:induction false} NothingUnsafeIsSpoken(deltas: seq<string>, more: seq<string>)
    ensures Flatten(SpokenBy(deltas)) <= Speakable(Flatten(deltas + more))
  {
    SpokenIsReleased(deltas);
    AbsorbAllHeard(deltas);
    FlattenAppend(deltas, more);
    SafePrefix(AbsorbAll(deltas), Flatten(deltas), Flatten(more));
  }

  /** Liveness: until a marker has arrived, all but the last nine characters have been spoken. */
  lemma {:induction false} AllButTheTailIsSpoken(deltas: seq<string>)
    requires Find(Flatten(deltas), INTENT_MARKER) == -1
    ensures var text := Flatten(deltas);
            Flatten(SpokenBy(deltas)) == text[..if |text| <= 9 then 0 else |text| - 9]
  {
    SpokenIsReleased(deltas);
    AbsorbAllHeard(deltas);
  }

  /** The hold-back is as small as safety allows: releasing one character more would, for some text
      still open, speak part of a marker. */
  lemma {:induction false} HoldBackIsTight(text: string, k: nat)
    requires Safe(|text| + HOLD_BACK) < k <= |text| + HOLD_BACK
    requires Find(text + INTENT_MARKER, INTENT_MARKER) == |text|
    ensures var open := text + INTENT_MARKER[..HOLD_BACK];
            && Find(open, INTENT_MARKER) == -1
            && !(open[..k] <= Speakable(open + ":"))
  {
    var open := text + INTENT_MARKER[..HOLD_BACK];
    assert open + ":" == text + INTENT_MARKER;
    if Find(open, INTENT_MARKER) != -1 {
      MarkerStays(open, ":");
    }
  }

  /** The last piece handed out, on the delta that completes the marker, never ends in whitespace. */
  lemma {:induction false} LastPieceIsTrimmed(st: Extractor, delta: string)
    requires !st.markerFound && Absorb(st, delta).next.markerFound
    ensures var piece := Absorb(st, delta).speakable;
            piece == "" || !IsSpace(piece[|piece| - 1])
  {
  }

  // ----- the prompted shape

  /** The label the prompt asks the model to write. */
  function LabelOf(intent: Intent): string {
    match intent
    case Booking => "booking"
    case SupportQuestion => "support_question"
    case Urgent => "urgent"
    case HumanTransfer => "human_transfer"
    case General => "general"
  }

  /** A completion exactly as prompted: the reply, and the intent line on a line of its own. */
  function Prompted(reply: string, intent: Intent): string {
    (reply + "\n") + (INTENT_MARKER + (" " + LabelOf(intent)))
  }

  /** No marker starts in or overlaps a marker-free reply followed by a newline. */
  lemma {:induction false} NoMarkerBeforeTheNewline(reply: string, rest: string, j: nat)
    requires Find(reply, INTENT_MARKER) == -1 && j <= |reply|
    ensures !OccursAt(reply + ("\n" + rest), INTENT_MARKER, j)
  {
    var s := reply + ("\n" + rest);
    assert s[|reply|] == '\n';
    if OccursAt(s, INTENT_MARKER, j) {
      if j + |INTENT_MARKER| <= |reply| {
        OccursInPrefix(reply, "\n" + rest, INTENT_MARKER, j);
      } else {
        OccurrenceAt(s, INTENT_MARKER, j, |reply|);
      }
    }
  }

  lemma {:induction false} MarkerFollowsTheReply(reply: string, after: string)
    requires Find(reply, INTENT_MARKER) == -1
    ensures Find((reply + "\n") + (INTENT_MARKER + after), INTENT_MARKER) == |reply| + 1
  {
    var s, rest := (reply + "\n") + (INTENT_MARKER + after), INTENT_MARKER + after;
    Regroup(reply, "\n", rest);
    forall j | 0 <= j < |reply| + 1
      ensures !OccursAt(s, INTENT_MARKER, j)
    {
      NoMarkerBeforeTheNewline(reply, rest, j);
    }
    assert s[|reply| + 1..|reply| + 1 + |INTENT_MARKER|] == INTENT_MARKER;
    FindIsFirst(s, INTENT_MARKER, |reply| + 1);
  }

  lemma {:induction false} ThreeParts(a: string, b: string, c: string)
    ensures (a + (b + c))[..|a|] == a && (a + (b + c))[|a| + |b|..] == c
  {
  }

  lemma {:induction false} LabelIsTrimmed(intent: Intent)
    ensures Strip(LabelOf(intent)) == LabelOf(intent)
  {
  }

  lemma {:induction false} LabelIsRead(lower: string -> string, intent: Intent)
    requires lower(LabelOf(intent)) == LabelOf(intent)
    ensures ReadIntent(lower, " " + LabelOf(intent)) == intent
  {
    StripAfter(" ", LabelOf(intent));
    LabelIsTrimmed(intent);
  }

  lemma {:induction false} PromptedReply(lower: string -> string, reply: string, intent: Intent)
    requires Find(reply, INTENT_MARKER) == -1 && Strip(reply) == reply != ""
    ensures ParseStructuredReply(lower, Prompted(reply, intent))
            == Parsed(ReadIntent(lower, " " + LabelOf(intent)), reply)
    ensures !BlankBeforeMarker(Prompted(reply, intent))
  {
    var after := " " + LabelOf(intent);
    MarkerFollowsTheReply(reply, after);
    ThreeParts(reply + "\n", INTENT_MARKER, after);
    StripBefore(reply, "\n");
    StripBlank(reply + "\n");
  }

  /** Round trip: a completion in the prompted shape parses back to its reply and its intent. */
  lemma {:induction false} PromptedShapeParses(lower: string -> string, reply: string, intent: Intent)
    requires Find(reply, INTENT_MARKER) == -1 && Strip(reply) == reply != ""
    requires lower(LabelOf(intent)) == LabelOf(intent)
    ensures ParseStructuredReply(lower, Prompted(reply, intent)) == Parsed(intent, reply)
  {
    PromptedReply(lower, reply, intent);
    LabelIsRead(lower, intent);
  }

  // ----- the intent

  /** What the caller wanted, read off the completion: the lower-cased, stripped text after the first marker
      names one of four intents, and anything else, a missing marker included, is General. */
  ghost predicate IsIntentOf(intent: Intent, lower: string -> string, text: string) {
    var m := Find(text, "###INTENT:");
    if m == -1 then intent == General
    else
      var name := lower(Strip(text[m + 10..]));
      && (intent == Booking <==> name == "booking")
      && (intent == SupportQuestion <==> name == "support_question")
      && (intent == Urgent <==> name == "urgent")
      && (intent == HumanTransfer <==> name == "human_transfer")
      && (intent == General <==> name !in ["booking", "support_question", "urgent", "human_transfer"])
  }

  lemma {:induction false} LabelDecides(lower: string -> string, text: string)
    ensures IsIntentOf(ParseStructuredReply(lower, text).intent, lower, text)
  {
    var m := Find(text, INTENT_MARKER);
    if m != -1 {
      var name := lower(Strip(text[m + |INTENT_MARKER|..]));
      assert name in ["booking", "support_question", "urgent", "human_transfer"]
             <==> name == "booking" || name == "support_question" || name == "urgent" || name == "human_transfer";
    }
  }

  /** For every completion, and every way of cutting it into deltas, both parsers read the intent off the
      label after the first marker. */
  lemma {:induction false} IntentIsRead(lower: string -> string, deltas: seq<string>)
    ensures IsIntentOf(ParseStructuredReply(lower, Flatten(deltas)).intent, lower, Flatten(deltas))
    ensures IsIntentOf(Conclude(lower, AbsorbAll(deltas)).intent, lower, Flatten(deltas))
  {
    LabelDecides(lower, Flatten(deltas));
    IntentsAgree(lower, deltas);
  }

  // ----- when the streamed text is literally the batch reply

  function Max(a: nat, b: nat): nat { if a < b then b else a }

  /** Where a suffix's trailing whitespace begins, seen from the whole text. */
  lemma {:induction false} TailStartOfSuffix(s: string, k: nat, n: nat)
    requires k <= n <= |s|
    ensures k + TailStart(s[k..n], n - k) == Max(k, TailStart(s, n))
  {
    var part := s[k..n];
    var t, u := TailStart(part, n - k), TailStart(s, n);
    assert forall i :: 0 <= i < n - k ==> part[i] == s[k + i];
    if u > k {
      assert !IsSpace(part[u - 1 - k]);
    }
    if t > 0 {
      assert !IsSpace(s[k + (t - 1)]);
    }
  }

  lemma {:induction false} TailStartInPrefix(text: string, more: string, n: nat)
    requires n <= |text|
    ensures TailStart(text + more, n) == TailStart(text, n)
  {
    var whole := text + more;
    assert forall i :: 0 <= i < n ==> whole[i] == text[i];
    var t, u := TailStart(text, n), TailStart(whole, n);
    assert t > 0 ==> !IsSpace(whole[t - 1]);
    assert u > 0 ==> !IsSpace(text[u - 1]);
  }

  /** What is kept of a text with a marker when the delta that completed it found `n` characters. */
  function KeptOf(text: string, n: nat): string
    requires 0 <= Find(text, INTENT_MARKER) && Safe(n) <= Find(text, INTENT_MARKER)
  {
    text[..Max(Safe(n), TailStart(text, Find(text, INTENT_MARKER)))]
  }

  lemma {:induction false} RStripOfSuffix(s: string, k: nat, m: nat)
    requires k <= m <= |s|
    ensures s[..k] + RStrip(s[k..m]) == s[..Max(k, TailStart(s, m))]
  {
    TailStartOfSuffix(s, k, m);
    var t := TailStart(s[k..m], m - k);
    assert s[k..m][..t] == s[k..k + t];
    assert s[..k] + s[k..k + t] == s[..k + t];
  }

  lemma {:induction false} MarkerNotBefore(text: string, delta: string)
    requires Find(text, INTENT_MARKER) == -1 && Find(text + delta, INTENT_MARKER) != -1
    ensures Safe(|text|) <= Find(text + delta, INTENT_MARKER)
  {
    MarkerIsNotReleased(text, delta, Find(text + delta, INTENT_MARKER));
  }

  lemma {:induction false} ScanReleases(st: Extractor, pending: string, whole: string, k: nat, m: nat)
    requires k <= m <= |whole| && st.released == whole[..k] && pending == whole[k..]
    requires Find(pending, INTENT_MARKER) == m - k
    ensures var next := Scan(st, pending).next;
            next.markerFound && next.released == whole[..Max(k, TailStart(whole, m))]
  {
    assert pending[..m - k] == whole[k..m];
    RStripOfSuffix(whole, k, m);
  }

  lemma {:induction false} HeldBackText(text: string, delta: string, k: nat)
    requires k <= |text|
    ensures text[k..] + delta == (text + delta)[k..] && text[..k] == (text + delta)[..k]
  {
  }

  /** The completing delta releases the text up to the marker, less the whitespace not yet released. */
  lemma {:induction false} CompletingReleases(st: Extractor, text: string, delta: string)
    requires Heard(st, text) && !st.markerFound && delta != ""
    requires Find(text + delta, INTENT_MARKER) != -1 && Safe(|text|) <= Find(text + delta, INTENT_MARKER)
    ensures var next := Absorb(st, delta).next;
            next.markerFound && next.released == KeptOf(text + delta, |text|)
  {
    var whole, k := text + delta, Safe(|text|);
    HeldBackTextSuffices(text, delta);
    HeldBackText(text, delta, k);
    assert Absorb(st, delta) == Scan(st, text[k..] + delta);
    ScanReleases(st, text[k..] + delta, whole, k, Find(whole, INTENT_MARKER));
  }

  /** How much text had arrived before the delta that completes the marker. */
  function Before(deltas: seq<string>): (n: nat)
    requires Find(Flatten(deltas), INTENT_MARKER) != -1
    ensures Safe(n) <= Find(Flatten(deltas), INTENT_MARKER)
  {
    var front, last := deltas[..|deltas| - 1], deltas[|deltas| - 1];
    if Find(Flatten(front), INTENT_MARKER) == -1 then
      MarkerNotBefore(Flatten(front), last);
      |Flatten(front)|
    else
      MarkerStays(Flatten(front), last);
      Before(front)
  }

  /** Delta `k` is the one with which the marker is first complete. */
  ghost predicate Completes(deltas: seq<string>, k: int) {
    && 0 <= k < |deltas|
    && Find(Flatten(deltas[..k]), INTENT_MARKER) == -1
    && Find(Flatten(deltas[..k + 1]), INTENT_MARKER) != -1
  }

  lemma {:induction false} CompletedStaysFound(deltas: seq<string>, k: nat)
    requires Completes(deltas, k)
    ensures Find(Flatten(deltas), INTENT_MARKER) != -1
  {
    CutAt(deltas, k + 1);
    FlattenAppend(deltas[..k + 1], deltas[k + 1..]);
    MarkerStays(Flatten(deltas[..k + 1]), Flatten(deltas[k + 1..]));
  }

  /** `Before` is the length of the text before the completing delta. */
  lemma {:induction false} BeforeIs(deltas: seq<string>, k: nat)
    requires Completes(deltas, k)
    ensures Find(Flatten(deltas), INTENT_MARKER) != -1
    ensures Before(deltas) == |Flatten(deltas[..k])|
  {
    CompletedStaysFound(deltas, k);
    var n := |deltas| - 1;
    var front := deltas[..n];
    if k < n {
      assert front[..k] == deltas[..k] && front[..k + 1] == deltas[..k + 1];
      BeforeIs(front, k);
    }
  }

  lemma {:induction false} KeptStays(text: string, more: string, n: nat)
    requires Find(text, INTENT_MARKER) != -1 && Safe(n) <= Find(text, INTENT_MARKER)
    ensures Find(text + more, INTENT_MARKER) == Find(text, INTENT_MARKER)
    ensures KeptOf(text + more, n) == KeptOf(text, n)
  {
    MarkerStays(text, more);
    TailStartInPrefix(text, more, Find(text, INTENT_MARKER));
  }

  lemma {:induction false} ReleasedText(deltas: seq<string>)
    requires Find(Flatten(deltas), INTENT_MARKER) != -1
    ensures AbsorbAll(deltas).markerFound
    ensures AbsorbAll(deltas).released == KeptOf(Flatten(deltas), Before(deltas))
  {
    var front, last := deltas[..|deltas| - 1], deltas[|deltas| - 1];
    AbsorbAllHeard(front);
    if Find(Flatten(front), INTENT_MARKER) == -1 {
      MarkerNotBefore(Flatten(front), last);
      assert Flatten(front) + "" == Flatten(front);
      CompletingReleases(AbsorbAll(front), Flatten(front), last);
    } else {
      ReleasedText(front);
      KeptStays(Flatten(front), last, Before(front));
    }
  }

  /** The final text, for every text and every way of cutting it: all of it when there is no marker, and
      otherwise the text before the marker without its trailing whitespace, but for what of that
      whitespace had already been released before the marker was complete. */
  lemma {:induction false} FinalText(lower: string -> string, deltas: seq<string>)
    ensures var text := Flatten(deltas);
            Conclude(lower, AbsorbAll(deltas)).text
            == if Find(text, INTENT_MARKER) == -1 then text else KeptOf(text, Before(deltas))
  {
    AbsorbAllHeard(deltas);
    if Find(Flatten(deltas), INTENT_MARKER) != -1 {
      ReleasedText(deltas);
    } else {
      CutAt(Flatten(deltas), Safe(|Flatten(deltas)|));
    }
  }

  /** Without a marker, a stripped text; with one, a text that begins with ink before it, of whose
      whitespace next to the marker none had been released when the marker was complete. */
  ghost predicate Verbatim(deltas: seq<string>) {
    var text := Flatten(deltas);
    var m := Find(text, INTENT_MARKER);
    if m == -1 then Strip(text) == text
    else !Blank(text[..m]) && !IsSpace(text[0]) && Safe(Before(deltas)) <= TailStart(text, m)
  }

  /** A prefix that keeps all ink before `m` is the stripped text only when it keeps nothing else. */
  lemma {:induction false} PrefixIsStripped(s: string, m: nat, k: nat)
    requires m <= |s| && TailStart(s, m) <= k <= m && !Blank(s[..m])
    ensures s[..k] == Strip(s[..m]) <==> !IsSpace(s[0]) && k == TailStart(s, m)
  {
    var front := s[..m];
    CutAt(s, m);
    TailStartInPrefix(front, s[m..], m);
    var t := TailStart(front, m);
    var h := HeadEnd(front, 0, t);
    assert Strip(front) == front[h..t];
    StripBlank(front);
    assert h < t && front[0] == s[0];
    if k == t && h == 0 {
      assert s[..k] == front[h..t];
    } else {
      assert |s[..k]| > |front[h..t]|;
    }
  }

  lemma {:induction false} MarkedTextIsStripped(text: string, n: nat)
    requires Find(text, INTENT_MARKER) != -1 && Safe(n) <= Find(text, INTENT_MARKER)
    requires !Blank(text[..Find(text, INTENT_MARKER)])
    ensures KeptOf(text, n) == Strip(Speakable(text))
            <==> !IsSpace(text[0]) && Safe(n) <= TailStart(text, Find(text, INTENT_MARKER))
  {
    var m := Find(text, INTENT_MARKER);
    PrefixIsStripped(text, m, Max(Safe(n), TailStart(text, m)));
  }

  lemma {:induction false} ReplyIsStripped(lower: string -> string, text: string)
    ensures var reply := ParseStructuredReply(lower, text).reply; Strip(reply) == reply
  {
    StripTwice(text);
    StripTwice(Speakable(text));
  }

  /** The streamed text is literally the batch parser's reply exactly when the stream is verbatim. */
  lemma {:induction false} TextsAreEqualIff(lower: string -> string, deltas: seq<string>)
    ensures Conclude(lower, AbsorbAll(deltas)).text == ParseStructuredReply(lower, Flatten(deltas)).reply
            <==> Verbatim(deltas)
  {
    var text := Flatten(deltas);
    FinalText(lower, deltas);
    if Find(text, INTENT_MARKER) != -1 {
      if Blank(Speakable(text)) {
        ExtractorRefinesParser(lower, deltas);
        ReplyIsStripped(lower, text);
      } else {
        BatchReply(lower, text);
        MarkedTextIsStripped(text, Before(deltas));
      }
    }
  }

  // ----- the prompted shape, streamed

  /** Before the completing delta, the marker is not complete. */
  lemma {:induction false} BeforeIsEarly(deltas: seq<string>)
    requires Find(Flatten(deltas), INTENT_MARKER) != -1
    ensures Before(deltas) < Find(Flatten(deltas), INTENT_MARKER) + |INTENT_MARKER|
  {
    var front, last := Flatten(deltas[..|deltas| - 1]), deltas[|deltas| - 1];
    if Find(front, INTENT_MARKER) == -1 {
      var m := Find(front + last, INTENT_MARKER);
      if m + |INTENT_MARKER| <= |front| {
        OccursInPrefix(front, last, INTENT_MARKER, m);
      }
    } else {
      MarkerStays(front, last);
      BeforeIsEarly(deltas[..|deltas| - 1]);
    }
  }

  /** The only whitespace before the marker of a prompted completion is its newline. */
  lemma {:induction false} PromptedTail(reply: string, rest: string)
    requires Strip(reply) == reply != ""
    ensures TailStart((reply + "\n") + rest, |reply| + 1) == |reply|
  {
    var s, k := (reply + "\n") + rest, |reply|;
    var h, t := StripCore(reply);
    assert t - h == k;
    assert s[k] == '\n' && s[k - 1] == reply[k - 1];
  }

  lemma {:induction false} PromptedKeeps(reply: string, intent: Intent, n: nat)
    requires Find(reply, INTENT_MARKER) == -1 && Strip(reply) == reply != ""
    requires n < |reply| + 1 + |INTENT_MARKER|
    ensures Find(Prompted(reply, intent), INTENT_MARKER) == |reply| + 1
    ensures KeptOf(Prompted(reply, intent), n)
            == if n == |reply| + |INTENT_MARKER| then reply + "\n" else reply
  {
    var rest := INTENT_MARKER + (" " + LabelOf(intent));
    var text := (reply + "\n") + rest;
    MarkerFollowsTheReply(reply, " " + LabelOf(intent));
    PromptedTail(reply, rest);
    assert text[..|reply| + 1] == reply + "\n";
    assert text[..|reply|] == reply;
  }

  /** A stream in the prompted shape keeps its reply, unless the delta that completes the marker brings
      the marker's last character first: then the newline before the marker is kept too. */
  lemma {:induction false} PromptedText(lower: string -> string, deltas: seq<string>, reply: string, intent: Intent)
    requires Flatten(deltas) == Prompted(reply, intent)
    requires Find(reply, INTENT_MARKER) == -1 && Strip(reply) == reply != ""
    ensures Find(Flatten(deltas), INTENT_MARKER) == |reply| + 1
    ensures Conclude(lower, AbsorbAll(deltas)).text
            == if Before(deltas) == |reply| + |INTENT_MARKER| then reply + "\n" else reply
  {
    MarkerFollowsTheReply(reply, " " + LabelOf(intent));
    BeforeIsEarly(deltas);
    PromptedKeeps(reply, intent, Before(deltas));
    FinalText(lower, deltas);
  }

  /** A prompted completion in two deltas, the second starting with the marker's last character. */
  function CutBeforeTheColon(reply: string, intent: Intent): seq<string> {
    [(reply + "\n") + INTENT_MARKER[..HOLD_BACK], INTENT_MARKER[HOLD_BACK..] + (" " + LabelOf(intent))]
  }

  lemma {:induction false} TwoDeltas(a: string, b: string)
    ensures [a, b][..1] == [a] && [a, b][..2] == [a, b]
    ensures Flatten([a]) == a && Flatten([a, b]) == a + b
  {
    FlattenSingle(a);
    assert [a, b] == [a] + [b];
    FlattenSnoc([a], b);
  }

  lemma {:induction false} NoMarkerYet(reply: string)
    requires Find(reply, INTENT_MARKER) == -1
    ensures Find((reply + "\n") + INTENT_MARKER[..HOLD_BACK], INTENT_MARKER) == -1
  {
    var text := (reply + "\n") + INTENT_MARKER[..HOLD_BACK];
    Regroup(reply, "\n", INTENT_MARKER[..HOLD_BACK]);
    var j := Find(text, INTENT_MARKER);
    if 0 <= j <= |reply| {
      NoMarkerBeforeTheNewline(reply, INTENT_MARKER[..HOLD_BACK], j);
    }
  }

  /** For every reply, cutting the prompted completion there gives a text that is not the batch reply:
      the newline has been spoken before the marker is complete, and stays. */
  lemma {:induction false} NewlineIsKept(lower: string -> string, reply: string, intent: Intent)
    requires Find(reply, INTENT_MARKER) == -1 && Strip(reply) == reply != ""
    ensures var deltas := CutBeforeTheColon(reply, intent);
            && Flatten(deltas) == Prompted(reply, intent)
            && Conclude(lower, AbsorbAll(deltas)).text == reply + "\n"
            && ParseStructuredReply(lower, Flatten(deltas)).reply == reply
  {
    var start, after := reply + "\n", " " + LabelOf(intent);
    var a, b := start + INTENT_MARKER[..HOLD_BACK], INTENT_MARKER[HOLD_BACK..] + after;
    TwoDeltas(a, b);
    CutAt(INTENT_MARKER, HOLD_BACK);
    Regroup(start, INTENT_MARKER[..HOLD_BACK], b);
    Regroup(INTENT_MARKER[..HOLD_BACK], INTENT_MARKER[HOLD_BACK..], after);
    NoMarkerYet(reply);
    MarkerFollowsTheReply(reply, after);
    BeforeIs([a, b], 1);
    PromptedText(lower, [a, b], reply, intent);
    PromptedReply(lower, reply, intent);
  }

  /** The reply "Hi" in the prompted shape: the stream records "Hi" and a newline. */
  lemma {:induction false} NewlineIsKeptWitness(lower: string -> string)
    ensures var deltas := ["Hi\n###INTENT", ": general"];
            && Flatten(deltas) == Prompted("Hi", General)
            && Conclude(lower, AbsorbAll(deltas)).text == "Hi\n"
            && ParseStructuredReply(lower, Flatten(deltas)).reply == "Hi"
  {
    CoreIsUnique("Hi", 0, 2);
    assert ("Hi" + "\n") + INTENT_MARKER[..HOLD_BACK] == "Hi\n###INTENT";
    assert INTENT_MARKER[HOLD_BACK..] + (" " + LabelOf(General)) == ": general";
    NewlineIsKept(lower, "Hi", General);
  }

  // ----- the object the stream is fed to

  class StreamingReplyExtractor {
    var pending: string
    var released: string
    var markerFound: bool
    var afterMarker: string

    function State(): Extractor
      reads this
    {
      Extractor(pending, released, markerFound, afterMarker)
    }

    constructor ()
      ensures State() == FRESH_EXTRACTOR
    {
      pending, released, markerFound, afterMarker := "", "", false, "";
    }

    method Feed(delta: string) returns (speakable: string)
      modifies this
      ensures Absorbed(State(), speakable) == Absorb(old(State()), delta)
    {
      if delta == "" {
        return "";
      }
      if markerFound {
        afterMarker := afterMarker + delta;
        return "";
      }
      pending := pending + delta;
      var markerIndex := Find(pending, INTENT_MARKER);
      if markerIndex != -1 {
        speakable := RStrip(pending[..markerIndex]);
        afterMarker := pending[markerIndex + |INTENT_MARKER|..];
        markerFound := true;
        pending := "";
        released := released + speakable;
        return;
      }
      if |pending| <= HOLD_BACK {
        return "";
      }
      var cut := |pending| - HOLD_BACK;
      speakable := pending[..cut];
      pending := pending[cut..];
      released := released + speakable;
    }

    method Finalize(lower: string -> string) returns (text: string, trailing: string, intent: Intent)
      modifies this
      ensures Final(text, trailing, intent) == Conclude(lower, old(State()))
      ensures released == text && pending == if old(markerFound) then old(pending) else ""
      ensures markerFound == old(markerFound) && afterMarker == old(afterMarker)
    {
      if !markerFound {
        trailing := pending;
        released := released + trailing;
        pending := "";
        return released, trailing, General;
      }
      return released, "", ReadIntent(lower, afterMarker);
    }
  }
}
