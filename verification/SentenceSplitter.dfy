/** Streaming text is handed to speech synthesis sentence by sentence. The splitter keeps a buffer
    of unfinished text; this file says what the sentences of a whole text are, independently of any
    buffer, and proves that the buffering loop speaks exactly those, for every way of cutting the text. */
module SentenceSplitter {
  import opened Collections
  import opened Text

  /** Position `i` of `s` ends a sentence: a sentence mark before it, a space or newline after it. */
  predicate IsBoundary(s: string, i: int) {
    0 < i < |s| && s[i - 1] in ".!?\n" && s[i] in " \n"
  }

  ghost predicate Unbroken(s: string) {
    forall i :: !IsBoundary(s, i)
  }

  ghost predicate IsFirstBoundary(s: string, cut: Option<nat>) {
    match cut
    case None => Unbroken(s)
    case Some(i) => IsBoundary(s, i) && Unbroken(s[..i])
  }

  lemma {:induction false} FrontUnbroken(s: string, k: nat)
    requires k <= |s| && forall j :: j < k ==> !IsBoundary(s, j)
    ensures Unbroken(s[..k])
  {
    assert forall j :: IsBoundary(s[..k], j) ==> IsBoundary(s, j);
  }

  /** The end of the first complete sentence of the buffer, if there is one. */
  method FindSentenceEnd(buffer: string) returns (cut: Option<nat>)
    ensures IsFirstBoundary(buffer, cut)
  {
    for i := 0 to |buffer|
      invariant forall j :: j <= i ==> !IsBoundary(buffer, j)
    {
      if buffer[i] in ".!?\n" && i + 1 < |buffer| && buffer[i + 1] in " \n" {
        FrontUnbroken(buffer, i + 1);
        return Some(i + 1);
      }
    }
    return None;
  }

  // ----- what the pieces of a text are

  /** One of ".!?\n" ends `left` and a space or newline starts `right`. */
  predicate Joint(left: string, right: string) {
    left != "" && right != "" && left[|left| - 1] in ".!?\n" && right[0] in " \n"
  }

  /** Consecutive pieces meet at sentence boundaries, and all but the last have none inside. */
  ghost predicate Chain(pieces: seq<string>) {
    && pieces != []
    && (forall k :: 0 <= k < |pieces| - 1 ==> Joint(pieces[k], pieces[k + 1]))
    && (forall k :: 0 <= k < |pieces| - 1 ==> Unbroken(pieces[k]))
  }

  /** `pieces` is `s` cut at all of its sentence boundaries and nowhere else. */
  ghost predicate IsSplit(pieces: seq<string>, s: string) {
    Chain(pieces) && Unbroken(pieces[|pieces| - 1]) && Flatten(pieces) == s
  }

  /** In a split, the last piece starts at the last boundary. */
  lemma {:induction false} LastPiece(pieces: seq<string>, s: string)
    requires IsSplit(pieces, s)
    ensures var last := pieces[|pieces| - 1];
            && |last| <= |s| && s[|s| - |last|..] == last
            && (|pieces| == 1 ==> |last| == |s|)
            && (|pieces| > 1 ==> IsBoundary(s, |s| - |last|) && IsSplit(pieces[..|pieces| - 1], s[..|s| - |last|]))
  {
    var n := |pieces| - 1;
    var front, last := pieces[..n], pieces[n];
    assert Flatten(pieces) == Flatten(front) + last;
    if n > 0 {
      assert Flatten(front) == Flatten(front[..n - 1]) + front[n - 1];
      assert Joint(pieces[n - 1], pieces[n]);
      assert s[..|s| - |last|] == Flatten(front);
      assert forall k :: 0 <= k < n - 1 ==> Joint(front[k], front[k + 1]) by {
        assert forall k :: 0 <= k < n - 1 ==> Joint(pieces[k], pieces[k + 1]);
      }
    }
  }

  lemma {:induction false} BoundaryInside(s: string, k: nat, i: nat)
    requires k < i && IsBoundary(s, i)
    ensures !Unbroken(s[k..])
  {
    assert IsBoundary(s[k..], i - k);
  }

  lemma {:induction false} ShorterLastPiece(p: seq<string>, q: seq<string>, s: string)
    requires IsSplit(p, s) && IsSplit(q, s)
    ensures |p[|p| - 1]| >= |q[|q| - 1]|
  {
    LastPiece(p, s);
    LastPiece(q, s);
    var a, b := |p[|p| - 1]|, |q[|q| - 1]|;
    if a < b {
      BoundaryInside(s, |s| - b, |s| - a);
    }
  }

  /** A text has exactly one split. */
  lemma {:induction false} SplitIsUnique(p: seq<string>, q: seq<string>, s: string)
    requires IsSplit(p, s) && IsSplit(q, s)
    ensures p == q
    decreases |p|
  {
    ShorterLastPiece(p, q, s);
    ShorterLastPiece(q, p, s);
    LastPiece(p, s);
    LastPiece(q, s);
    var m, n := |p| - 1, |q| - 1;
    assert p[m] == q[n];
    if m > 0 && n > 0 {
      SplitIsUnique(p[..m], q[..n], s[..|s| - |p[m]|]);
      assert p == p[..m] + [p[m]] && q == q[..n] + [q[n]];
    }
  }

  /** The last boundary of `s` at or before `i`, or 0. */
  function LastBoundary(s: string, i: nat): (k: nat)
    ensures k <= i && (k == 0 || IsBoundary(s, k))
    ensures forall j :: k < j <= i ==> !IsBoundary(s, j)
  {
    if i == 0 || IsBoundary(s, i) then i else LastBoundary(s, i - 1)
  }

  lemma {:induction false} TailUnbroken(s: string, k: nat)
    requires k <= |s| && forall j :: k < j <= |s| ==> !IsBoundary(s, j)
    ensures Unbroken(s[k..])
  {
    forall i
      ensures !IsBoundary(s[k..], i)
    {
      assert !IsBoundary(s, k + i) || i <= 0;
    }
  }

  lemma {:induction false} SplitSnoc(front: seq<string>, a: string, b: string)
    requires IsSplit(front, a) && a != "" && Joint(a, b) && Unbroken(b)
    ensures IsSplit(front + [b], a + b)
  {
    FlattenSnoc(front, b);
    LastPiece(front, a);
    var n := |front| - 1;
    assert n > 0 ==> Joint(front[n - 1], front[n]);
    assert Joint(front[n], b);
    var all := front + [b];
    forall k | 0 <= k < |all| - 1
      ensures Joint(all[k], all[k + 1]) && Unbroken(all[k])
    {
      if k < n { assert Joint(front[k], front[k + 1]) && Unbroken(front[k]); }
    }
  }

  /** The split of a text. */
  function Pieces(s: string): (pieces: seq<string>)
    ensures IsSplit(pieces, s)
    decreases |s|
  {
    var k := LastBoundary(s, |s|);
    assert Unbroken(s[k..]) by { TailUnbroken(s, k); }
    if k == 0 then
      FlattenSingle(s);
      [s]
    else
      var front := Pieces(s[..k]);
      SplitSnoc(front, s[..k], s[k..]);
      front + [s[k..]]
  }

  // ----- what is spoken

  /** The stripped pieces, blank ones dropped. */
  function Spoken(pieces: seq<string>): seq<string> {
    if pieces == [] then []
    else
      var front, sentence := Spoken(pieces[..|pieces| - 1]), Strip(pieces[|pieces| - 1]);
      if sentence == "" then front else front + [sentence]
  }

  /** The sentences of a whole text. */
  function Sentences(s: string): seq<string> {
    Spoken(Pieces(s))
  }

  /** What the buffer holds once `text` has been read and cut. */
  function Unfinished(text: string): string {
    var pieces := Pieces(text);
    pieces[|pieces| - 1]
  }

  /** The sentences that are finished once `text` has been read: all pieces but the last. */
  function SpokenSoFar(text: string): seq<string> {
    var pieces := Pieces(text);
    Spoken(pieces[..|pieces| - 1])
  }

  lemma {:induction false} SpokenSnoc(pieces: seq<string>, last: string)
    ensures Spoken(pieces + [last]) == if Strip(last) == "" then Spoken(pieces) else Spoken(pieces) + [Strip(last)]
  {
  }

  /** After reading `text`: `done` are its finished pieces, already spoken, and `buffer` is the rest. */
  ghost predicate Reading(done: seq<string>, buffer: string, text: string, sentences: seq<string>) {
    Chain(done + [buffer]) && Flatten(done + [buffer]) == text && sentences == Spoken(done)
  }

  lemma {:induction false} ChainGrows(done: seq<string>, buffer: string, chunk: string)
    requires Chain(done + [buffer])
    ensures Chain(done + [buffer + chunk])
    ensures Flatten(done + [buffer + chunk]) == Flatten(done + [buffer]) + chunk
  {
    var before, after := done + [buffer], done + [buffer + chunk];
    forall k | 0 <= k < |after| - 1
      ensures Joint(after[k], after[k + 1]) && Unbroken(after[k])
    {
      assert Joint(before[k], before[k + 1]) && Unbroken(before[k]);
    }
    FlattenSnoc(done, buffer);
    FlattenSnoc(done, buffer + chunk);
    Regroup(Flatten(done), buffer, chunk);
  }

  lemma {:induction false} CutChain(done: seq<string>, buffer: string, cut: nat)
    requires Chain(done + [buffer]) && IsFirstBoundary(buffer, Some(cut))
    ensures Chain((done + [buffer[..cut]]) + [buffer[cut..]])
    ensures Flatten((done + [buffer[..cut]]) + [buffer[cut..]]) == Flatten(done + [buffer])
  {
    var a, b := buffer[..cut], buffer[cut..];
    var before, after := done + [buffer], (done + [a]) + [b];
    forall k | 0 <= k < |after| - 1
      ensures Joint(after[k], after[k + 1]) && Unbroken(after[k])
    {
      if k < |done| { assert Joint(before[k], before[k + 1]) && Unbroken(before[k]); }
    }
    FlattenSnoc(done, buffer);
    FlattenSnoc(done, a);
    FlattenSnoc(done + [a], b);
    Regroup(Flatten(done), a, b);
  }

  lemma {:induction false} ChunkArrives(done: seq<string>, buffer: string, chunks: seq<string>, n: nat,
                                        sentences: seq<string>)
    requires n < |chunks| && Reading(done, buffer, Flatten(chunks[..n]), sentences)
    ensures Reading(done, buffer + chunks[n], Flatten(chunks[..n + 1]), sentences)
  {
    ChainGrows(done, buffer, chunks[n]);
    FlattenSnoc(chunks[..n], chunks[n]);
    assert chunks[..n + 1] == chunks[..n] + [chunks[n]];
  }

  lemma {:induction false} InputEnds(done: seq<string>, buffer: string, chunks: seq<string>, sentences: seq<string>)
    requires Reading(done, buffer, Flatten(chunks[..|chunks|]), sentences) && Unbroken(buffer)
    ensures Sentences(Flatten(chunks)) == if Strip(buffer) == "" then sentences else sentences + [Strip(buffer)]
  {
    assert chunks[..|chunks|] == chunks;
    SplitIsUnique(done + [buffer], Pieces(Flatten(chunks)), Flatten(chunks));
    SpokenSnoc(done, buffer);
  }

  lemma {:induction false} CutFirst(done: seq<string>, buffer: string, cut: nat, text: string, sentences: seq<string>)
    requires Reading(done, buffer, text, sentences) && IsFirstBoundary(buffer, Some(cut))
    ensures var sentence := Strip(buffer[..cut]);
            Reading(done + [buffer[..cut]], buffer[cut..], text,
                    if sentence == "" then sentences else sentences + [sentence])
  {
    CutChain(done, buffer, cut);
    SpokenSnoc(done, buffer[..cut]);
  }

  /** What had been spoken each time the loop waited for one of the first `n` chunks. */
  ghost predicate SpokenAtEachChunk(progress: seq<seq<string>>, chunks: seq<string>, n: nat)
    requires n <= |chunks|
  {
    |progress| == n && forall i :: 0 <= i < n ==> progress[i] == SpokenSoFar(Flatten(chunks[..i]))
  }

  /** With nothing left to cut, what has been spoken are the finished pieces. */
  lemma {:induction false} Waiting(progress: seq<seq<string>>, chunks: seq<string>, n: nat, done: seq<string>,
                                   buffer: string, sentences: seq<string>)
    requires n < |chunks| && SpokenAtEachChunk(progress, chunks, n)
    requires Reading(done, buffer, Flatten(chunks[..n]), sentences) && Unbroken(buffer)
    ensures SpokenAtEachChunk(progress + [sentences], chunks, n + 1)
  {
    var text := Flatten(chunks[..n]);
    SplitIsUnique(done + [buffer], Pieces(text), text);
    assert (done + [buffer])[..|done|] == done;
    assert sentences == SpokenSoFar(text);
    assert forall i :: 0 <= i < n ==> (progress + [sentences])[i] == progress[i];
  }

  /** The buffering loop: `sentences` lists what is synthesized, in order, and `progress` what had been
      handed over each time the loop waited for a chunk. */
  method SpeakSentences(chunks: seq<string>) returns (sentences: seq<string>, ghost progress: seq<seq<string>>)
    ensures sentences == Sentences(Flatten(chunks))
    ensures SpokenAtEachChunk(progress, chunks, |chunks|)
  {
    sentences, progress := [], [];
    var buffer := "";
    ghost var done: seq<string> := [];
    FlattenSingle(buffer);
    for n := 0 to |chunks|
      invariant Reading(done, buffer, Flatten(chunks[..n]), sentences) && Unbroken(buffer)
      invariant SpokenAtEachChunk(progress, chunks, n)
    {
      Waiting(progress, chunks, n, done, buffer, sentences);
      progress := progress + [sentences];
      ChunkArrives(done, buffer, chunks, n, sentences);
      buffer := buffer + chunks[n];
      var cut := FindSentenceEnd(buffer);
      while cut.Some?
        invariant Reading(done, buffer, Flatten(chunks[..n + 1]), sentences)
        invariant IsFirstBoundary(buffer, cut)
        decreases |buffer|, cut.Some?
      {
        CutFirst(done, buffer, cut.value, Flatten(chunks[..n + 1]), sentences);
        var sentence := buffer[..cut.value];
        buffer := buffer[cut.value..];
        done := done + [sentence];
        cut := FindSentenceEnd(buffer);
        sentence := Strip(sentence);
        if sentence == "" {
          continue;
        }
        sentences := sentences + [sentence];
      }
    }
    InputEnds(done, buffer, chunks, sentences);
    if Strip(buffer) != "" {
      sentences := sentences + [Strip(buffer)];
    }
  }

  // ----- nothing is lost

  lemma {:induction false} SpokenKeepsInk(pieces: seq<string>)
    ensures Ink(Flatten(Spoken(pieces))) == Ink(Flatten(pieces))
  {
    if pieces != [] {
      var front, last := pieces[..|pieces| - 1], pieces[|pieces| - 1];
      SpokenKeepsInk(front);
      InkAppend(Flatten(front), last);
      InkStrip(last);
      if Strip(last) != "" {
        FlattenSnoc(Spoken(front), Strip(last));
        InkAppend(Flatten(Spoken(front)), Strip(last));
      }
    }
  }

  /** The non-whitespace characters spoken are exactly those of the text, in order. */
  lemma {:induction false} NothingIsLost(s: string)
    ensures Ink(Flatten(Sentences(s))) == Ink(s)
  {
    SpokenKeepsInk(Pieces(s));
  }

  /** Every sentence is non-blank and carries no whitespace at its ends. */
  lemma {:induction false} SpokenAreTrimmed(pieces: seq<string>)
    ensures forall k :: 0 <= k < |Spoken(pieces)|
                        ==> Spoken(pieces)[k] != "" && Strip(Spoken(pieces)[k]) == Spoken(pieces)[k]
  {
    if pieces != [] {
      SpokenAreTrimmed(pieces[..|pieces| - 1]);
      var last := pieces[|pieces| - 1];
      var k, n := StripCore(last);
      var core := Strip(last);
      if k < n {
        assert core[0] == last[k] && core[|core| - 1] == last[n - 1];
      }
      CoreIsUnique(core, 0, |core|);
    }
  }

  // ----- surrounding whitespace does not matter

  lemma {:induction false} SpokenAppend(a: seq<string>, b: seq<string>)
    ensures Spoken(a + b) == Spoken(a) + Spoken(b)
    decreases |b|
  {
    if b == [] {
      assert a + b == a;
    } else {
      var n := |b| - 1;
      assert a + b == (a + b[..n]) + [b[n]];
      SpokenSnoc(a + b[..n], b[n]);
      SpokenAppend(a, b[..n]);
    }
  }

  lemma {:induction false} SpokenSingle(s: string)
    ensures Spoken([s]) == if Strip(s) == "" then [] else [Strip(s)]
  {
  }

  lemma {:induction false} LastStaysUnbroken(pieces: seq<string>, s: string, c: char)
    requires IsSplit(pieces, s) && !IsBoundary(s + [c], |s|)
    ensures Unbroken(pieces[|pieces| - 1] + [c])
  {
    LastPiece(pieces, s);
    var last := pieces[|pieces| - 1];
    forall i
      ensures !IsBoundary(last + [c], i)
    {
      assert !IsBoundary(last, i);
      if i == |last| && |last| > 0 {
        assert last[|last| - 1] == s[|s| - 1];
      }
    }
  }

  /** One whitespace character more at the end changes no sentence. */
  lemma {:induction false} TrailingSpace(s: string, c: char)
    requires IsSpace(c)
    ensures Sentences(s + [c]) == Sentences(s)
  {
    var pieces := Pieces(s);
    var n := |pieces| - 1;
    var front, last := pieces[..n], pieces[n];
    assert pieces == front + [last];
    StripBefore(last, [c]);
    SpokenSnoc(front, last);
    if IsBoundary(s + [c], |s|) {
      SplitSnoc(pieces, s, [c]);
      SplitIsUnique(pieces + [[c]], Pieces(s + [c]), s + [c]);
      SpokenSnoc(pieces, [c]);
      StripBlank([c]);
    } else {
      ChainGrows(front, last, [c]);
      LastStaysUnbroken(pieces, s, c);
      SplitIsUnique(front + [last + [c]], Pieces(s + [c]), s + [c]);
      SpokenSnoc(front, last + [c]);
    }
  }

  lemma {:induction false} SameFirst(a: string, b: string, rest: seq<string>)
    requires Strip(a) == Strip(b)
    ensures Spoken([a] + rest) == Spoken([b] + rest)
  {
    SpokenAppend([a], rest);
    SpokenAppend([b], rest);
    SpokenSingle(a);
    SpokenSingle(b);
  }

  lemma {:induction false} FirstPiece(pieces: seq<string>)
    requires Chain(pieces)
    ensures Flatten(pieces) == pieces[0] + Flatten(pieces[1..])
    ensures pieces[0] == "" ==> |pieces| == 1
  {
    assert pieces == [pieces[0]] + pieces[1..];
    FlattenAppend([pieces[0]], pieces[1..]);
    FlattenSingle(pieces[0]);
    if |pieces| > 1 {
      assert Joint(pieces[0], pieces[1]);
    }
  }

  lemma {:induction false} SplitCons(c: char, pieces: seq<string>, s: string)
    requires IsSplit(pieces, s) && IsBoundary([c] + s, 1)
    ensures IsSplit([[c]] + pieces, [c] + s)
  {
    FirstPiece(pieces);
    FlattenAppend([[c]], pieces);
    FlattenSingle([c]);
    var all := [[c]] + pieces;
    assert s == pieces[0] + Flatten(pieces[1..]);
    if pieces[0] == "" { assert pieces[1..] == []; }
    assert pieces[0][0] == s[0];
    forall k | 0 <= k < |all| - 1
      ensures Joint(all[k], all[k + 1]) && Unbroken(all[k])
    {
      if k > 0 { assert Joint(pieces[k - 1], pieces[k]) && Unbroken(pieces[k - 1]); }
    }
  }

  lemma {:induction false} StaysUnbroken(c: char, first: string)
    requires Unbroken(first) && (first != "" ==> !IsBoundary([c] + first, 1))
    ensures Unbroken([c] + first)
  {
    var grown := [c] + first;
    forall i
      ensures !IsBoundary(grown, i)
    {
      if 1 < i < |grown| {
        assert grown[i] == first[i - 1] && grown[i - 1] == first[i - 2];
        assert !IsBoundary(first, i - 1);
      }
    }
  }

  lemma {:induction false} GrowsAtTheFront(c: char, pieces: seq<string>)
    requires Chain(pieces) && Unbroken([c] + pieces[0])
    ensures Chain([[c] + pieces[0]] + pieces[1..])
  {
    var first := [c] + pieces[0];
    var all := [first] + pieces[1..];
    forall k | 0 <= k < |all| - 1
      ensures Joint(all[k], all[k + 1]) && Unbroken(all[k])
    {
      assert Joint(pieces[k], pieces[k + 1]) && Unbroken(pieces[k]);
      assert all[k + 1] == pieces[k + 1];
      if k == 0 {
        assert first[|first| - 1] == pieces[0][|pieces[0]| - 1];
      }
    }
  }

  lemma {:induction false} FirstPieceGrows(c: char, pieces: seq<string>, s: string)
    requires IsSplit(pieces, s) && !IsBoundary([c] + s, 1)
    ensures IsSplit([[c] + pieces[0]] + pieces[1..], [c] + s)
  {
    var first, rest := pieces[0], pieces[1..];
    FirstPiece(pieces);
    FlattenAppend([[c] + first], rest);
    FlattenSingle([c] + first);
    Regroup([c], first, Flatten(rest));
    if first != "" {
      assert ([c] + first)[1] == first[0] == s[0] == ([c] + s)[1];
    }
    StaysUnbroken(c, first);
    GrowsAtTheFront(c, pieces);
    var all := [[c] + first] + rest;
    assert all[|all| - 1] == if rest == [] then [c] + first else pieces[|pieces| - 1];
  }

  /** One whitespace character more at the front changes no sentence. */
  lemma {:induction false} LeadingSpace(c: char, s: string)
    requires IsSpace(c)
    ensures Sentences([c] + s) == Sentences(s)
  {
    var pieces := Pieces(s);
    if IsBoundary([c] + s, 1) {
      SplitCons(c, pieces, s);
      SplitIsUnique([[c]] + pieces, Pieces([c] + s), [c] + s);
      SpokenAppend([[c]], pieces);
      SpokenSingle([c]);
      StripBlank([c]);
    } else {
      var first, rest := pieces[0], pieces[1..];
      FirstPieceGrows(c, pieces, s);
      SplitIsUnique([[c] + first] + rest, Pieces([c] + s), [c] + s);
      StripAfter([c], first);
      SameFirst([c] + first, first, rest);
      HeadAndTail(pieces);
    }
  }

  lemma {:induction false} TrailingBlank(s: string, b: string)
    requires Blank(b)
    ensures Sentences(s + b) == Sentences(s)
    decreases |b|
  {
    if b == "" {
      assert s + b == s;
    } else {
      var front, last := b[..|b| - 1], b[|b| - 1];
      TrailingBlank(s, front);
      TrailingSpace(s + front, last);
      Regroup(s, front, [last]);
      FrontAndLast(b);
    }
  }

  lemma {:induction false} LeadingBlank(a: string, s: string)
    requires Blank(a)
    ensures Sentences(a + s) == Sentences(s)
    decreases |a|
  {
    if a == "" {
      assert a + s == s;
    } else {
      LeadingBlank(a[1..], s);
      LeadingSpace(a[0], a[1..] + s);
      Regroup([a[0]], a[1..], s);
      HeadAndTail(a);
    }
  }

  /** Splitting a text and splitting its stripped form give the same sentences. */
  lemma {:induction false} StrippingIsHarmless(s: string)
    ensures Sentences(Strip(s)) == Sentences(s)
  {
    var before, front, after := StripParts(s);
    TrailingBlank(front, after);
    LeadingBlank(before, Strip(s));
  }

  // ----- speaking before the text is complete

  lemma {:induction false} FirstPieceStarts(pieces: seq<string>, s: string)
    requires IsSplit(pieces, s) && s != ""
    ensures pieces[0] != "" && pieces[0][0] == s[0]
  {
    FirstPiece(pieces);
    if |pieces| == 1 {
      assert pieces[1..] == [];
    }
  }

  /** Splitting what follows the finished pieces splits the whole text. */
  lemma {:induction false} SplitGoesOn(front: seq<string>, last: string, rest: seq<string>, text: string, more: string)
    requires Chain(front + [last]) && Flatten(front + [last]) == text && IsSplit(rest, last + more)
    ensures IsSplit(front + rest, text + more)
  {
    var n, before, all := |front|, front + [last], front + rest;
    FlattenSnoc(front, last);
    FlattenAppend(front, rest);
    Regroup(Flatten(front), last, more);
    FirstPiece(rest);
    forall k | 0 <= k < |all| - 1
      ensures Joint(all[k], all[k + 1]) && Unbroken(all[k])
    {
      if k < n {
        assert Joint(before[k], before[k + 1]) && Unbroken(before[k]);
        if k == n - 1 {
          FirstPieceStarts(rest, last + more);
        }
      } else {
        assert Joint(rest[k - n], rest[k - n + 1]) && Unbroken(rest[k - n]);
      }
    }
    assert all[|all| - 1] == rest[|rest| - 1];
  }

  /** Whatever follows, the finished sentences come first, and the others are those of what follows the
      last boundary. */
  lemma {:induction false} SentencesGoOn(text: string, more: string)
    ensures Sentences(text + more) == SpokenSoFar(text) + Sentences(Unfinished(text) + more)
  {
    var pieces := Pieces(text);
    var n := |pieces| - 1;
    var front, last := pieces[..n], pieces[n];
    assert pieces == front + [last];
    var rest := Pieces(last + more);
    SplitGoesOn(front, last, rest, text, more);
    SplitIsUnique(front + rest, Pieces(text + more), text + more);
    SpokenAppend(front, rest);
  }

  lemma {:induction false} UnbrokenIsOneSentence(s: string)
    requires Unbroken(s)
    ensures Sentences(s) == if Strip(s) == "" then [] else [Strip(s)]
  {
    FlattenSingle(s);
    SplitIsUnique([s], Pieces(s), s);
    SpokenSingle(s);
  }

  /** With one more letter, an unfinished sentence is another sentence. */
  lemma {:induction false} UnfinishedMayChange(s: string)
    requires Unbroken(s) && Strip(s) != ""
    ensures Unbroken(s + "x") && Strip(s + "x") != "" && Strip(s + "x") != Strip(s)
  {
    assert forall i :: IsBoundary(s + "x", i) ==> IsBoundary(s, i);
    InkStrip(s);
    InkStrip(s + "x");
    InkAppend(s, "x");
  }

  lemma {:induction false} CommonStart(list: seq<string>, spoken: seq<string>, a: string, b: string)
    requires list <= spoken + [a] && list <= spoken + [b]
    ensures a != b ==> list <= spoken
  {
    if |list| == |spoken| + 1 {
      assert list[|spoken|] == (spoken + [a])[|spoken|];
      assert list[|spoken|] == (spoken + [b])[|spoken|];
    }
  }

  lemma {:induction false} OneSentenceMore(text: string, more: string)
    requires Unbroken(Unfinished(text) + more)
    ensures var sentence := Strip(Unfinished(text) + more);
            Sentences(text + more) == if sentence == "" then SpokenSoFar(text) else SpokenSoFar(text) + [sentence]
  {
    var spoken, rest := SpokenSoFar(text), Unfinished(text) + more;
    SentencesGoOn(text, more);
    UnbrokenIsOneSentence(rest);
    assert Sentences(text + more) == spoken + Sentences(rest);
    if Strip(rest) == "" {
      assert spoken + [] == spoken;
    }
  }

  /** What starts the sentences of two continuations, nothing more and one more letter, is spoken already. */
  lemma {:induction false} CertainIsSpoken(text: string, list: seq<string>)
    requires list <= Sentences(text + "") && list <= Sentences(text + "x")
    ensures list <= SpokenSoFar(text)
  {
    var last := Unfinished(text);
    assert last + "" == last;
    OneSentenceMore(text, "");
    if Strip(last) != "" {
      UnfinishedMayChange(last);
      OneSentenceMore(text, "x");
      CommonStart(list, SpokenSoFar(text), Strip(last), Strip(last + "x"));
    }
  }

  ghost predicate Certain(text: string, list: seq<string>) {
    forall more :: list <= Sentences(text + more)
  }

  /** The sentences spoken while waiting are exactly what can be spoken without knowing the rest: a list
      of sentences starts the sentences of every continuation if and only if it starts those spoken. */
  lemma {:induction false} SpeaksAllThatIsCertain(text: string, list: seq<string>)
    ensures Certain(text, list) <==> list <= SpokenSoFar(text)
  {
    if list <= SpokenSoFar(text) {
      forall more
        ensures list <= Sentences(text + more)
      {
        SentencesGoOn(text, more);
      }
    }
    if Certain(text, list) {
      assert list <= Sentences(text + "") && list <= Sentences(text + "x");
      CertainIsSpoken(text, list);
    }
  }
}
