/**
 * Sentence-by-sentence read-aloud with highlighting
 * (mobile/components/HighlightedText.tsx): the text is cut into sentences
 * by the pattern `[^.!?]+[.!?]+\s*`, and a player speaks them one at a
 * time, marking the current one.
 */
module HighlightedText {
  import opened Wrappers
  import opened Text
  import opened Speech

  predicate IsTerminator(c: char) {
    c == '.' || c == '!' || c == '?'
  }

  datatype CharKind = NonTerminator | Terminator | Space

  predicate IsKind(c: char, kind: CharKind) {
    match kind
    case NonTerminator => !IsTerminator(c)
    case Terminator => IsTerminator(c)
    case Space => IsWhitespace(c)
  }

  /** The end of the longest run of `kind` characters starting at `i`. */
  function SpanEnd(s: string, i: nat, kind: CharKind): (j: nat)
    requires i <= |s|
    ensures i <= j <= |s|
    ensures forall k :: i <= k < j ==> IsKind(s[k], kind)
    ensures j < |s| ==> !IsKind(s[j], kind)
    decreases |s| - i
  {
    if i == |s| || !IsKind(s[i], kind) then i else SpanEnd(s, i + 1, kind)
  }

  /** Whether some non-terminator is followed, later on, by a terminator. */
  predicate HasSentence(s: string) {
    exists i, j :: 0 <= i < j < |s| && !IsTerminator(s[i]) && IsTerminator(s[j])
  }

  /** A matched piece, once trimmed, is a non-empty sentence ending in a terminator. */
  predicate EndsSentence(m: string) {
    Trim(m) != [] && IsTerminator(Trim(m)[|Trim(m)| - 1])
  }

  /** The trimmed form of a text whose last non-blank character is `c` ends in `c`. */
  lemma TrimEndsWith(a: string, c: char, w: string)
    requires !IsWhitespace(c) && AllWhitespace(w)
    ensures Trim(a + [c] + w) != [] && Trim(a + [c] + w)[|Trim(a + [c] + w)| - 1] == c
  {
    var s := a + [c] + w;
    var t := TrimStart(s);
    var k := |s| - |t|;
    assert s[|a|] == c;
    assert t == s[k..|a|] + [c] + w;
    TrimEndWhitespaceSuffix(s[k..|a|] + [c], w);
  }

  /**
   * The successive matches of the pattern, left to right: a run of
   * non-terminators, the terminators after it, and the blanks after those.
   * A terminator where no match can start is skipped; a tail without a
   * terminator matches nothing.
   */
  function Matches(s: string): (r: seq<string>)
    ensures |r| <= |s|
    ensures forall k :: 0 <= k < |r| ==> r[k] != []
    decreases |s|
  {
    if s == [] then []
    else if IsTerminator(s[0]) then Matches(s[1..])
    else
      var q := SpanEnd(s, 0, NonTerminator);
      if q == |s| then []
      else
        var r := SpanEnd(s, q, Terminator);
        var w := SpanEnd(s, r, Space);
        [s[..w]] + Matches(s[w..])
  }

  /** Every piece lies in `s` and is, once trimmed, a sentence ending in a terminator. */
  predicate AllSentences(s: string, ms: seq<string>) {
    forall k :: 0 <= k < |ms| ==> Contains(s, ms[k]) && EndsSentence(ms[k])
  }

  /** Every match lies in the text and is, once trimmed, a sentence ending in a terminator. */
  lemma {:induction false} MatchesAreSentences(s: string)
    ensures forall k :: 0 <= k < |Matches(s)| ==> Contains(s, Matches(s)[k]) && EndsSentence(Matches(s)[k])
    decreases |s|
  {
    if s == [] {
    } else if IsTerminator(s[0]) {
      MatchesAreSentences(s[1..]);
      SkippedTerminator(s);
    } else {
      var q := SpanEnd(s, 0, NonTerminator);
      if q < |s| {
        var w := SpanEnd(s, SpanEnd(s, q, Terminator), Space);
        MatchesAreSentences(s[w..]);
        FirstMatch(s, q, w);
      }
    }
  }

  /** A leading terminator starts no match, so the matches after it are sentences of the whole text. */
  lemma SkippedTerminator(s: string)
    requires s != [] && IsTerminator(s[0])
    requires AllSentences(s[1..], Matches(s[1..]))
    ensures AllSentences(s, Matches(s))
  {
    assert Matches(s) == Matches(s[1..]);
    SuffixContains(s, 1, Matches(s[1..]));
  }

  /** The first match, then the matches of the rest, are sentences of the whole text. */
  lemma FirstMatch(s: string, q: nat, w: nat)
    requires s != [] && !IsTerminator(s[0])
    requires q == SpanEnd(s, 0, NonTerminator) < |s|
    requires w == SpanEnd(s, SpanEnd(s, q, Terminator), Space)
    requires AllSentences(s[w..], Matches(s[w..]))
    ensures AllSentences(s, Matches(s))
  {
    var r := SpanEnd(s, q, Terminator);
    MatchIsSentence(s, r, w);
    PrependSentence(s, w, Matches(s[w..]));
    assert Matches(s) == [s[..w]] + Matches(s[w..]);
  }

  /** The sentence `s[..w]`, then sentences of `s[w..]`, are sentences of `s`. */
  lemma PrependSentence(s: string, w: nat, rest: seq<string>)
    requires w <= |s|
    requires Contains(s, s[..w]) && EndsSentence(s[..w])
    requires AllSentences(s[w..], rest)
    ensures AllSentences(s, [s[..w]] + rest)
  {
    SuffixContains(s, w, rest);
    ConsAll(m => Contains(s, m) && EndsSentence(m), s[..w], rest);
  }

  /** A piece that satisfies `p` put in front of pieces that do gives pieces that do. */
  lemma ConsAll(p: string -> bool, m: string, rest: seq<string>)
    requires p(m)
    requires forall k :: 0 <= k < |rest| ==> p(rest[k])
    ensures forall k :: 0 <= k < |[m] + rest| ==> p(([m] + rest)[k])
  {
    forall k | 0 <= k < |[m] + rest| ensures p(([m] + rest)[k]) {
      if k > 0 {
        assert ([m] + rest)[k] == rest[k - 1];
      }
    }
  }

  lemma MatchIsSentence(s: string, r: nat, w: nat)
    requires 0 < r <= w <= |s| && IsTerminator(s[r - 1])
    requires forall k :: r <= k < w ==> IsWhitespace(s[k])
    ensures EndsSentence(s[..w]) && Contains(s, s[..w])
  {
    assert s[..w] == s[..r - 1] + [s[r - 1]] + s[r..w];
    TrimEndsWith(s[..r - 1], s[r - 1], s[r..w]);
    assert OccursAt(s, s[..w], 0);
  }

  lemma SuffixContains(s: string, i: nat, ms: seq<string>)
    requires i <= |s|
    requires forall k :: 0 <= k < |ms| ==> Contains(s[i..], ms[k])
    ensures forall k :: 0 <= k < |ms| ==> Contains(s, ms[k])
  {
    assert OccursAt(s, s[i..], i);
    forall k | 0 <= k < |ms| ensures Contains(s, ms[k]) {
      ContainsTransitive(s, s[i..], ms[k]);
    }
  }

  /** The pattern matches somewhere exactly when a non-terminator comes before a terminator. */
  lemma {:induction false} MatchesIff(s: string)
    ensures Matches(s) != [] <==> HasSentence(s)
    decreases |s|
  {
    if s == [] {
    } else if IsTerminator(s[0]) {
      MatchesIff(s[1..]);
      if HasSentence(s) {
        var i, j :| 0 <= i < j < |s| && !IsTerminator(s[i]) && IsTerminator(s[j]);
        assert !IsTerminator(s[1..][i - 1]) && IsTerminator(s[1..][j - 1]);
      }
      if HasSentence(s[1..]) {
        var i, j :| 0 <= i < j < |s[1..]| && !IsTerminator(s[1..][i]) && IsTerminator(s[1..][j]);
        assert !IsTerminator(s[i + 1]) && IsTerminator(s[j + 1]);
      }
    } else {
      var q := SpanEnd(s, 0, NonTerminator);
      if q == |s| {
      } else {
        assert !IsTerminator(s[0]) && IsTerminator(s[q]);
      }
    }
  }

  /**
   * Keeps the non-empty strings, in order: every non-empty string occurs in
   * the result exactly as often as in the input, and the empty one never.
   */
  function NonEmpty(xs: seq<string>): (r: seq<string>)
    ensures forall k :: 0 <= k < |r| ==> r[k] != [] && r[k] in xs
    ensures forall x :: x != [] ==> multiset(r)[x] == multiset(xs)[x]
    ensures |r| <= |xs|
    ensures (forall k :: 0 <= k < |xs| ==> xs[k] != []) ==> r == xs
  {
    if xs == [] then []
    else
      var rest := NonEmpty(xs[1..]);
      assert xs == [xs[0]] + xs[1..];
      assert multiset(xs) == multiset{xs[0]} + multiset(xs[1..]);
      if xs[0] == [] then rest
      else
        assert multiset([xs[0]] + rest) == multiset{xs[0]} + multiset(rest);
        [xs[0]] + rest
  }

  function TrimEach(xs: seq<string>): (r: seq<string>)
    ensures |r| == |xs| && forall k :: 0 <= k < |r| ==> r[k] == Trim(xs[k])
  {
    seq(|xs|, k requires 0 <= k < |xs| => Trim(xs[k]))
  }

  /**
   * `splitIntoSentences`: the trimmed matches, or the trimmed text when
   * nothing matches; empty strings are dropped.
   */
  function SplitIntoSentences(text: string): (r: seq<string>)
    ensures forall k :: 0 <= k < |r| ==> r[k] != []
    ensures |r| <= if Matches(text) == [] then 1 else |Matches(text)|
  {
    var ms := Matches(text);
    NonEmpty(TrimEach(if ms == [] then [text] else ms))
  }

  /** Trimming pieces of a text gives trimmed pieces of it. */
  lemma TrimmedPieces(text: string, raw: seq<string>)
    requires forall k :: 0 <= k < |raw| ==> Contains(text, raw[k])
    ensures forall x :: x in TrimEach(raw) ==> Trim(x) == x && Contains(text, x)
  {
    var trimmed := TrimEach(raw);
    forall x | x in trimmed ensures Trim(x) == x && Contains(text, x) {
      var k :| 0 <= k < |trimmed| && trimmed[k] == x;
      TrimIdempotent(raw[k]);
      ContainsTransitive(text, raw[k], x);
    }
  }

  /** Every sentence is non-empty, already trimmed, and a piece of the text. */
  lemma SentencesAreTrimmedPieces(text: string)
    ensures forall k :: 0 <= k < |SplitIntoSentences(text)| ==>
      var e := SplitIntoSentences(text)[k];
      e != [] && Trim(e) == e && Contains(text, e)
  {
    var ms := Matches(text);
    var raw := if ms == [] then [text] else ms;
    if ms == [] {
      ContainsSelf(text);
    } else {
      MatchesAreSentences(text);
    }
    assert forall k :: 0 <= k < |raw| ==> Contains(text, raw[k]);
    TrimmedPieces(text, raw);
  }

  /**
   * When the pattern matches, every match becomes one sentence, and each
   * ends in '.', '!' or '?': a trailing fragment without one is dropped.
   */
  lemma MatchedSentencesEndInTerminator(text: string)
    requires HasSentence(text)
    ensures |SplitIntoSentences(text)| == |Matches(text)|
    ensures forall k :: 0 <= k < |SplitIntoSentences(text)| ==>
      var e := SplitIntoSentences(text)[k];
      e != [] && IsTerminator(e[|e| - 1])
  {
    MatchesIff(text);
    MatchesAreSentences(text);
    var ms := Matches(text);
    var trimmed := TrimEach(ms);
    assert forall k :: 0 <= k < |trimmed| ==> trimmed[k] != [] by {
      forall k | 0 <= k < |trimmed| ensures trimmed[k] != [] {
        assert EndsSentence(ms[k]);
      }
    }
    assert SplitIntoSentences(text) == trimmed;
    forall k | 0 <= k < |trimmed| ensures IsTerminator(trimmed[k][|trimmed[k]| - 1]) {
      assert EndsSentence(ms[k]);
    }
  }

  /** Without a match the whole text, trimmed, is the one sentence, or there is none for blank text. */
  lemma UnmatchedTextIsOneSentence(text: string)
    requires !HasSentence(text)
    ensures SplitIntoSentences(text) == if Trim(text) == [] then [] else [Trim(text)]
  {
    MatchesIff(text);
    var trimmed := TrimEach([text]);
    assert trimmed == [Trim(text)];
    if Trim(text) != [] {
      assert NonEmpty(trimmed) == trimmed;
    } else {
      assert trimmed[1..] == [];
    }
  }

  /** A text without any '.', '!' or '?' is read as one sentence (none when blank). */
  lemma NoTerminatorOneSentence(text: string)
    requires forall k :: 0 <= k < |text| ==> !IsTerminator(text[k])
    ensures SplitIntoSentences(text) == if Trim(text) == [] then [] else [Trim(text)]
  {
    UnmatchedTextIsOneSentence(text);
  }

  // ---------------------------------------------------------------------
  // Playback
  // ---------------------------------------------------------------------

  datatype SpeechState = Idle | Playing | Paused

  class Player {
    const text: string
    const sentences: seq<string>
    const isIos: bool
    var speechState: SpeechState
    /** The sentence being spoken, or -1. */
    var currentSentenceIndex: int
    var isCancelled: bool
    /** The sentence the pacing timer will start, if one is pending. */
    var pending: Option<nat>
    var speechRate: real
    var selectedVoice: Option<string>
    /** The calls made to the speech engine, oldest first. */
    var calls: seq<EngineCall>

    predicate Valid()
      reads this
    {
      && -1 <= currentSentenceIndex < |sentences|
      && (speechState == Paused ==> isIos)
    }

    /** The progress line is shown while a sentence is current and the player is not idle. */
    predicate ShowsProgress()
      reads this
    {
      currentSentenceIndex >= 0 && speechState != Idle
    }

    constructor(text: string, isIos: bool)
      ensures Valid() && this.text == text && this.isIos == isIos && sentences == SplitIntoSentences(text)
      ensures speechState == Idle && currentSentenceIndex == -1 && !isCancelled && pending.None? && calls == []
      ensures speechRate == 1.0 && selectedVoice.None?
    {
      this.text := text;
      this.isIos := isIos;
      sentences := SplitIntoSentences(text);
      speechState := Idle;
      currentSentenceIndex := -1;
      isCancelled := false;
      pending := None;
      speechRate := 1.0;
      selectedVoice := None;
      calls := [];
    }

    /**
     * `speakSentence`: after a cancel or past the last sentence the player
     * goes idle with no current sentence; otherwise sentence `index` becomes
     * current and is spoken.
     */
    method SpeakSentence(index: nat)
      requires Valid()
      modifies this
      ensures Valid()
      ensures old(isCancelled) || index >= |sentences| ==>
        speechState == Idle && currentSentenceIndex == -1 && calls == old(calls)
      ensures !old(isCancelled) && index < |sentences| ==>
        && currentSentenceIndex == index && speechState == old(speechState)
        && calls == old(calls) + [Speak(sentences[index], SpeakTextOptions(Some(speechRate), selectedVoice))]
      ensures isCancelled == old(isCancelled) && pending == old(pending)
      ensures speechRate == old(speechRate) && selectedVoice == old(selectedVoice)
    {
      if isCancelled || index >= |sentences| {
        speechState := Idle;
        currentSentenceIndex := -1;
        return;
      }
      currentSentenceIndex := index;
      calls := calls + [Speak(sentences[index], SpeakTextOptions(Some(speechRate), selectedVoice))];
    }

    /**
     * `handlePlay`: nothing for blank text; a paused iOS player resumes;
     * otherwise playing restarts at the current sentence, or at the first.
     */
    method HandlePlay()
      requires Valid()
      modifies this
      ensures Valid()
      ensures Trim(text) == [] ==>
        speechState == old(speechState) && currentSentenceIndex == old(currentSentenceIndex)
        && calls == old(calls) && isCancelled == old(isCancelled)
      ensures Trim(text) != [] ==> !isCancelled
      ensures Trim(text) != [] && old(speechState) == Paused ==>
        speechState == Playing && calls == old(calls) + [Resume] && currentSentenceIndex == old(currentSentenceIndex)
      ensures Trim(text) != [] && old(speechState) != Paused ==>
        var start := if old(currentSentenceIndex) >= 0 then old(currentSentenceIndex) else 0;
        && (start < |sentences| ==>
              && speechState == Playing && currentSentenceIndex == start
              && calls == old(calls) + [Speak(sentences[start], SpeakTextOptions(Some(speechRate), selectedVoice))])
        && (start >= |sentences| ==> speechState == Idle && currentSentenceIndex == -1 && calls == old(calls))
      ensures pending == old(pending) && speechRate == old(speechRate) && selectedVoice == old(selectedVoice)
    {
      if Trim(text) == [] {
        return;
      }
      isCancelled := false;
      if speechState == Paused && isIos {
        ResumePaused();
      } else {
        PlayFromCurrent();
      }
    }

    /** The paused half of `handlePlay`: only iOS pauses, so the engine resumes. */
    method ResumePaused()
      requires Valid() && speechState == Paused
      modifies this`calls, this`speechState
      ensures Valid() && speechState == Playing && calls == old(calls) + [Resume]
    {
      calls := calls + [ResumeSpeaking(isIos)];
      speechState := Playing;
    }

    /** The non-paused half of `handlePlay`: play from the current sentence, or from the first. */
    method PlayFromCurrent()
      requires Valid() && !isCancelled
      modifies this
      ensures Valid() && !isCancelled
      ensures
        var start := if old(currentSentenceIndex) >= 0 then old(currentSentenceIndex) else 0;
        && (start < |sentences| ==>
              && speechState == Playing && currentSentenceIndex == start
              && calls == old(calls) + [Speak(sentences[start], SpeakTextOptions(Some(speechRate), selectedVoice))])
        && (start >= |sentences| ==> speechState == Idle && currentSentenceIndex == -1 && calls == old(calls))
      ensures pending == old(pending) && speechRate == old(speechRate) && selectedVoice == old(selectedVoice)
    {
      speechState := Playing;
      var startIndex := if currentSentenceIndex >= 0 then currentSentenceIndex else 0;
      SpeakSentence(startIndex);
    }

    /** `onDone` of the sentence `index`: unless cancelled, the next one is due after a short pause. */
    method SentenceDone(index: nat)
      modifies this
      ensures pending == if old(isCancelled) then old(pending) else Some(index + 1)
      ensures speechState == old(speechState) && currentSentenceIndex == old(currentSentenceIndex)
      ensures isCancelled == old(isCancelled) && calls == old(calls)
      ensures speechRate == old(speechRate) && selectedVoice == old(selectedVoice)
      ensures old(Valid()) ==> Valid()
    {
      if !isCancelled {
        pending := Some(index + 1);
      }
    }

    /** The pacing timer fires and starts the sentence it was set for. */
    method PacingTimerFires()
      requires Valid() && pending.Some?
      modifies this
      ensures Valid() && pending.None?
      ensures var next := old(pending).value;
        && (!old(isCancelled) && next < |sentences| ==>
              && currentSentenceIndex == next && speechState == old(speechState)
              && calls == old(calls) + [Speak(sentences[next], SpeakTextOptions(Some(speechRate), selectedVoice))])
        && (old(isCancelled) || next >= |sentences| ==>
              currentSentenceIndex == -1 && speechState == Idle && calls == old(calls))
      ensures isCancelled == old(isCancelled) && speechRate == old(speechRate) && selectedVoice == old(selectedVoice)
    {
      var next := pending.value;
      pending := None;
      SpeakSentence(next);
    }

    /** `onError` of a sentence. */
    method SentenceFailed()
      requires Valid()
      modifies this
      ensures Valid() && speechState == Idle && currentSentenceIndex == -1
      ensures isCancelled == old(isCancelled) && pending == old(pending) && calls == old(calls)
      ensures speechRate == old(speechRate) && selectedVoice == old(selectedVoice)
    {
      speechState := Idle;
      currentSentenceIndex := -1;
    }

    /** `handlePause`: cancels the chain and keeps the current sentence for the next play. */
    method HandlePause()
      requires Valid()
      modifies this
      ensures Valid() && isCancelled
      ensures speechState == (if isIos then Paused else Idle)
      ensures calls == old(calls) + [PauseSpeaking(isIos)]
      ensures currentSentenceIndex == old(currentSentenceIndex) && pending == old(pending)
      ensures speechRate == old(speechRate) && selectedVoice == old(selectedVoice)
    {
      isCancelled := true;
      calls := calls + [PauseSpeaking(isIos)];
      speechState := if isIos then Paused else Idle;
    }

    /** `handleStop`: cancels, stops the engine and forgets the current sentence. */
    method HandleStop()
      requires Valid()
      modifies this
      ensures Valid() && isCancelled && speechState == Idle && currentSentenceIndex == -1
      ensures calls == old(calls) + [Stop] && pending == old(pending)
      ensures speechRate == old(speechRate) && selectedVoice == old(selectedVoice)
    {
      isCancelled := true;
      calls := calls + [Stop];
      speechState := Idle;
      currentSentenceIndex := -1;
    }

    /**
     * Leaving the screen: the effect registered once at mount stops the
     * engine and cancels the chain, so no pending sentence is spoken later.
     */
    method Unmount()
      requires Valid()
      modifies this
      ensures Valid() && isCancelled && calls == old(calls) + [Stop]
      ensures speechState == old(speechState) && currentSentenceIndex == old(currentSentenceIndex) && pending == old(pending)
      ensures speechRate == old(speechRate) && selectedVoice == old(selectedVoice)
    {
      calls := calls + [Stop];
      isCancelled := true;
    }
  }

  /**
   * One sentence finishing moves playback to the next one: the index goes
   * up by exactly one and the next sentence is spoken with the same rate
   * and voice, or playback ends after the last sentence.
   */
  method NextSentenceFollows(p: Player)
    requires p.Valid() && !p.isCancelled && p.currentSentenceIndex >= 0
    modifies p
    ensures p.Valid()
    ensures old(p.currentSentenceIndex) + 1 < |p.sentences| ==>
      && p.currentSentenceIndex == old(p.currentSentenceIndex) + 1 && p.speechState == old(p.speechState)
      && p.calls == old(p.calls) + [Speak(p.sentences[p.currentSentenceIndex], SpeakTextOptions(Some(p.speechRate), p.selectedVoice))]
    ensures old(p.currentSentenceIndex) + 1 >= |p.sentences| ==>
      p.currentSentenceIndex == -1 && p.speechState == Idle && p.calls == old(p.calls)
    ensures !p.isCancelled && p.pending.None?
    ensures p.speechRate == old(p.speechRate) && p.selectedVoice == old(p.selectedVoice)
  {
    p.SentenceDone(p.currentSentenceIndex);
    p.PacingTimerFires();
  }
}
