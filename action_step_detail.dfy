/**
 * The web page of one action step (`ActionStepDetail`): the details shown
 * for the step (its own, or five generated sentences), the default voice and
 * the voice menu of the browser's speech engine, the text read aloud, the
 * read-aloud and stop buttons, and the calendar link of the step.
 */
module ActionStepDetail {
  import opened Wrappers
  import opened Text
  import opened BookTypes
  import opened CalendarLinks
  import Speech

  // ---------------------------------------------------------------------
  // Details
  // ---------------------------------------------------------------------

  function Quoted(s: string): string { "\"" + s + "\"" }

  const ImplementHead: string := "This step helps you implement "
  const ImplementTail: string := " in your daily life."
  const ChapterHead: string := "Based on the principles from chapter "
  const ChapterTail: string := ", this action creates lasting change."
  const TakeawayHead: string := "The most important aspect of "
  const TakeawayTail: string := " is consistency and intentional practice."
  const FixedSentences: seq<string> := [
    "Many readers have found that this specific technique leads to measurable results.",
    "The author emphasizes this point as essential to mastering the book's core concepts.",
    "Try implementing this consistently for at least 21 days to form a habit."]

  /** The five placeholder sentences and takeaway shown when a step has no details. */
  function FallbackDetails(step: ActionableStep): (d: StepDetails)
    ensures |d.sentences| == 5
    ensures Contains(d.sentences[0], Quoted(step.step))
    ensures Contains(d.sentences[1], step.chapter)
    ensures Contains(d.keyTakeaway, Quoted(step.step))
  {
    var q := Quoted(step.step);
    ContainsSelf(q);
    ContainsSelf(step.chapter);
    ContainsInfix(ImplementHead, q, ImplementTail, q);
    ContainsInfix(ChapterHead, step.chapter, ChapterTail, step.chapter);
    ContainsInfix(TakeawayHead, q, TakeawayTail, q);
    StepDetails(
      [ImplementHead + q + ImplementTail, ChapterHead + step.chapter + ChapterTail] + FixedSentences,
      TakeawayHead + q + TakeawayTail)
  }

  /** `step.details || { ... }`: a step's own details win over the placeholder. */
  function Details(step: ActionableStep): (d: StepDetails)
    ensures step.details.Some? ==> d == step.details.value
    ensures step.details.None? ==> d == FallbackDetails(step)
  {
    if step.details.Some? then step.details.value else FallbackDetails(step)
  }

  // ---------------------------------------------------------------------
  // Voices
  // ---------------------------------------------------------------------

  /** A browser `SpeechSynthesisVoice`: its name and language tag. */
  datatype WebVoice = WebVoice(name: string, lang: string)

  predicate ContainsAny(s: string, markers: seq<string>) {
    exists i :: 0 <= i < |markers| && Contains(s, markers[i])
  }

  /** The name fragments that make a voice the preferred default. */
  const DefaultMarkers: seq<string> :=
    ["Premium", "Enhanced", "Neural", "Wavenet", "Siri", "Samantha", "Daniel", "Karen"]

  /** The name fragments that put a voice at the top of the menu. */
  const MenuMarkers: seq<string> := ["Premium", "Enhanced", "Neural", "Wavenet"]

  predicate IsEnglish(v: WebVoice) { Contains(v.lang, "en") }

  predicate IsPreferred(v: WebVoice) { ContainsAny(v.name, DefaultMarkers) && IsEnglish(v) }

  /** The index of the first English voice (`voices.find(v => v.lang.includes('en'))`). */
  function FirstEnglish(voices: seq<WebVoice>): (r: Option<nat>)
    ensures r.Some? ==> r.value < |voices| && IsEnglish(voices[r.value])
    ensures r.Some? ==> forall j :: 0 <= j < r.value ==> !IsEnglish(voices[j])
    ensures r.None? ==> forall j :: 0 <= j < |voices| ==> !IsEnglish(voices[j])
  {
    if voices == [] then None
    else if IsEnglish(voices[0]) then Some(0)
    else
      var rest := FirstEnglish(voices[1..]);
      if rest.Some? then Some(rest.value + 1) else None
  }

  /** The index of the first preferred voice. */
  function FirstPreferred(voices: seq<WebVoice>): (r: Option<nat>)
    ensures r.Some? ==> r.value < |voices| && IsPreferred(voices[r.value])
    ensures r.Some? ==> forall j :: 0 <= j < r.value ==> !IsPreferred(voices[j])
    ensures r.None? ==> forall j :: 0 <= j < |voices| ==> !IsPreferred(voices[j])
  {
    if voices == [] then None
    else if IsPreferred(voices[0]) then Some(0)
    else
      var rest := FirstPreferred(voices[1..]);
      if rest.Some? then Some(rest.value + 1) else None
  }

  /**
   * The voice `loadVoices` selects: the first English voice with a premium
   * marker in its name, else the first English voice, else none.
   */
  function DefaultVoice(voices: seq<WebVoice>): (name: Option<string>)
    ensures name.Some? <==> exists i :: 0 <= i < |voices| && IsEnglish(voices[i])
    ensures (exists i :: 0 <= i < |voices| && IsPreferred(voices[i])) ==>
      exists i :: 0 <= i < |voices| && IsPreferred(voices[i]) && name == Some(voices[i].name)
        && (forall j :: 0 <= j < i ==> !IsPreferred(voices[j]))
    ensures (forall i :: 0 <= i < |voices| ==> !IsPreferred(voices[i])) && name.Some? ==>
      exists i :: 0 <= i < |voices| && IsEnglish(voices[i]) && name.value == voices[i].name
        && (forall j :: 0 <= j < i ==> !IsEnglish(voices[j]))
  {
    var p := FirstPreferred(voices);
    if p.Some? then Some(voices[p.value].name)
    else
      var e := FirstEnglish(voices);
      if e.Some? then Some(voices[e.value].name) else None
  }

  /** `voices.find(v => v.name === selectedVoice)`. */
  function FindByName(voices: seq<WebVoice>, name: string): (r: Option<WebVoice>)
    ensures r.Some? ==> exists i ::
      && 0 <= i < |voices| && voices[i] == r.value && r.value.name == name
      && forall j :: 0 <= j < i ==> voices[j].name != name
    ensures r.None? ==> forall v :: v in voices ==> v.name != name
  {
    if voices == [] then None
    else if voices[0].name == name then Some(voices[0])
    else FindByName(voices[1..], name)
  }

  predicate IsMenuPremium(v: WebVoice) { ContainsAny(v.name, MenuMarkers) }

  /** The menu comparator: premium voices first, then by name. */
  predicate MenuLe(a: WebVoice, b: WebVoice) {
    (IsMenuPremium(a) && !IsMenuPremium(b))
    || (IsMenuPremium(a) == IsMenuPremium(b) && Speech.NameLe(a.name, b.name))
  }

  lemma MenuLeTotal(a: WebVoice, b: WebVoice)
    ensures MenuLe(a, b) || MenuLe(b, a)
  {
    Speech.NameLeTotal(a.name, b.name);
  }

  predicate MenuSorted(s: seq<WebVoice>) {
    forall i :: 0 <= i < |s| - 1 ==> MenuLe(s[i], s[i + 1])
  }

  function EnglishVoices(voices: seq<WebVoice>): (r: seq<WebVoice>)
    ensures forall v :: multiset(r)[v] == if IsEnglish(v) then multiset(voices)[v] else 0
  {
    if voices == [] then []
    else
      assert voices == [voices[0]] + voices[1..];
      (if IsEnglish(voices[0]) then [voices[0]] else []) + EnglishVoices(voices[1..])
  }

  function MenuInsert(x: WebVoice, s: seq<WebVoice>): (r: seq<WebVoice>)
    requires MenuSorted(s)
    ensures MenuSorted(r) && multiset(r) == multiset(s) + multiset{x}
    ensures |r| > 0 && (r[0] == x || (|s| > 0 && r[0] == s[0]))
  {
    if s == [] || MenuLe(x, s[0]) then [x] + s
    else
      MenuLeTotal(x, s[0]);
      var rest := MenuInsert(x, s[1..]);
      assert s == [s[0]] + s[1..];
      [s[0]] + rest
  }

  function MenuSort(s: seq<WebVoice>): (r: seq<WebVoice>)
    ensures MenuSorted(r) && multiset(r) == multiset(s)
  {
    if s == [] then []
    else
      assert s == [s[0]] + s[1..];
      MenuInsert(s[0], MenuSort(s[1..]))
  }

  /** The options of the voice menu: the English voices, sorted by the comparator. */
  function MenuVoices(voices: seq<WebVoice>): (r: seq<WebVoice>)
    ensures MenuSorted(r)
    ensures forall v :: multiset(r)[v] == if IsEnglish(v) then multiset(voices)[v] else 0
  {
    MenuSort(EnglishVoices(voices))
  }

  /** Every premium voice of the menu comes before every other one. */
  lemma {:induction false} PremiumVoicesFirst(s: seq<WebVoice>, i: nat, j: nat)
    requires MenuSorted(s) && i <= j < |s| && IsMenuPremium(s[j])
    ensures IsMenuPremium(s[i])
    decreases j - i
  {
    if i < j {
      PremiumVoicesFirst(s, i + 1, j);
      assert MenuLe(s[i], s[i + 1]);
    }
  }

  /** Within the premium voices, and within the others, the menu is in name order. */
  lemma {:induction false} MenuNamesInOrder(s: seq<WebVoice>, i: nat, j: nat)
    requires MenuSorted(s) && i <= j < |s| && IsMenuPremium(s[i]) == IsMenuPremium(s[j])
    ensures Speech.NameLe(s[i].name, s[j].name)
    decreases j - i
  {
    if i == j {
      Speech.NameLeReflexive(s[i].name);
    } else {
      assert MenuLe(s[i], s[i + 1]);
      if IsMenuPremium(s[j]) {
        PremiumVoicesFirst(s, i + 1, j);
      }
      MenuNamesInOrder(s, i + 1, j);
      Speech.NameLeTransitive(s[i].name, s[i + 1].name, s[j].name);
    }
  }

  /** A voice is in the menu exactly when it is an English voice of the engine. */
  lemma MenuIffEnglish(voices: seq<WebVoice>, v: WebVoice)
    ensures v in MenuVoices(voices) <==> IsEnglish(v) && v in voices
  {
    assert v in MenuVoices(voices) <==> multiset(MenuVoices(voices))[v] > 0;
    assert v in voices <==> multiset(voices)[v] > 0;
  }

  // ---------------------------------------------------------------------
  // The text read aloud
  // ---------------------------------------------------------------------

  const PointWord: string := "Point "
  const ColonSpace: string := ": "
  const Newline: string := "\n"

  function PointLine(number: nat, sentence: string): string {
    PointWord + IntToString(number) + ColonSpace + sentence + Newline
  }

  /** The numbered detail lines, numbered from 1. */
  function Points(sentences: seq<string>): string
    decreases |sentences|
  {
    if sentences == [] then ""
    else Points(sentences[..|sentences| - 1]) + PointLine(|sentences|, sentences[|sentences| - 1])
  }

  const DayWord: string := "Action step for day "
  const DotSpace: string := ". "
  const FromWord: string := ". From "
  const DotBreak: string := ".\n\n"
  const KeyTakeawayWord: string := "Key takeaway: "
  const Break: string := "\n\n"
  const DetailedWord: string := "Detailed implementation:\n"

  /** `${step.day}`, which reads "undefined" for a step without a day. */
  function DayText(day: Option<string>): string {
    if day.Some? then day.value else "undefined"
  }

  function Opening(step: ActionableStep): string {
    DayWord + DayText(step.day) + DotSpace + step.step + FromWord + step.chapter + DotBreak
  }

  function KeyLine(details: StepDetails): string {
    KeyTakeawayWord + details.keyTakeaway + Break
  }

  function Header(step: ActionableStep, details: StepDetails): string {
    Opening(step) + KeyLine(details) + DetailedWord
  }

  /** The text the read-aloud button speaks. */
  function TextToRead(step: ActionableStep): (r: string)
    ensures StartsWith(r, Header(step, Details(step)))
  {
    Header(step, Details(step)) + Points(Details(step).sentences)
  }

  /** What occurs in `a` occurs in `a + b` and in `b + a`. */
  lemma ContainsInEither(a: string, b: string, m: string)
    requires Contains(a, m)
    ensures Contains(a + b, m) && Contains(b + a, m)
  {
    ContainsInfix("", a, b, m);
    assert "" + a + b == a + b;
    ContainsInfix(b, a, "", m);
    assert b + a + "" == b + a;
  }

  /** Every sentence is read, numbered by its position from 1. */
  lemma {:induction false} EveryPointIsRead(sentences: seq<string>, k: nat)
    requires k < |sentences|
    ensures Contains(Points(sentences), PointLine(k + 1, sentences[k]))
    decreases |sentences|
  {
    var n := |sentences|;
    var init := sentences[..n - 1];
    var last := PointLine(n, sentences[n - 1]);
    assert Points(sentences) == Points(init) + last;
    if k == n - 1 {
      ContainsSelf(last);
      ContainsInEither(last, Points(init), last);
    } else {
      EveryPointIsRead(init, k);
      assert init[k] == sentences[k];
      ContainsInEither(Points(init), last, PointLine(k + 1, sentences[k]));
    }
  }

  /** The text starts with the step's header, key takeaway included. */
  lemma TextStartsWithHeader(step: ActionableStep)
    ensures StartsWith(TextToRead(step), Header(step, Details(step)))
    ensures Contains(TextToRead(step), KeyLine(Details(step)))
  {
    var d := Details(step);
    var h := Header(step, d);
    var rest := Points(d.sentences);
    assert (h + rest)[..|h|] == h;
    ContainsSelf(KeyLine(d));
    ContainsInfix(Opening(step), KeyLine(d), DetailedWord + rest, KeyLine(d));
    assert Opening(step) + KeyLine(d) + (DetailedWord + rest) == h + rest;
  }

  /** The `forEach` of `handleReadAloud`: one numbered line per sentence, appended to `text`. */
  method AppendPoints(text0: string, sentences: seq<string>) returns (text: string)
    ensures text == text0 + Points(sentences)
  {
    text := text0;
    var i := 0;
    while i < |sentences|
      invariant 0 <= i <= |sentences|
      invariant text == text0 + Points(sentences[..i])
    {
      assert sentences[..i + 1][..i] == sentences[..i];
      text := text + PointLine(i + 1, sentences[i]);
      i := i + 1;
    }
    assert sentences[..i] == sentences;
  }

  /** `textToRead` as the page builds it: the header, then one line per sentence. */
  method BuildTextToRead(step: ActionableStep) returns (text: string)
    ensures text == TextToRead(step)
  {
    var details := Details(step);
    text := AppendPoints(Header(step, details), details.sentences);
  }

  // ---------------------------------------------------------------------
  // The calendar link
  // ---------------------------------------------------------------------

  /**
   * `createCalendarLink`: an all-day event tomorrow titled "Book Action:
   * <step>", described by the book, the chapter, the takeaway and the details.
   */
  function CreateCalendarLink(step: ActionableStep, bookTitle: string, today: Date): (link: string)
    requires ValidDate(today)
    ensures link == GenerateDetailedCalendarLink(
      step.step, bookTitle, step.chapter, Details(step).keyTakeaway, Details(step).sentences, today)
  {
    var d := Details(step);
    DetailedCalendarLink(step.step, bookTitle, step.chapter, d.keyTakeaway, d.sentences, FormatDateForUrl(NextDay(today)))
  }

  // ---------------------------------------------------------------------
  // The page
  // ---------------------------------------------------------------------

  /** A call into the browser's `speechSynthesis`. */
  datatype WebCall =
    | Speak(text: string, voice: Option<WebVoice>, rate: real, pitch: real)
    | PauseCall
    | ResumeCall
    | Cancel

  const UnsupportedAlert: string := "Sorry, your browser does not support text-to-speech functionality."
  const ReadErrorAlert: string := "An error occurred while reading the text."

  function TestPhrase(bookTitle: string): string {
    "This is a test of the selected voice for this action from " + bookTitle + "."
  }

  /** The voice an utterance is given: the selected one, when it is among the voices. */
  function UtteranceVoice(voices: seq<WebVoice>, selected: string): (v: Option<WebVoice>)
    ensures v.Some? ==> selected != ""
    ensures v.Some? ==> exists i ::
      && 0 <= i < |voices| && voices[i] == v.value && v.value.name == selected
      && forall j :: 0 <= j < i ==> voices[j].name != selected
    ensures v.None? ==> selected == "" || forall w :: w in voices ==> w.name != selected
  {
    if |voices| > 0 && selected != "" then FindByName(voices, selected) else None
  }

  class Page {
    const step: ActionableStep
    const bookTitle: string
    /** Whether `window.speechSynthesis` exists. */
    const supported: bool
    var isSpeaking: bool
    var isPaused: bool
    var voices: seq<WebVoice>
    var selectedVoice: string
    var speechRate: real
    var voiceMenuOpen: bool
    var alert: Option<string>
    /** The calls made to the speech engine, oldest first. */
    var calls: seq<WebCall>
    /** `isSpeaking` as the last utterance's error handler captured it. */
    var speakingWhenUttered: bool

    /** Paused only while speaking, and the rate inside the slider's range. */
    predicate Valid()
      reads this
    {
      (isPaused ==> isSpeaking) && 0.5 <= speechRate <= 2.0
    }

    constructor (step: ActionableStep, bookTitle: string, supported: bool)
      ensures Valid()
      ensures this.step == step && this.bookTitle == bookTitle && this.supported == supported
      ensures !isSpeaking && !isPaused && voices == [] && selectedVoice == "" && speechRate == 1.0
      ensures !voiceMenuOpen && alert == None && calls == [] && !speakingWhenUttered
    {
      this.step := step;
      this.bookTitle := bookTitle;
      this.supported := supported;
      isSpeaking := false;
      isPaused := false;
      voices := [];
      selectedVoice := "";
      speechRate := 1.0;
      voiceMenuOpen := false;
      alert := None;
      calls := [];
      speakingWhenUttered := false;
    }

    /**
     * `loadVoices`: keep the engine's voices and select the default one, if
     * any. It reads the voices from the engine, so it runs only where the
     * engine exists.
     */
    method LoadVoices(available: seq<WebVoice>)
      requires Valid() && supported
      modifies this
      ensures Valid()
      ensures voices == available
      ensures selectedVoice == (if DefaultVoice(available).Some? then DefaultVoice(available).value else old(selectedVoice))
      ensures isSpeaking == old(isSpeaking) && isPaused == old(isPaused) && speechRate == old(speechRate)
      ensures voiceMenuOpen == old(voiceMenuOpen) && alert == old(alert) && calls == old(calls)
      ensures speakingWhenUttered == old(speakingWhenUttered)
    {
      voices := available;
      var d := DefaultVoice(available);
      if d.Some? {
        selectedVoice := d.value;
      }
    }

    /**
     * `handleReadAloud`: without an engine, an alert; while speaking, pause
     * or resume; otherwise cancel whatever is queued and speak the step.
     */
    method HandleReadAloud()
      requires Valid()
      modifies this
      ensures Valid()
      ensures !supported ==>
        (alert == Some(UnsupportedAlert) && calls == old(calls) && isSpeaking == old(isSpeaking) && isPaused == old(isPaused))
      ensures supported && old(isSpeaking) && old(isPaused) ==>
        (calls == old(calls) + [ResumeCall] && isSpeaking && !isPaused)
      ensures supported && old(isSpeaking) && !old(isPaused) ==>
        (calls == old(calls) + [PauseCall] && isSpeaking && isPaused)
      ensures supported && !old(isSpeaking) ==>
        (calls == old(calls) + [Cancel, Speak(TextToRead(step), UtteranceVoice(voices, selectedVoice), speechRate, 1.0)]
         && !isSpeaking && !isPaused && !speakingWhenUttered)
      ensures supported ==> alert == old(alert)
      ensures voices == old(voices) && selectedVoice == old(selectedVoice) && speechRate == old(speechRate)
      ensures voiceMenuOpen == old(voiceMenuOpen)
      ensures (old(isSpeaking) || !supported) ==> speakingWhenUttered == old(speakingWhenUttered)
    {
      if !supported {
        alert := Some(UnsupportedAlert);
        return;
      }
      if isSpeaking {
        if isPaused {
          calls := calls + [ResumeCall];
          isPaused := false;
        } else {
          calls := calls + [PauseCall];
          isPaused := true;
        }
        return;
      }
      calls := calls + [Cancel];
      var text := BuildTextToRead(step);
      var voice := UtteranceVoice(voices, selectedVoice);
      speakingWhenUttered := isSpeaking;
      calls := calls + [Speak(text, voice, speechRate, 1.0)];
    }

    /** The utterance's `onstart`. */
    method SpeechStarted()
      requires Valid()
      modifies this`isSpeaking, this`isPaused
      ensures Valid() && isSpeaking && !isPaused
    {
      isSpeaking := true;
      isPaused := false;
    }

    /** The utterance's `onend`. */
    method SpeechEnded()
      requires Valid()
      modifies this`isSpeaking, this`isPaused
      ensures Valid() && !isSpeaking && !isPaused
    {
      isSpeaking := false;
      isPaused := false;
    }

    /**
     * The utterance's `onerror` as written: the check "was speech in
     * progress" reads the value captured when the utterance was made.
     */
    method SpeechErrorAsWritten(isCancellation: bool)
      requires Valid()
      modifies this`isSpeaking, this`isPaused, this`alert
      ensures Valid() && !isSpeaking && !isPaused
      ensures alert == (if speakingWhenUttered && !isCancellation then Some(ReadErrorAlert) else old(alert))
    {
      if speakingWhenUttered && !isCancellation {
        alert := Some(ReadErrorAlert);
      }
      isSpeaking := false;
      isPaused := false;
    }

    /** The utterance's `onerror` as intended: alert when speech was in progress and not cancelled. */
    method SpeechError(isCancellation: bool)
      requires Valid()
      modifies this`isSpeaking, this`isPaused, this`alert
      ensures Valid() && !isSpeaking && !isPaused
      ensures alert == (if old(isSpeaking) && !isCancellation then Some(ReadErrorAlert) else old(alert))
    {
      if isSpeaking && !isCancellation {
        alert := Some(ReadErrorAlert);
      }
      isSpeaking := false;
      isPaused := false;
    }

    /** `handleStopReading`: clear both flags first, then cancel the engine. */
    method HandleStopReading()
      requires Valid()
      modifies this`isSpeaking, this`isPaused, this`calls
      ensures Valid() && !isSpeaking && !isPaused
      ensures calls == old(calls) + (if supported then [Cancel] else [])
    {
      isSpeaking := false;
      isPaused := false;
      if supported {
        calls := calls + [Cancel];
      }
    }

    /** `testSelectedVoice`: cancel, then speak a test phrase with the chosen voice and rate. */
    method TestSelectedVoice()
      requires Valid()
      modifies this`calls
      ensures calls == old(calls)
        + (if supported then [Cancel, Speak(TestPhrase(bookTitle), UtteranceVoice(voices, selectedVoice), speechRate, 1.0)] else [])
    {
      if !supported {
        return;
      }
      calls := calls + [Cancel];
      var voice := UtteranceVoice(voices, selectedVoice);
      calls := calls + [Speak(TestPhrase(bookTitle), voice, speechRate, 1.0)];
    }

    /** The voice menu's `onChange`. */
    method SelectVoice(name: string)
      modifies this`selectedVoice
      ensures selectedVoice == name
    {
      selectedVoice := name;
    }

    /** The rate slider: 0.5 to 2, in steps of 0.1. */
    method SetSpeechRate(rate: real)
      requires Valid() && 0.5 <= rate <= 2.0
      modifies this`speechRate
      ensures Valid() && speechRate == rate
    {
      speechRate := rate;
    }

    method ToggleVoiceMenu()
      modifies this`voiceMenuOpen
      ensures voiceMenuOpen == !old(voiceMenuOpen)
    {
      voiceMenuOpen := !voiceMenuOpen;
    }

    /** A mouse-down anywhere: outside the menu it closes the menu. */
    method MouseDown(insideMenu: bool)
      modifies this`voiceMenuOpen
      ensures voiceMenuOpen == (old(voiceMenuOpen) && insideMenu)
    {
      if !insideMenu {
        voiceMenuOpen := false;
      }
    }

    /**
     * Unmounting the page cancels any speech; without an engine the cancel
     * throws, the clean-up catches it, and no call is made.
     */
    method Unmount()
      modifies this`calls
      ensures calls == old(calls) + (if supported then [Cancel] else [])
    {
      if supported {
        calls := calls + [Cancel];
      }
    }
  }

  /**
   * A read-aloud whose utterance fails with a non-cancellation error after
   * it started: the handler as written shows no alert, the intended one does.
   */
  method ReadErrorIsLost(step: ActionableStep, bookTitle: string)
    returns (asWritten: Option<string>, intended: Option<string>)
    ensures asWritten == None
    ensures intended == Some(ReadErrorAlert)
  {
    var p := new Page(step, bookTitle, true);
    p.HandleReadAloud();
    p.SpeechStarted();
    p.SpeechErrorAsWritten(false);
    asWritten := p.alert;

    var q := new Page(step, bookTitle, true);
    q.HandleReadAloud();
    q.SpeechStarted();
    q.SpeechError(false);
    intended := q.alert;
  }

  /** Pressing read-aloud twice while speaking pauses and then resumes. */
  method PauseThenResume(p: Page)
    requires p.Valid() && p.supported && p.isSpeaking && !p.isPaused
    modifies p
    ensures p.Valid() && p.isSpeaking && !p.isPaused
    ensures p.calls == old(p.calls) + [PauseCall, ResumeCall]
  {
    p.HandleReadAloud();
    p.HandleReadAloud();
  }
}
