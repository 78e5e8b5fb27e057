/**
 * The speech helpers of the mobile application (mobile/utils/speech.ts):
 * the list of English voices in preference order, and the options passed to
 * the speech engine.  The engine itself is left out; its voice list is an
 * input (`None` when the call throws) and its calls are values.
 */
module Speech {
  import opened Wrappers
  import opened Text

  /** A voice as the engine reports it; a missing name is the empty string. */
  datatype Voice = Voice(identifier: string, name: string, language: string, quality: Option<string>)

  /** A voice as the application lists it. */
  datatype VoiceOption = VoiceOption(identifier: string, name: string, language: string, quality: Option<string>)

  predicate IsEnglish(v: Voice) {
    Contains(v.language, "en")
  }

  predicate IsGoogle(v: Voice) {
    Contains(Lower(v.name), "google")
  }

  predicate IsGoogleUk(v: Voice) {
    IsGoogle(v) && Contains(Lower(v.name), "uk")
  }

  predicate IsPremium(v: Voice) {
    v.quality == Some("Enhanced") || Contains(v.name, "Premium") || Contains(v.name, "Neural")
  }

  /**
   * The comparator's three preferences as one number: Google UK, then
   * Google, then premium, each deciding before the next.
   */
  function Tier(v: Voice): (t: nat)
    ensures t <= 1 <==> IsGoogleUk(v)
    ensures t <= 5 <==> IsGoogle(v)
    ensures t % 2 == 0 <==> IsPremium(v)
  {
    assert IsGoogleUk(v) ==> IsGoogle(v);
    (if IsGoogleUk(v) then 0 else 4) + (if IsGoogle(v) then 0 else 2) + (if IsPremium(v) then 0 else 1)
  }

  /** Code-point order on strings, the order `localeCompare` stands for here. */
  predicate NameLe(a: string, b: string)
    decreases |a|
  {
    if a == [] then true
    else if b == [] then false
    else if a[0] != b[0] then a[0] < b[0]
    else NameLe(a[1..], b[1..])
  }

  lemma {:induction false} NameLeTotal(a: string, b: string)
    ensures NameLe(a, b) || NameLe(b, a)
    decreases |a|
  {
    if a != [] && b != [] && a[0] == b[0] {
      NameLeTotal(a[1..], b[1..]);
    }
  }

  lemma {:induction false} NameLeReflexive(a: string)
    ensures NameLe(a, a)
    decreases |a|
  {
    if a != [] {
      NameLeReflexive(a[1..]);
    }
  }

  lemma {:induction false} NameLeTransitive(a: string, b: string, c: string)
    requires NameLe(a, b) && NameLe(b, c)
    ensures NameLe(a, c)
    decreases |a|
  {
    if a != [] && b != [] && c != [] && a[0] == b[0] && b[0] == c[0] {
      NameLeTransitive(a[1..], b[1..], c[1..]);
    }
  }

  /** The comparator of `getAvailableVoices`, as "a may come before b". */
  predicate VoiceLe(a: Voice, b: Voice) {
    Tier(a) < Tier(b) || (Tier(a) == Tier(b) && NameLe(a.name, b.name))
  }

  lemma VoiceLeTotal(a: Voice, b: Voice)
    ensures VoiceLe(a, b) || VoiceLe(b, a)
  {
    NameLeTotal(a.name, b.name);
  }

  predicate Sorted(s: seq<Voice>) {
    forall i :: 0 <= i < |s| - 1 ==> VoiceLe(s[i], s[i + 1])
  }

  /** `voices.filter(v => v.language.includes('en'))`. */
  function EnglishOnly(voices: seq<Voice>): (r: seq<Voice>)
    ensures forall v :: multiset(r)[v] == if IsEnglish(v) then multiset(voices)[v] else 0
  {
    if voices == [] then []
    else
      assert voices == [voices[0]] + voices[1..];
      (if IsEnglish(voices[0]) then [voices[0]] else []) + EnglishOnly(voices[1..])
  }

  /** Insert `x` before the first element it may precede, so equal keys keep their input order. */
  function Insert(x: Voice, s: seq<Voice>): (r: seq<Voice>)
    requires Sorted(s)
    ensures Sorted(r) && multiset(r) == multiset(s) + multiset{x}
    ensures |r| > 0 && (r[0] == x || (|s| > 0 && r[0] == s[0]))
  {
    if s == [] || VoiceLe(x, s[0]) then [x] + s
    else
      VoiceLeTotal(x, s[0]);
      var rest := Insert(x, s[1..]);
      assert s == [s[0]] + s[1..];
      [s[0]] + rest
  }

  /** The stable sort of the voices by the comparator. */
  function SortVoices(s: seq<Voice>): (r: seq<Voice>)
    ensures Sorted(r) && multiset(r) == multiset(s)
  {
    if s == [] then []
    else
      assert s == [s[0]] + s[1..];
      Insert(s[0], SortVoices(s[1..]))
  }

  /** Along a sorted list the tiers never go down. */
  lemma {:induction false} SortedTiers(s: seq<Voice>, i: nat, j: nat)
    requires Sorted(s) && i <= j < |s|
    ensures Tier(s[i]) <= Tier(s[j])
    decreases j - i
  {
    if i < j {
      SortedTiers(s, i + 1, j);
    }
  }

  /** Within one tier a sorted list is in name order. */
  lemma {:induction false} SortedNamesWithinTier(s: seq<Voice>, i: nat, j: nat)
    requires Sorted(s) && i <= j < |s| && Tier(s[i]) == Tier(s[j])
    ensures NameLe(s[i].name, s[j].name)
    decreases j - i
  {
    if i == j {
      NameLeReflexive(s[i].name);
    } else {
      SortedTiers(s, i + 1, j);
      assert VoiceLe(s[i], s[i + 1]);
      SortedNamesWithinTier(s, i + 1, j);
      NameLeTransitive(s[i].name, s[i + 1].name, s[j].name);
    }
  }

  /** The listed form of a voice: the identifier stands in for a missing name. */
  function ToOption(v: Voice): (o: VoiceOption)
    ensures o.identifier == v.identifier && o.language == v.language && o.quality == v.quality
    ensures o.name == (if v.name != "" then v.name else v.identifier)
  {
    VoiceOption(v.identifier, if v.name != "" then v.name else v.identifier, v.language, v.quality)
  }

  /** The English voices in preference order. */
  function OrderedEnglish(voices: seq<Voice>): (r: seq<Voice>)
    ensures Sorted(r)
    ensures forall v :: multiset(r)[v] == if IsEnglish(v) then multiset(voices)[v] else 0
  {
    SortVoices(EnglishOnly(voices))
  }

  /**
   * `getAvailableVoices`: the English voices, each once per occurrence in
   * the engine's list, Google UK first, then other Google voices, then
   * premium ones, by name within a tier; a failing engine gives none.
   */
  function GetAvailableVoices(engineVoices: Option<seq<Voice>>): (r: seq<VoiceOption>)
    ensures engineVoices.None? ==> r == []
    ensures engineVoices.Some? ==> |r| == |OrderedEnglish(engineVoices.value)|
    ensures engineVoices.Some? ==> forall i :: 0 <= i < |r| ==> r[i] == ToOption(OrderedEnglish(engineVoices.value)[i])
  {
    if engineVoices.None? then []
    else
      var ordered := OrderedEnglish(engineVoices.value);
      seq(|ordered|, i requires 0 <= i < |ordered| => ToOption(ordered[i]))
  }

  /** No non-English voice is listed, and every English one is. */
  lemma ListedIffEnglish(voices: seq<Voice>, v: Voice)
    ensures v in OrderedEnglish(voices) <==> IsEnglish(v) && v in voices
  {
    assert v in OrderedEnglish(voices) <==> multiset(OrderedEnglish(voices))[v] > 0;
    assert v in voices <==> multiset(voices)[v] > 0;
  }

  /**
   * A Google UK voice is never listed after a voice that is not one, nor a
   * Google voice after a non-Google one; tiers never go down, and within a
   * tier names are in order.
   */
  lemma PreferenceOrder(voices: seq<Voice>, i: nat, j: nat)
    requires i <= j < |OrderedEnglish(voices)|
    ensures IsGoogleUk(OrderedEnglish(voices)[j]) ==> IsGoogleUk(OrderedEnglish(voices)[i])
    ensures IsGoogle(OrderedEnglish(voices)[j]) ==> IsGoogle(OrderedEnglish(voices)[i])
    ensures Tier(OrderedEnglish(voices)[i]) <= Tier(OrderedEnglish(voices)[j])
    ensures Tier(OrderedEnglish(voices)[i]) == Tier(OrderedEnglish(voices)[j]) ==>
              NameLe(OrderedEnglish(voices)[i].name, OrderedEnglish(voices)[j].name)
  {
    SortedTiers(OrderedEnglish(voices), i, j);
    if Tier(OrderedEnglish(voices)[i]) == Tier(OrderedEnglish(voices)[j]) {
      SortedNamesWithinTier(OrderedEnglish(voices), i, j);
    }
  }

  // ---------------------------------------------------------------------
  // Engine calls
  // ---------------------------------------------------------------------

  /** The options the engine receives from `speakText`. */
  datatype SpeakOptions = SpeakOptions(rate: real, voice: Option<string>, pitch: real)

  /** `speakText`: the rate defaults to 1.0 and the pitch is always 1.0. */
  function SpeakTextOptions(rate: Option<real>, voice: Option<string>): (o: SpeakOptions)
    ensures o.pitch == 1.0 && o.voice == voice
    ensures rate.None? ==> o.rate == 1.0
    ensures rate.Some? ==> o.rate == rate.value
  {
    SpeakOptions(if rate.Some? then rate.value else 1.0, voice, 1.0)
  }

  datatype EngineCall = Speak(text: string, options: SpeakOptions) | Pause | Resume | Stop | NoCall

  /** `pauseSpeaking`: iOS pauses, every other platform stops. */
  function PauseSpeaking(isIos: bool): (call: EngineCall)
    ensures call == Pause <==> isIos
    ensures call == Stop <==> !isIos
  {
    if isIos then Pause else Stop
  }

  /** `resumeSpeaking`: only iOS can resume. */
  function ResumeSpeaking(isIos: bool): (call: EngineCall)
    ensures call == Resume <==> isIos
    ensures call == NoCall <==> !isIos
  {
    if isIos then Resume else NoCall
  }
}
