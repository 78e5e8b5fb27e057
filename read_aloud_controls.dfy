/**
 * The read-aloud controls of the mobile application
 * (mobile/components/ReadAloudControls.tsx): a three-state player over the
 * speech engine, and the voice picker.  The engine's calls are recorded in
 * order; its callbacks and the half-second poll are events.
 */
module ReadAloudControls {
  import opened Wrappers
  import opened Text
  import opened Speech

  datatype SpeechState = Idle | Playing | Paused

  /** What the speech engine is doing, as far as the calls made to it tell. */
  datatype EngineState = Silent | Speaking | Held

  /** One engine call: speaking starts, pausing holds what is spoken, resuming restarts what is held, stopping silences. */
  function EngineStep(before: EngineState, call: EngineCall): EngineState {
    match call
    case Speak(_, _) => Speaking
    case Pause => if before == Speaking then Held else before
    case Resume => if before == Held then Speaking else before
    case Stop => Silent
    case NoCall => before
  }

  /** The engine after a sequence of calls from silence (its own finishing is an event of the player). */
  function EngineAfter(calls: seq<EngineCall>): EngineState
    decreases |calls|
  {
    if calls == [] then Silent
    else EngineStep(EngineAfter(calls[..|calls| - 1]), calls[|calls| - 1])
  }

  lemma EngineAfterAppend(calls: seq<EngineCall>, call: EngineCall)
    ensures EngineAfter(calls + [call]) == EngineStep(EngineAfter(calls), call)
  {
    assert (calls + [call])[..|calls|] == calls;
  }

  /** One call followed by what the clean-up adds: nothing, or a stop that silences the engine. */
  lemma AfterCallThenCleanup(before: seq<EngineCall>, call: EngineCall, stops: seq<EngineCall>)
    requires stops == [] || stops == [Stop]
    ensures EngineAfter(before + [call] + stops) == if stops == [] then EngineStep(EngineAfter(before), call) else Silent
  {
    if stops == [] {
      assert before + [call] + stops == before + [call];
      EngineAfterAppend(before, call);
    } else {
      EndsWithStop(before + [call] + stops);
    }
  }

  class Controls {
    var speechState: SpeechState
    var speechRate: real
    var voices: seq<VoiceOption>
    var selectedVoice: Option<string>
    /** The calls made to the speech engine, oldest first. */
    var calls: seq<EngineCall>
    const isIos: bool
    /**
     * Whether the clean-up of the polling effect (clear the interval, stop
     * the engine) runs whenever `speechState` changes, as the effect keyed
     * on `[speechState]` does, or only when the player is unmounted.
     */
    const cleanupOnEveryChange: bool

    /** Only iOS can pause; elsewhere pausing stops. */
    predicate Valid()
      reads this
    {
      speechState == Paused ==> isIos
    }

    /** The engine calls the effect's clean-up makes when the state goes from `before` to `after`. */
    function Cleanup(before: SpeechState, after: SpeechState): (stops: seq<EngineCall>)
      ensures stops == [] || stops == [Stop]
      ensures stops == [Stop] <==> cleanupOnEveryChange && before != after
    {
      if cleanupOnEveryChange && before != after then [Stop] else []
    }

    constructor(isIos: bool, cleanupOnEveryChange: bool)
      ensures speechState == Idle && speechRate == 1.0 && voices == [] && selectedVoice.None? && calls == []
      ensures this.isIos == isIos && this.cleanupOnEveryChange == cleanupOnEveryChange && Valid()
    {
      this.isIos := isIos;
      this.cleanupOnEveryChange := cleanupOnEveryChange;
      speechState := Idle;
      speechRate := 1.0;
      voices := [];
      selectedVoice := None;
      calls := [];
    }

    /** The re-render after a state change: the previous effect's clean-up, when it runs on changes. */
    method Rerender(before: SpeechState)
      modifies this
      ensures calls == old(calls) + Cleanup(before, speechState)
      ensures speechState == old(speechState) && speechRate == old(speechRate)
      ensures voices == old(voices) && selectedVoice == old(selectedVoice)
    {
      calls := calls + Cleanup(before, speechState);
    }

    /**
     * `handlePlay`: nothing for blank text; a paused iOS player resumes;
     * otherwise the whole text is spoken again with the chosen rate and
     * voice.  Either way the player is then playing, and when the state
     * changed the effect's clean-up stops the engine: from idle, what was
     * just started is silenced at once.
     */
    method HandlePlay(text: string)
      requires Valid()
      modifies this
      ensures Valid()
      ensures Trim(text) == "" ==> speechState == old(speechState) && calls == old(calls)
      ensures Trim(text) != "" ==> speechState == Playing
      ensures Trim(text) != "" && old(speechState) == Paused ==>
        calls == old(calls) + [Resume] + Cleanup(Paused, Playing)
      ensures Trim(text) != "" && old(speechState) != Paused ==>
        calls == old(calls) + [Speak(text, SpeakTextOptions(Some(speechRate), selectedVoice))] + Cleanup(old(speechState), Playing)
      ensures Trim(text) != "" && old(speechState) == Paused ==>
        EngineAfter(calls) == if cleanupOnEveryChange then Silent else EngineStep(old(EngineAfter(calls)), Resume)
      ensures Trim(text) != "" && old(speechState) != Paused ==>
        EngineAfter(calls) == if cleanupOnEveryChange && old(speechState) != Playing then Silent else Speaking
      ensures speechRate == old(speechRate) && voices == old(voices) && selectedVoice == old(selectedVoice)
    {
      if Trim(text) == "" {
        return;
      }
      var before := speechState;
      var call := if speechState == Paused && isIos then ResumeSpeaking(isIos) else Speak(text, SpeakTextOptions(Some(speechRate), selectedVoice));
      calls := calls + [call];
      speechState := Playing;
      Rerender(before);
      AfterCallThenCleanup(old(calls), call, Cleanup(before, Playing));
    }

    /**
     * `handlePause`: paused on iOS, idle elsewhere.  On iOS, when the state
     * changes, the clean-up's stop follows the pause: what was held is
     * silenced.
     */
    method HandlePause()
      modifies this
      ensures speechState == (if isIos then Paused else Idle)
      ensures calls == old(calls) + [if isIos then Pause else Stop] + Cleanup(old(speechState), speechState)
      ensures EngineAfter(calls) ==
        if !isIos || (cleanupOnEveryChange && old(speechState) != Paused) then Silent
        else EngineStep(old(EngineAfter(calls)), Pause)
      ensures speechRate == old(speechRate) && voices == old(voices) && selectedVoice == old(selectedVoice)
      ensures Valid()
    {
      var before := speechState;
      calls := calls + [PauseSpeaking(isIos)];
      speechState := if isIos then Paused else Idle;
      Rerender(before);
      AfterCallThenCleanup(old(calls), PauseSpeaking(isIos), Cleanup(before, speechState));
    }

    /** `handleStop`: always idle, and the engine silent. */
    method HandleStop()
      modifies this
      ensures speechState == Idle && calls == old(calls) + [Stop] + Cleanup(old(speechState), Idle)
      ensures speechRate == old(speechRate) && voices == old(voices) && selectedVoice == old(selectedVoice)
      ensures Valid()
    {
      var before := speechState;
      calls := calls + [Stop];
      speechState := Idle;
      Rerender(before);
    }

    /** The engine's `onDone` or `onError` callback. */
    method SpeechEnded()
      modifies this
      ensures speechState == Idle && calls == old(calls) + Cleanup(old(speechState), Idle)
      ensures speechRate == old(speechRate) && voices == old(voices) && selectedVoice == old(selectedVoice)
      ensures Valid()
    {
      var before := speechState;
      speechState := Idle;
      Rerender(before);
    }

    /** The half-second poll: a playing player whose engine has gone quiet becomes idle. */
    method Poll(engineSpeaking: bool)
      requires Valid()
      modifies this
      ensures speechState == (if old(speechState) == Playing && !engineSpeaking then Idle else old(speechState))
      ensures calls == old(calls) + Cleanup(old(speechState), speechState)
      ensures speechRate == old(speechRate) && voices == old(voices) && selectedVoice == old(selectedVoice)
      ensures Valid()
    {
      var before := speechState;
      if speechState == Playing && !engineSpeaking {
        speechState := Idle;
      }
      Rerender(before);
    }

    /** Leaving the screen: the effect's clean-up clears the poll and stops the engine. */
    method Unmount()
      modifies this
      ensures calls == old(calls) + [Stop] && EngineAfter(calls) == Silent
      ensures speechState == old(speechState) && speechRate == old(speechRate)
      ensures voices == old(voices) && selectedVoice == old(selectedVoice)
    {
      calls := calls + [Stop];
      EndsWithStop(calls);
    }

    /** `loadVoices`: the first listed voice is chosen only when none is chosen yet. */
    method LoadVoices(engineVoices: Option<seq<Voice>>)
      requires Valid()
      modifies this
      ensures voices == GetAvailableVoices(engineVoices)
      ensures |voices| > 0 && !Present(old(selectedVoice)) ==> selectedVoice == Some(voices[0].identifier)
      ensures |voices| == 0 || Present(old(selectedVoice)) ==> selectedVoice == old(selectedVoice)
      ensures speechState == old(speechState) && calls == old(calls) && speechRate == old(speechRate)
      ensures Valid()
    {
      var available := GetAvailableVoices(engineVoices);
      voices := available;
      if |available| > 0 && !Present(selectedVoice) {
        selectedVoice := Some(available[0].identifier);
      }
    }
  }
  lemma SpokenTextIsNotBlank()
    ensures Trim("Hi") != ""
  {
    TrimEmptyIff("Hi");
    assert !IsWhitespace("Hi"[0]);
  }

  /** Whatever came before, a stop leaves the engine silent. */
  lemma EndsWithStop(calls: seq<EngineCall>)
    requires |calls| > 0 && calls[|calls| - 1] == Stop
    ensures EngineAfter(calls) == Silent
  {
  }

  /** As written: play on an idle iOS player, and the engine ends silent. */
  method PlayAsWritten() returns (engine: EngineState)
    ensures engine == Silent
  {
    var player := new Controls(true, true);
    SpokenTextIsNotBlank();
    player.HandlePlay("Hi");
    engine := EngineAfter(player.calls);
  }

  /** As written: play then pause on an iOS player, and the engine ends silent. */
  method IosPauseAsWritten() returns (engine: EngineState)
    ensures engine == Silent
  {
    var player := new Controls(true, true);
    SpokenTextIsNotBlank();
    player.HandlePlay("Hi");
    player.HandlePause();
    engine := EngineAfter(player.calls);
  }

  /**
   * As written, the clean-up of the effect keyed on `[speechState]` runs on
   * every state change: pressing play on an iOS player starts the speech
   * and the re-render silences it; and once playing, pausing on iOS is
   * followed by the stop, so nothing is held to resume.
   */
  method PlaybackCutOffAsWritten() returns (afterPlay: EngineState, afterIosPause: EngineState)
    ensures afterPlay == Silent && afterIosPause == Silent
  {
    afterPlay := PlayAsWritten();
    afterIosPause := IosPauseAsWritten();
  }

  /** Clean-up at unmount only: play on an idle iOS player, and the engine speaks. */
  method PlayWithUnmountCleanup() returns (engine: EngineState)
    ensures engine == Speaking
  {
    var player := new Controls(true, false);
    SpokenTextIsNotBlank();
    player.HandlePlay("Hi");
    engine := EngineAfter(player.calls);
  }

  /** Clean-up at unmount only: an iOS player that was played and then paused. */
  method PausedIosPlayer() returns (player: Controls)
    ensures fresh(player) && player.Valid() && player.isIos && !player.cleanupOnEveryChange
    ensures player.speechState == Paused && EngineAfter(player.calls) == Held
  {
    player := new Controls(true, false);
    SpokenTextIsNotBlank();
    player.HandlePlay("Hi");
    player.HandlePause();
  }

  /** Clean-up at unmount only: play then pause on iOS, and the engine holds the speech. */
  method IosPauseWithUnmountCleanup() returns (engine: EngineState)
    ensures engine == Held
  {
    var player := PausedIosPlayer();
    engine := EngineAfter(player.calls);
  }

  /** Clean-up at unmount only: play, pause and play again on iOS, and the engine speaks again. */
  method IosResumeWithUnmountCleanup() returns (engine: EngineState)
    ensures engine == Speaking
  {
    var player := PausedIosPlayer();
    SpokenTextIsNotBlank();
    player.HandlePlay("Hi");
    engine := EngineAfter(player.calls);
  }

  /**
   * With the clean-up run only when the player is unmounted: play speaks,
   * an iOS pause holds the speech, play resumes it, and leaving the screen
   * silences it (`Controls.Unmount`).
   */
  method PlaybackKeptWithUnmountCleanup() returns (afterPlay: EngineState, afterIosPause: EngineState, afterResume: EngineState)
    ensures afterPlay == Speaking && afterIosPause == Held && afterResume == Speaking
  {
    afterPlay := PlayWithUnmountCleanup();
    afterIosPause := IosPauseWithUnmountCleanup();
    afterResume := IosResumeWithUnmountCleanup();
  }
}
