/**
 * The `TextToSpeech` class of src/util/text-to-speech.js. The platform's
 * speech engine (`window.speechSynthesis`) is modelled as an object that
 * records the calls it receives and reports its voice list and paused flag;
 * the engine's events (`onstart`, `onend`, `onerror` of an utterance and
 * `onvoiceschanged`) are methods the environment calls.
 */
module Speech {
  import opened Wrappers
  import opened Strings

  /** A `SpeechSynthesisVoice`, reduced to the fields the class looks at. */
  datatype Voice = Voice(name: string, lang: string)

  /** The test of the `filter`: `voice.lang.includes('en-US')`. */
  predicate IsUsEnglish(v: Voice)
    ensures IsUsEnglish(v) ==> |v.lang| >= 5
    ensures |v.lang| >= 5 && v.lang[..5] == "en-US" ==> IsUsEnglish(v)
  {
    Contains(v.lang, "en-US")
  }

  /** `voices.filter(voice => voice.lang.includes('en-US'))`. */
  function UsEnglishVoices(voices: seq<Voice>): (r: seq<Voice>)
    ensures forall v :: v in r <==> v in voices && IsUsEnglish(v)
  {
    if voices == [] then []
    else if IsUsEnglish(voices[0]) then [voices[0]] + UsEnglishVoices(voices[1..])
    else UsEnglishVoices(voices[1..])
  }

  /** The voice `speak` assigns: the first US-English one, else the first one, none for an empty list. */
  function ChooseVoice(voices: seq<Voice>): (v: Option<Voice>)
    ensures v.None? <==> voices == []
    ensures v.Some? ==> v.value in voices
  {
    if voices == [] then None
    else
      var english := UsEnglishVoices(voices);
      if english != [] then Some(english[0]) else Some(voices[0])
  }

  /** The first element of the filtered list is the earliest US-English voice. */
  lemma {:induction false} FirstUsEnglish(voices: seq<Voice>, j: int)
    requires 0 <= j < |voices| && IsUsEnglish(voices[j])
    requires forall i :: 0 <= i < j ==> !IsUsEnglish(voices[i])
    ensures UsEnglishVoices(voices) != [] && UsEnglishVoices(voices)[0] == voices[j]
  {
    if j > 0 {
      FirstUsEnglish(voices[1..], j - 1);
    }
  }

  /**
   * The three cases of the voice choice: the earliest voice whose `lang`
   * contains `en-US`; otherwise `voices[0]`; no voice for an empty list.
   */
  lemma ChooseVoiceCases(voices: seq<Voice>)
    ensures voices == [] ==> ChooseVoice(voices) == None
    ensures forall j :: (0 <= j < |voices| && IsUsEnglish(voices[j]) &&
                         (forall i :: 0 <= i < j ==> !IsUsEnglish(voices[i]))) ==>
              ChooseVoice(voices) == Some(voices[j])
    ensures voices != [] && (forall i :: 0 <= i < |voices| ==> !IsUsEnglish(voices[i])) ==>
              ChooseVoice(voices) == Some(voices[0])
  {
    forall j | 0 <= j < |voices| && IsUsEnglish(voices[j]) &&
        (forall i :: 0 <= i < j ==> !IsUsEnglish(voices[i]))
      ensures ChooseVoice(voices) == Some(voices[j])
    {
      FirstUsEnglish(voices, j);
    }
    if voices != [] && (forall i :: 0 <= i < |voices| ==> !IsUsEnglish(voices[i])) {
      assert forall v :: v in voices ==> !IsUsEnglish(v);
      assert UsEnglishVoices(voices) == [] by {
        if UsEnglishVoices(voices) != [] {
          assert UsEnglishVoices(voices)[0] in UsEnglishVoices(voices);
        }
      }
    }
  }

  /** A `SpeechSynthesisUtterance`: its text, its chosen voice, and whether the caller supplied callbacks. */
  class Utterance {
    const text: string
    var voice: Option<Voice>
    /** `onStart` was supplied to `speak` (it is truthy). */
    const notifiesStart: bool
    /** `onEnd` was supplied to `speak`. */
    const notifiesEnd: bool

    constructor (text: string, notifiesStart: bool, notifiesEnd: bool)
      ensures this.text == text && voice.None?
      ensures this.notifiesStart == notifiesStart && this.notifiesEnd == notifiesEnd
    {
      this.text := text;
      this.voice := None;
      this.notifiesStart := notifiesStart;
      this.notifiesEnd := notifiesEnd;
    }
  }

  /** A call made on the engine. */
  datatype EngineCall = CallCancel | CallPause | CallResume | CallSpeak(utterance: Utterance)

  /**
   * `window.speechSynthesis` as the class sees it: the voices `getVoices()`
   * currently reports, the platform's `paused` flag, whether an
   * `onvoiceschanged` handler is installed, and the calls received so far.
   */
  class SpeechEngine {
    var available: seq<Voice>
    var paused: bool
    var voicesChangedHandler: bool
    var calls: seq<EngineCall>

    constructor (available: seq<Voice>, paused: bool)
      ensures this.available == available && this.paused == paused
      ensures !voicesChangedHandler && calls == []
    {
      this.available := available;
      this.paused := paused;
      voicesChangedHandler := false;
      calls := [];
    }

    method Record(c: EngineCall)
      modifies this`calls
      ensures calls == old(calls) + [c]
    {
      calls := calls + [c];
    }
  }

  class TextToSpeech {
    const synth: SpeechEngine
    var utterance: Option<Utterance>
    var isPlaying: bool
    var voiceIndex: int
    var voices: seq<Voice>

    /** A new instance is not playing, has no utterance and no voices. */
    constructor (synth: SpeechEngine)
      ensures this.synth == synth
      ensures !isPlaying && utterance.None? && voices == [] && voiceIndex == 0
    {
      this.synth := synth;
      utterance := None;
      isPlaying := false;
      voiceIndex := 0;
      voices := [];
    }

    /**
     * `init()`: take the engine's current voices; only when that list is
     * empty, install the `onvoiceschanged` handler that reloads them.
     */
    method Init()
      modifies this`voices, synth`voicesChangedHandler
      ensures voices == synth.available
      ensures synth.voicesChangedHandler == (old(synth.voicesChangedHandler) || synth.available == [])
    {
      voices := synth.available;
      if |voices| == 0 {
        synth.voicesChangedHandler := true;
      }
    }

    /** The `onvoiceschanged` handler installed by `init`: reload the voices. */
    method OnVoicesChanged()
      requires synth.voicesChangedHandler
      modifies this`voices
      ensures voices == synth.available
    {
      voices := synth.available;
    }

    /**
     * `speak(text, onStart, onEnd)`: stop first only if playing, then hand a
     * new utterance with the chosen voice to the engine. Playback has not
     * started yet, so `isPlaying` is false afterwards.
     */
    method Speak(text: string, onStart: bool, onEnd: bool)
      modifies this`utterance, this`isPlaying, synth`calls
      ensures !isPlaying
      ensures utterance.Some? && fresh(utterance.value)
      ensures utterance.value.text == text && utterance.value.voice == ChooseVoice(voices)
      ensures utterance.value.notifiesStart == onStart && utterance.value.notifiesEnd == onEnd
      ensures synth.calls ==
                old(synth.calls) + (if old(isPlaying) then [CallCancel] else []) + [CallSpeak(utterance.value)]
    {
      if isPlaying {
        Stop();
      }
      var u := new Utterance(text, onStart, onEnd);
      if |voices| > 0 {
        var english := UsEnglishVoices(voices);
        if |english| > 0 {
          u.voice := Some(english[0]);
        } else {
          u.voice := Some(voices[0]);
        }
      }
      utterance := Some(u);
      synth.Record(CallSpeak(u));
    }

    /** `stop()`: cancel and clear `isPlaying` if playing; otherwise nothing changes. */
    method Stop()
      modifies this`isPlaying, synth`calls
      ensures !isPlaying
      ensures synth.calls == old(synth.calls) + (if old(isPlaying) then [CallCancel] else [])
    {
      if isPlaying {
        synth.Record(CallCancel);
        isPlaying := false;
      }
    }

    /** `pause()`: forwarded to the engine only while playing. */
    method Pause()
      modifies synth`calls
      ensures synth.calls == old(synth.calls) + (if isPlaying then [CallPause] else [])
    {
      if isPlaying {
        synth.Record(CallPause);
      }
    }

    /** `resume()`: forwarded to the engine only while the engine reports itself paused. */
    method Resume()
      modifies synth`calls
      ensures synth.calls == old(synth.calls) + (if synth.paused then [CallResume] else [])
    {
      if synth.paused {
        synth.Record(CallResume);
      }
    }

    /** The `speaking` getter: always the current `isPlaying`. */
    method Speaking() returns (playing: bool)
      ensures playing == isPlaying
    {
      playing := isPlaying;
    }

    /** The utterance's `onstart` handler: now playing; calls `onStart` if it was supplied. */
    method OnStart(u: Utterance) returns (calledOnStart: bool)
      modifies this`isPlaying
      ensures isPlaying
      ensures calledOnStart == u.notifiesStart
    {
      isPlaying := true;
      calledOnStart := u.notifiesStart;
    }

    /** The utterance's `onend` handler: no longer playing; calls `onEnd` if it was supplied. */
    method OnEnd(u: Utterance) returns (calledOnEnd: bool)
      modifies this`isPlaying
      ensures !isPlaying
      ensures calledOnEnd == u.notifiesEnd
    {
      isPlaying := false;
      calledOnEnd := u.notifiesEnd;
    }

    /** The utterance's `onerror` handler: the same effect as `onend`. */
    method OnError(u: Utterance) returns (calledOnEnd: bool)
      modifies this`isPlaying
      ensures !isPlaying
      ensures calledOnEnd == u.notifiesEnd
    {
      isPlaying := false;
      calledOnEnd := u.notifiesEnd;
    }
  }

  /**
   * Two `speak` calls before the first utterance's `onstart`: nothing is
   * cancelled, and both utterances are handed to the engine in order.
   */
  method SpeakTwiceBeforeStart(first: string, second: string) returns (calls: seq<EngineCall>)
    ensures |calls| == 2 && calls[0].CallSpeak? && calls[1].CallSpeak?
    ensures calls[0].utterance.text == first && calls[1].utterance.text == second
  {
    var engine := new SpeechEngine([], false);
    var tts := new TextToSpeech(engine);
    tts.Init();
    tts.Speak(first, true, true);
    tts.Speak(second, true, true);
    calls := engine.calls;
  }

  /**
   * A `speak` after the previous utterance has started cancels it first,
   * and `pause` is forwarded only while playing.
   */
  method SpeakWhilePlaying(first: string, second: string) returns (calls: seq<EngineCall>)
    ensures |calls| == 4
    ensures calls[0].CallSpeak? && calls[1] == CallPause && calls[2] == CallCancel && calls[3].CallSpeak?
    ensures calls[3].utterance.text == second
  {
    var engine := new SpeechEngine([Voice("Alex", "en-US")], false);
    var tts := new TextToSpeech(engine);
    tts.Init();
    tts.Pause();
    tts.Speak(first, false, false);
    var u := tts.utterance.value;
    var _ := tts.OnStart(u);
    tts.Pause();
    tts.Speak(second, false, false);
    calls := engine.calls;
  }
}
