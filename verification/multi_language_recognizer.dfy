/**
 * `MultiLanguageSpeechRecognizer` (MultiLanguageSpeechRecognizer.kt): detect
 * the language of a first audio sample, then drive a single-language speech
 * recognizer configured for it. The wrapped recognizer is seen only through
 * the calls made on it; what its `initialize` answers is a parameter, and so
 * is the language detector.
 */
module MultiLanguageRecognizer {
  import opened Wrappers
  import opened Speech

  /** The language detector's answer for some audio and candidate languages. */
  type Detector = (seq<int>, seq<RecognitionLanguage>) -> LanguageDetectionResult

  /** A call on the wrapped `SpeechRecognizer`. */
  datatype InnerCall =
    | InitInner(config: RecognizerConfig)
    | StartInner
    | ProcessInner(audio: seq<int>)
    | StopInner
    | ReleaseInner

  /** The recognizer's fields: `currentLanguage`, the `detectedLanguage`
      state flow, `isInitialized` and `supportedLanguages`. */
  datatype Recognizer = Recognizer(current: Option<RecognitionLanguage>, detected: Option<RecognitionLanguage>,
                                   initialized: bool, supported: seq<RecognitionLanguage>)

  /** A new recognizer: nothing detected, not initialized, Turkish and English. */
  function New(): (r: Recognizer)
    ensures r.current.None? && r.detected.None? && !r.initialized
    ensures r.supported == [Turkish, English]
  {
    Recognizer(None, None, false, DefaultLanguages)
  }

  /** What the fields always satisfy: an initialized recognizer has a current
      language, and a published detected language is the current one. */
  predicate Valid(r: Recognizer) {
    && (r.initialized ==> r.current.Some?)
    && (r.detected.Some? ==> r.detected == r.current)
  }

  datatype InitOutcome = InitOutcome(recognizer: Recognizer, calls: seq<InnerCall>, ok: bool)

  /** `initialize(initialAudioSample, config)`: on a detected language, make it
      current and published, and initialize the wrapped recognizer with the
      config switched to it (`innerOk` is that call's answer); on Unsupported or
      an error, clear the published language, answer false and leave
      everything else (including an earlier language and initialization) as
      it was. */
  function Initialize(r: Recognizer, detect: Detector, audio: seq<int>, config: RecognizerConfig,
                      innerOk: bool): (o: InitOutcome)
    ensures Valid(r) ==> Valid(o.recognizer)
    ensures o.recognizer.supported == r.supported
    ensures match detect(audio, r.supported)
            case Detected(l, _) =>
              && o.calls == [InitInner(config.(language := l))]
              && o.recognizer.current == o.recognizer.detected == Some(l)
              && o.ok == o.recognizer.initialized == innerOk
            case _ =>
              && o.calls == [] && !o.ok && o.recognizer.detected.None?
              && o.recognizer.current == r.current && o.recognizer.initialized == r.initialized
  {
    match detect(audio, r.supported)
    case Detected(l, _) =>
      InitOutcome(r.(current := Some(l), detected := Some(l), initialized := innerOk),
                  [InitInner(config.(language := l))], innerOk)
    case Unsupported => InitOutcome(r.(detected := None), [], false)
    case DetectionError(_) => InitOutcome(r.(detected := None), [], false)
  }

  /** The message of the one-element flow `startRecognition` returns when it
      cannot delegate. */
  const NotReady: string := "Language not detected or recognizer not initialized"

  /** `startRecognition`: None when the wrapped recognizer's flow is returned
      (its start is the one call made), otherwise this recognizer's own flow. */
  datatype StartOutcome = StartOutcome(calls: seq<InnerCall>, ownFlow: Option<seq<RecognitionResult>>)

  function StartRecognition(r: Recognizer): (o: StartOutcome)
    ensures o.ownFlow.None? <==> r.initialized && r.current.Some?
    ensures o.ownFlow.None? ==> o.calls == [StartInner]
    ensures o.ownFlow.Some? ==> o.calls == [] && o.ownFlow.value == [Error(NotReady)]
  {
    if r.initialized && r.current.Some? then StartOutcome([StartInner], None)
    else StartOutcome([], Some([Error(NotReady)]))
  }

  /** `processAudioData`: forwarded exactly when initialized. */
  function ProcessAudioData(r: Recognizer, audio: seq<int>): (calls: seq<InnerCall>)
    ensures r.initialized ==> calls == [ProcessInner(audio)]
    ensures !r.initialized ==> calls == []
  {
    if r.initialized then [ProcessInner(audio)] else []
  }

  /** `release`: releases the wrapped recognizer and forgets the language and
      the initialization; the candidate languages stay. */
  function Release(r: Recognizer): (o: (Recognizer, seq<InnerCall>))
    ensures o.1 == [ReleaseInner]
    ensures o.0.current.None? && o.0.detected.None? && !o.0.initialized
    ensures o.0.supported == r.supported
  {
    (r.(current := None, detected := None, initialized := false), [ReleaseInner])
  }

  /** One call on the multi-language recognizer. `stopRecognition` always
      forwards; `isRecognizing` and `getCurrentLanguage` only read. */
  datatype Event =
    | Init(audio: seq<int>, config: RecognizerConfig, innerOk: bool)
    | Start
    | Process(audio: seq<int>)
    | Stop
    | Rel
    | SetSupported(languages: seq<RecognitionLanguage>)

  /** One event: the new state and the calls it made on the wrapped recognizer. */
  function Step(r: Recognizer, detect: Detector, e: Event): (Recognizer, seq<InnerCall>) {
    match e
    case Init(audio, config, ok) =>
      var o := Initialize(r, detect, audio, config, ok);
      (o.recognizer, o.calls)
    case Start => (r, StartRecognition(r).calls)
    case Process(audio) => (r, ProcessAudioData(r, audio))
    case Stop => (r, [StopInner])
    case Rel => Release(r)
    case SetSupported(languages) => (r.(supported := languages), [])
  }

  /** A sequence of events: the final state and every call made, in order. */
  function Run(r: Recognizer, detect: Detector, events: seq<Event>): (Recognizer, seq<InnerCall>)
    decreases |events|
  {
    if |events| == 0 then (r, [])
    else
      var (r1, c1) := Step(r, detect, events[0]);
      var (r2, c2) := Run(r1, detect, events[1..]);
      (r2, c1 + c2)
  }

  /** Every step keeps `Valid`, so it holds after any sequence of calls on a
      new recognizer. */
  lemma {:induction false} RunKeepsValid(r: Recognizer, detect: Detector, events: seq<Event>)
    requires Valid(r)
    ensures Valid(Run(r, detect, events).0)
    decreases |events|
  {
    if |events| > 0 {
      var (r1, _) := Step(r, detect, events[0]);
      assert Valid(r1);
      RunKeepsValid(r1, detect, events[1..]);
    }
  }

  /** The wrapped recognizer is never started or fed audio before a language
      is known: `StartInner` and `ProcessInner` are only issued by a valid
      recognizer that is initialized, hence has a current language. */
  lemma StepForwardsOnlyWhenReady(r: Recognizer, detect: Detector, e: Event)
    requires Valid(r)
    ensures var calls := Step(r, detect, e).1;
            (exists i :: 0 <= i < |calls| && (calls[i].StartInner? || calls[i].ProcessInner?)) ==>
              r.initialized && r.current.Some?
  {
  }

  /** Every configuration handed to the wrapped recognizer is the caller's,
      with its language replaced by the one detected among the candidates. */
  lemma InitUsesDetectedLanguage(r: Recognizer, detect: Detector, audio: seq<int>, config: RecognizerConfig,
                                 innerOk: bool)
    ensures var o := Initialize(r, detect, audio, config, innerOk);
            forall c :: c in o.calls ==>
              && c.InitInner?
              && detect(audio, r.supported).Detected?
              && c.config.language == detect(audio, r.supported).language
              && c.config.(language := config.language) == config
  {
  }

  /** A failed re-detection answers false and withdraws the published
      language, yet an earlier successful initialization stays in force:
      recognition still starts, in the old language. */
  lemma FailedRedetectionKeepsOldLanguage(detect: Detector, audio1: seq<int>, audio2: seq<int>,
                                          config: RecognizerConfig, l: RecognitionLanguage, innerOk: bool)
    requires detect(audio1, DefaultLanguages).Detected? && detect(audio1, DefaultLanguages).language == l
    requires !detect(audio2, DefaultLanguages).Detected?
    ensures var first := Initialize(New(), detect, audio1, config, true);
            var second := Initialize(first.recognizer, detect, audio2, config, innerOk);
            && first.ok && !second.ok
            && second.recognizer.detected.None?
            && second.recognizer.current == Some(l)
            && StartRecognition(second.recognizer).ownFlow.None?
  {
  }

  /** After `release`, recognition refuses to start and audio is dropped,
      until the next successful initialization. */
  lemma ReleasedRecognizerRefuses(r: Recognizer, audio: seq<int>)
    ensures var (released, _) := Release(r);
            && StartRecognition(released) == StartOutcome([], Some([Error(NotReady)]))
            && ProcessAudioData(released, audio) == []
  {
  }
}
