/**
 * `AndroidSTTEngine`: Sherpa-ONNX recognizers created through the Java
 * bindings (AndroidSTTEngine.kt). The recognizer constructors are the only
 * calls that can throw; whether they do is an input of `Initialize`.
 */
module AndroidStt {
  import opened Wrappers
  import opened Text
  import opened EngineConfig
  import opened ModelTypes
  import Engine
  import opened Stt

  /** A new engine: estimate 40 MiB until a model says otherwise. */
  function Initial(): (s: SttState)
    ensures !s.initialized && s.estimate == 40 * MiB && MemoryUsage(s) == 0
  {
    NewEngine(40 * MiB)
  }

  /** The memory estimate a successful `initialize` sets: 40 MiB for the
      streaming model; for Whisper 75 MiB when the id names a base model,
      40 MiB otherwise. */
  function EstimateFor(modelType: string, modelId: string): (m: int)
    ensures modelType == Zipformer ==> m == 40 * MiB
    ensures modelType != Zipformer ==> m == (if Contains(modelId, "base") then 75 * MiB else 40 * MiB)
  {
    if modelType == Zipformer then 40 * MiB
    else if Contains(modelId, "base") then 75 * MiB
    else 40 * MiB
  }

  datatype InitOutcome = InitOutcome(state: SttState, thrown: Option<Exception>)

  /** `initialize(modelId, config)`. An initialized engine is released first
      (`h` is what that release's final decode reports). The model id, type
      and language are recorded before loading; `failure` is the exception the
      recognizer constructor throws, if any, and it is rethrown. Any type other
      than "zipformer" loads Whisper. */
  function Initialize(s: SttState, modelId: string, config: Engine.Config, h: Hypothesis, failure: Option<Exception>)
    : (r: InitOutcome)
    ensures r.thrown == failure
    ensures r.state.initialized <==> failure.None?
    ensures r.state.modelId == Some(modelId)
    ensures r.state.modelType == Engine.ConfigString(config, "modelType", Whisper)
    ensures r.state.language == Engine.ConfigString(config, "language", "en")
    ensures failure.None? ==> r.state.estimate == EstimateFor(r.state.modelType, modelId)
    ensures failure.Some? ==> r.state.estimate == s.estimate
    ensures failure.None? && r.state.modelType == Zipformer ==> r.state.online
    ensures failure.None? && r.state.modelType != Zipformer ==> r.state.offline
    // hot-swap: the previous model is stopped and its buffer dropped
    ensures s.initialized ==> !r.state.recognizing && r.state.buffer == []
    ensures EmitsAtMostOnce(s, r.state, true)
  {
    var s0 := if s.initialized then Release(s, h) else s;
    var modelType := Engine.ConfigString(config, "modelType", Whisper);
    var s1 := s0.(modelId := Some(modelId), modelType := modelType, language := Engine.ConfigString(config, "language", "en"));
    match failure
    case Some(e) => InitOutcome(s1.(initialized := false), failure)
    case None =>
      if modelType == Zipformer then InitOutcome(s1.(online := true, estimate := 40 * MiB, initialized := true), None)
      else InitOutcome(s1.(offline := true, estimate := EstimateFor(modelType, modelId), initialized := true), None)
  }

  /** Re-initializing a ready engine is releasing it and then initializing the
      released engine. */
  lemma HotSwapReleasesFirst(s: SttState, modelId: string, config: Engine.Config, h: Hypothesis, failure: Option<Exception>)
    requires s.initialized
    ensures Initialize(s, modelId, config, h, failure) == Initialize(Release(s, h), modelId, config, h, failure)
  {
  }

  /** What `startRecognition` hands its collector: a flow closed at once after
      the listed results, or a live flow forwarding `resultFlow`. */
  datatype Recognition = ClosedWith(results: seq<STTResult>) | Forwarding

  /** `startRecognition(config)`. */
  function StartRecognition(s: SttState, config: STTConfig): (r: (SttState, Recognition))
    // not initialized: one final empty result, then closed, nothing changes
    ensures !s.initialized ==>
              r == (s, ClosedWith([STTResult("", true, Some(config.language), Some(0.0))]))
    ensures s.initialized ==> r.0.recognizing && r.0.sampleRate == config.sampleRate
    ensures s.initialized && s.modelType == Whisper ==> r.0.buffer == [] && r.1 == Forwarding
    ensures s.initialized && s.modelType == Zipformer && s.online ==> r.0.stream && r.1 == Forwarding
    ensures r.1.ClosedWith? ==> |r.1.results| == 1 && r.1.results[0].isFinal && r.1.results[0].text == ""
    ensures r.0.emitted == s.emitted && r.0.initialized == s.initialized
  {
    if !s.initialized then (s, ClosedWith([STTResult("", true, Some(config.language), Some(0.0))]))
    else
      var s1 := s.(recognizing := true, sampleRate := config.sampleRate);
      if s.modelType == Zipformer then
        if !s1.online then (s1, ClosedWith([STTResult("", true, None, Some(0.0))]))
        else (s1.(stream := true), Forwarding)
      else if s.modelType == Whisper then (s1.(buffer := []), Forwarding)
      else (s1, Forwarding)
  }

  /** The handle discipline every reachable engine keeps: a ready engine holds
      the recognizer its type needs, only a ready engine recognizes, and only a
      streaming session holds a stream. */
  predicate Valid(s: SttState) {
    && (s.initialized && s.modelType == Zipformer ==> s.online)
    && (s.initialized && s.modelType != Zipformer ==> s.offline)
    && (s.recognizing ==> s.initialized)
    && (s.stream ==> s.recognizing && s.modelType == Zipformer)
  }

  /** One call on the engine, with the oracle answers it needs. */
  datatype Event =
    | Init(modelId: string, config: Engine.Config, h: Hypothesis, failure: Option<Exception>)
    | Start(sttConfig: STTConfig)
    | Process(audio: seq<int>, h: Hypothesis)
    | Stop(h: Hypothesis)
    | Rel(h: Hypothesis)

  function Apply(s: SttState, e: Event): SttState {
    match e
    case Init(id, config, h, failure) => Initialize(s, id, config, h, failure).state
    case Start(c) => StartRecognition(s, c).0
    case Process(audio, h) => ProcessAudio(s, audio, h)
    case Stop(h) => StopRecognition(s, h)
    case Rel(h) => Release(s, h)
  }

  function Run(s: SttState, events: seq<Event>): SttState
    decreases |events|
  {
    if |events| == 0 then s else Run(Apply(s, events[0]), events[1..])
  }

  lemma ApplyKeepsValid(s: SttState, e: Event)
    requires Valid(s)
    ensures Valid(Apply(s, e))
    ensures AllTrimmed(s.emitted) ==> AllTrimmed(Apply(s, e).emitted)
  {
    if AllTrimmed(s.emitted) {
      EmitsKeepTrimmed(s, Apply(s, e), !e.Process?);
    }
  }

  /** From a new engine, every sequence of calls keeps the handle discipline,
      and every result ever emitted carries trimmed text. */
  lemma {:induction false} RunKeepsValid(s: SttState, events: seq<Event>)
    requires Valid(s) && AllTrimmed(s.emitted)
    ensures Valid(Run(s, events)) && AllTrimmed(Run(s, events).emitted)
    decreases |events|
  {
    if |events| > 0 {
      ApplyKeepsValid(s, events[0]);
      RunKeepsValid(Apply(s, events[0]), events[1..]);
    }
  }

  lemma InitialIsValid()
    ensures Valid(Initial()) && AllTrimmed(Initial().emitted)
  {
  }

  /** On a reachable engine the "no streaming recognizer" branch of
      `startRecognition` never fires: a ready engine always gets a live flow. */
  lemma ReadyEngineStartsLive(s: SttState, config: STTConfig)
    requires Valid(s) && s.initialized
    ensures StartRecognition(s, config).1 == Forwarding
  {
  }

  /** A model type other than "zipformer" or "whisper" loads a Whisper
      recognizer and its estimate, yet every chunk fed after a start is dropped. */
  lemma UnknownTypeDropsAudio(s: SttState, modelId: string, config: Engine.Config, h: Hypothesis,
                              c: STTConfig, audio: seq<int>, h': Hypothesis)
    requires Engine.ConfigString(config, "modelType", Whisper) != Zipformer
    requires Engine.ConfigString(config, "modelType", Whisper) != Whisper
    ensures var ready := Initialize(s, modelId, config, h, None).state;
            var started := StartRecognition(ready, c).0;
            && ready.initialized && ready.offline
            && ready.estimate == EstimateFor(Whisper, modelId)
            && started.recognizing
            && ProcessAudio(started, audio, h') == started
  {
  }
}
