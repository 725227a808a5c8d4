/**
 * `IOSSTTEngine` (IOSSTTEngine.kt). Its Sherpa-ONNX C calls are still
 * comments, so no native handle is ever assigned: loading cannot fail, nothing
 * is ever decoded or emitted into `resultFlow`, and the Whisper buffer is never
 * cleared by a decode. The shared recognition logic is `Stt`'s; with no
 * recognizer it never consults a hypothesis, so `Silent` stands for it.
 */
module IosStt {
  import opened Wrappers
  import opened Text
  import opened EngineConfig
  import Engine
  import opened Stt

  const Silent: Hypothesis := Hypothesis("", false)

  /** A new engine: estimate 120 MiB until a model says otherwise. */
  function Initial(): (s: SttState)
    ensures !s.initialized && s.estimate == 120 * MiB && MemoryUsage(s) == 0
  {
    NewEngine(120 * MiB)
  }

  /** The FP16 estimates: 60 MiB for the streaming model; for Whisper 150 MiB
      when the id names a base model, 75 MiB otherwise. */
  function EstimateFor(modelType: string, modelId: string): (m: int)
    ensures modelType == Zipformer ==> m == 60 * MiB
    ensures modelType != Zipformer ==> m == (if Contains(modelId, "base") then 150 * MiB else 75 * MiB)
  {
    if modelType == Zipformer then 60 * MiB
    else if Contains(modelId, "base") then 150 * MiB
    else 75 * MiB
  }

  /** `initialize(modelId, config)`: release a ready engine, record id, type and
      language, set the estimate, and become ready. */
  function Initialize(s: SttState, modelId: string, config: Engine.Config): (r: SttState)
    ensures r.initialized && r.modelId == Some(modelId)
    ensures r.modelType == Engine.ConfigString(config, "modelType", Whisper)
    ensures r.language == Engine.ConfigString(config, "language", "en")
    ensures r.estimate == EstimateFor(r.modelType, modelId)
    ensures MemoryUsage(r) == r.estimate
    ensures s.initialized ==> !r.recognizing && r.buffer == []
    ensures Valid(s) ==> Valid(r) && r.emitted == s.emitted
  {
    var s0 := if s.initialized then Release(s, Silent) else s;
    var modelType := Engine.ConfigString(config, "modelType", Whisper);
    s0.(modelId := Some(modelId), modelType := modelType, language := Engine.ConfigString(config, "language", "en"),
        estimate := EstimateFor(modelType, modelId), initialized := true)
  }

  datatype Recognition = ClosedWith(results: seq<STTResult>) | Forwarding

  /** `startRecognition(config)`: unlike Android, a ready streaming engine is
      never refused, although no stream is created. */
  function StartRecognition(s: SttState, config: STTConfig): (r: (SttState, Recognition))
    ensures !s.initialized ==>
              r == (s, ClosedWith([STTResult("", true, Some(config.language), Some(0.0))]))
    ensures s.initialized ==> r.1 == Forwarding && r.0.recognizing && r.0.sampleRate == config.sampleRate
    ensures s.initialized && s.modelType == Whisper ==> r.0.buffer == []
    ensures s.initialized && s.modelType != Whisper ==> r.0.buffer == s.buffer
    ensures r.0.emitted == s.emitted && r.0.stream == s.stream && r.0.offline == s.offline && r.0.online == s.online
    ensures r.0.initialized == s.initialized
  {
    if !s.initialized then (s, ClosedWith([STTResult("", true, Some(config.language), Some(0.0))]))
    else
      var s1 := s.(recognizing := true, sampleRate := config.sampleRate);
      if s.modelType == Whisper then (s1.(buffer := []), Forwarding) else (s1, Forwarding)
  }

  /** No native handle, and only a ready engine recognizes. */
  predicate Valid(s: SttState) {
    !s.online && !s.offline && !s.stream && (s.recognizing ==> s.initialized)
  }

  datatype Event =
    | Init(modelId: string, config: Engine.Config)
    | Start(sttConfig: STTConfig)
    | Process(audio: seq<int>)
    | Stop
    | Rel

  function Apply(s: SttState, e: Event): SttState {
    match e
    case Init(id, config) => Initialize(s, id, config)
    case Start(c) => StartRecognition(s, c).0
    case Process(audio) => ProcessAudio(s, audio, Silent)
    case Stop => StopRecognition(s, Silent)
    case Rel => Release(s, Silent)
  }

  function Run(s: SttState, events: seq<Event>): SttState
    decreases |events|
  {
    if |events| == 0 then s else Run(Apply(s, events[0]), events[1..])
  }

  /** From a valid state, no call ever emits a result, and the handles stay
      unassigned. */
  lemma {:induction false} NothingIsEverEmitted(s: SttState, events: seq<Event>)
    requires Valid(s)
    ensures Valid(Run(s, events)) && Run(s, events).emitted == s.emitted
    decreases |events|
  {
    if |events| > 0 {
      var next := Apply(s, events[0]);
      assert Valid(next) && next.emitted == s.emitted;
      NothingIsEverEmitted(next, events[1..]);
    }
  }

  /** Calls that are neither `release` nor `startRecognition` (nor a new
      `initialize`). */
  predicate Feeding(e: Event) { e.Process? || e.Stop? }

  /** Between a start and the next release or start, the Whisper buffer only
      grows: each chunk fed while recognizing is appended, and stopping keeps it. */
  lemma {:induction false} BufferOnlyGrows(s: SttState, events: seq<Event>)
    requires Valid(s)
    requires forall i :: 0 <= i < |events| ==> Feeding(events[i])
    ensures s.buffer <= Run(s, events).buffer
    decreases |events|
  {
    if |events| > 0 {
      var next := Apply(s, events[0]);
      assert s.buffer <= next.buffer;
      assert Valid(next);
      BufferOnlyGrows(next, events[1..]);
    }
  }

  /** Stopping a Whisper session decodes nothing and keeps the buffer whole,
      where the Android engine makes its final decode and clears it. */
  lemma StopKeepsBuffer(s: SttState)
    requires Valid(s) && s.recognizing && s.modelType == Whisper
    ensures StopRecognition(s, Silent).buffer == s.buffer
    ensures StopRecognition(s, Silent).emitted == s.emitted
    ensures !StopRecognition(s, Silent).recognizing
  {
  }
}
