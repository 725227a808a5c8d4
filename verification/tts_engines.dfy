/**
 * The two Sherpa-ONNX text-to-speech engines, which are still placeholders
 * (TTSEngine.kt, AndroidTTSEngine.kt, IOSTTSEngine.kt): the `Engine`
 * placeholder lifecycle plus a speaking flag that is only ever cleared.
 */
module TtsEngines {
  import opened Wrappers
  import opened EngineConfig
  import Engine

  /** Speed is a float in the source; it is kept as an exact real. */
  datatype TTSConfig = TTSConfig(language: string := "en", speed: real := 1.0, speakerId: int := 0,
                                 sampleRate: int := 22050)

  /** Samples are floats in the source, kept as reals. */
  datatype TTSResult = TTSResult(audioData: seq<real>, sampleRate: int, durationMs: int)

  datatype TtsState = TtsState(life: Engine.Lifecycle, speaking: bool)

  function Initial(): (s: TtsState)
    ensures !s.life.initialized && !s.speaking
  {
    TtsState(Engine.Fresh, false)
  }

  /** The fixed estimate: INT8 on Android, FP16 on iOS. */
  function Estimate(p: Platform): (m: int)
    ensures p == Android ==> m == 30 * MiB
    ensures p == Ios ==> m == 80 * MiB
  {
    match p
    case Android => 30 * MiB
    case Ios => 80 * MiB
  }

  function MemoryUsage(p: Platform, s: TtsState): (u: int)
    ensures Engine.HonoursMemoryContract(s.life.initialized, u, Estimate(p))
  {
    Engine.Usage(s.life, Estimate(p))
  }

  /** `synthesize`: no audio, no duration, at the rate asked for, whatever the
      text or the engine's state. */
  function Synthesize(s: TtsState, text: string, config: TTSConfig): (r: TTSResult)
    ensures |r.audioData| == 0 && r.durationMs == 0
    ensures r.sampleRate == config.sampleRate
  {
    TTSResult([], config.sampleRate, 0)
  }

  /** One call on the engine. */
  datatype Event = Init(modelId: string) | Rel | Synth(text: string, config: TTSConfig) | StopCall

  function Apply(s: TtsState, e: Event): TtsState {
    match e
    case Init(id) => s.(life := Engine.Initialize(s.life, id))
    case Rel => s.(life := Engine.Release(s.life))
    case Synth(_, _) => s
    case StopCall => s.(speaking := false)
  }

  /** The engine is ready after a call exactly when that call was an
      `initialize`, or when it was a synthesis or stop on a ready engine. No
      call sets `isSpeaking`; `stop` clears it. */
  lemma ReadinessAfterCall(s: TtsState, e: Event)
    ensures Apply(s, e).life.initialized <==> e.Init? || (!e.Rel? && s.life.initialized)
    ensures e.Init? ==> Apply(s, e).life.modelId == Some(e.modelId)
    ensures Apply(s, e).speaking <==> s.speaking && !e.StopCall?
  {
  }
}
