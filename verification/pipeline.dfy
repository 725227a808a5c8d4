/**
 * `TranslationPipeline`: STT → translation → TTS, with the engines loaded one
 * at a time (SEQUENTIAL) or preloaded (CONCURRENT) (TranslationPipeline.kt,
 * PipelineConfig.kt).
 *
 * The engines are abstract: only their ready flags and the calls made on them
 * are kept. What recognition yields, what the translation engine answers and
 * which engine call throws (if any) are oracles gathered in a `World`. A call
 * that throws is recorded and ends the operation; a throwing `initialize`
 * leaves that engine not ready, as the Android recognizer does. Audio is not
 * modelled: synthesis and playback are recorded as calls only.
 */
module Pipeline {
  import opened Wrappers
  import opened Text
  import opened EngineConfig
  import Engine
  import Stt
  import AndroidStt
  import TranslationEngines
  import ModelRegistry

  datatype PipelineConfig = PipelineConfig(
    sourceLanguage: string := "tr",
    targetLanguage: string := "en",
    speakTranslation: bool := true,
    continuousMode: bool := false,
    modelBasePath: string := "")

  datatype PipelineState =
    | Idle
    | Listening
    | Recognized(text: string, language: string)
    | Translating
    | Translated(result: TranslationEngines.TranslationResult)
    | Speaking
    | Error(message: string)

  datatype Role = SttRole | TranslationRole | TtsRole

  /** Which engines are initialized. */
  datatype Engines = Engines(stt: bool, translation: bool, tts: bool)

  const NoneReady: Engines := Engines(false, false, false)

  function ReadyCount(e: Engines): nat {
    (if e.stt then 1 else 0) + (if e.translation then 1 else 0) + (if e.tts then 1 else 0)
  }

  function SetReady(e: Engines, role: Role, ready: bool): Engines {
    match role
    case SttRole => e.(stt := ready)
    case TranslationRole => e.(translation := ready)
    case TtsRole => e.(tts := ready)
  }

  /** A call the pipeline makes on an engine or on the audio player. */
  datatype Action =
    | InitEngine(role: Role, modelId: string, config: Engine.Config)
    | ReleaseEngine(role: Role)
    | Collect(sttConfig: Stt.STTConfig)            // startRecognition(...).collect { ... }
    | TranslateCall(text: string, from: string, to: string)
    | SynthesizeCall(text: string, language: string)
    | PlayCall
    | StopRecognitionCall
    | StopTtsCall
    | StopPlayerCall
    | ReleasePlayerCall

  /** Engine or player call number `call` (counting from 0 within one
      operation) throws an exception with this (possibly null) message. Every
      engine's `release` is a plain reset, so a release call never throws. */
  datatype Fault = Fault(call: nat, message: Option<string>)

  datatype World = World(
    recognition: seq<Stt.STTResult>,             // what the recognition flow delivers
    translated: TranslationEngines.TranslationResult,
    fault: Option<Fault>)

  /** An operation in progress: states published, calls made, ready flags, the
      most engines ever ready at once, and the exception that ended it. */
  datatype Exec = Exec(trace: seq<PipelineState>, calls: seq<Action>, engines: Engines, peak: nat,
                       thrown: Option<Fault>)

  function Begin(e: Engines): (x: Exec)
    ensures x.trace == [] && x.calls == [] && x.engines == e && x.thrown.None? && x.peak == ReadyCount(e)
  {
    Exec([], [], e, ReadyCount(e), None)
  }

  function Max(a: nat, b: nat): nat { if a < b then b else a }

  /** Initialize and release calls: the only ones that load or unload a model. */
  predicate Loads(a: Action) { a.InitEngine? || a.ReleaseEngine? }

  predicate NoLoads(calls: seq<Action>) { forall i :: 0 <= i < |calls| ==> !Loads(calls[i]) }
  /** The peak counter is at least the number of engines ready now. */
  predicate Tracked(x: Exec) { x.peak >= ReadyCount(x.engines) }

  /** The last state published is Idle. */
  predicate EndsIdle(trace: seq<PipelineState>) { |trace| > 0 && trace[|trace| - 1] == Idle }

  /** `_state.value = s`, unless an exception already ended the operation. */
  function Pub(x: Exec, s: PipelineState): (r: Exec)
    ensures x.thrown.Some? ==> r == x
    ensures x.thrown.None? ==> r == x.(trace := x.trace + [s])
  {
    if x.thrown.Some? then x else x.(trace := x.trace + [s])
  }

  /** One call other than a release, which may be the one that throws. */
  function Do(x: Exec, a: Action, fault: Option<Fault>): (r: Exec)
    requires !a.ReleaseEngine?
    ensures x.thrown.Some? ==> r == x
    ensures x.thrown.None? ==> r.calls == x.calls + [a] && r.trace == x.trace
    ensures x.thrown.None? ==> (r.thrown.Some? <==> fault.Some? && fault.value.call == |x.calls|)
    ensures x.thrown.None? && r.thrown.Some? ==> r.thrown == fault
    ensures Tracked(x) ==> Tracked(r)
    ensures r.peak >= x.peak
    ensures NoLoads(x.calls) && !Loads(a) ==> NoLoads(r.calls)
    // only initialize moves a ready flag; a failed initialize leaves its engine not ready
    ensures x.thrown.None? && a.InitEngine? ==> r.engines == SetReady(x.engines, a.role, r.thrown.None?)
    ensures !a.InitEngine? ==> r.engines == x.engines
    ensures x.thrown.None? ==> r.peak == Max(x.peak, ReadyCount(r.engines))
  {
    if x.thrown.Some? then x
    else
      var throws := fault.Some? && fault.value.call == |x.calls|;
      var engines := if a.InitEngine? then SetReady(x.engines, a.role, !throws) else x.engines;
      Exec(x.trace, x.calls + [a], engines, Max(x.peak, ReadyCount(engines)), if throws then fault else None)
  }

  /** The `release()` that ends a SEQUENTIAL phase. As written it is an
      ordinary statement, skipped once an exception is in flight; with
      `inFinally` it sits in a `finally` block and runs regardless. */
  function ReleaseStep(x: Exec, role: Role, inFinally: bool): (r: Exec)
    ensures x.thrown.Some? && !inFinally ==> r == x
    ensures x.thrown.None? || inFinally ==>
              r.calls == x.calls + [ReleaseEngine(role)] && r.engines == SetReady(x.engines, role, false)
    ensures r.trace == x.trace && r.thrown == x.thrown
    ensures Tracked(x) ==> Tracked(r) && r.peak == x.peak
    ensures r.peak >= x.peak
  {
    if x.thrown.Some? && !inFinally then x
    else x.(calls := x.calls + [ReleaseEngine(role)], engines := SetReady(x.engines, role, false))
  }

  /** The model ids the pipeline asks for. */
  function SttModelId(language: string): string { "sherpa-stt-whisper-tiny-" + language }
  function TranslationModelId(from: string, to: string): string { "opus-mt-" + from + "-" + to }
  function TtsModelId(language: string): string { "sherpa-tts-piper-" + language }

  /** `buildSTTConfig`: base path, Whisper, and the source language. */
  function SttInitConfig(config: PipelineConfig): (m: Engine.Config)
    ensures Engine.ConfigString(m, "modelType", "zipformer") == Stt.Whisper
    ensures Engine.ConfigString(m, "language", "en") == config.sourceLanguage
    ensures Engine.ConfigString(m, "modelBasePath", "") == config.modelBasePath
  {
    map["modelBasePath" := Engine.StrValue(config.modelBasePath),
        "modelType" := Engine.StrValue(Stt.Whisper),
        "language" := Engine.StrValue(config.sourceLanguage)]
  }

  /** For the two languages of the catalog, every id the pipeline asks for
      names a catalog entry: the Whisper recognizer, the OPUS-MT model for the
      direction, and the Piper voice. A same-language configuration asks for a
      translation model the catalog does not have. */
  lemma PipelineIdsInCatalog(src: string, tgt: string)
    requires (src == "tr" && tgt == "en") || (src == "en" && tgt == "tr")
    ensures ModelRegistry.ModelConfig(ModelRegistry.Catalog(), SttModelId(src)).Some?
    ensures ModelRegistry.ModelConfig(ModelRegistry.Catalog(), TranslationModelId(src, tgt)).Some?
    ensures ModelRegistry.ModelConfig(ModelRegistry.Catalog(), TtsModelId(tgt)).Some?
  {
    ModelRegistry.CatalogShape();
    var c := ModelRegistry.Catalog();
    if src == "tr" {
      assert c[0].modelId == SttModelId(src);
      assert c[5].modelId == TranslationModelId(src, tgt);
      assert c[7].modelId == TtsModelId(tgt);
    } else {
      assert c[1].modelId == SttModelId(src);
      assert c[4].modelId == TranslationModelId(src, tgt);
      assert c[6].modelId == TtsModelId(tgt);
    }
  }

  /** The text `collectRecognition` ends with: the text of the last final
      result, or "" when there is none. */
  function LastFinalText(results: seq<Stt.STTResult>): (t: string)
    ensures (forall i :: 0 <= i < |results| ==> !results[i].isFinal) ==> t == ""
    ensures forall i :: 0 <= i < |results| && results[i].isFinal && (forall j :: i < j < |results| ==> !results[j].isFinal)
              ==> t == results[i].text
    decreases |results|
  {
    if |results| == 0 then ""
    else if results[|results| - 1].isFinal then results[|results| - 1].text
    else
      var prefix := results[..|results| - 1];
      assert forall i :: 0 <= i < |prefix| ==> prefix[i] == results[i];
      LastFinalText(prefix)
  }

  /** How many results are final. */
  function FinalCount(results: seq<Stt.STTResult>): nat
    decreases |results|
  {
    if |results| == 0 then 0
    else FinalCount(results[..|results| - 1]) + (if results[|results| - 1].isFinal then 1 else 0)
  }

  /** `collectRecognition`'s collector loop, as written: every final result
      overwrites the text and stops recognition. It ends with `LastFinalText`
      and stops once per final result. */
  method CollectRecognition(results: seq<Stt.STTResult>) returns (finalText: string, stops: nat)
    ensures finalText == LastFinalText(results)
    ensures stops == FinalCount(results)
  {
    finalText := "";
    stops := 0;
    var k := 0;
    while k < |results|
      invariant 0 <= k <= |results|
      invariant finalText == LastFinalText(results[..k])
      invariant stops == FinalCount(results[..k])
    {
      assert results[..k + 1][..k] == results[..k];
      if results[k].isFinal {
        finalText := results[k].text;
        stops := stops + 1;
      }
      k := k + 1;
    }
    assert results[..k] == results;
  }

  /** What `collectRecognition`'s collector is handed: a flow that closes after
      the listed results, or a live flow that has forwarded the listed results
      so far and closes only when its collector is cancelled. */
  datatype ResultFlow = Closes(results: seq<Stt.STTResult>) | Live(forwarded: seq<Stt.STTResult>)

  /** The flow the Android recognizer's `startRecognition` hands over, with
      `forwarded` what its shared result flow has emitted since. */
  function AndroidFlow(r: AndroidStt.Recognition, forwarded: seq<Stt.STTResult>): ResultFlow {
    match r
    case ClosedWith(results) => Closes(results)
    case Forwarding => Live(forwarded)
  }

  /** `collectRecognition` as written: `collect` returns once the flow closes,
      and None means the call is still suspended. Calling `stopRecognition` on
      a final result does not close the flow. */
  function CollectAsWritten(flow: ResultFlow): Option<string> {
    match flow
    case Closes(results) => Some(LastFinalText(results))
    case Live(_) => None
  }

  /** Position of the first final result, if any. */
  function FirstFinal(results: seq<Stt.STTResult>): (r: Option<nat>)
    ensures r.Some? ==> r.value < |results| && results[r.value].isFinal
                        && forall j :: 0 <= j < r.value ==> !results[j].isFinal
    ensures r.None? ==> forall j :: 0 <= j < |results| ==> !results[j].isFinal
    decreases |results|
  {
    if |results| == 0 then None
    else if results[0].isFinal then Some(0)
    else
      match FirstFinal(results[1..])
      case None => None
      case Some(i) => Some(i + 1)
  }

  /** `collectRecognition` as intended: collection ends with the first final
      result (as `first { it.isFinal }` would end it), or with "" when the
      flow closes without one. */
  function CollectUntilFinal(flow: ResultFlow): (r: Option<string>)
    ensures r.None? <==> flow.Live? && forall j :: 0 <= j < |flow.forwarded| ==> !flow.forwarded[j].isFinal
    ensures flow.Closes? && (forall j :: 0 <= j < |flow.results| ==> !flow.results[j].isFinal) ==> r == Some("")
  {
    var results := if flow.Closes? then flow.results else flow.forwarded;
    match FirstFinal(results)
    case Some(i) => Some(results[i].text)
    case None => if flow.Closes? then Some("") else None
  }

  /** As written, a run with a ready Android recognizer never leaves Listening
      on its own, even after a final result. `collectRecognition` returns only
      for a recognizer that is not ready, and then with "", so the run goes
      Listening → Idle. */
  lemma ReadyRecognizerKeepsListening(s: Stt.SttState, config: Stt.STTConfig,
                                      forwarded: seq<Stt.STTResult>)
    requires AndroidStt.Valid(s)
    ensures var flow := AndroidFlow(AndroidStt.StartRecognition(s, config).1, forwarded);
            && (s.initialized ==> CollectAsWritten(flow).None?)
            && (!s.initialized ==> CollectAsWritten(flow) == Some(""))
  {
    if s.initialized {
      AndroidStt.ReadyEngineStartsLive(s, config);
    }
  }

  /** As intended, the first final result a ready Android recognizer forwards
      ends collection with its text. That text is `LastFinalText` of the
      results up to it, which is the text the pipeline runs continue with. */
  lemma ReadyRecognizerReturnsFirstFinal(s: Stt.SttState, config: Stt.STTConfig,
                                         forwarded: seq<Stt.STTResult>, i: nat)
    requires AndroidStt.Valid(s) && s.initialized
    requires i < |forwarded| && forwarded[i].isFinal
    requires forall j :: 0 <= j < i ==> !forwarded[j].isFinal
    ensures var flow := AndroidFlow(AndroidStt.StartRecognition(s, config).1, forwarded);
            CollectUntilFinal(flow) == Some(forwarded[i].text) == Some(LastFinalText(forwarded[..i + 1]))
  {
    AndroidStt.ReadyEngineStartsLive(s, config);
    var k := FirstFinal(forwarded);
    assert k.Some? && k.value == i;
    assert forwarded[..i + 1][i] == forwarded[i];
  }

  /** On the flows a recognizer that is not ready hands over (one final
      result, then closed), the intended collector agrees with the code. */
  lemma CollectorsAgreeWhenNotReady(s: Stt.SttState, config: Stt.STTConfig,
                                    forwarded: seq<Stt.STTResult>)
    requires !s.initialized
    ensures var flow := AndroidFlow(AndroidStt.StartRecognition(s, config).1, forwarded);
            CollectUntilFinal(flow) == CollectAsWritten(flow) == Some("")
  {
  }

  /** The calls of a phase: under SEQUENTIAL the engine is initialized before
      the work and released after it. */
  function PhaseCalls(sequential: bool, role: Role, init: Action, work: seq<Action>): seq<Action> {
    if sequential then [init] + work + [ReleaseEngine(role)] else work
  }

  /** Phase 1: Listening, then recognition; SEQUENTIAL loads the recognizer
      first and releases it after. */
  function SttPhase(sequential: bool, inFinally: bool, x: Exec, config: PipelineConfig, w: World): (r: Exec)
    requires x.thrown.None? && Tracked(x)
    ensures Tracked(r) && r.peak >= x.peak
    ensures w.fault.None? ==> r.thrown.None?
    ensures !sequential && NoLoads(x.calls) ==> NoLoads(r.calls)
    ensures |r.trace| >= |x.trace| + 1 && r.trace[..|x.trace| + 1] == x.trace + [Listening]
    ensures r.thrown.None? ==> r.trace == x.trace + [Listening]
    ensures r.thrown.None? ==> r.calls == x.calls + PhaseCalls(sequential, SttRole,
              InitEngine(SttRole, SttModelId(config.sourceLanguage), SttInitConfig(config)),
              [Collect(Stt.STTConfig(config.sourceLanguage, 16000))])
    ensures !sequential ==> r.engines == x.engines && r.peak == x.peak
    ensures r.thrown.Some? ==> r.thrown == w.fault
  {
    var x1 := Pub(x, Listening);
    var x2 := if sequential then Do(x1, InitEngine(SttRole, SttModelId(config.sourceLanguage), SttInitConfig(config)), w.fault) else x1;
    var x3 := Do(x2, Collect(Stt.STTConfig(config.sourceLanguage, 16000)), w.fault);
    var r := if sequential then ReleaseStep(x3, SttRole, inFinally) else x3;
    assert r.trace[..|x.trace| + 1] == x.trace + [Listening];
    r
  }

  /** Phase 2: Recognized, Translating, the translation, Translated. */
  function TranslationPhase(sequential: bool, inFinally: bool, x: Exec, text: string, config: PipelineConfig, w: World)
    : (r: Exec)
    requires x.thrown.None? && Tracked(x)
    ensures Tracked(r) && r.peak >= x.peak
    ensures w.fault.None? ==> r.thrown.None?
    ensures !sequential && NoLoads(x.calls) ==> NoLoads(r.calls)
    ensures |r.trace| >= |x.trace| + 2 && r.trace[..|x.trace| + 2] == x.trace + [Recognized(text, config.sourceLanguage), Translating]
    ensures r.thrown.None? ==> r.trace == x.trace + [Recognized(text, config.sourceLanguage), Translating, Translated(w.translated)]
    ensures r.thrown.None? ==> r.calls == x.calls + PhaseCalls(sequential, TranslationRole,
              InitEngine(TranslationRole, TranslationModelId(config.sourceLanguage, config.targetLanguage), Engine.EmptyConfig),
              [TranslateCall(text, config.sourceLanguage, config.targetLanguage)])
    ensures !sequential ==> r.engines == x.engines && r.peak == x.peak
    ensures r.thrown.Some? ==> r.thrown == w.fault
  {
    var x1 := Pub(Pub(x, Recognized(text, config.sourceLanguage)), Translating);
    var r := Pub(TranslateWork(sequential, inFinally, x1, text, config, w), Translated(w.translated));
    assert r.trace[..|x.trace| + 2] == x.trace + [Recognized(text, config.sourceLanguage), Translating];
    r
  }

  /** The engine work of phase 2: SEQUENTIAL loads the translator, then the
      translation, then SEQUENTIAL releases it. */
  function TranslateWork(sequential: bool, inFinally: bool, x: Exec, text: string, config: PipelineConfig, w: World)
    : (r: Exec)
    requires x.thrown.None? && Tracked(x)
    ensures Tracked(r) && r.peak >= x.peak && r.trace == x.trace
    ensures w.fault.None? ==> r.thrown.None?
    ensures r.thrown.Some? ==> r.thrown == w.fault
    ensures !sequential && NoLoads(x.calls) ==> NoLoads(r.calls)
    ensures r.thrown.None? ==> r.calls == x.calls + PhaseCalls(sequential, TranslationRole,
              InitEngine(TranslationRole, TranslationModelId(config.sourceLanguage, config.targetLanguage), Engine.EmptyConfig),
              [TranslateCall(text, config.sourceLanguage, config.targetLanguage)])
    ensures !sequential ==> r.engines == x.engines && r.peak == x.peak
  {
    var src := config.sourceLanguage;
    var tgt := config.targetLanguage;
    var x2 := if sequential then Do(x, InitEngine(TranslationRole, TranslationModelId(src, tgt), Engine.EmptyConfig), w.fault) else x;
    var x3 := Do(x2, TranslateCall(text, src, tgt), w.fault);
    if sequential then ReleaseStep(x3, TranslationRole, inFinally) else x3
  }

  /** Phase 3: Speaking, synthesis of the translation, playback. */
  function SpeechPhase(sequential: bool, inFinally: bool, x: Exec, config: PipelineConfig, w: World): (r: Exec)
    requires x.thrown.None? && Tracked(x)
    ensures Tracked(r) && r.peak >= x.peak
    ensures w.fault.None? ==> r.thrown.None?
    ensures !sequential && NoLoads(x.calls) ==> NoLoads(r.calls)
    ensures r.trace == x.trace + [Speaking]
    ensures r.thrown.None? ==> r.calls == x.calls + PhaseCalls(sequential, TtsRole,
              InitEngine(TtsRole, TtsModelId(config.targetLanguage), Engine.EmptyConfig),
              [SynthesizeCall(w.translated.translatedText, config.targetLanguage), PlayCall])
    ensures !sequential ==> r.engines == x.engines && r.peak == x.peak
    ensures r.thrown.Some? ==> r.thrown == w.fault
  {
    var tgt := config.targetLanguage;
    var x1 := Pub(x, Speaking);
    var x2 := if sequential then Do(x1, InitEngine(TtsRole, TtsModelId(tgt), Engine.EmptyConfig), w.fault) else x1;
    var x3 := Do(Do(x2, SynthesizeCall(w.translated.translatedText, tgt), w.fault), PlayCall, w.fault);
    if sequential then ReleaseStep(x3, TtsRole, inFinally) else x3
  }

  /** What follows recognition: blank text ends the run Idle; otherwise
      translation, speech when asked for, and Idle. */
  function AfterRecognition(sequential: bool, inFinally: bool, a: Exec, text: string, config: PipelineConfig, w: World)
    : (r: Exec)
    requires a.thrown.None? && Tracked(a)
    ensures Tracked(r) && r.peak >= a.peak
    ensures w.fault.None? ==> r.thrown.None?
    ensures |r.trace| >= |a.trace| && r.trace[..|a.trace|] == a.trace
    ensures !sequential && NoLoads(a.calls) ==> NoLoads(r.calls)
    ensures r.thrown.None? ==> |r.trace| > |a.trace| && EndsIdle(r.trace)
    ensures r.thrown.Some? ==> r.thrown == w.fault
    ensures !sequential ==> r.engines == a.engines && r.peak == a.peak
  {
    if IsBlank(text) then Pub(a, Idle)
    else
      var b := TranslationPhase(sequential, inFinally, a, text, config, w);
      assert b.trace[..|a.trace|] == b.trace[..|a.trace| + 2][..|a.trace|];
      if b.thrown.Some? then b
      else
        var r := Conclude(sequential, inFinally, b, config, w);
        assert r.trace[..|a.trace|] == r.trace[..|b.trace|][..|a.trace|];
        r
  }

  /** After a completed translation: speech when asked for, then Idle. */
  function Conclude(sequential: bool, inFinally: bool, b: Exec, config: PipelineConfig, w: World): (r: Exec)
    requires b.thrown.None? && Tracked(b)
    ensures Tracked(r) && r.peak >= b.peak
    ensures w.fault.None? ==> r.thrown.None?
    ensures |r.trace| > |b.trace| && r.trace[..|b.trace|] == b.trace
    ensures !sequential && NoLoads(b.calls) ==> NoLoads(r.calls)
    ensures r.thrown.None? ==> EndsIdle(r.trace)
    ensures r.thrown.Some? ==> r.thrown == w.fault
    ensures !sequential ==> r.engines == b.engines && r.peak == b.peak
  {
    var c := if config.speakTranslation then SpeechPhase(sequential, inFinally, b, config, w) else b;
    assert Pub(c, Idle).trace[..|b.trace|] == c.trace[..|b.trace|];
    Pub(c, Idle)
  }

  /** `executeSequential` / `executeConcurrent`: the same three phases, with the
      loading and releasing calls only under SEQUENTIAL. Blank recognized text
      ends the run after phase 1. */
  function Execute(strategy: MemoryStrategy, inFinally: bool, x: Exec, config: PipelineConfig, w: World): (r: Exec)
    requires x.thrown.None? && Tracked(x)
    ensures Tracked(r) && r.peak >= x.peak
    ensures w.fault.None? ==> r.thrown.None?
    ensures strategy == CONCURRENT && NoLoads(x.calls) ==> NoLoads(r.calls)
    ensures r.thrown.None? ==> |r.trace| >= |x.trace| + 2 && EndsIdle(r.trace)
    ensures r.thrown.Some? ==> r.thrown == w.fault
    ensures |r.trace| > |x.trace| && r.trace[|x.trace|] == Listening
    ensures strategy == CONCURRENT ==> r.engines == x.engines && r.peak == x.peak
  {
    var a := SttPhase(strategy == SEQUENTIAL, inFinally, x, config, w);
    assert a.trace[|x.trace|] == (x.trace + [Listening])[|x.trace|];
    if a.thrown.Some? then a
    else
      assert |a.trace| == |x.trace| + 1;
      var r := AfterRecognition(strategy == SEQUENTIAL, inFinally, a, LastFinalText(w.recognition), config, w);
      assert r.trace[..|a.trace|] == a.trace;
      assert r.trace[|x.trace|] == a.trace[|x.trace|];
      r
  }

  /** SEQUENTIAL's promise for one stretch of a run: at most one engine was
      ready at any moment, and none is left ready when the stretch completes
      (or, with the releases in `finally`, whenever it ends). */
  predicate OneAtATime(r: Exec, inFinally: bool) {
    r.peak <= 1 && (r.thrown.None? || inFinally ==> ReadyCount(r.engines) == 0)
  }

  lemma SttPhaseOneAtATime(inFinally: bool, x: Exec, config: PipelineConfig, w: World)
    requires x.thrown.None? && ReadyCount(x.engines) == 0 && x.peak <= 1
    ensures OneAtATime(SttPhase(true, inFinally, x, config, w), inFinally)
  {
  }

  lemma TranslationPhaseOneAtATime(inFinally: bool, x: Exec, text: string, config: PipelineConfig, w: World)
    requires x.thrown.None? && ReadyCount(x.engines) == 0 && x.peak <= 1
    ensures OneAtATime(TranslationPhase(true, inFinally, x, text, config, w), inFinally)
  {
  }

  lemma SpeechPhaseOneAtATime(inFinally: bool, x: Exec, config: PipelineConfig, w: World)
    requires x.thrown.None? && ReadyCount(x.engines) == 0 && x.peak <= 1
    ensures OneAtATime(SpeechPhase(true, inFinally, x, config, w), inFinally)
  {
  }

  /** A whole SEQUENTIAL run from no engine ready keeps the promise. */
  lemma ExecuteOneAtATime(inFinally: bool, x: Exec, config: PipelineConfig, w: World)
    requires x.thrown.None? && ReadyCount(x.engines) == 0 && x.peak <= 1
    ensures OneAtATime(Execute(SEQUENTIAL, inFinally, x, config, w), inFinally)
  {
    SttPhaseOneAtATime(inFinally, x, config, w);
    var a := SttPhase(true, inFinally, x, config, w);
    var text := LastFinalText(w.recognition);
    if a.thrown.None? && !IsBlank(text) {
      TranslationPhaseOneAtATime(inFinally, a, text, config, w);
      var b := TranslationPhase(true, inFinally, a, text, config, w);
      if b.thrown.None? && config.speakTranslation {
        SpeechPhaseOneAtATime(inFinally, b, config, w);
      }
    }
  }

  /** The pipeline object: its strategy, the running flag, the state flow's
      current value, and which engines are initialized. */
  datatype Pipeline = Pipeline(strategy: MemoryStrategy, running: bool, state: PipelineState, engines: Engines)

  function New(strategy: MemoryStrategy, engines: Engines): (p: Pipeline)
    ensures !p.running && p.state == Idle && p.engines == engines
  {
    Pipeline(strategy, false, Idle, engines)
  }

  /** What one operation did: the pipeline after it, every state published,
      every call made, and the most engines ready at once. */
  datatype Outcome = Outcome(pipeline: Pipeline, trace: seq<PipelineState>, calls: seq<Action>, peak: nat)

  /** `e.message ?: "Pipeline error"`. */
  function ErrorMessage(message: Option<string>): (m: string)
    ensures message.Some? ==> m == message.value
    ensures message.None? ==> m == "Pipeline error"
  {
    message.GetOr("Pipeline error")
  }

  /** `start(config)`: nothing while a run is active; otherwise run the phases,
      turn an exception into an Error state, and clear the running flag.
      `inFinally` selects where the SEQUENTIAL releases sit (see `ReleaseStep`). */
  function Launch(p: Pipeline, config: PipelineConfig, w: World, inFinally: bool): (r: Outcome)
    ensures p.running ==> r == Outcome(p, [], [], ReadyCount(p.engines))
    ensures !p.running ==> !r.pipeline.running
    ensures r.pipeline.strategy == p.strategy
    ensures r.peak >= ReadyCount(p.engines) && r.peak >= ReadyCount(r.pipeline.engines)
    ensures !p.running ==> |r.trace| >= 2 && r.trace[0] == Listening
                           && r.pipeline.state == r.trace[|r.trace| - 1]
    ensures !p.running && r.trace[|r.trace| - 1].Error? ==>
              w.fault.Some? && r.trace[|r.trace| - 1] == Error(ErrorMessage(w.fault.value.message))
    ensures !p.running && w.fault.None? ==> r.pipeline.state == Idle
    ensures p.strategy == CONCURRENT ==> r.pipeline.engines == p.engines && NoLoads(r.calls)
  {
    if p.running then Outcome(p, [], [], ReadyCount(p.engines))
    else Settle(p.strategy, Execute(p.strategy, inFinally, Begin(p.engines), config, w))
  }

  /** The end of `start`: the `catch` publishes Error with the exception's
      message, and the pipeline stops running in the last state published. */
  function Settle(strategy: MemoryStrategy, x: Exec): (r: Outcome)
    requires |x.trace| >= 1 && x.trace[0] == Listening
    requires x.thrown.None? ==> |x.trace| >= 2 && EndsIdle(x.trace)
    ensures |r.trace| >= 2 && r.trace[0] == Listening
    ensures r.pipeline == Pipeline(strategy, false, r.trace[|r.trace| - 1], x.engines)
    ensures r.calls == x.calls && r.peak == x.peak
    ensures r.trace[|r.trace| - 1].Error? <==> x.thrown.Some?
    ensures x.thrown.Some? ==> r.trace[|r.trace| - 1] == Error(ErrorMessage(x.thrown.value.message))
    ensures x.thrown.None? ==> r.pipeline.state == Idle
  {
    var trace := if x.thrown.Some? then x.trace + [Error(ErrorMessage(x.thrown.value.message))] else x.trace;
    assert trace[0] == x.trace[0];
    Outcome(Pipeline(strategy, false, trace[|trace| - 1], x.engines), trace, x.calls, x.peak)
  }

  /** `start(config)` as written. */
  function Start(p: Pipeline, config: PipelineConfig, w: World): Outcome {
    Launch(p, config, w, false)
  }

  /** `start(config)` with each SEQUENTIAL phase's `release()` in a `finally`
      block around its initialize and work. */
  function StartReleasing(p: Pipeline, config: PipelineConfig, w: World): Outcome {
    Launch(p, config, w, true)
  }

  /** The published states of a run that neither throws nor hears blank text. */
  function HappyTrace(text: string, config: PipelineConfig, translated: TranslationEngines.TranslationResult)
    : seq<PipelineState>
  {
    [Listening, Recognized(text, config.sourceLanguage), Translating, Translated(translated)]
    + (if config.speakTranslation then [Speaking] else []) + [Idle]
  }

  /** A run without exception publishes Listening, Recognized, Translating,
      Translated, Speaking exactly when asked to speak, then Idle; the recognized
      text is the last final result and is what gets translated. */
  lemma HappyRun(p: Pipeline, config: PipelineConfig, w: World)
    requires !p.running && w.fault.None?
    requires !IsBlank(LastFinalText(w.recognition))
    ensures var r := Start(p, config, w);
            && r.trace == HappyTrace(LastFinalText(w.recognition), config, w.translated)
            && r.pipeline.state == Idle
            && TranslateCall(LastFinalText(w.recognition), config.sourceLanguage, config.targetLanguage) in r.calls
  {
    var x := Begin(p.engines);
    HappyExecute(p.strategy, x, config, w);
    assert Start(p, config, w).trace == Execute(p.strategy, false, x, config, w).trace;
  }

  lemma HappyExecute(strategy: MemoryStrategy, x: Exec, config: PipelineConfig, w: World)
    requires x.thrown.None? && Tracked(x) && x.trace == [] && w.fault.None?
    requires !IsBlank(LastFinalText(w.recognition))
    ensures var r := Execute(strategy, false, x, config, w);
            && r.trace == HappyTrace(LastFinalText(w.recognition), config, w.translated)
            && TranslateCall(LastFinalText(w.recognition), config.sourceLanguage, config.targetLanguage) in r.calls
  {
    var text := LastFinalText(w.recognition);
    var a := SttPhase(strategy == SEQUENTIAL, false, x, config, w);
    assert a.trace == [Listening];
    HappyAfterRecognition(strategy == SEQUENTIAL, a, text, config, w);
    var h := HappyTrace(text, config, w.translated);
    assert [Listening] + h[1..] == h;
  }

  lemma HappyAfterRecognition(sequential: bool, a: Exec, text: string, config: PipelineConfig, w: World)
    requires a.thrown.None? && Tracked(a) && w.fault.None? && !IsBlank(text)
    ensures var r := AfterRecognition(sequential, false, a, text, config, w);
            && r.trace == a.trace + HappyTrace(text, config, w.translated)[1..]
            && TranslateCall(text, config.sourceLanguage, config.targetLanguage) in r.calls
  {
    var b := TranslationPhase(sequential, false, a, text, config, w);
    assert TranslateCall(text, config.sourceLanguage, config.targetLanguage) in b.calls;
  }

  /** A call that neither translates, synthesizes nor loads another engine. */
  predicate TouchesOnlyRecognizer(a: Action) {
    !a.TranslateCall? && !a.SynthesizeCall? && !(a.InitEngine? && a.role != SttRole)
  }

  /** Blank recognized text ends the run Listening → Idle: only the recognizer
      is touched, and no translation or speech engine call is made. */
  lemma BlankTextStopsAfterListening(p: Pipeline, config: PipelineConfig, w: World)
    requires !p.running && w.fault.None?
    requires IsBlank(LastFinalText(w.recognition))
    ensures var r := Start(p, config, w);
            && r.trace == [Listening, Idle]
            && forall i :: 0 <= i < |r.calls| ==> TouchesOnlyRecognizer(r.calls[i])
  {
  }

  /** SEQUENTIAL as written: starting with no engine loaded, at most one engine
      is ready at any moment of a run, even one an exception cuts short, and a
      run without exception leaves none loaded. */
  lemma SequentialOneEngineAtATime(p: Pipeline, config: PipelineConfig, w: World)
    requires !p.running && p.strategy == SEQUENTIAL && ReadyCount(p.engines) == 0
    ensures var r := Start(p, config, w);
            r.peak <= 1 && (w.fault.None? ==> ReadyCount(r.pipeline.engines) == 0)
  {
    ExecuteOneAtATime(false, Begin(p.engines), config, w);
  }

  /** SEQUENTIAL: a run that starts while another engine is still loaded has
      two engines ready once the recognizer loads. */
  lemma LeftoverEngineDoublesUp(p: Pipeline, config: PipelineConfig, w: World)
    requires !p.running && p.strategy == SEQUENTIAL && !p.engines.stt && (p.engines.translation || p.engines.tts)
    requires w.fault.None?
    ensures Start(p, config, w).peak >= 2
  {
    var x1 := Pub(Begin(p.engines), Listening);
    var x2 := Do(x1, InitEngine(SttRole, SttModelId(config.sourceLanguage), SttInitConfig(config)), w.fault);
    assert ReadyCount(x2.engines) >= 2;
  }

  /** A run whose translation call throws: recognition of "merhaba" succeeds,
      call 4 (`translate`, after the recognizer's initialize, collect and
      release and the translator's initialize) throws. */
  const Merhaba: World := World([Stt.STTResult("merhaba", true)],
                                TranslationEngines.TranslationResult("hello", "tr", "en"),
                                Some(Fault(4, None)))

  const Quiet: World := Merhaba.(fault := None)

  /** As written, the exception skips `translationEngine.release()`: the
      translator stays loaded, and the next run has the recognizer and the
      translator loaded together, which SEQUENTIAL exists to avoid. */
  lemma StrandedTranslator()
    ensures var first := Start(New(SEQUENTIAL, NoneReady), PipelineConfig(), Merhaba);
            && first.pipeline.state == Error("Pipeline error")
            && first.pipeline.engines.translation
            && Start(first.pipeline, PipelineConfig(), Quiet).peak >= 2
  {
    var config := PipelineConfig();
    var w := Merhaba;
    assert LastFinalText(w.recognition) == "merhaba";
    assert !IsBlank("merhaba") by { assert !IsWhitespace("merhaba"[0]); }
    var x := Begin(NoneReady);
    var a := SttPhase(true, false, x, config, w);
    var x2 := Do(Pub(x, Listening), InitEngine(SttRole, SttModelId("tr"), SttInitConfig(config)), w.fault);
    var x3 := Do(x2, Collect(Stt.STTConfig("tr", 16000)), w.fault);
    assert a == ReleaseStep(x3, SttRole, false);
    assert a.thrown.None? && |a.calls| == 3 && a.engines == NoneReady;
    var y1 := Pub(Pub(a, Recognized("merhaba", "tr")), Translating);
    var y2 := Do(y1, InitEngine(TranslationRole, TranslationModelId("tr", "en"), Engine.EmptyConfig), w.fault);
    assert y2.thrown.None? && y2.engines.translation && |y2.calls| == 4;
    var y3 := Do(y2, TranslateCall("merhaba", "tr", "en"), w.fault);
    assert y3.thrown == w.fault && y3.engines.translation;
    var b := TranslationPhase(true, false, a, "merhaba", config, w);
    assert b == y3;
    assert Execute(SEQUENTIAL, false, x, config, w) == b;
    var first := Start(New(SEQUENTIAL, NoneReady), config, w);
    assert first.pipeline.engines == b.engines;
    LeftoverEngineDoublesUp(first.pipeline, config, Quiet);
  }

  /** With the releases in `finally`, a SEQUENTIAL run from no engine loaded
      keeps at most one engine ready and leaves none loaded, whatever throws. */
  lemma ReleasingLeavesNothingLoaded(p: Pipeline, config: PipelineConfig, w: World)
    requires !p.running && p.strategy == SEQUENTIAL && ReadyCount(p.engines) == 0
    ensures var r := StartReleasing(p, config, w);
            r.peak <= 1 && ReadyCount(r.pipeline.engines) == 0 && !r.pipeline.running
  {
    ExecuteOneAtATime(true, Begin(p.engines), config, w);
  }

  /** One `start` request: its configuration and what the world does. */
  datatype Job = Job(config: PipelineConfig, world: World)

  /** Consecutive runs; the result pairs the final pipeline with the most
      engines ever ready at once. */
  function StartAll(p: Pipeline, jobs: seq<Job>, inFinally: bool): (Pipeline, nat)
    decreases |jobs|
  {
    if |jobs| == 0 then (p, ReadyCount(p.engines))
    else
      var r := Launch(p, jobs[0].config, jobs[0].world, inFinally);
      var rest := StartAll(r.pipeline, jobs[1..], inFinally);
      (rest.0, Max(r.peak, rest.1))
  }

  /** With the releases in `finally`, any number of SEQUENTIAL runs, each with
      its own exceptions, never has two engines loaded at once. */
  lemma {:induction false} ReleasingRunsKeepOneEngine(p: Pipeline, jobs: seq<Job>)
    requires !p.running && p.strategy == SEQUENTIAL && ReadyCount(p.engines) == 0
    ensures StartAll(p, jobs, true).1 <= 1 && ReadyCount(StartAll(p, jobs, true).0.engines) == 0
    decreases |jobs|
  {
    if |jobs| > 0 {
      ReleasingLeavesNothingLoaded(p, jobs[0].config, jobs[0].world);
      var r := Launch(p, jobs[0].config, jobs[0].world, true);
      ReleasingRunsKeepOneEngine(r.pipeline, jobs[1..]);
    }
  }

  /** As written, two runs are enough to have two engines loaded at once. */
  lemma AsWrittenRunsDoubleUp()
    ensures StartAll(New(SEQUENTIAL, NoneReady), [Job(PipelineConfig(), Merhaba), Job(PipelineConfig(), Quiet)], false).1 >= 2
  {
    StrandedTranslator();
    SecondRunCounts(New(SEQUENTIAL, NoneReady), Job(PipelineConfig(), Merhaba), Job(PipelineConfig(), Quiet), false);
  }

  /** Two runs reach at least the second run's peak. */
  lemma SecondRunCounts(p: Pipeline, j1: Job, j2: Job, inFinally: bool)
    ensures StartAll(p, [j1, j2], inFinally).1 >= Launch(Launch(p, j1.config, j1.world, inFinally).pipeline,
                                                         j2.config, j2.world, inFinally).peak
  {
    var jobs := [j1, j2];
    assert jobs[1..] == [j2];
    assert jobs[1..][1..] == [];
  }

  /** `stop()`: clear the running flag, stop recognition, speech and playback,
      and publish Idle; no engine is loaded or released. */
  function Stop(p: Pipeline): (r: Outcome)
    ensures !r.pipeline.running && r.pipeline.state == Idle && r.trace == [Idle]
    ensures r.pipeline.engines == p.engines && NoLoads(r.calls)
    ensures r.calls == [StopRecognitionCall, StopTtsCall, StopPlayerCall]
  {
    Outcome(p.(running := false, state := Idle), [Idle], [StopRecognitionCall, StopTtsCall, StopPlayerCall],
            ReadyCount(p.engines))
  }

  /** `release()`: `stop()`, then release every engine and the player. */
  function Release(p: Pipeline): (r: Outcome)
    ensures !r.pipeline.running && r.pipeline.state == Idle
    ensures ReadyCount(r.pipeline.engines) == 0
    ensures |r.calls| == 7 && r.calls[..3] == Stop(p).calls && r.calls[6] == ReleasePlayerCall
    ensures r.calls[3..6] == [ReleaseEngine(SttRole), ReleaseEngine(TranslationRole), ReleaseEngine(TtsRole)]
  {
    var s := Stop(p);
    var calls := s.calls + [ReleaseEngine(SttRole), ReleaseEngine(TranslationRole), ReleaseEngine(TtsRole), ReleasePlayerCall];
    assert calls[3] == ReleaseEngine(SttRole) && calls[4] == ReleaseEngine(TranslationRole) && calls[5] == ReleaseEngine(TtsRole);
    Outcome(s.pipeline.(engines := NoneReady), s.trace, calls, s.peak)
  }

  /** The three `initialize` calls of `preloadAllModels`, in order. */
  function PreloadCalls(config: PipelineConfig): seq<Action> {
    [InitEngine(SttRole, SttModelId(config.sourceLanguage), SttInitConfig(config)),
     InitEngine(TranslationRole, TranslationModelId(config.sourceLanguage, config.targetLanguage), Engine.EmptyConfig),
     InitEngine(TtsRole, TtsModelId(config.targetLanguage), Engine.EmptyConfig)]
  }

  /** What `initialize` leaves behind, and the exception that escapes it to
      the caller (there is no catch). */
  datatype InitOutcome = InitOutcome(outcome: Outcome, thrown: Option<Fault>)

  /** `initialize(config)`: CONCURRENT preloads the recognizer, the translator
      and the voice, stopping at the first `initialize` that throws; SEQUENTIAL
      does nothing. */
  function Initialize(p: Pipeline, config: PipelineConfig, fault: Option<Fault>): (r: InitOutcome)
    ensures p.strategy == SEQUENTIAL ==> r.outcome.pipeline == p && r.outcome.calls == [] && r.thrown.None?
    // one of the three preload calls throws exactly when the fault falls on it, and that exception escapes
    ensures p.strategy == CONCURRENT ==> (r.thrown.Some? <==> fault.Some? && fault.value.call < 3)
    ensures r.thrown.Some? ==> r.thrown == fault
    ensures p.strategy == CONCURRENT && r.thrown.None? ==>
              r.outcome.pipeline.engines == Engines(true, true, true) && r.outcome.calls == PreloadCalls(config)
    // a throwing call ends the preload: later engines are not initialized and the failed one is not ready
    ensures r.thrown.Some? ==>
              && r.outcome.calls == PreloadCalls(config)[..fault.value.call + 1]
              && (fault.value.call == 0 ==> !r.outcome.pipeline.engines.stt)
              && (fault.value.call == 1 ==> r.outcome.pipeline.engines.stt && !r.outcome.pipeline.engines.translation)
              && (fault.value.call == 2 ==> r.outcome.pipeline.engines.stt && r.outcome.pipeline.engines.translation
                                            && !r.outcome.pipeline.engines.tts)
    ensures r.outcome.trace == [] && r.outcome.pipeline.state == p.state && r.outcome.pipeline.running == p.running
  {
    if p.strategy == SEQUENTIAL then InitOutcome(Outcome(p, [], [], ReadyCount(p.engines)), None)
    else
      var x := Preload(p.engines, config, fault);
      InitOutcome(Outcome(p.(engines := x.engines), [], x.calls, x.peak), x.thrown)
  }

  /** `preloadAllModels`: the three initializations in order, up to the first
      one that throws. */
  function Preload(e: Engines, config: PipelineConfig, fault: Option<Fault>): (x: Exec)
    ensures x.trace == []
    ensures x.thrown.Some? <==> fault.Some? && fault.value.call < 3
    ensures x.thrown.Some? ==> x.thrown == fault && x.calls == PreloadCalls(config)[..fault.value.call + 1]
    ensures x.thrown.None? ==> x.calls == PreloadCalls(config) && x.engines == Engines(true, true, true)
    ensures x.thrown.Some? && fault.value.call == 0 ==> !x.engines.stt
    ensures x.thrown.Some? && fault.value.call == 1 ==> x.engines.stt && !x.engines.translation
    ensures x.thrown.Some? && fault.value.call == 2 ==> x.engines.stt && x.engines.translation && !x.engines.tts
  {
    var calls := PreloadCalls(config);
    var x1 := Do(Begin(e), calls[0], fault);
    var x2 := Do(x1, calls[1], fault);
    var x3 := Do(x2, calls[2], fault);
    assert calls[..1] == [calls[0]] && calls[..2] == [calls[0], calls[1]] && calls[..3] == calls;
    x3
  }

  /** What `translateText` returns: the translation, or the exception that
      escapes it (there is no catch). */
  datatype TextOutcome = TextOutcome(outcome: Outcome, result: Option<TranslationEngines.TranslationResult>,
                                     thrown: Option<Fault>)

  /** The speaking branch of `translateText`: Speaking; SEQUENTIAL swaps the
      translator for the voice of `to`; synthesis and playback; SEQUENTIAL
      releases the voice. */
  function SpeakTranslation(sequential: bool, x: Exec, to: string, translated: TranslationEngines.TranslationResult,
                            fault: Option<Fault>): (r: Exec)
    requires x.thrown.None? && Tracked(x)
    ensures Tracked(r) && r.peak >= x.peak
    ensures r.trace == x.trace + [Speaking]
    ensures r.thrown.Some? ==> r.thrown == fault
    ensures fault.None? ==> r.thrown.None?
    ensures |r.calls| >= |x.calls| && r.calls[..|x.calls|] == x.calls
    ensures r.thrown.None? ==>
              r.calls == x.calls
                         + (if sequential then [ReleaseEngine(TranslationRole), InitEngine(TtsRole, TtsModelId(to), Engine.EmptyConfig)] else [])
                         + [SynthesizeCall(translated.translatedText, to), PlayCall]
                         + (if sequential then [ReleaseEngine(TtsRole)] else [])
    ensures !sequential ==> r.engines == x.engines && r.peak == x.peak
    ensures !sequential && NoLoads(x.calls) ==> NoLoads(r.calls)
  {
    var y1 := Pub(x, Speaking);
    var y2 := if sequential then
                Do(ReleaseStep(y1, TranslationRole, false), InitEngine(TtsRole, TtsModelId(to), Engine.EmptyConfig), fault)
              else y1;
    var y3 := Do(Do(y2, SynthesizeCall(translated.translatedText, to), fault), PlayCall, fault);
    var r := if sequential then ReleaseStep(y3, TtsRole, false) else y3;
    assert r.calls[..|x.calls|] == x.calls;
    r
  }

  /** The first half of `translateText`: Translating, the translator loaded
      under SEQUENTIAL, the translation, Translated. */
  function TranslateStep(sequential: bool, x0: Exec, text: string, from: string, to: string,
                         translated: TranslationEngines.TranslationResult, fault: Option<Fault>): (r: Exec)
    requires x0.thrown.None? && Tracked(x0) && x0.trace == [] && x0.calls == []
    ensures Tracked(r) && r.peak >= x0.peak
    ensures r.thrown.Some? ==> r.thrown == fault
    ensures fault.None? ==> r.thrown.None?
    ensures |r.trace| >= 1 && r.trace[0] == Translating
    ensures r.thrown.None? ==> r.trace == [Translating, Translated(translated)] && TranslateCall(text, from, to) in r.calls
    ensures r.thrown.Some? ==>
              (TranslateCall(text, from, to) in r.calls
               || (sequential && r.calls == [InitEngine(TranslationRole, TranslationModelId(from, to), Engine.EmptyConfig)]))
    ensures !sequential ==> r.engines == x0.engines && r.peak == x0.peak && NoLoads(r.calls)
  {
    var x1 := Pub(x0, Translating);
    var x2 := if sequential then Do(x1, InitEngine(TranslationRole, TranslationModelId(from, to), Engine.EmptyConfig), fault) else x1;
    var x3 := Do(x2, TranslateCall(text, from, to), fault);
    assert x2.thrown.None? ==> TranslateCall(text, from, to) in x3.calls;
    Pub(x3, Translated(translated))
  }

  /** All of `translateText`'s calls and states. */
  function TranslateTextExec(sequential: bool, x0: Exec, text: string, from: string, to: string, speakResult: bool,
                             translated: TranslationEngines.TranslationResult, fault: Option<Fault>): (r: Exec)
    requires x0.thrown.None? && Tracked(x0) && x0.trace == [] && x0.calls == []
    ensures Tracked(r) && r.peak >= x0.peak
    ensures r.thrown.Some? ==> r.thrown == fault
    ensures fault.None? ==> r.thrown.None?
    ensures |r.trace| >= 1 && r.trace[0] == Translating
    ensures r.thrown.None? ==> r.trace == [Translating, Translated(translated)]
                                           + (if speakResult then [Speaking] else []) + [Idle]
    ensures TranslateCall(text, from, to) in r.calls
            || (sequential && r.calls == [InitEngine(TranslationRole, TranslationModelId(from, to), Engine.EmptyConfig)])
    ensures !sequential ==> r.engines == x0.engines && r.peak == x0.peak && NoLoads(r.calls)
  {
    var x4 := TranslateStep(sequential, x0, text, from, to, translated, fault);
    if x4.thrown.Some? then x4
    else
      var x5 :=
        if speakResult then SpeakTranslation(sequential, x4, to, translated, fault)
        else if sequential then ReleaseStep(x4, TranslationRole, false)
        else x4;
      assert x5.calls[..|x4.calls|] == x4.calls;
      assert TranslateCall(text, from, to) in x5.calls;
      var r := Pub(x5, Idle);
      assert r.trace[0] == Translating;
      r
  }

  /** `translateText(text, from, to, speakResult)`, with `translated` the
      engine's answer: publish Translating and Translated, speak when asked,
      publish Idle, and return the translation. An exception from any call
      escapes, leaving the last state published. */
  function TranslateText(p: Pipeline, text: string, from: string, to: string, speakResult: bool,
                         translated: TranslationEngines.TranslationResult, fault: Option<Fault>): (r: TextOutcome)
    ensures r.thrown.Some? <==> r.result.None?
    ensures r.thrown.Some? ==> r.thrown == fault
    ensures fault.None? ==> r.result == Some(translated)
    ensures r.result.Some? ==> r.result.value == translated
    ensures |r.outcome.trace| >= 1 && r.outcome.trace[0] == Translating
    ensures r.outcome.pipeline.state == r.outcome.trace[|r.outcome.trace| - 1]
    ensures r.result.Some? ==> r.outcome.trace == [Translating, Translated(translated)]
                                                  + (if speakResult then [Speaking] else []) + [Idle]
    ensures TranslateCall(text, from, to) in r.outcome.calls
            || (p.strategy == SEQUENTIAL && r.outcome.calls == [InitEngine(TranslationRole, TranslationModelId(from, to), Engine.EmptyConfig)])
    ensures p.strategy == CONCURRENT ==> r.outcome.pipeline.engines == p.engines && NoLoads(r.outcome.calls)
    ensures r.outcome.pipeline.running == p.running
  {
    var x := TranslateTextExec(p.strategy == SEQUENTIAL, Begin(p.engines), text, from, to, speakResult, translated, fault);
    var out := Outcome(p.(state := x.trace[|x.trace| - 1], engines := x.engines), x.trace, x.calls, x.peak);
    TextOutcome(out, if x.thrown.Some? then None else Some(translated), x.thrown)
  }

  /** Only the translator may be ready. */
  predicate TranslatorAtMost(e: Engines) { !e.stt && !e.tts }

  lemma TranslateStepOneAtATime(x0: Exec, text: string, from: string, to: string,
                                translated: TranslationEngines.TranslationResult, fault: Option<Fault>)
    requires x0.thrown.None? && x0.trace == [] && x0.calls == [] && ReadyCount(x0.engines) == 0 && x0.peak <= 1
    ensures var r := TranslateStep(true, x0, text, from, to, translated, fault);
            r.peak <= 1 && TranslatorAtMost(r.engines)
  {
  }

  lemma SpeakTranslationOneAtATime(x: Exec, to: string, translated: TranslationEngines.TranslationResult,
                                   fault: Option<Fault>)
    requires x.thrown.None? && Tracked(x) && TranslatorAtMost(x.engines) && x.peak <= 1
    ensures var r := SpeakTranslation(true, x, to, translated, fault);
            r.peak <= 1 && (r.thrown.None? ==> ReadyCount(r.engines) == 0)
  {
  }

  /** SEQUENTIAL `translateText` from no engine loaded keeps one engine loaded
      at a time and, when it returns, leaves none loaded. */
  lemma TranslateTextOneAtATime(p: Pipeline, text: string, from: string, to: string, speakResult: bool,
                                translated: TranslationEngines.TranslationResult, fault: Option<Fault>)
    requires p.strategy == SEQUENTIAL && ReadyCount(p.engines) == 0
    ensures var r := TranslateText(p, text, from, to, speakResult, translated, fault);
            r.outcome.peak <= 1 && (r.result.Some? ==> ReadyCount(r.outcome.pipeline.engines) == 0)
  {
    var x0 := Begin(p.engines);
    TranslateStepOneAtATime(x0, text, from, to, translated, fault);
    var x4 := TranslateStep(true, x0, text, from, to, translated, fault);
    if x4.thrown.None? && speakResult {
      SpeakTranslationOneAtATime(x4, to, translated, fault);
    }
  }
}
