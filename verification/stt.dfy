/**
 * The speech-to-text engine vocabulary (STTEngine.kt) and the recognition logic
 * the Android and iOS Sherpa-ONNX engines share line for line: audio gating,
 * the Whisper buffer, the final decode on stop, and `release`
 * (AndroidSTTEngine.kt, IOSSTTEngine.kt).
 *
 * The native recognizers are oracles: a decode yields a `Hypothesis`. Which
 * native handles exist is kept as three flags. Audio is kept as the raw 16-bit
 * samples; their conversion to floats is not modelled. The engine's
 * `resultFlow` is the sequence of everything emitted into it.
 */
module Stt {
  import opened Wrappers
  import opened Text
  import Engine

  datatype STTConfig = STTConfig(language: string := "en", sampleRate: int := 16000, enablePunctuation: bool := true)

  /** A confidence is a float in the source; it is kept as an exact real. */
  datatype STTResult = STTResult(text: string, isFinal: bool, language: Option<string> := None,
                                 confidence: Option<real> := None)

  /** What a native decode reports: the recognized text and, for the streaming
      model, whether an endpoint was detected. */
  datatype Hypothesis = Hypothesis(text: string, endpoint: bool)

  const Zipformer: string := "zipformer"
  const Whisper: string := "whisper"

  datatype SttState = SttState(
    initialized: bool,
    modelId: Option<string>,
    modelType: string,
    language: string,
    recognizing: bool,
    sampleRate: int,
    buffer: seq<int>,         // whisperAudioBuffer, as the raw samples
    estimate: int,            // estimatedMemory
    online: bool,             // onlineRecognizer != null
    offline: bool,            // offlineRecognizer != null
    stream: bool,             // onlineStream != null
    emitted: seq<STTResult>)  // everything emitted into resultFlow

  /** The field initialisers of a freshly constructed engine. */
  function NewEngine(estimate: int): (s: SttState)
    ensures !s.initialized && !s.recognizing && s.modelId.None? && s.buffer == [] && s.emitted == []
    ensures s.modelType == Whisper && s.language == "en" && s.sampleRate == 16000 && s.estimate == estimate
    ensures !s.online && !s.offline && !s.stream
  {
    SttState(false, None, Whisper, "en", false, 16000, [], estimate, false, false, false, [])
  }

  /** `getMemoryUsageBytes`. */
  function MemoryUsage(s: SttState): (u: int)
    ensures Engine.HonoursMemoryContract(s.initialized, u, s.estimate)
  {
    if s.initialized then s.estimate else 0
  }

  /** The float test `buffer.size / sampleRate >= 3.0f` read over the reals:
      with a positive rate it is `size >= 3 * rate`; a zero rate divides to
      +infinity for a non-empty buffer and to NaN for an empty one; a negative
      rate never passes. */
  predicate ThreeSecondsBuffered(size: nat, rate: int) {
    (rate > 0 && size >= 3 * rate) || (rate == 0 && size > 0)
  }

  predicate Trimmed(t: string) { Trim(t) == t }

  /** The emission pattern shared by every decode site: nothing for an empty
      hypothesis, otherwise one result with the trimmed text. */
  function Emit(emitted: seq<STTResult>, raw: string, isFinal: bool, language: string): (r: seq<STTResult>)
    ensures |r| == |emitted| + (if raw == [] then 0 else 1) && emitted <= r
    ensures |r| > |emitted| ==>
              var e := r[|emitted|];
              e.isFinal == isFinal && e.language == Some(language) && e.confidence.None?
              && Trimmed(e.text)
              // exactly the white space at either end of the hypothesis is cut
              && exists k :: SliceAt(raw, k, e.text) && IsBlank(raw[..k]) && IsBlank(raw[k + |e.text|..])
  {
    if raw == [] then emitted
    else
      var t := Trim(raw);
      TrimOfTrimmed(t);
      var k :| SliceAt(raw, k, t) && IsBlank(raw[..k]) && IsBlank(raw[k + |t|..]);
      emitted + [STTResult(t, isFinal, Some(language), None)]
  }

  /** `r` is `s` with at most one new emission: final when `final` says so,
      trimmed, tagged with the engine's language, and without confidence. */
  predicate EmitsAtMostOnce(s: SttState, r: SttState, final: bool) {
    && s.emitted <= r.emitted
    && |r.emitted| <= |s.emitted| + 1
    && (|r.emitted| > |s.emitted| ==>
          var e := r.emitted[|s.emitted|];
          && (final ==> e.isFinal)
          && Trimmed(e.text) && e.language == Some(s.language) && e.confidence.None?)
  }

  /** `decodeWhisperBuffer(isFinal)`: nothing without an offline recognizer or
      with an empty buffer; otherwise decode, emit, and clear only when final. */
  function DecodeWhisper(s: SttState, isFinal: bool, h: Hypothesis): (r: SttState)
    ensures !s.offline || s.buffer == [] ==> r == s
    ensures r.buffer == s.buffer || (isFinal && r.buffer == [])
    ensures !isFinal ==> r.buffer == s.buffer
    ensures EmitsAtMostOnce(s, r, isFinal) && (|r.emitted| > |s.emitted| ==> r.emitted[|s.emitted|].isFinal == isFinal)
    ensures r.(emitted := s.emitted, buffer := s.buffer) == s
  {
    if !s.offline || |s.buffer| == 0 then s
    else
      var s1 := s.(emitted := Emit(s.emitted, h.text, isFinal, s.language));
      if isFinal then s1.(buffer := []) else s1
  }

  /** `processAudioData`: ignored unless recognizing and initialized, and for a
      model type other than the two known ones. A streaming chunk needs a
      stream and may emit; a Whisper chunk is buffered and decoded (not final)
      once three seconds are held. */
  function ProcessAudio(s: SttState, audio: seq<int>, h: Hypothesis): (r: SttState)
    ensures !s.recognizing || !s.initialized ==> r == s
    ensures s.modelType != Zipformer && s.modelType != Whisper ==> r == s
    ensures s.modelType == Zipformer && !s.stream ==> r == s
    // the buffer is only ever appended to here
    ensures r.buffer == s.buffer || r.buffer == s.buffer + audio
    ensures s.recognizing && s.initialized && s.modelType == Whisper ==> r.buffer == s.buffer + audio
    ensures EmitsAtMostOnce(s, r, false)
    // a Whisper chunk emits only a partial result, and only with three seconds held
    ensures s.modelType == Whisper && |r.emitted| > |s.emitted| ==>
              !r.emitted[|s.emitted|].isFinal && ThreeSecondsBuffered(|r.buffer|, s.sampleRate)
    ensures r.(emitted := s.emitted, buffer := s.buffer) == s
  {
    if !s.recognizing || !s.initialized then s
    else if s.modelType == Zipformer then
      if !s.stream || !s.online then s
      else s.(emitted := Emit(s.emitted, h.text, h.endpoint, s.language))
    else if s.modelType == Whisper then
      var s1 := s.(buffer := s.buffer + audio);
      if ThreeSecondsBuffered(|s1.buffer|, s1.sampleRate) then DecodeWhisper(s1, false, h) else s1
    else s
  }

  /** `stopRecognition`: a no-op unless recognizing. A streaming session gets a
      last final result and loses its stream; a Whisper session gets its final
      decode, the only place the buffer is cleared. */
  function StopRecognition(s: SttState, h: Hypothesis): (r: SttState)
    ensures !s.recognizing ==> r == s
    ensures !r.recognizing
    ensures s.recognizing && s.modelType == Zipformer ==> !r.stream
    ensures r.buffer == s.buffer || (r.buffer == [] && s.recognizing && s.modelType == Whisper && s.offline)
    ensures EmitsAtMostOnce(s, r, true)
    ensures r.(emitted := s.emitted, buffer := s.buffer, recognizing := s.recognizing, stream := s.stream) == s
  {
    if !s.recognizing then s
    else
      var s1 := s.(recognizing := false);
      if s.modelType == Zipformer then
        var s2 := if s1.stream && s1.online then s1.(emitted := Emit(s1.emitted, h.text, true, s1.language)) else s1;
        s2.(stream := false)
      else if s.modelType == Whisper then DecodeWhisper(s1, true, h)
      else s1
  }

  /** `release`: stop, drop both recognizers, and forget the model and the
      buffer. The estimate of the last model is kept. */
  function Release(s: SttState, h: Hypothesis): (r: SttState)
    ensures !r.initialized && !r.recognizing && r.modelId.None? && r.buffer == []
    ensures !r.online && !r.offline
    ensures MemoryUsage(r) == 0 && r.estimate == s.estimate
    ensures r.modelType == s.modelType && r.language == s.language && r.sampleRate == s.sampleRate
    ensures EmitsAtMostOnce(s, r, true)
    ensures !s.recognizing ==> r.emitted == s.emitted
  {
    StopRecognition(s, h).(online := false, offline := false, initialized := false, modelId := None, buffer := [])
  }

  /** `release` is safe to repeat: the second call finds nothing recognizing
      and changes nothing. */
  lemma ReleaseIdempotent(s: SttState, h: Hypothesis, h': Hypothesis)
    ensures Release(Release(s, h), h') == Release(s, h)
  {
  }

  /** Every result in the flow carries trimmed text. */
  predicate AllTrimmed(emitted: seq<STTResult>) {
    forall i :: 0 <= i < |emitted| ==> Trimmed(emitted[i].text)
  }

  lemma EmitsKeepTrimmed(s: SttState, r: SttState, final: bool)
    requires AllTrimmed(s.emitted) && EmitsAtMostOnce(s, r, final)
    ensures AllTrimmed(r.emitted)
  {
    forall i | 0 <= i < |r.emitted| ensures Trimmed(r.emitted[i].text) {
      if i < |s.emitted| {
        assert r.emitted[i] == s.emitted[i];
      }
    }
  }
}
