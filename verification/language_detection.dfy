/**
 * The language-detection decision both `LanguageDetector` implementations
 * share (LanguageDetector.android.kt, LanguageDetector.ios.kt): score each
 * supported language that has model paths, keep the scores in an
 * insertion-ordered map, take the first highest score, and accept it only
 * above 3 tenths. How a language is scored is a parameter; the two platforms'
 * scorers are in `AndroidDetector` and `IosDetector`.
 */
module LanguageDetection {
  import opened Wrappers
  import opened Speech

  /** One entry of the `scores` map: a language and its score in tenths. */
  datatype Scored = Scored(language: RecognitionLanguage, tenths: nat)

  /** Scores above this many tenths (0.3f) are accepted. */
  const Threshold: nat := 3

  /** How each language scores on the audio at hand: None when it is skipped. */
  type Scorer = RecognitionLanguage -> Option<nat>

  predicate HasKey(scores: seq<Scored>, l: RecognitionLanguage) {
    exists i :: 0 <= i < |scores| && scores[i].language == l
  }

  /** A key other than the first entry's is a key of the rest. */
  lemma HasKeyPastHead(scores: seq<Scored>, l: RecognitionLanguage)
    requires |scores| > 0 && scores[0].language != l
    ensures HasKey(scores, l) <==> HasKey(scores[1..], l)
  {
    if HasKey(scores, l) {
      var i :| 0 <= i < |scores| && scores[i].language == l;
      assert scores[1..][i - 1].language == l;
    }
    if HasKey(scores[1..], l) {
      var i :| 0 <= i < |scores| - 1 && scores[1..][i].language == l;
      assert scores[i + 1].language == l;
    }
  }

  predicate DistinctKeys(scores: seq<Scored>) {
    forall i, j :: 0 <= i < j < |scores| ==> scores[i].language != scores[j].language
  }

  /** `scores[l] = v` on Kotlin's insertion-ordered `mutableMapOf`: an existing
      key keeps its place and takes the new value; a new key goes last. */
  function Put(scores: seq<Scored>, l: RecognitionLanguage, v: nat): (r: seq<Scored>)
    requires DistinctKeys(scores)
    ensures DistinctKeys(r)
    ensures forall i :: 0 <= i < |r| ==> r[i].language == l || (i < |scores| && r[i] == scores[i])
    ensures !HasKey(scores, l) ==> r == scores + [Scored(l, v)]
    ensures HasKey(scores, l) ==>
              (|r| == |scores| &&
               forall i :: 0 <= i < |r| ==> r[i] == (if scores[i].language == l then Scored(l, v) else scores[i]))
  {
    if |scores| == 0 then [Scored(l, v)]
    else if scores[0].language == l then [Scored(l, v)] + scores[1..]
    else
      var tail := Put(scores[1..], l, v);
      HasKeyPastHead(scores, l);
      var r := [scores[0]] + tail;
      assert forall i :: 1 <= i < |r| ==> r[i] == tail[i - 1];
      r
  }

  /** The position of the first occurrence of `l`. */
  function FirstIndex(langs: seq<RecognitionLanguage>, l: RecognitionLanguage): (k: nat)
    requires l in langs
    ensures k < |langs| && langs[k] == l && forall j :: 0 <= j < k ==> langs[j] != l
  {
    if langs[0] == l then 0 else 1 + FirstIndex(langs[1..], l)
  }

  /** The first occurrence of `l` in a prefix that holds it is its first occurrence. */
  lemma FirstIndexInPrefix(langs: seq<RecognitionLanguage>, n: nat, l: RecognitionLanguage)
    requires n <= |langs| && l in langs[..n]
    ensures l in langs && FirstIndex(langs, l) == FirstIndex(langs[..n], l)
  {
    var k := FirstIndex(langs[..n], l);
    assert langs[k] == l;
  }

  /** The `for` loop over the supported languages: the scores map after it,
      one entry per scored language. */
  function ScoreAll(langs: seq<RecognitionLanguage>, score: Scorer): (r: seq<Scored>)
    ensures DistinctKeys(r)
    ensures forall i :: 0 <= i < |r| ==> r[i].language in langs && score(r[i].language) == Some(r[i].tenths)
    ensures forall l :: l in langs && score(l).Some? ==> HasKey(r, l)
    decreases |langs|
  {
    if |langs| == 0 then []
    else
      var n := |langs| - 1;
      var prefix := langs[..n];
      var prev := ScoreAll(prefix, score);
      var l := langs[n];
      assert forall x :: x in langs <==> x in prefix || x == l;
      match score(l)
      case None => prev
      case Some(v) =>
        var r := Put(prev, l, v);
        if HasKey(prev, l) then
          assert r == prev;
          r
        else
          assert r[|prev|].language == l;
          assert forall x :: HasKey(prev, x) ==> HasKey(r, x) by {
            forall x | HasKey(prev, x) ensures HasKey(r, x) {
              var i :| 0 <= i < |prev| && prev[i].language == x;
              assert r[i] == prev[i];
            }
          }
          r
  }

  /** The map's entries are in order of the languages' first occurrence in the
      list, as the loop inserts them: of two entries, the earlier one's
      language occurs first. */
  lemma {:induction false} ScoreAllOrdered(langs: seq<RecognitionLanguage>, score: Scorer, i: nat, j: nat)
    requires i < j < |ScoreAll(langs, score)|
    ensures FirstIndex(langs, ScoreAll(langs, score)[i].language) < FirstIndex(langs, ScoreAll(langs, score)[j].language)
    decreases |langs|
  {
    assert |langs| > 0;
    var n := |langs| - 1;
    var prev := ScoreAll(langs[..n], score);
    var r := ScoreAll(langs, score);
    ScoreAllStep(langs, score);
    assert r[i] == prev[i];
    FirstIndexInPrefix(langs, n, prev[i].language);
    if j < |prev| {
      assert r[j] == prev[j];
      ScoreAllOrdered(langs[..n], score, i, j);
      FirstIndexInPrefix(langs, n, prev[j].language);
    } else {
      assert r[j].language == langs[n] && langs[n] !in langs[..n];
      FirstIndexOfNewcomer(langs, n);
    }
  }

  /** One turn of the loop: the last language, when scored and new, is
      appended; otherwise the map is unchanged. */
  lemma ScoreAllStep(langs: seq<RecognitionLanguage>, score: Scorer)
    requires |langs| > 0
    ensures var prev := ScoreAll(langs[..|langs| - 1], score);
            var l := langs[|langs| - 1];
            ScoreAll(langs, score)
            == if score(l).Some? && !HasKey(prev, l) then prev + [Scored(l, score(l).value)] else prev
  {
  }

  /** A language absent from the first `n` positions occurs first at `n`. */
  lemma FirstIndexOfNewcomer(langs: seq<RecognitionLanguage>, n: nat)
    requires n < |langs| && langs[n] !in langs[..n]
    ensures FirstIndex(langs, langs[n]) == n
  {
  }

  /** `maxByOrNull { it.value }` scanning from position `i` with the best so
      far at `best`: a later entry replaces it only when strictly greater. */
  function MaxIndexFrom(scores: seq<Scored>, i: nat, best: nat): (k: nat)
    requires best < i <= |scores|
    requires forall j :: 0 <= j < i ==> scores[j].tenths <= scores[best].tenths
    requires forall j :: 0 <= j < best ==> scores[j].tenths < scores[best].tenths
    ensures k < |scores|
    ensures forall j :: 0 <= j < |scores| ==> scores[j].tenths <= scores[k].tenths
    ensures forall j :: 0 <= j < k ==> scores[j].tenths < scores[k].tenths
    decreases |scores| - i
  {
    if i == |scores| then best
    else if scores[best].tenths < scores[i].tenths then MaxIndexFrom(scores, i + 1, i)
    else MaxIndexFrom(scores, i + 1, best)
  }

  /** The position of the first highest score. */
  function MaxIndex(scores: seq<Scored>): (k: nat)
    requires |scores| > 0
    ensures k < |scores|
    ensures forall j :: 0 <= j < |scores| ==> scores[j].tenths <= scores[k].tenths
    ensures forall j :: 0 <= j < k ==> scores[j].tenths < scores[k].tenths
  {
    MaxIndexFrom(scores, 1, 0)
  }

  /** No scores: Unsupported; otherwise the first best, if above the threshold. */
  function Decide(scores: seq<Scored>): LanguageDetectionResult {
    if |scores| == 0 then Unsupported
    else
      var k := MaxIndex(scores);
      if scores[k].tenths > Threshold then Detected(scores[k].language, scores[k].tenths) else Unsupported
  }

  /** `detectLanguage(audioData, supportedLanguages)` with the per-language
      scores given. */
  function Detect(audio: seq<int>, supported: seq<RecognitionLanguage>, score: Scorer): LanguageDetectionResult {
    if |audio| == 0 then DetectionError("Empty audio data")
    else Decide(ScoreAll(supported, score))
  }

  /** A supported language that gets a score, and that score. */
  predicate ScoresAs(supported: seq<RecognitionLanguage>, score: Scorer, l: RecognitionLanguage, v: nat) {
    l in supported && score(l) == Some(v)
  }

  /** Every scored language has its entry in the scores map, at position `i`. */
  lemma EntryOf(supported: seq<RecognitionLanguage>, score: Scorer, l: RecognitionLanguage, v: nat)
    returns (i: nat)
    requires ScoresAs(supported, score, l, v)
    ensures i < |ScoreAll(supported, score)| && ScoreAll(supported, score)[i] == Scored(l, v)
  {
    var scores := ScoreAll(supported, score);
    assert HasKey(scores, l);
    i :| 0 <= i < |scores| && scores[i].language == l;
  }

  /** The first best entry of the scores map beats or ties every scored
      language, and beats every one listed earlier. */
  lemma BestEntry(supported: seq<RecognitionLanguage>, score: Scorer)
    requires |ScoreAll(supported, score)| > 0
    ensures var scores := ScoreAll(supported, score);
            var best := scores[MaxIndex(scores)];
            && ScoresAs(supported, score, best.language, best.tenths)
            && (forall l: RecognitionLanguage, v: nat :: ScoresAs(supported, score, l, v) ==> v <= best.tenths)
            && (forall l: RecognitionLanguage :: ScoresAs(supported, score, l, best.tenths) ==>
                  FirstIndex(supported, best.language) <= FirstIndex(supported, l))
  {
    var scores := ScoreAll(supported, score);
    var k := MaxIndex(scores);
    forall l: RecognitionLanguage, v: nat | ScoresAs(supported, score, l, v)
      ensures v <= scores[k].tenths
      ensures v == scores[k].tenths ==> FirstIndex(supported, scores[k].language) <= FirstIndex(supported, l)
    {
      var i := EntryOf(supported, score, l, v);
      if v == scores[k].tenths && i != k {
        ScoreAllOrdered(supported, score, k, i);
      }
    }
  }

  /** The detection decision, stated against the scores alone: empty audio is
      an error; otherwise the result is the supported language with the highest
      score (the earliest in the list among equals) when that score is above 3
      tenths, and Unsupported exactly when no supported language scores above
      3 tenths (in particular when none is scored at all). */
  lemma DetectPicksFirstBest(audio: seq<int>, supported: seq<RecognitionLanguage>, score: Scorer)
    ensures Detect(audio, supported, score).DetectionError? <==> |audio| == 0
    ensures Detect(audio, supported, score).Unsupported? <==>
              |audio| > 0 && forall l :: l in supported && score(l).Some? ==> score(l).value <= Threshold
    ensures var r := Detect(audio, supported, score);
            r.Detected? ==>
              && ScoresAs(supported, score, r.language, r.confidence)
              && r.confidence > Threshold
              && (forall l: RecognitionLanguage, v: nat :: ScoresAs(supported, score, l, v) ==> v <= r.confidence)
              && (forall l: RecognitionLanguage :: ScoresAs(supported, score, l, r.confidence) ==>
                               FirstIndex(supported, r.language) <= FirstIndex(supported, l))
  {
    if |audio| > 0 {
      var scores := ScoreAll(supported, score);
      if |scores| > 0 {
        BestEntry(supported, score);
        forall l | l in supported && score(l).Some?
          ensures score(l).value <= scores[MaxIndex(scores)].tenths
        {
          assert ScoresAs(supported, score, l, score(l).value);
        }
      }
    }
  }

  /** A language that is skipped, or scores 3 tenths or less, is never detected. */
  lemma LowScoreNeverDetected(audio: seq<int>, supported: seq<RecognitionLanguage>, score: Scorer,
                              l: RecognitionLanguage)
    requires score(l).None? || score(l).value <= Threshold
    ensures var r := Detect(audio, supported, score);
            r.Detected? ==> r.language != l
  {
    DetectPicksFirstBest(audio, supported, score);
  }

  /** Kotlin's `Int` multiplication: the exact product wrapped to 32 bits. */
  function Int32(x: int): (r: int)
    ensures -0x8000_0000 <= r < 0x8000_0000
    ensures -0x8000_0000 <= x < 0x8000_0000 ==> r == x
    // the value Kotlin keeps differs from the exact one by a multiple of 2^32
    ensures (x - r) % 0x1_0000_0000 == 0
  {
    (x + 0x8000_0000) % 0x1_0000_0000 - 0x8000_0000
  }

  /** The samples `detectLanguageFromStream` hands on: at most
      `16000 * durationSeconds` (an `Int` product) from the front. `take` of a
      negative count throws, which is None here. */
  function StreamSamples(audio: seq<int>, durationSeconds: int): (r: Option<seq<int>>)
    ensures r.Some? ==> r.value <= audio
    ensures 0 <= durationSeconds <= MaxWholeDuration ==>
              r.Some? && |r.value| == (if |audio| < 16000 * durationSeconds then |audio| else 16000 * durationSeconds)
    ensures -(MaxWholeDuration as int) <= durationSeconds < 0 ==> r.None?
  {
    var maxSamples := Int32(16000 * durationSeconds);
    if |audio| > maxSamples then
      if maxSamples < 0 then None else Some(audio[..maxSamples])
    else Some(audio)
  }

  /** The longest duration whose sample count fits in an `Int`. */
  const MaxWholeDuration: nat := 134217

  /** Durations past `MaxWholeDuration` wrap: one second more gives a negative
      count, and `take` throws. */
  lemma LongDurationWraps(audio: seq<int>)
    ensures StreamSamples(audio, MaxWholeDuration + 1).None?
  {
  }

  /** A zero duration keeps no samples, so detection always reports empty audio. */
  lemma ZeroDurationIsEmpty(audio: seq<int>, supported: seq<RecognitionLanguage>, score: Scorer)
    ensures StreamSamples(audio, 0) == Some([])
    ensures Detect([], supported, score) == DetectionError("Empty audio data")
  {
  }

  /** The `sherpa-onnx` model directory name of the two languages with models. */
  function DirName(l: RecognitionLanguage): string {
    if l == Turkish then "turkish" else "english"
  }
}

/**
 * `AndroidLanguageDetector` (LanguageDetector.android.kt): one short
 * streaming recognition per language, scored by the length of its text
 * against the audio's duration.
 */
module AndroidDetector {
  import opened Wrappers
  import opened Speech
  import opened LanguageDetection
  import Text

  /** How one language's recognition attempt went: the text it produced; an
      exception inside the attempt (caught there, scoring 0); or an exception
      out of the attempt's cleanup, which skips the language. */
  datatype Attempt = Recognized(text: string) | Failed | Escaped

  /** `(audioLength / 16000.0 * 5).toInt()`: about 5 characters per second. */
  function ExpectedLength(audioLength: nat): nat { audioLength * 5 / 16000 }

  /** `text.length`: Kotlin strings count UTF-16 code units, so a character
      beyond the Basic Multilingual Plane (an emoji, say) counts twice. */
  function TextLength(text: string): nat { Text.Utf16Length(text) }

  /** `calculateConfidenceScore`, in tenths. */
  function ConfidenceScore(text: string, audioLength: nat): (t: nat)
    ensures t == 0 <==> |text| == 0
    ensures t in {0, 3, 5, 8}
    ensures |text| > 0 && TextLength(text) < ExpectedLength(audioLength) / 2 ==> t == 3
    ensures TextLength(text) > 2 * ExpectedLength(audioLength) ==> t == 5
    ensures t == 8 <==> |text| > 0 && ExpectedLength(audioLength) / 2 <= TextLength(text) <= 2 * ExpectedLength(audioLength)
  {
    if |text| == 0 then 0
    else
      var textLength := TextLength(text);
      var expected := ExpectedLength(audioLength);
      if textLength < expected / 2 then 3
      else if textLength > expected * 2 then 5
      else 8
  }

  /** An emoji is one character but two code units: on one second of audio
      (expected length 5) it fits the expected length and scores 0.8, where a
      count of characters would have scored it 0.3. */
  lemma SurrogatePairCountsTwice()
    ensures TextLength("\U{1F600}") == 2 && |"\U{1F600}"| == 1
    ensures ConfidenceScore("\U{1F600}", 16000) == 8
  {
    assert "\U{1F600}"[1..] == [];
  }

  /** Audio under a fifth of a second expects no text at all, so any text
      counts as too long and scores 5. */
  lemma ShortAudioScoresHalf(text: string, audioLength: nat)
    requires |text| > 0 && audioLength < 3200
    ensures ConfidenceScore(text, audioLength) == 5
  {
  }

  function AttemptScore(a: Attempt, audioLength: nat): Option<nat> {
    match a
    case Recognized(text) => Some(ConfidenceScore(text, audioLength))
    case Failed => Some(0)
    case Escaped => None
  }

  /** The scorer: a language without model paths is skipped. */
  function Scorer(paths: map<RecognitionLanguage, ModelPaths>, attempt: RecognitionLanguage -> Attempt,
                  audioLength: nat): LanguageDetection.Scorer
  {
    l => if l in paths then AttemptScore(attempt(l), audioLength) else None
  }

  /** `detectLanguage`, with `attempt` the outcome of each language's recognition. */
  function DetectLanguage(paths: map<RecognitionLanguage, ModelPaths>, attempt: RecognitionLanguage -> Attempt,
                          audio: seq<int>, supported: seq<RecognitionLanguage>): LanguageDetectionResult
  {
    Detect(audio, supported, Scorer(paths, attempt, |audio|))
  }

  /** A language whose recognizer failed, returned no text, or returned less
      than half the expected text is never the one detected. */
  lemma WeakAttemptNeverDetected(paths: map<RecognitionLanguage, ModelPaths>, attempt: RecognitionLanguage -> Attempt,
                                 audio: seq<int>, supported: seq<RecognitionLanguage>, l: RecognitionLanguage)
    requires attempt(l).Failed? || (attempt(l).Recognized? && TextLength(attempt(l).text) < ExpectedLength(|audio|) / 2)
    ensures var r := DetectLanguage(paths, attempt, audio, supported);
            r.Detected? ==> r.language != l
  {
    DetectPicksFirstBest(audio, supported, Scorer(paths, attempt, |audio|));
  }

  /** Detection succeeds exactly when some supported language with model
      paths produced text of a length at least half the expected one. */
  lemma DetectedIffSomeTextFits(paths: map<RecognitionLanguage, ModelPaths>, attempt: RecognitionLanguage -> Attempt,
                                audio: seq<int>, supported: seq<RecognitionLanguage>)
    ensures DetectLanguage(paths, attempt, audio, supported).Detected? <==>
              |audio| > 0 && exists l :: l in supported && l in paths && attempt(l).Recognized?
                                        && |attempt(l).text| > 0 && TextLength(attempt(l).text) >= ExpectedLength(|audio|) / 2
  {
    var score := Scorer(paths, attempt, |audio|);
    DetectPicksFirstBest(audio, supported, score);
    var r := DetectLanguage(paths, attempt, audio, supported);
    if r.Detected? {
      assert r.language in supported && score(r.language) == Some(r.confidence);
    }
  }

  /** `detectLanguageFromStream`: detection on at most `durationSeconds` of
      audio (`attempt` describes the recognitions on those samples). */
  function DetectLanguageFromStream(paths: map<RecognitionLanguage, ModelPaths>, attempt: RecognitionLanguage -> Attempt,
                                    audio: seq<int>, durationSeconds: int, supported: seq<RecognitionLanguage>)
    : (r: Option<LanguageDetectionResult>)
    ensures r.None? <==> StreamSamples(audio, durationSeconds).None?
    ensures r.Some? ==> r.value == DetectLanguage(paths, attempt, StreamSamples(audio, durationSeconds).value, supported)
  {
    match StreamSamples(audio, durationSeconds)
    case None => None
    case Some(samples) => Some(DetectLanguage(paths, attempt, samples, supported))
  }

  /** The encoder, decoder, joiner and tokens files of the `sherpa-onnx/<dir>` directory. */
  function FilesIn(dir: string): ModelPaths {
    var prefix := "sherpa-onnx/" + dir + "/";
    ModelPaths(prefix + "encoder.onnx", prefix + "decoder.onnx", prefix + "joiner.onnx", prefix + "tokens.txt")
  }

  /** `createLanguageDetector`: model paths under `sherpa-onnx/turkish` and
      `sherpa-onnx/english`. */
  function FactoryPaths(): (paths: map<RecognitionLanguage, ModelPaths>)
    ensures paths.Keys == {Turkish, English}
    ensures forall l :: l in paths ==> paths[l] == FilesIn(DirName(l))
  {
    map[Turkish := FilesIn("turkish"), English := FilesIn("english")]
  }
}

/**
 * `IOSLanguageDetector` (LanguageDetector.ios.kt). Its recognition attempt
 * is a placeholder that scores 0.7 whenever the audio estimates to at least
 * one character, and 0.1 otherwise, whatever the language.
 */
module IosDetector {
  import opened Wrappers
  import opened Speech
  import opened Seqs
  import opened LanguageDetection

  /** The placeholder score, in tenths: `(size / 16000.0 * 3).toInt() > 0`. */
  function PlaceholderScore(size: nat): (t: nat)
    ensures t == 7 || t == 1
  {
    if size * 3 / 16000 > 0 then 7 else 1
  }

  /** The placeholder score clears the threshold exactly from 5334 samples on
      (a third of a second). */
  lemma PlaceholderThreshold(size: nat)
    ensures PlaceholderScore(size) > Threshold <==> size >= 5334
  {
  }

  function Scorer(paths: map<RecognitionLanguage, ModelPaths>, size: nat): LanguageDetection.Scorer {
    l => if l in paths then Some(PlaceholderScore(size)) else None
  }

  function DetectLanguage(paths: map<RecognitionLanguage, ModelPaths>, audio: seq<int>,
                          supported: seq<RecognitionLanguage>): LanguageDetectionResult
  {
    Detect(audio, supported, Scorer(paths, |audio|))
  }

  /** From 5334 samples on, every language with paths scores 7 tenths, so the
      first supported language that has paths is detected. */
  lemma LongAudioDetectsFirst(paths: map<RecognitionLanguage, ModelPaths>, audio: seq<int>,
                              supported: seq<RecognitionLanguage>, i: nat)
    requires |audio| >= 5334 && i < |supported| && supported[i] in paths
    requires forall j :: 0 <= j < i ==> supported[j] !in paths
    ensures DetectLanguage(paths, audio, supported) == Detected(supported[i], 7)
  {
    var score := Scorer(paths, |audio|);
    PlaceholderThreshold(|audio|);
    assert PlaceholderScore(|audio|) == 7;
    DetectPicksFirstBest(audio, supported, score);
    var l := supported[i];
    assert ScoresAs(supported, score, l, 7);
    var r := DetectLanguage(paths, audio, supported);
    assert r.Detected?;
    assert r.language in paths && r.confidence == 7;
    var k := FirstIndex(supported, r.language);
    assert k <= FirstIndex(supported, l) <= i;
    assert k == i;
  }

  /** Shorter non-empty audio scores 1 tenth everywhere, and without a
      language that has paths nothing is scored: either way Unsupported. */
  lemma WeakAudioUnsupported(paths: map<RecognitionLanguage, ModelPaths>, audio: seq<int>,
                             supported: seq<RecognitionLanguage>)
    requires |audio| > 0
    requires |audio| < 5334 || forall j :: 0 <= j < |supported| ==> supported[j] !in paths
    ensures DetectLanguage(paths, audio, supported) == Unsupported
  {
    DetectPicksFirstBest(audio, supported, Scorer(paths, |audio|));
  }

  /** Every scored language scores the same, so the result is the first
      supported language that has paths, at 7 tenths, exactly when the audio
      has at least 5334 samples; non-empty shorter audio is Unsupported. */
  lemma DetectsFirstWithPaths(paths: map<RecognitionLanguage, ModelPaths>, audio: seq<int>,
                              supported: seq<RecognitionLanguage>)
    ensures var first := FirstWhere(supported, l => l in paths);
            var r := DetectLanguage(paths, audio, supported);
            && (|audio| >= 5334 && first.Some? ==> r == Detected(first.value, 7))
            && (|audio| > 0 && (|audio| < 5334 || first.None?) ==> r == Unsupported)
  {
    var first := FirstWhere(supported, l => l in paths);
    if |audio| >= 5334 && first.Some? {
      var i :| 0 <= i < |supported| && supported[i] == first.value && supported[i] in paths
               && forall j :: 0 <= j < i ==> supported[j] !in paths;
      LongAudioDetectsFirst(paths, audio, supported, i);
    } else if |audio| > 0 {
      WeakAudioUnsupported(paths, audio, supported);
    }
  }

  /** `detectLanguageFromStream`. */
  function DetectLanguageFromStream(paths: map<RecognitionLanguage, ModelPaths>, audio: seq<int>,
                                    durationSeconds: int, supported: seq<RecognitionLanguage>)
    : (r: Option<LanguageDetectionResult>)
    ensures r.None? <==> StreamSamples(audio, durationSeconds).None?
    ensures r.Some? ==> r.value == DetectLanguage(paths, StreamSamples(audio, durationSeconds).value, supported)
  {
    match StreamSamples(audio, durationSeconds)
    case None => None
    case Some(samples) => Some(DetectLanguage(paths, samples, supported))
  }

  /** The four files of a `sherpa-onnx/<dir>` bundle directory, each an empty
      string where the bundle lacks the file. */
  function BundleFiles(bundle: string -> Option<string>, dir: string): ModelPaths {
    var p := (name: string) => bundle("sherpa-onnx/" + dir + "/" + name).GetOr("");
    ModelPaths(p("encoder.onnx"), p("decoder.onnx"), p("joiner.onnx"), p("tokens.txt"))
  }

  /** `createLanguageDetector`: paths for Turkish and English, each an empty
      string where the bundle lacks the file. */
  function FactoryPaths(bundle: string -> Option<string>): (paths: map<RecognitionLanguage, ModelPaths>)
    ensures paths.Keys == {Turkish, English}
    // each file is the bundle's path for it under the language's directory, or "" when absent
    ensures forall l :: l in paths ==> paths[l] == BundleFiles(bundle, DirName(l))
  {
    map[Turkish := BundleFiles(bundle, "turkish"), English := BundleFiles(bundle, "english")]
  }

  /** With the factory's detector and the default languages, the result is
      Turkish at 7 tenths from 5334 samples on, whatever the bundle holds. */
  lemma FactoryAlwaysPicksTurkish(bundle: string -> Option<string>, audio: seq<int>)
    ensures var r := DetectLanguage(FactoryPaths(bundle), audio, DefaultLanguages);
            && (|audio| == 0 ==> r == DetectionError("Empty audio data"))
            && (0 < |audio| < 5334 ==> r == Unsupported)
            && (|audio| >= 5334 ==> r == Detected(Turkish, 7))
  {
    var paths := FactoryPaths(bundle);
    DetectsFirstWithPaths(paths, audio, DefaultLanguages);
    assert DefaultLanguages[0] == Turkish && Turkish in paths;
    assert FirstWhere(DefaultLanguages, l => l in paths) == Some(Turkish);
  }
}
