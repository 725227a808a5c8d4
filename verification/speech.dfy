/**
 * The speech-recognition vocabulary shared by the language detectors and the
 * multi-language recognizer (SpeechRecognizer.kt, LanguageDetector.kt).
 * Confidences are floats in the source; here they are whole tenths.
 */
module Speech {
  datatype RecognitionLanguage =
    | English | Turkish | German | French | Spanish | Italian | Russian | Chinese | Japanese | Korean | Arabic

  function Code(l: RecognitionLanguage): string {
    match l
    case English => "en"
    case Turkish => "tr"
    case German => "de"
    case French => "fr"
    case Spanish => "es"
    case Italian => "it"
    case Russian => "ru"
    case Chinese => "zh"
    case Japanese => "ja"
    case Korean => "ko"
    case Arabic => "ar"
  }

  /** The language codes tell the languages apart, so a code names one language. */
  lemma CodesIdentifyLanguages(a: RecognitionLanguage, b: RecognitionLanguage)
    ensures Code(a) == Code(b) ==> a == b
    ensures |Code(a)| == 2
  {
  }

  datatype ModelType = Zipformer | Whisper

  datatype RecognizerConfig = RecognizerConfig(
    language: RecognitionLanguage := English,
    sampleRate: int := 16000,
    enablePunctuation: bool := true,
    maxAlternatives: int := 1,
    modelType: ModelType := Whisper)

  datatype RecognitionResult =
    | Partial(text: string)
    | Final(text: string)
    | Error(message: string)

  /** `confidence` is in tenths. */
  datatype LanguageDetectionResult =
    | Detected(language: RecognitionLanguage, confidence: nat)
    | Unsupported
    | DetectionError(message: string)

  /** The languages tried when the caller names none. */
  const DefaultLanguages: seq<RecognitionLanguage> := [Turkish, English]

  /** The recognizer model files a detector uses for one language. */
  datatype ModelPaths = ModelPaths(encoder: string, decoder: string, joiner: string, tokens: string)
}
