/**
 * The two OPUS-MT translation engines, which are still placeholders
 * (TranslationEngine.kt, AndroidTranslationEngine.kt, IOSTranslationEngine.kt).
 * Both keep the placeholder lifecycle of `Engine` and differ only in their
 * fixed memory estimate.
 */
module TranslationEngines {
  import opened Wrappers
  import opened EngineConfig
  import Engine
  import ModelRegistry

  datatype TranslationResult = TranslationResult(
    translatedText: string,
    sourceLanguage: string,
    targetLanguage: string,
    confidence: Option<real> := None)

  datatype LanguagePair = LanguagePair(source: string, target: string)

  /** The fixed estimate: INT8 on Android, FP16 on iOS. */
  function Estimate(p: Platform): (m: int)
    ensures p == Android ==> m == 50 * MiB
    ensures p == Ios ==> m == 200 * MiB
  {
    match p
    case Android => 50 * MiB
    case Ios => 200 * MiB
  }

  /** `getMemoryUsageBytes`. */
  function MemoryUsage(p: Platform, l: Engine.Lifecycle): (u: int)
    ensures Engine.HonoursMemoryContract(l.initialized, u, Estimate(p))
  {
    Engine.Usage(l, Estimate(p))
  }

  const PlaceholderPrefix: string := "[Translation placeholder: "

  /** `translate`: the placeholder text, tagged with the languages asked for,
      whatever the engine's state. */
  function Translate(l: Engine.Lifecycle, text: string, sourceLanguage: string, targetLanguage: string)
    : (r: TranslationResult)
    ensures r.sourceLanguage == sourceLanguage && r.targetLanguage == targetLanguage && r.confidence.None?
    ensures PlaceholderText(r.translatedText) == Some(text)
  {
    var t := PlaceholderPrefix + text + "]";
    assert t[..|PlaceholderPrefix|] == PlaceholderPrefix;
    assert t[|PlaceholderPrefix|..|t| - 1] == text;
    TranslationResult(t, sourceLanguage, targetLanguage)
  }

  /** Reads the input back out of a placeholder translation. */
  function PlaceholderText(s: string): (r: Option<string>)
    ensures r.Some? ==> s == PlaceholderPrefix + r.value + "]"
  {
    if |s| > |PlaceholderPrefix| && s[..|PlaceholderPrefix|] == PlaceholderPrefix && s[|s| - 1] == ']' then
      var text := s[|PlaceholderPrefix|..|s| - 1];
      assert s == s[..|PlaceholderPrefix|] + text + [s[|s| - 1]];
      Some(text)
    else None
  }

  /** Translation ignores readiness, and distinct inputs give distinct outputs. */
  lemma TranslateIgnoresReadiness(l: Engine.Lifecycle, l': Engine.Lifecycle, a: string, b: string,
                                  src: string, tgt: string)
    ensures Translate(l, a, src, tgt) == Translate(l', a, src, tgt)
    ensures Translate(l, a, src, tgt) == Translate(l, b, src, tgt) ==> a == b
  {
    if Translate(l, a, src, tgt) == Translate(l, b, src, tgt) {
      assert Some(a) == PlaceholderText(Translate(l, a, src, tgt).translatedText);
    }
  }

  /** `getSupportedLanguagePairs`, the same on both platforms. */
  function SupportedLanguagePairs(p: Platform): (r: seq<LanguagePair>)
    ensures |r| == 2
    ensures forall q :: q in r <==> (q.source == "en" && q.target == "tr") || (q.source == "tr" && q.target == "en")
  {
    [LanguagePair("en", "tr"), LanguagePair("tr", "en")]
  }

  /** The supported pairs are closed under swapping, and each has an OPUS-MT
      entry in the model catalog. */
  lemma PairsHaveCatalogModels(p: Platform, q: LanguagePair)
    requires q in SupportedLanguagePairs(p)
    ensures LanguagePair(q.target, q.source) in SupportedLanguagePairs(p)
    ensures ModelRegistry.FirstTranslation(ModelRegistry.Catalog(), q.source, q.target).Some?
  {
    ModelRegistry.CatalogShape();
    var c := ModelRegistry.Catalog();
    if q.source == "en" {
      assert ModelRegistry.IsTranslationFor(c[4], "en", "tr");
    } else {
      assert ModelRegistry.IsTranslationFor(c[5], "tr", "en");
    }
  }
}
