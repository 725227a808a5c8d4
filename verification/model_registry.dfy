/**
 * The built-in model catalog and its queries (`DefaultModelRegistry`).
 * Catalog order is significant: every lookup returns the first match.
 */
module ModelRegistry {
  import opened Wrappers
  import opened EngineConfig
  import opened Seqs

  // Model ids of the companion object.
  const STT_WHISPER_TINY_TR: string := "sherpa-stt-whisper-tiny-tr"
  const STT_WHISPER_TINY_EN: string := "sherpa-stt-whisper-tiny-en"
  const STT_WHISPER_BASE_TR: string := "sherpa-stt-whisper-base-tr"
  const STT_WHISPER_BASE_EN: string := "sherpa-stt-whisper-base-en"
  const TRANSLATION_EN_TR: string := "opus-mt-en-tr"
  const TRANSLATION_TR_EN: string := "opus-mt-tr-en"
  const TTS_PIPER_TR: string := "sherpa-tts-piper-tr"
  const TTS_PIPER_EN: string := "sherpa-tts-piper-en"
  const TTS_VITS_TR: string := "sherpa-tts-vits-tr"
  const TTS_VITS_EN: string := "sherpa-tts-vits-en"

  const WhisperTinyFiles: seq<(string, string)> :=
    [("encoder", "whisper-tiny/encoder.onnx"), ("decoder", "whisper-tiny/decoder.onnx"), ("tokens", "whisper-tiny/tokens.txt")]
  const WhisperBaseFiles: seq<(string, string)> :=
    [("encoder", "whisper-base/encoder.onnx"), ("decoder", "whisper-base/decoder.onnx"), ("tokens", "whisper-base/tokens.txt")]

  // The catalog entries, one constant per model.
  const WhisperTinyTr: EngineModelConfig :=
    EngineModelConfig(modelId := STT_WHISPER_TINY_TR, modelType := STT, language := "tr", backendType := "sherpa-onnx",
        modelFiles := WhisperTinyFiles,
        downloadUrl := "https://github.com/k2-fsa/sherpa-onnx/releases/download/asr-models/sherpa-onnx-whisper-tiny.tar.bz2",
        sizeBytes := 40 * MiB, displayName := "Whisper Tiny TR", quantization := INT8)

  const WhisperTinyEn: EngineModelConfig :=
    EngineModelConfig(modelId := STT_WHISPER_TINY_EN, modelType := STT, language := "en", backendType := "sherpa-onnx",
        modelFiles := WhisperTinyFiles,
        downloadUrl := "https://github.com/k2-fsa/sherpa-onnx/releases/download/asr-models/sherpa-onnx-whisper-tiny.tar.bz2",
        sizeBytes := 40 * MiB, displayName := "Whisper Tiny EN", quantization := INT8)

  const WhisperBaseTr: EngineModelConfig :=
    EngineModelConfig(modelId := STT_WHISPER_BASE_TR, modelType := STT, language := "tr", backendType := "sherpa-onnx",
        modelFiles := WhisperBaseFiles,
        downloadUrl := "https://github.com/k2-fsa/sherpa-onnx/releases/download/asr-models/sherpa-onnx-whisper-base.tar.bz2",
        sizeBytes := 75 * MiB, displayName := "Whisper Base TR", quantization := FP16)

  const WhisperBaseEn: EngineModelConfig :=
    EngineModelConfig(modelId := STT_WHISPER_BASE_EN, modelType := STT, language := "en", backendType := "sherpa-onnx",
        modelFiles := WhisperBaseFiles,
        downloadUrl := "https://github.com/k2-fsa/sherpa-onnx/releases/download/asr-models/sherpa-onnx-whisper-base.tar.bz2",
        sizeBytes := 75 * MiB, displayName := "Whisper Base EN", quantization := FP16)

  const OpusMtEnTr: EngineModelConfig :=
    EngineModelConfig(modelId := TRANSLATION_EN_TR, modelType := TRANSLATION, language := "en", targetLanguage := Some("tr"),
        backendType := "onnx-runtime",
        modelFiles := [("encoder", "opus-mt-en-tr/encoder_model.onnx"), ("decoder", "opus-mt-en-tr/decoder_model.onnx"),
                       ("vocab", "opus-mt-en-tr/source.spm"), ("target_vocab", "opus-mt-en-tr/target.spm")],
        downloadUrl := "https://huggingface.co/Helsinki-NLP/opus-mt-en-tr/resolve/main/onnx/",
        sizeBytes := 50 * MiB, displayName := "OPUS-MT EN→TR", quantization := INT8)

  const OpusMtTrEn: EngineModelConfig :=
    EngineModelConfig(modelId := TRANSLATION_TR_EN, modelType := TRANSLATION, language := "tr", targetLanguage := Some("en"),
        backendType := "onnx-runtime",
        modelFiles := [("encoder", "opus-mt-tr-en/encoder_model.onnx"), ("decoder", "opus-mt-tr-en/decoder_model.onnx"),
                       ("vocab", "opus-mt-tr-en/source.spm"), ("target_vocab", "opus-mt-tr-en/target.spm")],
        downloadUrl := "https://huggingface.co/Helsinki-NLP/opus-mt-tr-en/resolve/main/onnx/",
        sizeBytes := 50 * MiB, displayName := "OPUS-MT TR→EN", quantization := INT8)

  const PiperTr: EngineModelConfig :=
    EngineModelConfig(modelId := TTS_PIPER_TR, modelType := TTS, language := "tr", backendType := "sherpa-onnx",
        modelFiles := [("model", "piper-tr/model.onnx"), ("tokens", "piper-tr/tokens.txt"), ("data_dir", "piper-tr/espeak-ng-data")],
        downloadUrl := "https://github.com/k2-fsa/sherpa-onnx/releases/download/tts-models/vits-piper-tr_TR-dfki-medium.tar.bz2",
        sizeBytes := 20 * MiB, displayName := "Piper TTS TR", quantization := INT8)

  const PiperEn: EngineModelConfig :=
    EngineModelConfig(modelId := TTS_PIPER_EN, modelType := TTS, language := "en", backendType := "sherpa-onnx",
        modelFiles := [("model", "piper-en/model.onnx"), ("tokens", "piper-en/tokens.txt"), ("data_dir", "piper-en/espeak-ng-data")],
        downloadUrl := "https://github.com/k2-fsa/sherpa-onnx/releases/download/tts-models/vits-piper-en_US-amy-medium.tar.bz2",
        sizeBytes := 20 * MiB, displayName := "Piper TTS EN", quantization := INT8)

  const VitsTr: EngineModelConfig :=
    EngineModelConfig(modelId := TTS_VITS_TR, modelType := TTS, language := "tr", backendType := "sherpa-onnx",
        modelFiles := [("model", "vits-tr/model.onnx"), ("lexicon", "vits-tr/lexicon.txt"), ("tokens", "vits-tr/tokens.txt")],
        downloadUrl := "https://github.com/k2-fsa/sherpa-onnx/releases/download/tts-models/vits-coqui-tr-medium.tar.bz2",
        sizeBytes := 30 * MiB, displayName := "VITS TTS TR", quantization := FP16)

  const VitsEn: EngineModelConfig :=
    EngineModelConfig(modelId := TTS_VITS_EN, modelType := TTS, language := "en", backendType := "sherpa-onnx",
        modelFiles := [("model", "vits-en/model.onnx"), ("lexicon", "vits-en/lexicon.txt"), ("tokens", "vits-en/tokens.txt")],
        downloadUrl := "https://github.com/k2-fsa/sherpa-onnx/releases/download/tts-models/vits-ljs.tar.bz2",
        sizeBytes := 30 * MiB, displayName := "VITS TTS EN", quantization := FP16)

  /** `buildModelCatalog()`: four Whisper STT models, two OPUS-MT translators, four TTS voices. */
  function Catalog(): seq<EngineModelConfig>
  {
    [WhisperTinyTr, WhisperTinyEn, WhisperBaseTr, WhisperBaseEn, OpusMtEnTr, OpusMtTrEn, PiperTr, PiperEn, VitsTr, VitsEn]
  }

  /** Rank of a role in the pipeline: recognition, then translation, then synthesis. */
  function StageRank(t: EngineModelType): nat
  {
    match t
    case STT => 0
    case TRANSLATION => 1
    case TTS => 2
  }

  /** The selection criteria `getRequiredModelsForPipeline` uses for each role. */
  predicate IsSttFor(m: EngineModelConfig, src: string) { m.modelType == STT && m.language == src }
  predicate IsTranslationFor(m: EngineModelConfig, src: string, tgt: string) {
    m.modelType == TRANSLATION && m.language == src && m.targetLanguage == Some(tgt)
  }
  predicate IsTtsFor(m: EngineModelConfig, tgt: string) { m.modelType == TTS && m.language == tgt }

  /** `getAvailableModels(type)`: the whole list for a null type, otherwise exactly
      the entries of that type, in list order. */
  function AvailableModels(models: seq<EngineModelConfig>, t: Option<EngineModelType>): (r: seq<EngineModelConfig>)
    ensures t.None? ==> r == models
    ensures t.Some? ==> forall m :: m in r <==> m in models && m.modelType == t.value
    ensures t.Some? ==> forall m :: multiset(r)[m] == if m.modelType == t.value then multiset(models)[m] else 0
    ensures IsSubsequence(r, models)
  {
    if t.Some? then Filter(models, (m: EngineModelConfig) => m.modelType == t.value)
    else
      FilterAll(models, (m: EngineModelConfig) => true);
      models
  }

  /** `getAvailableModels(type, language)`: exactly the entries of that type and
      source language, in list order. */
  function AvailableModelsFor(models: seq<EngineModelConfig>, t: EngineModelType, lang: string): (r: seq<EngineModelConfig>)
    ensures forall m :: m in r <==> m in models && m.modelType == t && m.language == lang
    ensures forall m :: multiset(r)[m] == if m.modelType == t && m.language == lang then multiset(models)[m] else 0
    ensures IsSubsequence(r, models)
  {
    Filter(models, (m: EngineModelConfig) => m.modelType == t && m.language == lang)
  }

  /** `getModelConfig(id)`: absent iff no entry has the id, otherwise the first such entry. */
  function ModelConfig(models: seq<EngineModelConfig>, id: string): (r: Option<EngineModelConfig>)
    ensures r.None? <==> forall i :: 0 <= i < |models| ==> models[i].modelId != id
    ensures r.Some? ==> exists i :: 0 <= i < |models| && models[i] == r.value && r.value.modelId == id
                                    && forall j :: 0 <= j < i ==> models[j].modelId != id
  {
    FirstWhere(models, (m: EngineModelConfig) => m.modelId == id)
  }

  /** `m` is the first STT entry of `models` for `src`. */
  ghost predicate IsFirstStt(models: seq<EngineModelConfig>, m: EngineModelConfig, src: string) {
    exists i :: 0 <= i < |models| && models[i] == m && IsSttFor(m, src) && forall j :: 0 <= j < i ==> !IsSttFor(models[j], src)
  }

  /** `m` is the first translation entry of `models` for `src`→`tgt`. */
  ghost predicate IsFirstTranslation(models: seq<EngineModelConfig>, m: EngineModelConfig, src: string, tgt: string) {
    exists i :: 0 <= i < |models| && models[i] == m && IsTranslationFor(m, src, tgt)
                && forall j :: 0 <= j < i ==> !IsTranslationFor(models[j], src, tgt)
  }

  /** `m` is the first TTS entry of `models` for `tgt`. */
  ghost predicate IsFirstTts(models: seq<EngineModelConfig>, m: EngineModelConfig, tgt: string) {
    exists i :: 0 <= i < |models| && models[i] == m && IsTtsFor(m, tgt) && forall j :: 0 <= j < i ==> !IsTtsFor(models[j], tgt)
  }

  /** The first STT entry for `src`, if any. */
  function FirstStt(models: seq<EngineModelConfig>, src: string): (r: Option<EngineModelConfig>)
    ensures r.None? <==> forall i :: 0 <= i < |models| ==> !IsSttFor(models[i], src)
    ensures r.Some? ==> IsFirstStt(models, r.value, src)
  {
    FirstWhere(models, (x: EngineModelConfig) => IsSttFor(x, src))
  }

  /** The first translation entry for `src`→`tgt`, if any. */
  function FirstTranslation(models: seq<EngineModelConfig>, src: string, tgt: string): (r: Option<EngineModelConfig>)
    ensures r.None? <==> forall i :: 0 <= i < |models| ==> !IsTranslationFor(models[i], src, tgt)
    ensures r.Some? ==> IsFirstTranslation(models, r.value, src, tgt)
  {
    FirstWhere(models, (x: EngineModelConfig) => IsTranslationFor(x, src, tgt))
  }

  /** The first TTS entry for `tgt`, if any. */
  function FirstTts(models: seq<EngineModelConfig>, tgt: string): (r: Option<EngineModelConfig>)
    ensures r.None? <==> forall i :: 0 <= i < |models| ==> !IsTtsFor(models[i], tgt)
    ensures r.Some? ==> IsFirstTts(models, r.value, tgt)
  {
    FirstWhere(models, (x: EngineModelConfig) => IsTtsFor(x, tgt))
  }

  /** `getRequiredModelsForPipeline(src, tgt)`: STT for `src`, translation `src`→`tgt`,
      TTS for `tgt`, each the first catalog match, a role with no match omitted. */
  function RequiredModelsForPipeline(models: seq<EngineModelConfig>, src: string, tgt: string): (r: seq<EngineModelConfig>)
    ensures |r| <= 3
    ensures forall i, j :: 0 <= i < j < |r| ==> StageRank(r[i].modelType) < StageRank(r[j].modelType)
    ensures forall m :: m in r && m.modelType == STT ==> IsFirstStt(models, m, src)
    ensures forall m :: m in r && m.modelType == TRANSLATION ==> IsFirstTranslation(models, m, src, tgt)
    ensures forall m :: m in r && m.modelType == TTS ==> IsFirstTts(models, m, tgt)
    ensures (exists m :: m in r && m.modelType == STT) <==> exists i :: 0 <= i < |models| && IsSttFor(models[i], src)
    ensures (exists m :: m in r && m.modelType == TRANSLATION) <==>
              exists i :: 0 <= i < |models| && IsTranslationFor(models[i], src, tgt)
    ensures (exists m :: m in r && m.modelType == TTS) <==> exists i :: 0 <= i < |models| && IsTtsFor(models[i], tgt)
  {
    var stt := FirstStt(models, src);
    var translation := FirstTranslation(models, src, tgt);
    var tts := FirstTts(models, tgt);
    PresentOfThree(stt, translation, tts);
    RolesInOrder(stt, translation, tts);
    Present([stt, translation, tts])
  }

  /** Three optional entries, each of its own role, concatenated in role order,
      have the shape the pipeline promises. */
  lemma RolesInOrder(a: Option<EngineModelConfig>, b: Option<EngineModelConfig>, c: Option<EngineModelConfig>)
    requires a.Some? ==> a.value.modelType == STT
    requires b.Some? ==> b.value.modelType == TRANSLATION
    requires c.Some? ==> c.value.modelType == TTS
    ensures var r := OptionToSeq(a) + OptionToSeq(b) + OptionToSeq(c);
      && |r| <= 3
      && (forall i, j :: 0 <= i < j < |r| ==> StageRank(r[i].modelType) < StageRank(r[j].modelType))
      && (forall m :: m in r && m.modelType == STT ==> a == Some(m))
      && (forall m :: m in r && m.modelType == TRANSLATION ==> b == Some(m))
      && (forall m :: m in r && m.modelType == TTS ==> c == Some(m))
      && (a.Some? ==> a.value in r)
      && (b.Some? ==> b.value in r)
      && (c.Some? ==> c.value in r)
  {
    RolesRanked(a, b, c);
    var r := OptionToSeq(a) + OptionToSeq(b) + OptionToSeq(c);
    assert forall m :: m in r <==> a == Some(m) || b == Some(m) || c == Some(m);
  }

  /** The concatenation holds at most three entries, in strictly increasing role rank. */
  lemma RolesRanked(a: Option<EngineModelConfig>, b: Option<EngineModelConfig>, c: Option<EngineModelConfig>)
    requires a.Some? ==> a.value.modelType == STT
    requires b.Some? ==> b.value.modelType == TRANSLATION
    requires c.Some? ==> c.value.modelType == TTS
    ensures var r := OptionToSeq(a) + OptionToSeq(b) + OptionToSeq(c);
      && |r| <= 3
      && (forall i, j :: 0 <= i < j < |r| ==> StageRank(r[i].modelType) < StageRank(r[j].modelType))
  {
    var r := OptionToSeq(a) + OptionToSeq(b) + OptionToSeq(c);
    match a {
      case None =>
        match b {
          case None =>
            match c {
              case None => assert r == [];
              case Some(z) => assert r == [z];
            }
          case Some(y) =>
            match c {
              case None => assert r == [y];
              case Some(z) => assert r == [y, z];
            }
        }
      case Some(x) =>
        match b {
          case None =>
            match c {
              case None => assert r == [x];
              case Some(z) => assert r == [x, z];
            }
          case Some(y) =>
            match c {
              case None => assert r == [x, y];
              case Some(z) => assert r == [x, y, z];
            }
        }
    }
  }

  /** The first STT match is the entry at the first index that matches. */
  lemma FirstSttIs(models: seq<EngineModelConfig>, src: string, i: nat)
    requires i < |models| && IsSttFor(models[i], src)
    requires forall j :: 0 <= j < i ==> !IsSttFor(models[j], src)
    ensures FirstStt(models, src) == Some(models[i])
  {
    var r := FirstStt(models, src);
    var k :| 0 <= k < |models| && models[k] == r.value && IsSttFor(r.value, src)
             && forall j :: 0 <= j < k ==> !IsSttFor(models[j], src);
  }

  /** The first translation match is the entry at the first index that matches. */
  lemma FirstTranslationIs(models: seq<EngineModelConfig>, src: string, tgt: string, i: nat)
    requires i < |models| && IsTranslationFor(models[i], src, tgt)
    requires forall j :: 0 <= j < i ==> !IsTranslationFor(models[j], src, tgt)
    ensures FirstTranslation(models, src, tgt) == Some(models[i])
  {
    var r := FirstTranslation(models, src, tgt);
    var k :| 0 <= k < |models| && models[k] == r.value && IsTranslationFor(r.value, src, tgt)
             && forall j :: 0 <= j < k ==> !IsTranslationFor(models[j], src, tgt);
  }

  /** The first TTS match is the entry at the first index that matches. */
  lemma FirstTtsIs(models: seq<EngineModelConfig>, tgt: string, i: nat)
    requires i < |models| && IsTtsFor(models[i], tgt)
    requires forall j :: 0 <= j < i ==> !IsTtsFor(models[j], tgt)
    ensures FirstTts(models, tgt) == Some(models[i])
  {
    var r := FirstTts(models, tgt);
    var k :| 0 <= k < |models| && models[k] == r.value && IsTtsFor(r.value, tgt)
             && forall j :: 0 <= j < k ==> !IsTtsFor(models[j], tgt);
  }

  /** The ten catalog ids are pairwise distinct. */
  lemma CatalogIdsDistinct()
    ensures forall i, j :: 0 <= i < j < |Catalog()| ==> Catalog()[i].modelId != Catalog()[j].modelId
  {
  }

  /** Only translation entries name a target language; STT and TTS entries leave it unset. */
  lemma OnlyTranslationHasTarget()
    ensures forall m :: m in Catalog() ==> (m.targetLanguage.Some? <==> m.modelType == TRANSLATION)
  {
  }

  /** Role and language columns of the built-in catalog, row by row. */
  predicate HasCatalogShape(c: seq<EngineModelConfig>) {
    && |c| == 10
    && c[0].modelType == STT && c[0].language == "tr" && c[0].modelId == STT_WHISPER_TINY_TR
    && c[1].modelType == STT && c[1].language == "en" && c[1].modelId == STT_WHISPER_TINY_EN
    && c[2].modelType == STT && c[3].modelType == STT
    && c[4].modelType == TRANSLATION && c[4].language == "en" && c[4].targetLanguage == Some("tr")
    && c[5].modelType == TRANSLATION && c[5].language == "tr" && c[5].targetLanguage == Some("en")
    && c[5].modelId == TRANSLATION_TR_EN
    && c[6].modelType == TTS && c[6].language == "tr"
    && c[7].modelType == TTS && c[7].language == "en" && c[7].modelId == TTS_PIPER_EN
    && c[8].modelType == TTS && c[9].modelType == TTS
  }

  lemma CatalogShape()
    ensures HasCatalogShape(Catalog())
  {
  }

  lemma TurkishToEnglishOnShape(c: seq<EngineModelConfig>)
    requires HasCatalogShape(c)
    ensures RequiredModelsForPipeline(c, "tr", "en") == [c[0], c[5], c[7]]
  {
    SttOnShape(c);
    TurkishToEnglishTranslationOnShape(c);
    EnglishTtsOnShape(c);
    RequiredWhenAllFound(c, "tr", "en", c[0], c[5], c[7]);
  }

  lemma EnglishToEnglishOnShape(c: seq<EngineModelConfig>)
    requires HasCatalogShape(c)
    ensures RequiredModelsForPipeline(c, "en", "en") == [c[1], c[7]]
  {
    SttOnShape(c);
    NoEnglishToEnglishOnShape(c);
    EnglishTtsOnShape(c);
    RequiredWithoutTranslation(c, "en", "en", c[1], c[7]);
  }

  /** With a match for every role, the pipeline's list is those three matches. */
  lemma RequiredWhenAllFound(models: seq<EngineModelConfig>, src: string, tgt: string,
                             stt: EngineModelConfig, translation: EngineModelConfig, tts: EngineModelConfig)
    requires FirstStt(models, src) == Some(stt)
    requires FirstTranslation(models, src, tgt) == Some(translation)
    requires FirstTts(models, tgt) == Some(tts)
    ensures RequiredModelsForPipeline(models, src, tgt) == [stt, translation, tts]
  {
    assert RequiredModelsForPipeline(models, src, tgt) == Present([Some(stt), Some(translation), Some(tts)]);
    PresentOfSomes(stt, translation, tts);
  }

  /** Without a translation match, the pipeline's list is recognizer then voice. */
  lemma RequiredWithoutTranslation(models: seq<EngineModelConfig>, src: string, tgt: string,
                                   stt: EngineModelConfig, tts: EngineModelConfig)
    requires FirstStt(models, src) == Some(stt)
    requires FirstTranslation(models, src, tgt).None?
    requires FirstTts(models, tgt) == Some(tts)
    ensures RequiredModelsForPipeline(models, src, tgt) == [stt, tts]
  {
    assert RequiredModelsForPipeline(models, src, tgt) == Present([Some(stt), None, Some(tts)]);
    PresentSkipsMiddle(stt, tts);
  }

  /** Turkish recognition is row 0 and English recognition row 1. */
  lemma SttOnShape(c: seq<EngineModelConfig>)
    requires HasCatalogShape(c)
    ensures FirstStt(c, "tr") == Some(c[0])
    ensures FirstStt(c, "en") == Some(c[1])
  {
    FirstSttIs(c, "tr", 0);
    assert !IsSttFor(c[0], "en");
    FirstSttIs(c, "en", 1);
  }

  /** Row 5 is the first Turkish to English translator: rows 0-3 recognize and
      row 4 translates from English. */
  lemma TurkishToEnglishTranslationOnShape(c: seq<EngineModelConfig>)
    requires HasCatalogShape(c)
    ensures FirstTranslation(c, "tr", "en") == Some(c[5])
  {
    forall j | 0 <= j < 5
      ensures !IsTranslationFor(c[j], "tr", "en")
    {
      if j == 4 {
        assert c[4].language != "tr";
      } else {
        assert c[j].modelType == STT by {
          assert j in {0, 1, 2, 3};
        }
      }
    }
    FirstTranslationIs(c, "tr", "en", 5);
  }

  /** Row 7 is the first English voice: rows 0-5 are not voices and row 6 is Turkish. */
  lemma EnglishTtsOnShape(c: seq<EngineModelConfig>)
    requires HasCatalogShape(c)
    ensures FirstTts(c, "en") == Some(c[7])
  {
    forall j | 0 <= j < 7
      ensures !IsTtsFor(c[j], "en")
    {
      if j == 6 {
        assert c[6].language != "en";
      } else {
        assert c[j].modelType != TTS by {
          assert j in {0, 1, 2, 3, 4, 5};
        }
      }
    }
    FirstTtsIs(c, "en", 7);
  }

  /** The two translation rows go between different languages, so no row
      translates English to English. */
  lemma NoEnglishToEnglishOnShape(c: seq<EngineModelConfig>)
    requires HasCatalogShape(c)
    ensures FirstTranslation(c, "en", "en") == None
  {
    forall i | 0 <= i < |c|
      ensures !IsTranslationFor(c[i], "en", "en")
    {
      if i == 4 {
        assert c[4].targetLanguage != Some("en");
      } else if i == 5 {
        assert c[5].language != "en";
      } else {
        assert c[i].modelType != TRANSLATION by {
          assert i in {0, 1, 2, 3, 6, 7, 8, 9};
        }
      }
    }
  }

  /** On the built-in catalog, Turkish to English resolves to Whisper Tiny TR,
      OPUS-MT TR→EN and Piper EN, in that order. */
  lemma PipelineTurkishToEnglish()
    ensures var r := RequiredModelsForPipeline(Catalog(), "tr", "en");
            |r| == 3 && r[0].modelId == STT_WHISPER_TINY_TR && r[1].modelId == TRANSLATION_TR_EN
            && r[2].modelId == TTS_PIPER_EN
  {
    CatalogShape();
    TurkishToEnglishOnShape(Catalog());
  }

  /** A same-language pair has no translation entry, so only STT and TTS are returned. */
  lemma PipelineEnglishToEnglish()
    ensures var r := RequiredModelsForPipeline(Catalog(), "en", "en");
            |r| == 2 && r[0].modelId == STT_WHISPER_TINY_EN && r[1].modelId == TTS_PIPER_EN
  {
    CatalogShape();
    EnglishToEnglishOnShape(Catalog());
  }
}
