/**
 * Model descriptors and the device-level loading policy (EngineConfig.kt,
 * EngineModelType.kt, and the per-platform `detectMemoryStrategy`).
 */
module EngineConfig {
  import opened Wrappers

  /** Sizes and memory estimates are written in mebibytes throughout the source. */
  const MiB: int := 1024 * 1024

  /** Role of an inference model in the pipeline. */
  datatype EngineModelType = STT | TTS | TRANSLATION

  datatype ModelQuantization = INT8 | FP16 | FP32

  /** SEQUENTIAL loads one engine at a time; CONCURRENT keeps all three resident. */
  datatype MemoryStrategy = SEQUENTIAL | CONCURRENT

  /** The two platforms whose `actual` declarations the model covers. */
  datatype Platform = Android | Ios

  /** One downloadable/loadable model. `modelFiles` keeps Kotlin's `mapOf`
      insertion order, so it is a sequence of (role, relative path) pairs. */
  datatype EngineModelConfig = EngineModelConfig(
    modelId: string,
    modelType: EngineModelType,
    language: string,
    targetLanguage: Option<string> := None,
    backendType: string,
    modelFiles: seq<(string, string)>,
    downloadUrl: string,
    sizeBytes: int,
    checksum: Option<string> := None,
    displayName: string := modelId,
    quantization: ModelQuantization := INT8)

  /** `detectMemoryStrategy()`: a per-platform constant chosen at process start. */
  function DetectMemoryStrategy(p: Platform): (s: MemoryStrategy)
    ensures s == SEQUENTIAL <==> p == Android
    ensures s == CONCURRENT <==> p == Ios
  {
    match p
    case Android => SEQUENTIAL
    case Ios => CONCURRENT
  }

  /** A descriptor built without the optional arguments gets no target language,
      no checksum, INT8, and its id as display name. */
  lemma DescriptorDefaults(id: string, t: EngineModelType, lang: string, backend: string,
                           files: seq<(string, string)>, url: string, size: int)
    ensures var d := EngineModelConfig(modelId := id, modelType := t, language := lang,
                                       backendType := backend, modelFiles := files,
                                       downloadUrl := url, sizeBytes := size);
            d.targetLanguage == None && d.checksum == None && d.displayName == id && d.quantization == INT8
  {
  }
}
