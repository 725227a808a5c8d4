/**
 * What the two `ModelDownloader` implementations share: their 4-entry catalog,
 * the local model store seen as a set of paths, the availability rule, and the
 * info, listing and delete queries (ModelDownloader.android.kt,
 * ModelDownloader.ios.kt).
 *
 * The downloader catalog is separate from the engine-model registry and uses
 * its own ids ("whisper-tiny-tr", ...).
 */
module ModelStore {
  import opened Wrappers
  import opened ModelTypes
  import opened EngineConfig
  import opened Text

  /** A path the downloaders create or test: the model directory, a file in it,
      or the archive written to the cache/temporary directory. */
  datatype Path = ModelDir(id: string) | ModelFile(id: string, name: string) | TempFile(id: string)

  type FileSet = set<Path>

  /** A file can only exist inside its model directory. */
  predicate WellFormed(fs: FileSet) {
    forall p :: p in fs && p.ModelFile? ==> ModelDir(p.id) in fs
  }

  const RequiredFiles: seq<string> := ["whisper-encoder.onnx", "whisper-decoder.onnx", "whisper-tokens.txt"]

  /** `isModelAvailable`: the model directory exists and so do the three
      fixed Whisper files in it, whatever the model is. */
  predicate IsModelAvailable(fs: FileSet, id: string) {
    ModelDir(id) in fs && forall f :: f in RequiredFiles ==> ModelFile(id, f) in fs
  }

  /** `$modelsDirectory/$modelId`, where `root` is the models directory. */
  function ModelPath(root: string, id: string): string { root + "/" + id }

  const ReleasePrefix: string := "https://github.com/k2-fsa/sherpa-onnx/releases/download/asr-models/"

  /** The release archive of a Whisper size, e.g. `whisper-tiny`. */
  function ReleaseUrl(name: string): string { ReleasePrefix + "sherpa-onnx-" + name + ".tar.bz2" }

  function Entry(id: string, name: string, displayName: string, language: string, mib: int): ModelInfo {
    ModelInfo(id, name, displayName, Some(language), mib * MiB, ReleaseUrl(name), None, "1.0.0")
  }

  /** The downloader catalog, in `mapOf` insertion order (the iOS listing, and
      the Android one with its archive URL corrected, see `AndroidCatalogAsWritten`). */
  function Catalog(): seq<ModelInfo> {
    [ Entry("whisper-tiny-tr", "whisper-tiny", "Whisper Tiny (Turkish)", "tr", 40),
      Entry("whisper-base-tr", "whisper-base", "Whisper Base (Turkish)", "tr", 75),
      Entry("whisper-small-tr", "whisper-small", "Whisper Small (Turkish)", "tr", 245),
      Entry("whisper-base-en", "whisper-base", "Whisper Base (English)", "en", 75) ]
  }

  /** The Android catalog as written: its "whisper-base-tr" entry points at
      "sherper-onnx-whisper-base.tar.bz2", an archive name the release does not use. */
  function AndroidCatalogAsWritten(): seq<ModelInfo> {
    var c := Catalog();
    c[1 := c[1].(downloadUrl := ReleasePrefix + "sherper-onnx-whisper-base.tar.bz2")]
  }

  /** Every corrected entry downloads the release archive named after the model
      size, and the two "whisper-base" entries share one archive. */
  lemma CatalogUrlsFollowReleaseNames()
    ensures forall i :: 0 <= i < |Catalog()| ==> Catalog()[i].downloadUrl == ReleaseUrl(Catalog()[i].name)
    ensures Catalog()[1].downloadUrl == Catalog()[3].downloadUrl
  {
  }

  /** As written, the Android "whisper-base-tr" URL breaks that rule and differs
      from the English base model's archive although both are "whisper-base". */
  lemma AndroidBaseUrlMisnamed()
    ensures AndroidCatalogAsWritten()[1].name == AndroidCatalogAsWritten()[3].name
    ensures AndroidCatalogAsWritten()[1].downloadUrl != ReleaseUrl(AndroidCatalogAsWritten()[1].name)
    ensures AndroidCatalogAsWritten()[1].downloadUrl != AndroidCatalogAsWritten()[3].downloadUrl
  {
    var asWritten := AndroidCatalogAsWritten()[1].downloadUrl;
    assert asWritten[|ReleasePrefix| + 5] == 'e';
    assert ReleaseUrl("whisper-base")[|ReleasePrefix| + 5] == 'a';
  }

  /** `modelCatalog[modelId]`: keys are the entries' ids. */
  function CatalogEntry(id: string): (r: Option<ModelInfo>)
    ensures r.None? <==> forall i :: 0 <= i < |Catalog()| ==> Catalog()[i].id != id
    ensures r.Some? ==> r.value in Catalog() && r.value.id == id
  {
    if id == "whisper-tiny-tr" then Some(Catalog()[0])
    else if id == "whisper-base-tr" then Some(Catalog()[1])
    else if id == "whisper-small-tr" then Some(Catalog()[2])
    else if id == "whisper-base-en" then Some(Catalog()[3])
    else None
  }

  /** A catalog entry with the local state filled in: the path is set exactly
      when the model is available, and `isDownloaded` mirrors the path. */
  function WithLocalState(fs: FileSet, root: string, m: ModelInfo): (r: ModelInfo)
    ensures r.isDownloaded <==> r.localPath.Some?
    ensures r.isDownloaded <==> IsModelAvailable(fs, m.id)
    ensures r.localPath.Some? ==> r.localPath.value == ModelPath(root, m.id)
    ensures r.(localPath := m.localPath, isDownloaded := m.isDownloaded) == m
  {
    var localPath := if IsModelAvailable(fs, m.id) then Some(ModelPath(root, m.id)) else None;
    m.(localPath := localPath, isDownloaded := localPath.Some?)
  }

  /** `getModelInfo`. */
  function GetModelInfo(fs: FileSet, root: string, id: string): (r: Option<ModelInfo>)
    ensures r.None? <==> CatalogEntry(id).None?
    ensures r.Some? ==> r.value.id == id
                        && (r.value.isDownloaded <==> r.value.localPath.Some?)
                        && (r.value.isDownloaded <==> IsModelAvailable(fs, id))
    // the catalog entry itself, with only the local state filled in
    ensures r.Some? ==> r.value == WithLocalState(fs, root, CatalogEntry(id).value)
  {
    match CatalogEntry(id)
    case None => None
    case Some(m) => Some(WithLocalState(fs, root, m))
  }

  /** `getAvailableModels`: every catalog entry, in order, with its local state. */
  function GetAvailableModels(fs: FileSet, root: string): (r: seq<ModelInfo>)
    ensures |r| == |Catalog()|
    ensures forall i :: 0 <= i < |r| ==> r[i] == WithLocalState(fs, root, Catalog()[i])
  {
    seq(|Catalog()|, i requires 0 <= i < |Catalog()| => WithLocalState(fs, root, Catalog()[i]))
  }

  /** `getDownloadedModels`: the available listing filtered on `isDownloaded`. */
  function GetDownloadedModels(fs: FileSet, root: string): (r: seq<ModelInfo>)
    ensures forall m :: m in r <==> m in GetAvailableModels(fs, root) && IsModelAvailable(fs, m.id)
    ensures forall m :: multiset(r)[m] == if IsModelAvailable(fs, m.id) then multiset(GetAvailableModels(fs, root))[m] else 0
  {
    var all := GetAvailableModels(fs, root);
    assert forall m :: m in all ==> (m.isDownloaded <==> IsModelAvailable(fs, m.id));
    DownloadedOnly(all)
  }

  /** Creating a model directory or touching temporary archives never changes
      which models are available in a well-formed store. */
  lemma SameFilesSameAvailability(fs: FileSet, fs': FileSet, id: string)
    requires forall p :: p in fs' && p !in fs ==> p == ModelDir(id) || p.TempFile?
    requires forall p :: p in fs && p !in fs' ==> p.TempFile?
    ensures WellFormed(fs) ==> WellFormed(fs')
    ensures WellFormed(fs) ==> forall x :: IsModelAvailable(fs', x) <==> IsModelAvailable(fs, x)
  {
    if WellFormed(fs) {
      forall x | IsModelAvailable(fs', x) ensures IsModelAvailable(fs, x) {
        assert ModelFile(x, RequiredFiles[0]) in fs;
      }
    }
  }

  /** Everything stored under a model's directory. */
  predicate UnderModel(p: Path, id: string) { (p.ModelDir? || p.ModelFile?) && p.id == id }

  /** `deleteModel`: false when the directory is absent; otherwise the result of
      removing it recursively. `removed` is that removal's own success. */
  function DeleteModel(fs: FileSet, id: string, removed: bool): (r: (bool, FileSet))
    ensures ModelDir(id) !in fs ==> r == (false, fs)
    ensures r.0 ==> r.1 == set p | p in fs && !UnderModel(p, id)
    ensures r.0 ==> !IsModelAvailable(r.1, id)
    ensures WellFormed(fs) ==> WellFormed(r.1)
  {
    if ModelDir(id) !in fs then (false, fs)
    else if removed then (true, set p | p in fs && !UnderModel(p, id))
    else (false, fs)
  }
}
