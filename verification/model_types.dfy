/**
 * The provisioning vocabulary shared by the model manager, the two downloaders,
 * the two network classifiers and the view-model (ModelManager.kt).
 */
module ModelTypes {
  import opened Wrappers
  import Seqs

  /** A download progress ratio kept exact: `num / den`. The source stores a
      32-bit float; the model keeps the rational it is computed from. */
  datatype Fraction = Fraction(num: int, den: int)

  const NoProgress: Fraction := Fraction(0, 1)

  /** The five download states an `onProgress` sink can observe. */
  datatype ModelDownloadStatus =
    | Idle
    | Checking
    | Downloading(progress: Fraction, downloaded: int, total: int)
    | Downloaded(modelId: string)
    | Failed(error: string)

  datatype NetworkType = NONE | WIFI | CELLULAR | ETHERNET

  /** An unmetered connection: the manager downloads without asking. */
  predicate IsUnmetered(t: NetworkType) { t == WIFI || t == ETHERNET }

  datatype ModelInfo = ModelInfo(
    id: string,
    name: string,
    displayName: string,
    language: Option<string>,
    size: int,
    downloadUrl: string,
    localPath: Option<string>,
    version: string,
    isDownloaded: bool := false,
    checksumMd5: Option<string> := None)

  /** A thrown exception, reduced to its (possibly null) message. */
  datatype Exception = Exception(message: Option<string>)

  datatype ModelDownloadResult =
    | Success(modelInfo: ModelInfo)
    | Error(message: string, cause: Option<Exception> := None)
    | Cancelled

  /** Kotlin's string template renders a null message as "null". */
  function MessageText(e: Exception): (s: string)
    ensures e.message.Some? ==> s == e.message.value
    ensures e.message.None? ==> s == "null"
  {
    match e.message
    case Some(m) => m
    case None => "null"
  }

  /** The `isDownloaded` filter that every `getDownloadedModels` applies. */
  function DownloadedOnly(models: seq<ModelInfo>): (r: seq<ModelInfo>)
    ensures forall m :: m in r <==> m in models && m.isDownloaded
    ensures Seqs.IsSubsequence(r, models)
    // each downloaded entry is kept as many times as it occurs, the others never
    ensures forall m :: multiset(r)[m] == if m.isDownloaded then multiset(models)[m] else 0
  {
    Seqs.Filter(models, (m: ModelInfo) => m.isDownloaded)
  }

  /** No `Downloaded` status appears in a progress trace. */
  predicate NoDownloadedIn(trace: seq<ModelDownloadStatus>) {
    forall i :: 0 <= i < |trace| ==> !trace[i].Downloaded?
  }
}
