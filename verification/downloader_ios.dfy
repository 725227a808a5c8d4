/**
 * `IOSModelDownloader.downloadModel`: one NSURLSession data task awaited by
 * polling, with the cancel flag checked when the wait ends
 * (ModelDownloader.ios.kt).
 *
 * The session's answer is an oracle. Whether `cancelDownload()` raised the flag
 * before the wait ended is an input; the flag wins over a completed transfer.
 */
module IosDownloader {
  import opened Wrappers
  import opened ModelTypes
  import opened ModelStore

  /** What the data task's completion handler delivered, or an exception
      thrown while setting the transfer up. */
  datatype SessionOutcome =
    | TaskError(description: string)
    | Completed(dataLength: Option<nat>)
    | SetupThrew(error: Exception)

  datatype DownloadRun = DownloadRun(progress: seq<ModelDownloadStatus>, result: ModelDownloadResult, fs: FileSet)

  const NoData: string := "No data received"

  /** The single progress update: a fixed 0.8, with the data length as both
      counts. */
  function SavedUpdate(length: nat): ModelDownloadStatus {
    Downloading(Fraction(4, 5), length, length)
  }

  function DownloadModel(fs: FileSet, root: string, info: ModelInfo, cancelled: bool, outcome: SessionOutcome)
    : (run: DownloadRun)
    ensures |run.progress| >= 1 && run.progress[0] == Checking
    // a cancel during the wait wins, and no Downloaded is emitted
    ensures cancelled && !outcome.SetupThrew? ==> run.result == Cancelled && run.progress == [Checking]
    ensures outcome.TaskError? && !cancelled ==> run.result == Error("Download failed: " + outcome.description)
    ensures outcome == Completed(None) && !cancelled ==> run.result == Error(NoData)
    // success emits exactly one update carrying the data length, then Downloaded
    ensures run.result.Success? <==> !cancelled && outcome.Completed? && outcome.dataLength.Some?
    ensures run.result.Success? ==>
              run.progress == [Checking, SavedUpdate(outcome.dataLength.value), Downloaded(info.id)]
              && run.result.modelInfo == info.(localPath := Some(ModelPath(root, info.id)), isDownloaded := true)
    ensures !run.result.Success? ==> forall i :: 0 <= i < |run.progress| ==> !run.progress[i].Downloaded?
    // the directory is created up front; the temporary archive is removed again
    ensures !outcome.SetupThrew? ==> run.fs == fs + {ModelDir(info.id)}
    ensures WellFormed(fs) ==> forall id :: IsModelAvailable(run.fs, id) <==> IsModelAvailable(fs, id)
  {
    var fs1 := fs + {ModelDir(info.id)};
    SameFilesSameAvailability(fs, fs1, info.id);
    match outcome
    case SetupThrew(e) => DownloadRun([Checking], Error("Download failed: " + MessageText(e), Some(e)), fs1)
    case _ =>
      if cancelled then DownloadRun([Checking], Cancelled, fs1)
      else match outcome
        case TaskError(description) => DownloadRun([Checking], Error("Download failed: " + description), fs1)
        case Completed(None) => DownloadRun([Checking], Error(NoData), fs1)
        case Completed(Some(length)) =>
          DownloadRun([Checking, SavedUpdate(length), Downloaded(info.id)],
                      Success(info.(localPath := Some(ModelPath(root, info.id)), isDownloaded := true)), fs1)
  }

  /** The declared checksum is never consulted: two descriptors that differ only
      in it produce the same statuses and the same kind of result. */
  lemma ChecksumIgnored(fs: FileSet, root: string, info: ModelInfo, cancelled: bool, outcome: SessionOutcome,
                        other: Option<string>)
    ensures var a := DownloadModel(fs, root, info, cancelled, outcome);
            var b := DownloadModel(fs, root, info.(checksumMd5 := other), cancelled, outcome);
            a.progress == b.progress && a.fs == b.fs
            && (a.result.Success? <==> b.result.Success?) && (!a.result.Success? ==> a.result == b.result)
  {
  }
}
