/**
 * `AndroidModelDownloader.downloadModel`: an HTTP GET streamed in chunks to a
 * temporary archive, with a cancel flag checked after every read and an
 * optional MD5 check (ModelDownloader.android.kt).
 *
 * The transfer is an oracle: the connection either fails or answers with a
 * status, a declared length and the byte counts of successive reads; the cancel
 * flag and a read failure are pinned to the read at which they take effect; the
 * MD5 digest of the archive is an opaque string. Nothing is extracted.
 */
module AndroidDownloader {
  import opened Wrappers
  import opened ModelTypes
  import opened ModelStore
  import opened Text

  const HttpOk: int := 200

  datatype Exchange =
    | ConnectFails(error: Exception)
    | Response(
        code: int,
        message: Option<string>,       // responseMessage, which may be null
        contentLength: int,            // -1 when the server sends none
        chunks: seq<nat>,              // bytes returned by each successful read
        cancelAt: Option<nat>,         // cancelDownload() first seen after read k
        failAt: Option<(nat, Exception)>, // read k throws
        digest: string)                // MD5 of the archive, as lower-case hex

  /** How the read loop ended. */
  datatype StreamEnd = EndOfStream | CancelSeen | ReadFailed(error: Exception)

  function Sum(s: seq<nat>): nat {
    if |s| == 0 then 0 else Sum(s[..|s| - 1]) + s[|s| - 1]
  }

  lemma SumPrefixGrows(s: seq<nat>, i: nat, j: nat)
    requires i <= j <= |s|
    ensures Sum(s[..i]) <= Sum(s[..j])
    decreases j
  {
    if i < j {
      assert s[..j][..j - 1] == s[..j - 1];
      SumPrefixGrows(s, i, j - 1);
    }
  }

  /** The float ratio `downloaded / total`, or 0 when the length is unknown. */
  function ProgressOf(downloaded: int, total: int): Fraction {
    if total > 0 then Fraction(downloaded, total) else NoProgress
  }

  function DownloadingAfter(chunks: seq<nat>, k: nat, total: int): ModelDownloadStatus
    requires k <= |chunks|
  {
    var d := Sum(chunks[..k]);
    Downloading(ProgressOf(d, total), d, total)
  }

  /** From read `k` on, a read throws before any cancel is noticed: the failing
      read is at or before end of stream, and no earlier chunk saw the flag. */
  predicate FailsFrom(chunks: seq<nat>, k: nat, cancelAt: Option<nat>, failAt: Option<(nat, Exception)>) {
    && failAt.Some? && k <= failAt.value.0 <= |chunks|
    && !(cancelAt.Some? && k <= cancelAt.value < failAt.value.0)
  }

  /** From read `k` on, the cancel flag is seen after a chunk was read and
      before any read throws. */
  predicate CancelsFrom(chunks: seq<nat>, k: nat, cancelAt: Option<nat>, failAt: Option<(nat, Exception)>) {
    && cancelAt.Some? && k <= cancelAt.value < |chunks|
    && !(failAt.Some? && k <= failAt.value.0 <= cancelAt.value)
  }

  /** The loop from read `k` on: read (which may throw), stop at end of stream,
      check the cancel flag, then write and report the running total. */
  function ReadFrom(chunks: seq<nat>, k: nat, total: int, cancelAt: Option<nat>,
                    failAt: Option<(nat, Exception)>): (r: (seq<ModelDownloadStatus>, StreamEnd))
    requires k <= |chunks|
    ensures |r.0| <= |chunks| - k
    ensures forall j :: 0 <= j < |r.0| ==> r.0[j] == DownloadingAfter(chunks, k + j + 1, total)
    // the loop stops at the first failing read or cancel check, whichever comes first
    ensures r.1.ReadFailed? <==> FailsFrom(chunks, k, cancelAt, failAt)
    ensures r.1.CancelSeen? <==> CancelsFrom(chunks, k, cancelAt, failAt)
    ensures r.1.EndOfStream? ==> |r.0| == |chunks| - k
    ensures r.1.CancelSeen? ==> cancelAt == Some(k + |r.0|)
    ensures r.1.ReadFailed? ==> failAt == Some((k + |r.0|, r.1.error))
    decreases |chunks| - k
  {
    if failAt.Some? && failAt.value.0 == k then ([], ReadFailed(failAt.value.1))
    else if k == |chunks| then ([], EndOfStream)
    else if cancelAt == Some(k) then ([], CancelSeen)
    else
      var rest := ReadFrom(chunks, k + 1, total, cancelAt, failAt);
      ([DownloadingAfter(chunks, k + 1, total)] + rest.0, rest.1)
  }

  datatype DownloadRun = DownloadRun(
    progress: seq<ModelDownloadStatus>,
    result: ModelDownloadResult,
    fs: FileSet,
    cancelFlag: bool)

  function ServerError(code: int, message: Option<string>): string {
    "Server returned " + IntToString(code) + ": " + MessageText(Exception(message))
  }

  const ChecksumFailed: string := "Checksum verification failed"

  function DownloadFailed(e: Exception): ModelDownloadResult {
    Error("Download failed: " + MessageText(e), Some(e))
  }

  /** A 200 response whose reads all succeed to end of stream with no cancel seen. */
  predicate ReadsToEnd(x: Exchange) {
    && x.Response? && x.code == HttpOk
    && !FailsFrom(x.chunks, 0, x.cancelAt, x.failAt)
    && !CancelsFrom(x.chunks, 0, x.cancelAt, x.failAt)
  }

  /** `downloadModel(info)` against the store `fs`; `root` is the models directory.
      The cancel flag is reset on entry, so its value before the call is not an input. */
  function DownloadModel(fs: FileSet, root: string, info: ModelInfo, x: Exchange): (run: DownloadRun)
    // Checking comes first, and the model directory is created whatever happens next
    ensures |run.progress| >= 1 && run.progress[0] == Checking
    ensures ModelDir(info.id) in run.fs
    // only paths of this model change
    ensures forall p: Path :: p.id != info.id ==> (p in run.fs <==> p in fs)
    ensures WellFormed(fs) ==> WellFormed(run.fs)
    // nothing is extracted, so availability is unchanged for every model
    ensures WellFormed(fs) ==> forall id :: IsModelAvailable(run.fs, id) <==> IsModelAvailable(fs, id)
    // Downloaded is emitted exactly on success, as the last status
    ensures run.result.Success? <==> run.progress[|run.progress| - 1] == Downloaded(info.id)
    ensures forall i :: 0 <= i < |run.progress| - 1 ==> !run.progress[i].Downloaded?
    ensures run.result.Success? ==>
              run.result.modelInfo == info.(localPath := Some(ModelPath(root, info.id)), isDownloaded := true)
              && TempFile(info.id) !in run.fs
    // every update between Checking and the end is a running total of the reads
    ensures x.Response? ==> forall i :: 1 <= i < |run.progress| && run.progress[i].Downloading? ==>
              i <= |x.chunks| && run.progress[i] == DownloadingAfter(x.chunks, i, x.contentLength)
    // a cancel seen in the loop deletes the archive and returns Cancelled
    ensures run.result.Cancelled? ==> TempFile(info.id) !in run.fs && run.cancelFlag
    // what each kind of exchange returns
    ensures x.ConnectFails? ==>
              run.progress == [Checking] && run.result == DownloadFailed(x.error)
              && (TempFile(info.id) in run.fs <==> TempFile(info.id) in fs)
    ensures x.Response? && x.code != HttpOk ==>
              run.progress == [Checking] && run.result == Error(ServerError(x.code, x.message))
              && (TempFile(info.id) in run.fs <==> TempFile(info.id) in fs)
    ensures x.Response? && x.code == HttpOk && CancelsFrom(x.chunks, 0, x.cancelAt, x.failAt) ==>
              run.result == Cancelled && TempFile(info.id) !in run.fs
              && |run.progress| == 1 + x.cancelAt.value
    ensures x.Response? && x.code == HttpOk && FailsFrom(x.chunks, 0, x.cancelAt, x.failAt) ==>
              run.result == DownloadFailed(x.failAt.value.1) && TempFile(info.id) in run.fs
              && |run.progress| == 1 + x.failAt.value.0
    ensures ReadsToEnd(x) ==>
              && (run.result.Success? <==> info.checksumMd5.None? || x.digest == info.checksumMd5.value)
              && (!run.result.Success? ==> run.result == Error(ChecksumFailed))
              && |run.progress| == 1 + |x.chunks| + (if run.result.Success? then 1 else 0)
              && TempFile(info.id) !in run.fs
  {
    var fs1 := fs + {ModelDir(info.id)};
    var run := match x
      case ConnectFails(e) => DownloadRun([Checking], DownloadFailed(e), fs1, false)
      case Response(code, message, _, _, cancelAt, _, _) =>
        if code != HttpOk then DownloadRun([Checking], Error(ServerError(code, message)), fs1, cancelAt.Some?)
        else Streamed(fs1, root, info, x);
    SameFilesSameAvailability(fs, run.fs, info.id);
    run
  }

  /** After a 200 response: stream the reads into the archive, then check the
      digest. The archive is left behind only by a read that throws. */
  function Streamed(fs: FileSet, root: string, info: ModelInfo, x: Exchange): (run: DownloadRun)
    requires x.Response? && x.code == HttpOk
    ensures run.fs == if FailsFrom(x.chunks, 0, x.cancelAt, x.failAt) then fs + {TempFile(info.id)}
                      else fs + {TempFile(info.id)} - {TempFile(info.id)}
    ensures |run.progress| >= 1 && run.progress[0] == Checking
    ensures run.result.Success? <==> run.progress[|run.progress| - 1] == Downloaded(info.id)
    ensures forall i :: 0 <= i < |run.progress| - 1 ==> !run.progress[i].Downloaded?
    ensures run.result.Success? ==>
              run.result.modelInfo == info.(localPath := Some(ModelPath(root, info.id)), isDownloaded := true)
    ensures forall i :: 1 <= i < |run.progress| && run.progress[i].Downloading? ==>
              i <= |x.chunks| && run.progress[i] == DownloadingAfter(x.chunks, i, x.contentLength)
    ensures run.result.Cancelled? ==> run.cancelFlag
    ensures CancelsFrom(x.chunks, 0, x.cancelAt, x.failAt) ==>
              run.result == Cancelled && |run.progress| == 1 + x.cancelAt.value
    ensures FailsFrom(x.chunks, 0, x.cancelAt, x.failAt) ==>
              run.result == DownloadFailed(x.failAt.value.1) && |run.progress| == 1 + x.failAt.value.0
    ensures ReadsToEnd(x) ==>
              && (run.result.Success? <==> info.checksumMd5.None? || x.digest == info.checksumMd5.value)
              && (!run.result.Success? ==> run.result == Error(ChecksumFailed))
              && |run.progress| == 1 + |x.chunks| + (if run.result.Success? then 1 else 0)
  {
    var fs2 := fs + {TempFile(info.id)};
    var (updates, end) := ReadFrom(x.chunks, 0, x.contentLength, x.cancelAt, x.failAt);
    var progress := [Checking] + updates;
    match end
    case ReadFailed(e) => DownloadRun(progress, DownloadFailed(e), fs2, x.cancelAt.Some?)
    case CancelSeen => DownloadRun(progress, Cancelled, fs2 - {TempFile(info.id)}, true)
    case EndOfStream =>
      if info.checksumMd5.Some? && x.digest != info.checksumMd5.value then
        DownloadRun(progress, Error(ChecksumFailed), fs2 - {TempFile(info.id)}, x.cancelAt.Some?)
      else
        DownloadRun(progress + [Downloaded(info.id)],
                    Success(info.(localPath := Some(ModelPath(root, info.id)), isDownloaded := true)),
                    fs2 - {TempFile(info.id)}, x.cancelAt.Some?)
  }

  /** The reported totals never go down and the declared total never changes. */
  lemma DownloadedNeverDecreases(fs: FileSet, root: string, info: ModelInfo, x: Exchange, i: nat, j: nat)
    requires x.Response?
    requires var run := DownloadModel(fs, root, info, x);
      1 <= i <= j < |run.progress| && run.progress[i].Downloading? && run.progress[j].Downloading?
    ensures var run := DownloadModel(fs, root, info, x);
      run.progress[i].downloaded <= run.progress[j].downloaded
      && run.progress[i].total == run.progress[j].total == x.contentLength
  {
    SumPrefixGrows(x.chunks, i, j);
  }

  /** A declared checksum that the archive does not match fails the download
      after the archive is deleted, a matching one lets it succeed, and without
      a declared checksum the digest is never looked at. */
  lemma ChecksumDecides(fs: FileSet, root: string, info: ModelInfo, x: Exchange, otherDigest: string)
    requires x.Response? && x.code == HttpOk
    requires ReadFrom(x.chunks, 0, x.contentLength, x.cancelAt, x.failAt).1.EndOfStream?
    ensures info.checksumMd5.Some? && x.digest != info.checksumMd5.value ==>
              DownloadModel(fs, root, info, x).result == Error(ChecksumFailed)
              && TempFile(info.id) !in DownloadModel(fs, root, info, x).fs
    ensures info.checksumMd5.Some? && x.digest == info.checksumMd5.value ==>
              DownloadModel(fs, root, info, x).result.Success?
              && TempFile(info.id) !in DownloadModel(fs, root, info, x).fs
    ensures info.checksumMd5.None? ==>
              DownloadModel(fs, root, info, x) == DownloadModel(fs, root, info, x.(digest := otherDigest))
              && DownloadModel(fs, root, info, x).result.Success?
  {
  }

  /** A failed or cancelled download leaves the model directory it created
      behind; a read failure also leaves the partial archive. */
  lemma FailureLeavesDirectory(fs: FileSet, root: string, info: ModelInfo, x: Exchange)
    requires !DownloadModel(fs, root, info, x).result.Success?
    ensures ModelDir(info.id) in DownloadModel(fs, root, info, x).fs
    ensures x.Response? && x.code == HttpOk
            && ReadFrom(x.chunks, 0, x.contentLength, x.cancelAt, x.failAt).1.ReadFailed? ==>
              TempFile(info.id) in DownloadModel(fs, root, info, x).fs
  {
  }
}
