/**
 * `ModelManagerViewModel`: record updates on `ModelManagerUiState`, the
 * confirmation dialog flow, and the mapping from a download result to the
 * status shown (ModelManagerViewModel.kt).
 *
 * Coroutine launches are run to completion in place. `downloadModel` is the
 * model manager's run (`ModelManager.EnsureModelAvailable`) with the
 * confirmation callback answering `answer`; the source's callback always
 * answers false.
 */
module ViewModel {
  import opened Wrappers
  import opened ModelTypes
  import MM = ModelManager

  datatype UiState = UiState(
    availableModels: seq<ModelInfo> := [],
    downloadedModels: seq<ModelInfo> := [],
    currentDownload: ModelDownloadStatus := Idle,
    networkType: NetworkType := NONE,
    isLoading: bool := false,
    error: Option<string> := None,
    showConfirmationDialog: bool := false,
    pendingDownload: Option<ModelInfo> := None)

  /** The state the view-model starts from. */
  function Initial(): (ui: UiState)
    ensures ui.availableModels == [] && ui.downloadedModels == []
    ensures ui.currentDownload == Idle && ui.networkType == NONE
    ensures !ui.isLoading && ui.error.None?
    ensures !ui.showConfirmationDialog && ui.pendingDownload.None?
  {
    UiState()
  }

  /** The answer the source's confirmation callback gives, unconditionally. */
  const CallbackAnswer: bool := false

  /** The `when (result)` block at the end of `downloadModel`. */
  function ShowResult(ui: UiState, result: ModelDownloadResult, modelId: string): (r: UiState)
    ensures result.Success? ==> r.currentDownload == Downloaded(modelId) && r.error.None?
    ensures result.Error? ==> r.currentDownload == Failed(result.message) && r.error == Some(result.message)
    ensures result.Cancelled? ==> r.currentDownload == Idle && r.error.None?
    ensures r.(currentDownload := ui.currentDownload, error := ui.error) == ui
  {
    match result
    case Success(_) => ui.(currentDownload := Downloaded(modelId), error := None)
    case Error(message, _) => ui.(currentDownload := Failed(message), error := Some(message))
    case Cancelled => ui.(currentDownload := Idle, error := None)
  }

  /** A finished `downloadModel` job: the final state, every status shown in
      turn, the manager's run, and whether `loadModels()` was requested. */
  datatype DownloadJob = DownloadJob(ui: UiState, shown: seq<ModelDownloadStatus>, run: MM.Run, refresh: bool)

  function DownloadModel(ui: UiState, info: ModelInfo, forceDownload: bool, env: MM.ManagerEnv, answer: bool)
    : (job: DownloadJob)
    // Checking is shown first, with the error cleared
    ensures |job.shown| >= 2 && job.shown[0] == Checking
    // the manager sees the callback's answer, everything else as given
    ensures job.run == MM.EnsureModelAvailable(info.id, forceDownload, env.(confirmed := answer))
    // the last status shown is the mapped result
    ensures job.shown[|job.shown| - 1] == job.ui.currentDownload
    ensures job.ui == ShowResult(job.ui, job.run.result, info.id)
    ensures job.refresh <==> job.run.result.Success?
    // the callback raises the dialog for the manager's descriptor
    ensures MM.Made(job.run.calls, MM.Confirmation) ==>
              job.ui.showConfirmationDialog && job.ui.pendingDownload == env.info
    ensures !MM.Made(job.run.calls, MM.Confirmation) ==>
              job.ui.showConfirmationDialog == ui.showConfirmationDialog && job.ui.pendingDownload == ui.pendingDownload
    // lists, network and loading flag are not touched
    ensures job.ui.availableModels == ui.availableModels && job.ui.downloadedModels == ui.downloadedModels
    ensures job.ui.networkType == ui.networkType && job.ui.isLoading == ui.isLoading
  {
    var checking := ui.(currentDownload := Checking, error := None);
    var run := MM.EnsureModelAvailable(info.id, forceDownload, env.(confirmed := answer));
    var asked := if MM.Made(run.calls, MM.Confirmation)
                 then checking.(showConfirmationDialog := true, pendingDownload := env.info)
                 else checking;
    var progressed := if |run.progress| > 0 then asked.(currentDownload := run.progress[|run.progress| - 1]) else asked;
    var final := ShowResult(progressed, run.result, info.id);
    DownloadJob(final, [Checking] + run.progress + [final.currentDownload], run, run.result.Success?)
  }

  /** `downloadModelWithConfirmation`: download at once on WIFI/ETHERNET,
      otherwise only raise the dialog for this model. */
  function DownloadModelWithConfirmation(ui: UiState, info: ModelInfo, current: NetworkType, env: MM.ManagerEnv)
    : (r: UiState)
    ensures IsUnmetered(current) ==> r == DownloadModel(ui, info, false, env, CallbackAnswer).ui
    ensures !IsUnmetered(current) ==> r == ui.(showConfirmationDialog := true, pendingDownload := Some(info))
  {
    if IsUnmetered(current) then DownloadModel(ui, info, false, env, CallbackAnswer).ui
    else ui.(showConfirmationDialog := true, pendingDownload := Some(info))
  }

  /** `confirmDownload` as written: clear the dialog, then start the pending
      download, whose callback answers false again. */
  function ConfirmDownloadAsWritten(ui: UiState, env: MM.ManagerEnv): (r: Option<DownloadJob>)
    ensures ui.pendingDownload.None? <==> r.None?
    ensures r.Some? ==> r.value == DownloadModel(ui.(showConfirmationDialog := false, pendingDownload := None),
                                                 ui.pendingDownload.value, false, env, CallbackAnswer)
  {
    match ui.pendingDownload
    case None => None
    case Some(model) =>
      Some(DownloadModel(ui.(showConfirmationDialog := false, pendingDownload := None), model, false, env, CallbackAnswer))
  }

  /** `confirmDownload` as evidently intended: the user has just confirmed, so
      the manager's confirmation request is answered yes. */
  function ConfirmDownload(ui: UiState, env: MM.ManagerEnv): (r: Option<DownloadJob>)
    ensures ui.pendingDownload.None? <==> r.None?
    ensures r.Some? ==> r.value == DownloadModel(ui.(showConfirmationDialog := false, pendingDownload := None),
                                                 ui.pendingDownload.value, false, env, true)
  {
    match ui.pendingDownload
    case None => None
    case Some(model) =>
      Some(DownloadModel(ui.(showConfirmationDialog := false, pendingDownload := None), model, false, env, true))
  }

  /** As written, a download started from the view-model on a metered network
      can never start: the callback raises the dialog again and answers false,
      so the job ends Idle with nothing downloaded, even right after the user
      confirmed. */
  lemma MeteredDownloadNeverStarts(ui: UiState, env: MM.ManagerEnv)
    requires ui.pendingDownload.Some?
    requires env.failure.None? && env.info.Some? && env.networkAvailable && !IsUnmetered(env.networkType)
    requires !env.available
    ensures var job := ConfirmDownloadAsWritten(ui, env).value;
      && job.ui.currentDownload == Idle
      && job.ui.showConfirmationDialog
      && !MM.Made(job.run.calls, MM.Download)
  {
    var job := ConfirmDownloadAsWritten(ui, env).value;
    MM.MeteredAsksExactlyOnce(ui.pendingDownload.value.id, false, env.(confirmed := false));
  }

  /** Corrected, a confirmed download on a metered network reaches the
      downloader and shows its outcome. */
  lemma ConfirmedMeteredDownloadProceeds(ui: UiState, env: MM.ManagerEnv)
    requires ui.pendingDownload.Some?
    requires env.failure.None? && env.info.Some? && env.networkAvailable && !IsUnmetered(env.networkType)
    requires !env.available
    ensures var job := ConfirmDownload(ui, env).value;
      && MM.Made(job.run.calls, MM.Download)
      && job.run.result == env.downloadResult
      && (env.downloadResult.Success? ==> job.ui.currentDownload == Downloaded(ui.pendingDownload.value.id))
  {
    var job := ConfirmDownload(ui, env).value;
    MM.MeteredAsksExactlyOnce(ui.pendingDownload.value.id, false, env.(confirmed := true));
  }

  /** `dismissConfirmationDialog`: clears the dialog and the pending model only. */
  function DismissConfirmationDialog(ui: UiState): (r: UiState)
    ensures !r.showConfirmationDialog && r.pendingDownload.None?
    ensures r.(showConfirmationDialog := ui.showConfirmationDialog, pendingDownload := ui.pendingDownload) == ui
  {
    ui.(showConfirmationDialog := false, pendingDownload := None)
  }

  /** What `cancelDownload` asks of the outside world besides the state update. */
  datatype CancelEffects = CancelEffects(cancelJob: bool, cancelDownloader: bool)

  /** `cancelDownload`: clears the dialog, shows Idle, cancels the job and
      raises the downloader's cancel flag. */
  function CancelDownload(ui: UiState): (r: (UiState, CancelEffects))
    ensures !r.0.showConfirmationDialog && r.0.pendingDownload.None? && r.0.currentDownload == Idle
    ensures r.0.(showConfirmationDialog := ui.showConfirmationDialog, pendingDownload := ui.pendingDownload,
                 currentDownload := ui.currentDownload) == ui
    ensures r.1.cancelJob && r.1.cancelDownloader
  {
    (ui.(showConfirmationDialog := false, pendingDownload := None, currentDownload := Idle), CancelEffects(true, true))
  }

  /** `clearError`. */
  function ClearError(ui: UiState): (r: UiState)
    ensures r.error.None? && r.(error := ui.error) == ui
  {
    ui.(error := None)
  }

  /** What `loadModels` obtains from the downloader and the network manager. */
  datatype Listing = Listing(available: seq<ModelInfo>, downloaded: seq<ModelInfo>, networkType: NetworkType)
                   | ListingFailed(error: Exception)

  /** `loadModels`, from its first update to its last. */
  function LoadModels(ui: UiState, listing: Listing): (r: UiState)
    ensures !r.isLoading
    ensures listing.Listing? ==>
              r == ui.(availableModels := listing.available, downloadedModels := listing.downloaded,
                       networkType := listing.networkType, isLoading := false, error := None)
    ensures listing.ListingFailed? ==>
              r == ui.(isLoading := false, error := Some("Failed to load models: " + MessageText(listing.error)))
  {
    var loading := ui.(isLoading := true, error := None);
    match listing
    case Listing(available, downloaded, networkType) =>
      loading.(availableModels := available, downloadedModels := downloaded, networkType := networkType,
               isLoading := false)
    case ListingFailed(e) => loading.(isLoading := false, error := Some("Failed to load models: " + MessageText(e)))
  }

  /** The downloader's answer to `deleteModel`. */
  datatype Deletion = Deleted(success: bool) | DeleteThrew(error: Exception)

  /** `deleteModel`: a success refreshes the lists, anything else sets the error. */
  function DeleteModel(ui: UiState, outcome: Deletion): (r: (UiState, bool))
    ensures r.1 <==> outcome == Deleted(true)
    ensures r.1 ==> r.0 == ui
    ensures outcome == Deleted(false) ==> r.0 == ui.(error := Some("Failed to delete model"))
    ensures outcome.DeleteThrew? ==> r.0 == ui.(error := Some("Error deleting model: " + MessageText(outcome.error)))
  {
    match outcome
    case Deleted(true) => (ui, true)
    case Deleted(false) => (ui.(error := Some("Failed to delete model")), false)
    case DeleteThrew(e) => (ui.(error := Some("Error deleting model: " + MessageText(e))), false)
  }

  /** Each value of the network subscription replaces the shown network type. */
  function OnNetworkChange(ui: UiState, t: NetworkType): (r: UiState)
    ensures r.networkType == t && r.(networkType := ui.networkType) == ui
  {
    ui.(networkType := t)
  }
}
