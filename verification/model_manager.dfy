/**
 * `DefaultModelManager.ensureModelAvailable`: the five-step decision that either
 * reuses a local model or downloads it, asking the user first on a metered
 * network (DefaultModelManager.kt).
 *
 * The downloader, the network manager and the confirmation callback are
 * oracles. Their answers are fixed in a `ManagerEnv`; any of the six calls may
 * instead throw, which `failure` names. A run records the calls made, the
 * statuses sent to `onProgress`, and the returned result.
 */
module ModelManager {
  import opened Wrappers
  import opened ModelTypes
  import Seqs

  /** The oracle call that may throw. */
  datatype Step = AvailabilityCheck | InfoLookup | NetworkCheck | TypeQuery | Confirmation | Download

  datatype ManagerEnv = ManagerEnv(
    available: bool,                              // downloader.isModelAvailable(id)
    info: Option<ModelInfo>,                      // downloader.getModelInfo(id)
    networkAvailable: bool,                       // networkManager.isNetworkAvailable()
    networkType: NetworkType,                     // networkManager.getCurrentNetworkType()
    confirmed: bool,                              // onConfirmationNeeded(info, type)
    downloadStatuses: seq<ModelDownloadStatus>,   // what downloadModel sends to onProgress
    downloadResult: ModelDownloadResult,          // what downloadModel returns
    failure: Option<(Step, Exception)>)           // the call that throws, if any
  {
    predicate Throws(s: Step) { failure.Some? && failure.value.0 == s }
  }

  datatype Call =
    | IsModelAvailable
    | GetModelInfo
    | IsNetworkAvailable
    | GetNetworkType
    | AskConfirmation(info: ModelInfo, networkType: NetworkType)
    | DownloadModel(info: ModelInfo)

  function StepOf(c: Call): Step {
    match c
    case IsModelAvailable => AvailabilityCheck
    case GetModelInfo => InfoLookup
    case IsNetworkAvailable => NetworkCheck
    case GetNetworkType => TypeQuery
    case AskConfirmation(_, _) => Confirmation
    case DownloadModel(_) => Download
  }

  /** Position of a call in the documented order: local check, lookup,
      network check, confirmation, download. */
  function StepRank(s: Step): nat {
    match s
    case AvailabilityCheck => 0
    case InfoLookup => 1
    case NetworkCheck => 2
    case TypeQuery => 3
    case Confirmation => 4
    case Download => 5
  }

  datatype Run = Run(calls: seq<Call>, progress: seq<ModelDownloadStatus>, result: ModelDownloadResult)

  /** Some recorded call belongs to step `s`. */
  predicate Made(calls: seq<Call>, s: Step) { exists i :: 0 <= i < |calls| && StepOf(calls[i]) == s }

  /** `a` may be followed by `b`: the step moves strictly forward, except that
      `getModelInfo` is called a second time when the local check found a model
      without a descriptor. */
  predicate Precedes(a: Call, b: Call) {
    StepRank(StepOf(a)) < StepRank(StepOf(b)) || (a == GetModelInfo && b == GetModelInfo)
  }

  predicate InDocumentedOrder(calls: seq<Call>) {
    forall i, j :: 0 <= i < j < |calls| ==> Precedes(calls[i], calls[j])
  }

  /** Record one more oracle call, keeping the documented order. */
  function Then(calls: seq<Call>, c: Call): (r: seq<Call>)
    requires InDocumentedOrder(calls)
    requires |calls| > 0 ==> Precedes(calls[|calls| - 1], c)
    ensures InDocumentedOrder(r)
    ensures |r| == |calls| + 1 && r[..|calls|] == calls && r[|calls|] == c
    ensures forall s :: Made(r, s) <==> Made(calls, s) || StepOf(c) == s
  {
    var r := calls + [c];
    assert forall s :: Made(r, s) ==> Made(calls, s) || StepOf(c) == s by {
      forall s | Made(r, s) ensures Made(calls, s) || StepOf(c) == s {
        var i :| 0 <= i < |r| && StepOf(r[i]) == s;
        if i < |calls| { assert StepOf(calls[i]) == s; }
      }
    }
    assert Made(r, StepOf(c)) by { assert StepOf(r[|calls|]) == StepOf(c); }
    assert forall s :: Made(calls, s) ==> Made(r, s) by {
      forall s | Made(calls, s) ensures Made(r, s) {
        var i :| 0 <= i < |calls| && StepOf(calls[i]) == s;
        assert StepOf(r[i]) == s;
      }
    }
    assert forall i :: 0 <= i < |calls| ==> Precedes(calls[i], c) by {
      forall i | 0 <= i < |calls| ensures Precedes(calls[i], c) {
        assert i == |calls| - 1 || Precedes(calls[i], calls[|calls| - 1]);
      }
    }
    r
  }

  const FailurePrefix: string := "Failed to download model: "
  const NoNetworkMessage: string := "No network connection available"

  function NotFoundMessage(modelId: string): string { "Model not found: " + modelId }

  /** The `catch` clause: the exception becomes an `Error` carrying it as cause. */
  function Caught(calls: seq<Call>, progress: seq<ModelDownloadStatus>, e: Exception): (run: Run)
    ensures run.result.Error? && run.result.cause == Some(e)
    ensures run.result.message == FailurePrefix + MessageText(e)
    ensures run.calls == calls && run.progress == progress
  {
    Run(calls, progress, Error(FailurePrefix + MessageText(e), Some(e)))
  }

  function FailureOf(env: ManagerEnv): Exception
    requires env.failure.Some?
  {
    env.failure.value.1
  }

  /** The network lets step 5 run: it is available, and either unmetered or
      the user agreed to use it. */
  predicate Proceeds(env: ManagerEnv) {
    env.networkAvailable && (IsUnmetered(env.networkType) || env.confirmed)
  }

  /** The run ended by handing `info` to the downloader, after Checking, and
      returned the downloader's answer. */
  predicate EndsInDownload(run: Run, info: ModelInfo, env: ManagerEnv) {
    && |run.calls| > 0 && run.calls[|run.calls| - 1] == DownloadModel(info)
    && run.progress == [Checking] + env.downloadStatuses
    && run.result == env.downloadResult
  }

  function EnsureModelAvailable(modelId: string, forceDownload: bool, env: ManagerEnv): (run: Run)
    // the calls follow the documented order: local check, lookup, network, confirmation, download
    ensures InDocumentedOrder(run.calls)
    // step 1 is skipped entirely when forced
    ensures forceDownload ==> !Made(run.calls, AvailabilityCheck)
    // step 1 short-circuit: no network query and no download
    ensures !forceDownload && env.available && env.info.Some? && env.failure.None? ==>
              run.progress == [Downloaded(modelId)] && run.result == Success(env.info.value)
              && !Made(run.calls, NetworkCheck) && !Made(run.calls, Download)
    // an unknown id is reported without any download
    ensures env.info.None? && env.failure.None? ==>
              run.result == Error(NotFoundMessage(modelId)) && run.progress == []
              && !Made(run.calls, Download)
    // confirmation is only ever asked on an available metered network
    ensures Made(run.calls, Confirmation) ==> !IsUnmetered(env.networkType) && env.networkAvailable
    // every download is preceded by Checking and returns the downloader's own answer
    ensures Made(run.calls, Download) && !env.Throws(Download) ==>
              run.progress == [Checking] + env.downloadStatuses && run.result == env.downloadResult
    // exceptions never escape: a call that throws ends the run with the wrapped error
    ensures env.failure.Some? && Made(run.calls, env.failure.value.0) ==>
              run.result == Error(FailurePrefix + MessageText(FailureOf(env)), Some(FailureOf(env)))
    // a known model that is not reused locally is downloaded exactly when the network lets it
    ensures env.failure.None? && env.info.Some? && (forceDownload || !env.available) && Proceeds(env) ==>
              EndsInDownload(run, env.info.value, env)
    ensures Made(run.calls, Download) ==>
              env.info.Some? && (forceDownload || !env.available) && Proceeds(env)
  {
    if !forceDownload then
      var c0 := Then([], IsModelAvailable);
      if env.Throws(AvailabilityCheck) then Caught(c0, [], FailureOf(env))
      else if env.available then
        var c1 := Then(c0, GetModelInfo);
        if env.Throws(InfoLookup) then Caught(c1, [], FailureOf(env))
        else if env.info.Some? then Run(c1, [Downloaded(modelId)], Success(env.info.value))
        else LookupAndDownload(modelId, c1, env)
      else LookupAndDownload(modelId, c0, env)
    else LookupAndDownload(modelId, [], env)
  }

  /** What has happened before a later step runs: the calls recorded so far are
      in order, belong to `upTo` or earlier steps, and none of them threw. */
  predicate Before(calls: seq<Call>, env: ManagerEnv, upTo: Step) {
    && InDocumentedOrder(calls)
    && (forall i :: 0 <= i < |calls| ==> StepRank(StepOf(calls[i])) <= StepRank(upTo))
    && (env.failure.Some? ==> !Made(calls, env.failure.value.0))
  }

  /** The guarantees every stage gives about the rest of the run. */
  predicate Stage(calls: seq<Call>, env: ManagerEnv, run: Run) {
    && InDocumentedOrder(run.calls)
    && (Made(run.calls, AvailabilityCheck) <==> Made(calls, AvailabilityCheck))
    && (Made(run.calls, Confirmation) ==> !IsUnmetered(env.networkType) && env.networkAvailable)
    && (Made(run.calls, Download) ==> Proceeds(env))
    && (Made(run.calls, Download) && !env.Throws(Download) ==>
          run.progress == [Checking] + env.downloadStatuses && run.result == env.downloadResult)
    && (env.failure.Some? && Made(run.calls, env.failure.value.0) ==>
          run.result == Error(FailurePrefix + MessageText(FailureOf(env)), Some(FailureOf(env))))
  }

  /** Step 2: look the descriptor up, after the local check (if any) recorded `calls`. */
  function LookupAndDownload(modelId: string, calls: seq<Call>, env: ManagerEnv): (run: Run)
    requires Before(calls, env, InfoLookup)
    ensures Stage(calls, env, run)
    ensures env.info.None? && !env.Throws(InfoLookup) ==>
              run == Run(calls + [GetModelInfo], [], Error(NotFoundMessage(modelId)))
    ensures Made(run.calls, Download) ==> env.info.Some?
    ensures env.failure.None? && env.info.Some? && Proceeds(env) ==> EndsInDownload(run, env.info.value, env)
  {
    var c1 := Then(calls, GetModelInfo);
    assert !Made(c1, Download) && !Made(c1, Confirmation) && !Made(c1, NetworkCheck);
    if env.Throws(InfoLookup) then Caught(c1, [], FailureOf(env))
    else if env.info.None? then Run(c1, [], Error(NotFoundMessage(modelId)))
    else CheckNetwork(c1, env.info.value, env)
  }

  /** Step 3: refuse to start without a network. */
  function CheckNetwork(calls: seq<Call>, info: ModelInfo, env: ManagerEnv): (run: Run)
    requires Before(calls, env, InfoLookup) && |calls| > 0 && calls[|calls| - 1] == GetModelInfo
    ensures Stage(calls, env, run)
    ensures !env.networkAvailable && !env.Throws(NetworkCheck) ==>
              run == Run(calls + [IsNetworkAvailable], [], Error(NoNetworkMessage))
    ensures env.failure.None? && Proceeds(env) ==> EndsInDownload(run, info, env)
  {
    var c2 := Then(calls, IsNetworkAvailable);
    if env.Throws(NetworkCheck) then Caught(c2, [], FailureOf(env))
    else if !env.networkAvailable then Run(c2, [], Error(NoNetworkMessage))
    else
      var c3 := Then(c2, GetNetworkType);
      if env.Throws(TypeQuery) then Caught(c3, [], FailureOf(env))
      else ConfirmAndDownload(c3, info, env)
  }

  /** Step 4: ask before using a metered connection; then step 5. */
  function ConfirmAndDownload(calls: seq<Call>, info: ModelInfo, env: ManagerEnv): (run: Run)
    requires Before(calls, env, TypeQuery) && |calls| > 0 && calls[|calls| - 1] == GetNetworkType
    requires env.networkAvailable
    ensures Stage(calls, env, run)
    ensures !IsUnmetered(env.networkType) && !env.Throws(Confirmation) && !env.confirmed ==>
              run == Run(calls + [AskConfirmation(info, env.networkType)], [], Cancelled)
    ensures IsUnmetered(env.networkType) ==> !Made(run.calls, Confirmation)
    // unmetered, or metered and confirmed: the downloader gets the model
    ensures (IsUnmetered(env.networkType) || (env.confirmed && !env.Throws(Confirmation))) ==>
              |run.calls| > 0 && run.calls[|run.calls| - 1] == DownloadModel(info)
              && run.progress == [Checking] + env.downloadStatuses
              && (!env.Throws(Download) ==> run.result == env.downloadResult)
  {
    if !IsUnmetered(env.networkType) then
      var c4 := Then(calls, AskConfirmation(info, env.networkType));
      if env.Throws(Confirmation) then Caught(c4, [], FailureOf(env))
      else if !env.confirmed then Run(c4, [], Cancelled)
      else StartDownload(c4, info, env)
    else StartDownload(calls, info, env)
  }

  /** Step 5: announce Checking, then hand over to the downloader. */
  function StartDownload(calls: seq<Call>, info: ModelInfo, env: ManagerEnv): (run: Run)
    requires InDocumentedOrder(calls) && |calls| > 0 && Precedes(calls[|calls| - 1], DownloadModel(info))
    ensures InDocumentedOrder(run.calls)
    ensures run.calls == calls + [DownloadModel(info)]
    ensures forall s :: Made(run.calls, s) <==> Made(calls, s) || s == Download
    ensures run.progress == [Checking] + env.downloadStatuses
    ensures !env.Throws(Download) ==> run.result == env.downloadResult
  {
    var c := Then(calls, DownloadModel(info));
    if env.Throws(Download) then Caught(c, [Checking] + env.downloadStatuses, FailureOf(env))
    else Run(c, [Checking] + env.downloadStatuses, env.downloadResult)
  }

  /** In a run whose calls are in documented order, the confirmation is asked at
      most once and a download is always the last call. */
  lemma OrderedCallsShape(calls: seq<Call>)
    requires InDocumentedOrder(calls)
    ensures forall i, j :: 0 <= i < j < |calls| && calls[i].AskConfirmation? ==> !calls[j].AskConfirmation?
    ensures forall i :: 0 <= i < |calls| - 1 ==> !calls[i].DownloadModel?
  {
    forall i | 0 <= i < |calls| - 1
      ensures !calls[i].DownloadModel?
    {
      assert Precedes(calls[i], calls[i + 1]);
    }
  }

  /** Without a network nothing is confirmed or downloaded, and no status is emitted. */
  lemma NoNetworkStopsEarly(modelId: string, forceDownload: bool, env: ManagerEnv)
    requires env.failure.None? && env.info.Some? && !env.networkAvailable
    requires forceDownload || !env.available
    ensures var run := EnsureModelAvailable(modelId, forceDownload, env);
      && run.result == Error(NoNetworkMessage)
      && run.progress == []
      && !Made(run.calls, Confirmation) && !Made(run.calls, Download)
  {
    var run := EnsureModelAvailable(modelId, forceDownload, env);
    assert forall i :: 0 <= i < |run.calls| ==> StepRank(StepOf(run.calls[i])) <= StepRank(NetworkCheck);
  }

  /** On a metered network the user is asked (exactly once, by `OrderedCallsShape`); a refusal cancels
      before Checking is emitted and before any download. */
  lemma MeteredAsksExactlyOnce(modelId: string, forceDownload: bool, env: ManagerEnv)
    requires env.failure.None? && env.info.Some? && env.networkAvailable && !IsUnmetered(env.networkType)
    requires forceDownload || !env.available
    ensures var run := EnsureModelAvailable(modelId, forceDownload, env);
      && Made(run.calls, Confirmation)
      && (!env.confirmed ==> run.result == Cancelled && run.progress == [] && !Made(run.calls, Download))
      && (env.confirmed ==> run.progress == [Checking] + env.downloadStatuses && run.result == env.downloadResult)
  {
  }

  /** On an unmetered network nobody is asked: the downloader gets the model
      straight after the network checks, and its answer is returned. */
  lemma UnmeteredDownloadsAtOnce(modelId: string, forceDownload: bool, env: ManagerEnv)
    requires env.failure.None? && env.info.Some? && env.networkAvailable && IsUnmetered(env.networkType)
    requires forceDownload || !env.available
    ensures var run := EnsureModelAvailable(modelId, forceDownload, env);
      && !Made(run.calls, Confirmation)
      && run.calls[|run.calls| - 1] == DownloadModel(env.info.value)
      && run.progress == [Checking] + env.downloadStatuses && run.result == env.downloadResult
  {
  }
}
