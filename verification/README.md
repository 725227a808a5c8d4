# kmp-aipin core in Dafny

This project models the on-device translation core of kmp-aipin, a Kotlin Multiplatform app that listens, recognizes speech, translates it and speaks the result. The model is a set of pure functions over immutable datatypes, and it proves properties of the following parts:

- **Model catalog** (`model_registry.dfy`, `engine_config.dfy`). This is the built-in list of speech-to-text, translation and text-to-speech models, with its queries and the first-match resolution of the three models a pipeline needs.
- **Provisioning** (`model_types.dfy`, `model_manager.dfy`, `model_store.dfy`, `downloader_android.dfy`, `downloader_ios.dfy`, `network_android.dfy`, `network_ios.dfy`).
  - `ensureModelAvailable` decides between reusing a local model, refusing, asking the user and downloading.
  - Both downloaders are modelled over a set of file paths. The transfer is a sequence of chunk sizes, and there is a cancel flag.
  - Both network classifiers are pure functions of the transport or reachability flags.
- **View-model** (`view_model.dfy`). It covers the UI-state updates, the confirmation dialog and the mapping from a download result to the status shown.
- **Engines** (`engine.dfy`, `stt.dfy`, `android_stt.dfy`, `ios_stt.dfy`, `translation_engines.dfy`, `tts_engines.dfy`).
  - The lifecycle is initialize, use, release.
  - Memory estimates and audio gating are modelled.
  - So are the Whisper buffer of the Sherpa-ONNX recognizers and the placeholder translation and speech engines.
- **Pipeline orchestrator** (`pipeline.dfy`). It produces the trace of published `PipelineState`s and every engine call.
  - Under SEQUENTIAL it loads one engine at a time; under CONCURRENT it preloads all three.
  - An exception is modelled at any engine call.
- **Language detection and the multi-language recognizer** (`speech.dfy`, `language_detection.dfy`, `multi_language_recognizer.dfy`).
  - Languages are scored in an insertion-ordered map, and the best one is picked with `maxByOrNull`.
  - The 0.3 threshold, the Android confidence buckets and the iOS placeholder heuristic are modelled.
  - A recognizer detects the language first and then delegates.
- **WAV writer of the iOS recording screen** (`wav.dfy`).
  - `createWAV` writes a RIFF WAVE file with IEEE-float `fmt ` and `data` chunks, as laid out by the Multimedia Programming Interface and Data Specifications 1.0.
  - Its little-endian helpers are modelled, and so is the concatenation of recorded chunks.

`wrappers.dfy`, `text.dfy` and `seqs.dfy` hold `Option`/`Result`, trimming and blank tests, and sequence helpers.

The modelling choices below apply throughout:

- **Oracles.** Native inference, HTTP, the file system, reachability and the user's answer are parameters, so every property holds whatever they answer.
  - Sherpa-ONNX decodes are a `Hypothesis`.
  - The transfer is a list of chunk sizes.
  - A detector is a scoring function.
  - A pipeline `World` fixes what recognition yields, what translation answers and which call throws.
- **Outcomes, not preconditions.** Exceptions and Swift runtime traps are modelled as explicit outcomes, such as an `Option`, a `thrown` field or an error state.
- **Numbers.**
  - Scores are whole tenths.
  - Progress ratios are exact fractions.
  - Kotlin's 32-bit `Int` wrap-around is written out where the detector's sample count can overflow.

## Model

| member | source | states |
|---|---|---|
| ModelRegistry.AvailableModels | shared/src/commonMain/kotlin/com/jetbrains/kmpapp/model/ModelRegistry.kt:38-40 | a null type gives the whole catalog; a type gives exactly the entries of that type, as an order-preserving subsequence, each as many times as it occurs in the catalog |
| ModelRegistry.AvailableModelsFor | shared/src/commonMain/kotlin/com/jetbrains/kmpapp/model/ModelRegistry.kt:42-44 | exactly the entries matching both type and language, in catalog order, each as many times as it occurs in the catalog |
| ModelRegistry.ModelConfig | shared/src/commonMain/kotlin/com/jetbrains/kmpapp/model/ModelRegistry.kt:46-48 | absent iff no entry has the id; otherwise the first entry with that id |
| ModelRegistry.FirstStt | shared/src/commonMain/kotlin/com/jetbrains/kmpapp/model/ModelRegistry.kt:54-56 | absent iff no STT entry for the source language; otherwise the first one |
| ModelRegistry.FirstTranslation | shared/src/commonMain/kotlin/com/jetbrains/kmpapp/model/ModelRegistry.kt:57-61 | absent iff no translation entry for the pair; otherwise the first one |
| ModelRegistry.FirstTts | shared/src/commonMain/kotlin/com/jetbrains/kmpapp/model/ModelRegistry.kt:62-64 | absent iff no TTS entry for the target language; otherwise the first one |
| ModelRegistry.RequiredModelsForPipeline | shared/src/commonMain/kotlin/com/jetbrains/kmpapp/model/ModelRegistry.kt:50-66 | at most three entries in STT, translation, TTS order; each is the first match of its role; a role is present iff the catalog has a match for it |
| ModelRegistry.RequiredWhenAllFound | shared/src/commonMain/kotlin/com/jetbrains/kmpapp/model/ModelRegistry.kt:50-66 | when every role has a match, the list is exactly recognizer, translator and voice, in that order |
| ModelRegistry.RequiredWithoutTranslation | shared/src/commonMain/kotlin/com/jetbrains/kmpapp/model/ModelRegistry.kt:50-66 | without a translation match, the list is exactly the recognizer then the voice |
| ModelRegistry.RolesInOrder | shared/src/commonMain/kotlin/com/jetbrains/kmpapp/model/ModelRegistry.kt:65 | `listOfNotNull` of three role-typed optionals keeps role order, drops only the absent ones and holds each present one |
| ModelRegistry.CatalogIdsDistinct | shared/src/commonMain/kotlin/com/jetbrains/kmpapp/model/ModelRegistry.kt:70-79 | the ten catalog ids are pairwise distinct, so an id lookup is unambiguous |
| ModelRegistry.OnlyTranslationHasTarget | shared/src/commonMain/kotlin/com/jetbrains/kmpapp/model/ModelRegistry.kt:83-247 | a catalog entry names a target language iff it is a translation model |
| ModelRegistry.CatalogShape | shared/src/commonMain/kotlin/com/jetbrains/kmpapp/model/ModelRegistry.kt:83-247 | the catalog has ten rows: four STT, two translators (en-tr, tr-en), four TTS, with the languages and ids the pipeline relies on |
| ModelRegistry.PipelineTurkishToEnglish | shared/src/commonMain/kotlin/com/jetbrains/kmpapp/model/ModelRegistry.kt:50-66 | Turkish to English resolves to Whisper Tiny TR, OPUS-MT TR-EN and Piper EN, in that order |
| ModelRegistry.PipelineEnglishToEnglish | shared/src/commonMain/kotlin/com/jetbrains/kmpapp/model/ModelRegistry.kt:50-66 | a same-language pair has no translator: only STT and TTS come back |
| EngineConfig.DetectMemoryStrategy | shared/src/androidMain/kotlin/com/jetbrains/kmpapp/engine/EngineFactory.android.kt:27-30 | SEQUENTIAL exactly on Android; CONCURRENT exactly on iOS (EngineFactory.ios.kt:25-27) |
| EngineConfig.DescriptorDefaults | shared/src/commonMain/kotlin/com/jetbrains/kmpapp/engine/EngineConfig.kt:9-21 | a descriptor built without the optional arguments has no target language, no checksum, INT8 and its id as display name |
| ModelManager.EnsureModelAvailable | shared/src/commonMain/kotlin/com/jetbrains/kmpapp/model/DefaultModelManager.kt:11-53 | calls follow the documented order; a forced run skips the local check; a local hit returns Success with only Downloaded emitted; an unknown id is an Error with no download; confirmation is asked only on an available metered network; a model not reused locally is downloaded if and only if the network is available and unmetered or the user agreed, in which case Checking comes first and the downloader's answer is returned; an exception from any call becomes the wrapped Error |
| ModelManager.LookupAndDownload | shared/src/commonMain/kotlin/com/jetbrains/kmpapp/model/DefaultModelManager.kt:27-29 | a missing descriptor ends the run with "Model not found: id" and nothing emitted |
| ModelManager.CheckNetwork | shared/src/commonMain/kotlin/com/jetbrains/kmpapp/model/DefaultModelManager.kt:31-36 | without a network the run ends with "No network connection available" and nothing emitted |
| ModelManager.ConfirmAndDownload | shared/src/commonMain/kotlin/com/jetbrains/kmpapp/model/DefaultModelManager.kt:38-44 | a metered network asks once and a refusal cancels with nothing emitted; an unmetered network never asks; unmetered, or metered and confirmed, ends by handing the model to the downloader after Checking and returns its answer |
| ModelManager.StartDownload | shared/src/commonMain/kotlin/com/jetbrains/kmpapp/model/DefaultModelManager.kt:46-48 | Checking is emitted, then the downloader's statuses; the downloader's result is returned unless it throws |
| ModelManager.OrderedCallsShape | shared/src/commonMain/kotlin/com/jetbrains/kmpapp/model/DefaultModelManager.kt:17-48 | in a run in the documented order the user is asked at most once and a download is always the last call |
| ModelManager.NoNetworkStopsEarly | shared/src/commonMain/kotlin/com/jetbrains/kmpapp/model/DefaultModelManager.kt:31-34 | with a known model but no network: the no-network Error, nothing emitted, no confirmation and no download |
| ModelManager.MeteredAsksExactlyOnce | shared/src/commonMain/kotlin/com/jetbrains/kmpapp/model/DefaultModelManager.kt:38-48 | on a metered network the user is asked; a refusal cancels before Checking and before any download; consent leads to the download |
| ModelManager.UnmeteredDownloadsAtOnce | shared/src/commonMain/kotlin/com/jetbrains/kmpapp/model/DefaultModelManager.kt:35-48 | on an available unmetered network nobody is asked, the last call is the download of the model, Checking precedes the downloader's statuses and its answer is returned |
| NetworkAndroid.CurrentNetworkType | shared/src/androidMain/kotlin/com/jetbrains/kmpapp/model/NetworkManager.android.kt:22-32 | NONE without an active network or its capabilities; otherwise WIFI, CELLULAR, ETHERNET by that precedence, each as an iff |
| NetworkAndroid.IsWiFiConnected | shared/src/androidMain/kotlin/com/jetbrains/kmpapp/model/NetworkManager.android.kt:34-36 | true iff the classification is WIFI |
| NetworkAndroid.IsNetworkAvailable | shared/src/androidMain/kotlin/com/jetbrains/kmpapp/model/NetworkManager.android.kt:38-42 | true iff there is an active network whose capabilities include INTERNET |
| NetworkAndroid.AvailabilityIndependentOfType | shared/src/androidMain/kotlin/com/jetbrains/kmpapp/model/NetworkManager.android.kt:22-42 | availability and type disagree on some networks: INTERNET with no known transport is available but NONE; WIFI without INTERNET is unavailable |
| NetworkAndroid.OpenPrefix | shared/src/androidMain/kotlin/com/jetbrains/kmpapp/model/NetworkManager.android.kt:71-73 | the callbacks delivered are exactly those before the collector closes |
| NetworkAndroid.CallbackEmissions | shared/src/androidMain/kotlin/com/jetbrains/kmpapp/model/NetworkManager.android.kt:45-60 | one value per delivered callback: the fresh classification for onAvailable and onCapabilitiesChanged, NONE for onLost |
| NetworkAndroid.Observe | shared/src/androidMain/kotlin/com/jetbrains/kmpapp/model/NetworkManager.android.kt:44-74 | the current type is sent first, then one value per callback until close; the callback stays registered iff the collector never closed |
| NetworkIos.CurrentNetworkType | shared/src/iosMain/kotlin/com/jetbrains/kmpapp/model/NetworkManager.ios.kt:32-60 | never ETHERNET; NONE iff no handle, no flags, unreachable or connection required; otherwise CELLULAR iff WWAN, else WIFI |
| NetworkIos.IsWiFiConnected | shared/src/iosMain/kotlin/com/jetbrains/kmpapp/model/NetworkManager.ios.kt:62-64 | true iff reachable without a connection and not WWAN |
| NetworkIos.IsNetworkAvailable | shared/src/iosMain/kotlin/com/jetbrains/kmpapp/model/NetworkManager.ios.kt:66-69 | true iff reachable without a connection |
| NetworkIos.Observe | shared/src/iosMain/kotlin/com/jetbrains/kmpapp/model/NetworkManager.ios.kt:71-123 | without a handle: NONE and closed; otherwise exactly one value, the current type, and the flow stays open |
| NetworkIos.ChangesAreNotForwarded | shared/src/iosMain/kotlin/com/jetbrains/kmpapp/model/NetworkManager.ios.kt:79-92 | reachability changes after subscription never reach the collector: one value whatever happens |
| ModelStore.CatalogUrlsFollowReleaseNames | shared/src/iosMain/kotlin/com/jetbrains/kmpapp/model/ModelDownloader.ios.kt:27-81 | every entry of the (iOS, and corrected Android) catalog downloads the release archive named after its model size; the two whisper-base entries share one archive |
| ModelStore.AndroidBaseUrlMisnamed | shared/src/androidMain/kotlin/com/jetbrains/kmpapp/model/ModelDownloader.android.kt:38-47 | as written, Android's whisper-base-tr URL names the archive "sherper-onnx-whisper-base", breaking that rule and differing from whisper-base-en's archive |
| ModelStore.CatalogEntry | shared/src/androidMain/kotlin/com/jetbrains/kmpapp/model/ModelDownloader.android.kt:82 | the catalog lookup is absent iff no entry has the id; otherwise it is the entry with that id |
| ModelStore.WithLocalState | shared/src/androidMain/kotlin/com/jetbrains/kmpapp/model/ModelDownloader.android.kt:83-91 | the local path is set exactly when the model is available, it is the model's directory, isDownloaded mirrors it, and no other field changes |
| ModelStore.GetModelInfo | shared/src/androidMain/kotlin/com/jetbrains/kmpapp/model/ModelDownloader.android.kt:81-92 | absent iff the id is not in the catalog; otherwise exactly that catalog entry with its local state filled in: downloaded iff available, with a path iff downloaded |
| ModelStore.GetAvailableModels | shared/src/androidMain/kotlin/com/jetbrains/kmpapp/model/ModelDownloader.android.kt:203-215 | every catalog entry, in order, each with its local state |
| ModelStore.GetDownloadedModels | shared/src/androidMain/kotlin/com/jetbrains/kmpapp/model/ModelDownloader.android.kt:217-219 | exactly the listed entries whose model is available on disk, each as many times as it is listed |
| ModelStore.SameFilesSameAvailability | shared/src/androidMain/kotlin/com/jetbrains/kmpapp/model/ModelDownloader.android.kt:70-79 | creating a model directory or touching temporary archives changes no model's availability |
| ModelStore.DeleteModel | shared/src/androidMain/kotlin/com/jetbrains/kmpapp/model/ModelDownloader.android.kt:194-201 | false and no change when the directory is absent; a successful delete removes everything under the model and leaves it unavailable; the store stays well formed |
| ModelTypes.DownloadedOnly | shared/src/androidMain/kotlin/com/jetbrains/kmpapp/model/ModelDownloader.android.kt:217-219 | exactly the entries flagged downloaded, as an order-preserving subsequence, each as many times as it occurs |
| AndroidDownloader.ReadFrom | shared/src/androidMain/kotlin/com/jetbrains/kmpapp/model/ModelDownloader.android.kt:134-156 | one Downloading update per completed read, each carrying the running total; it stops at the first read that throws or the first chunk after which cancel is seen, whichever comes first, and reaches end of stream exactly when neither happens |
| AndroidDownloader.DownloadModel | shared/src/androidMain/kotlin/com/jetbrains/kmpapp/model/ModelDownloader.android.kt:94-192 | Checking first; the model directory always created and only this model's paths touched; availability of every model unchanged; a failed connect gives "Download failed: ..."; a non-200 code gives "Server returned <code>: <message>"; a cancel seen after a chunk gives Cancelled with the archive deleted; a throwing read gives "Download failed: ..." with the archive left; a full read succeeds iff the checksum is absent or matches, otherwise "Checksum verification failed"; Downloaded emitted exactly on success and last; success marks the model downloaded at its directory; every update is the running total |
| AndroidDownloader.Streamed | shared/src/androidMain/kotlin/com/jetbrains/kmpapp/model/ModelDownloader.android.kt:126-192 | after a 200 response the archive is written and is left behind only by a throwing read; Checking, then one running total per read; a cancel gives Cancelled, a throwing read "Download failed: ...", a full read Success iff the declared checksum is absent or matches, otherwise "Checksum verification failed"; Downloaded is shown last and only on success, with the model marked downloaded at its directory |
| AndroidDownloader.DownloadedNeverDecreases | shared/src/androidMain/kotlin/com/jetbrains/kmpapp/model/ModelDownloader.android.kt:141-155 | the reported byte counts never go down and always carry the declared length as total |
| AndroidDownloader.SumPrefixGrows | shared/src/androidMain/kotlin/com/jetbrains/kmpapp/model/ModelDownloader.android.kt:141 | a running total over more reads is never smaller |
| AndroidDownloader.ChecksumDecides | shared/src/androidMain/kotlin/com/jetbrains/kmpapp/model/ModelDownloader.android.kt:167-174 | after a full read, a declared checksum the archive misses fails the download and a matching one succeeds, the archive deleted in both; without a declared checksum the digest is never looked at and the download succeeds |
| AndroidDownloader.FailureLeavesDirectory | shared/src/androidMain/kotlin/com/jetbrains/kmpapp/model/ModelDownloader.android.kt:103-106 | a failed or cancelled download leaves the model directory behind; a failed read also leaves the partial archive |
| IosDownloader.DownloadModel | shared/src/iosMain/kotlin/com/jetbrains/kmpapp/model/ModelDownloader.ios.kt:111-213 | Checking first; a cancel during the wait wins with nothing more emitted; a task error and missing data are their own Errors; success iff data arrived uncancelled, emitting one update with the data length and then Downloaded; no Downloaded otherwise; the directory is created and availability is unchanged |
| IosDownloader.ChecksumIgnored | shared/src/iosMain/kotlin/com/jetbrains/kmpapp/model/ModelDownloader.ios.kt:111-213 | the declared checksum is never consulted: two descriptors differing only in it give the same statuses and files, and the same result kind |
| ViewModel.Initial | shared/src/commonMain/kotlin/com/jetbrains/kmpapp/model/ModelManagerViewModel.kt:14-23 | the start state: empty lists, Idle, NONE, not loading, no error, no dialog, nothing pending |
| ViewModel.ShowResult | shared/src/commonMain/kotlin/com/jetbrains/kmpapp/model/ModelManagerViewModel.kt:104-126 | Success shows Downloaded with no error; Error shows Failed with its message as the error; Cancelled shows Idle with no error; nothing else changes |
| ViewModel.DownloadModel | shared/src/commonMain/kotlin/com/jetbrains/kmpapp/model/ModelManagerViewModel.kt:76-128 | Checking is shown first with the error cleared; the manager runs with the callback's answer; the last status shown is the mapped result; a refresh is requested iff it succeeded; the dialog is raised for the manager's descriptor exactly when confirmation was asked; lists, network type and loading flag are untouched |
| ViewModel.DownloadModelWithConfirmation | shared/src/commonMain/kotlin/com/jetbrains/kmpapp/model/ModelManagerViewModel.kt:130-143 | WIFI or ETHERNET downloads at once; any other type only raises the dialog for the model |
| ViewModel.ConfirmDownloadAsWritten | shared/src/commonMain/kotlin/com/jetbrains/kmpapp/model/ModelManagerViewModel.kt:145-154 | nothing without a pending model; otherwise the dialog is cleared and the pending model downloaded with the callback still answering false |
| ViewModel.ConfirmDownload | shared/src/commonMain/kotlin/com/jetbrains/kmpapp/model/ModelManagerViewModel.kt:145-154 | the same, with the manager's confirmation request answered yes |
| ViewModel.MeteredDownloadNeverStarts | shared/src/commonMain/kotlin/com/jetbrains/kmpapp/model/ModelManagerViewModel.kt:88-98 | as written, a confirmed download on a metered network never reaches the downloader: it ends Idle with the dialog raised again |
| ViewModel.ConfirmedMeteredDownloadProceeds | shared/src/commonMain/kotlin/com/jetbrains/kmpapp/model/ModelManagerViewModel.kt:145-154 | corrected, a confirmed metered download reaches the downloader, returns its result and shows Downloaded on success |
| ViewModel.DismissConfirmationDialog | shared/src/commonMain/kotlin/com/jetbrains/kmpapp/model/ModelManagerViewModel.kt:189-194 | the dialog and pending model are cleared and nothing else changes |
| ViewModel.CancelDownload | shared/src/commonMain/kotlin/com/jetbrains/kmpapp/model/ModelManagerViewModel.kt:156-164 | dialog and pending model cleared and Idle shown, nothing else changed; the job is cancelled and the downloader's flag raised |
| ViewModel.ClearError | shared/src/commonMain/kotlin/com/jetbrains/kmpapp/model/ModelManagerViewModel.kt:185-187 | only the error is cleared |
| ViewModel.LoadModels | shared/src/commonMain/kotlin/com/jetbrains/kmpapp/model/ModelManagerViewModel.kt:52-74 | loading ends; a listing replaces lists and network type with the error cleared; a failure keeps the lists and shows "Failed to load models: message" |
| ViewModel.DeleteModel | shared/src/commonMain/kotlin/com/jetbrains/kmpapp/model/ModelManagerViewModel.kt:166-183 | a refresh iff the downloader deleted; a false answer and an exception set their own error messages |
| ViewModel.OnNetworkChange | shared/src/commonMain/kotlin/com/jetbrains/kmpapp/model/ModelManagerViewModel.kt:44-50 | each network value replaces the shown type and nothing else |
| Engine.EmptyConfigGivesDefaults | shared/src/commonMain/kotlin/com/jetbrains/kmpapp/engine/Engine.kt:15 | with the default empty config map every lookup yields its fallback |
| Engine.Initialize | shared/src/androidMain/kotlin/com/jetbrains/kmpapp/translation/AndroidTranslationEngine.kt:14-18 | after initialize the engine is ready and holds that model |
| Engine.Release | shared/src/androidMain/kotlin/com/jetbrains/kmpapp/translation/AndroidTranslationEngine.kt:22-26 | after release the engine is not ready and holds no model |
| Engine.Usage | shared/src/androidMain/kotlin/com/jetbrains/kmpapp/translation/AndroidTranslationEngine.kt:28-30 | memory usage is 0 when not initialized and the model's estimate when ready |
| Engine.LastCallDecides | shared/src/commonMain/kotlin/com/jetbrains/kmpapp/engine/Engine.kt:3-31 | over any non-empty run of initialize and release calls, the engine is ready exactly when the last call was initialize, then holding that call's model; after a release it is back to fresh |
| Engine.ReleaseIdempotent | shared/src/commonMain/kotlin/com/jetbrains/kmpapp/engine/Engine.kt:20-27 | releasing twice is releasing once, and a released engine reports 0 bytes |
| Stt.NewEngine | shared/src/androidMain/kotlin/com/jetbrains/kmpapp/stt/AndroidSTTEngine.kt:29-49 | a new engine is not ready, not recognizing, has no model, empty buffer, Whisper type, "en", 16000 Hz and no native handles |
| Stt.MemoryUsage | shared/src/androidMain/kotlin/com/jetbrains/kmpapp/stt/AndroidSTTEngine.kt:130-132 | the interface's memory promise: 0 unless initialized, else the estimate |
| Stt.Emit | shared/src/androidMain/kotlin/com/jetbrains/kmpapp/stt/AndroidSTTEngine.kt:194-208 | an empty decode emits nothing; otherwise exactly one result is appended, whose text is the decoded text with exactly its blank ends cut (a trimmed slice with blank text before and after it), with the given finality, the engine's language and no confidence |
| Text.TrimIsUnique | shared/src/androidMain/kotlin/com/jetbrains/kmpapp/stt/AndroidSTTEngine.kt:199 | `trim()` is the only split of a string into a blank prefix, a slice with no white space at its ends and a blank suffix |
| Stt.DecodeWhisper | shared/src/androidMain/kotlin/com/jetbrains/kmpapp/stt/AndroidSTTEngine.kt:228-254 | nothing happens without an offline recognizer or with an empty buffer; at most one result of the requested finality is emitted; the buffer is cleared only by a final decode; no other field changes |
| Stt.ProcessAudio | shared/src/androidMain/kotlin/com/jetbrains/kmpapp/stt/AndroidSTTEngine.kt:172-226 | audio is ignored unless recognizing and initialized, for unknown model types and for a streaming model without a stream; a Whisper chunk is appended to the buffer; at most one non-final result is emitted, and for Whisper only once three seconds are buffered; nothing else changes |
| Stt.StopRecognition | shared/src/androidMain/kotlin/com/jetbrains/kmpapp/stt/AndroidSTTEngine.kt:256-289 | a no-op unless recognizing; afterwards not recognizing; a streaming session loses its stream; the buffer is cleared only by a Whisper final decode; at most one final result is emitted |
| Stt.Release | shared/src/androidMain/kotlin/com/jetbrains/kmpapp/stt/AndroidSTTEngine.kt:119-128 | after release: not ready, not recognizing, no model, empty buffer, no recognizers, zero usage; type, language, rate and estimate kept; at most one final result emitted, none if it was not recognizing |
| Stt.ReleaseIdempotent | shared/src/androidMain/kotlin/com/jetbrains/kmpapp/stt/AndroidSTTEngine.kt:119-128 | a second release changes nothing |
| Stt.EmitsKeepTrimmed | shared/src/androidMain/kotlin/com/jetbrains/kmpapp/stt/AndroidSTTEngine.kt:194-253 | every emission keeps the result flow free of untrimmed text |
| AndroidStt.Initial | shared/src/androidMain/kotlin/com/jetbrains/kmpapp/stt/AndroidSTTEngine.kt:49 | a new Android engine estimates 40 MiB and reports no usage |
| AndroidStt.EstimateFor | shared/src/androidMain/kotlin/com/jetbrains/kmpapp/stt/AndroidSTTEngine.kt:90-114 | streaming 40 MiB; Whisper 75 MiB when the id contains "base", else 40 MiB |
| AndroidStt.Initialize | shared/src/androidMain/kotlin/com/jetbrains/kmpapp/stt/AndroidSTTEngine.kt:51-70 | the exception of the recognizer constructor is rethrown and ready iff none; id, type and language recorded from config with defaults "whisper" and "en"; estimate and recognizer set by type on success, kept on failure; a ready engine is first stopped and its buffer dropped |
| AndroidStt.HotSwapReleasesFirst | shared/src/androidMain/kotlin/com/jetbrains/kmpapp/stt/AndroidSTTEngine.kt:53 | initializing a ready engine equals initializing it after release |
| AndroidStt.StartRecognition | shared/src/androidMain/kotlin/com/jetbrains/kmpapp/stt/AndroidSTTEngine.kt:134-170 | not initialized: a closed flow with one final empty result and no change; ready: recognizing at the config's rate, a Whisper start clears the buffer, a streaming start with a recognizer creates the stream; any closed flow holds one final empty result |
| AndroidStt.ApplyKeepsValid | shared/src/androidMain/kotlin/com/jetbrains/kmpapp/stt/AndroidSTTEngine.kt:51-289 | every call keeps the handle discipline and trimmed results |
| AndroidStt.RunKeepsValid | shared/src/androidMain/kotlin/com/jetbrains/kmpapp/stt/AndroidSTTEngine.kt:25-292 | from a valid engine, any call sequence keeps a ready engine holding its type's recognizer, only a ready engine recognizing, a stream only during a streaming session, and every emitted text trimmed |
| AndroidStt.InitialIsValid | shared/src/androidMain/kotlin/com/jetbrains/kmpapp/stt/AndroidSTTEngine.kt:29-49 | a new engine satisfies that discipline |
| AndroidStt.ReadyEngineStartsLive | shared/src/androidMain/kotlin/com/jetbrains/kmpapp/stt/AndroidSTTEngine.kt:144-153 | on a reachable ready engine the "no streaming recognizer" refusal never fires |
| AndroidStt.UnknownTypeDropsAudio | shared/src/androidMain/kotlin/com/jetbrains/kmpapp/stt/AndroidSTTEngine.kt:61-178 | an unknown model type loads Whisper with its estimate, starts recognizing, and then drops every chunk |
| IosStt.Initial | shared/src/iosMain/kotlin/com/jetbrains/kmpapp/stt/IOSSTTEngine.kt:52 | a new iOS engine estimates 120 MiB and reports no usage |
| IosStt.EstimateFor | shared/src/iosMain/kotlin/com/jetbrains/kmpapp/stt/IOSSTTEngine.kt:100-132 | streaming 60 MiB; Whisper 150 MiB when the id contains "base", else 75 MiB |
| IosStt.Initialize | shared/src/iosMain/kotlin/com/jetbrains/kmpapp/stt/IOSSTTEngine.kt:54-73 | always ready with the given id, type and language from config, the type's estimate as usage; a ready engine is first stopped and emptied; no result is emitted and no handle assigned |
| IosStt.StartRecognition | shared/src/iosMain/kotlin/com/jetbrains/kmpapp/stt/IOSSTTEngine.kt:155-185 | not initialized: a closed flow with one final empty result; ready: always a live flow, recognizing at the config's rate, Whisper buffer cleared, handles untouched |
| IosStt.NothingIsEverEmitted | shared/src/iosMain/kotlin/com/jetbrains/kmpapp/stt/IOSSTTEngine.kt:187-289 | from a valid engine no call sequence emits a result or assigns a native handle |
| IosStt.BufferOnlyGrows | shared/src/iosMain/kotlin/com/jetbrains/kmpapp/stt/IOSSTTEngine.kt:225-262 | while only feeding and stopping, the Whisper buffer only grows |
| IosStt.StopKeepsBuffer | shared/src/iosMain/kotlin/com/jetbrains/kmpapp/stt/IOSSTTEngine.kt:236-289 | stopping a Whisper session keeps the whole buffer and emits nothing |
| Pipeline.SttInitConfig | shared/src/commonMain/kotlin/com/jetbrains/kmpapp/pipeline/TranslationPipeline.kt:237-241 | the recognizer's config map names Whisper, the source language and the base path, so the engine's lookups find exactly those |
| Pipeline.PipelineIdsInCatalog | shared/src/commonMain/kotlin/com/jetbrains/kmpapp/pipeline/TranslationPipeline.kt:126-230 | for Turkish→English and English→Turkish every model id the pipeline asks for is in the model catalog |
| Pipeline.LastFinalText | shared/src/commonMain/kotlin/com/jetbrains/kmpapp/pipeline/TranslationPipeline.kt:211-224 | the recognized text is "" when no result is final, and otherwise the text of the final result after which none is final |
| Pipeline.CollectRecognition | shared/src/commonMain/kotlin/com/jetbrains/kmpapp/pipeline/TranslationPipeline.kt:211-224 | over the results a flow delivers before it closes, the collector loop ends with the last final text and stops recognition once per final result |
| Pipeline.FirstFinal | shared/src/commonMain/kotlin/com/jetbrains/kmpapp/pipeline/TranslationPipeline.kt:217-222 | the position of the first final result, with none before it; None exactly when no result is final |
| Pipeline.CollectUntilFinal | shared/src/commonMain/kotlin/com/jetbrains/kmpapp/pipeline/TranslationPipeline.kt:211-224 | the intended collector is still waiting exactly when the flow is live and nothing final has come; a closed flow without a final result gives "" |
| Pipeline.ReadyRecognizerKeepsListening | shared/src/androidMain/kotlin/com/jetbrains/kmpapp/stt/AndroidSTTEngine.kt:159-168 | as written, collection on a ready Android recognizer never returns, whatever it forwards; it returns only for a recognizer that is not ready, and then with "" |
| Pipeline.ReadyRecognizerReturnsFirstFinal | shared/src/commonMain/kotlin/com/jetbrains/kmpapp/pipeline/TranslationPipeline.kt:217-222 | as intended, the first final result a ready recognizer forwards ends collection with its text, which is `LastFinalText` of the results up to it |
| Pipeline.CollectorsAgreeWhenNotReady | shared/src/androidMain/kotlin/com/jetbrains/kmpapp/stt/AndroidSTTEngine.kt:134-139 | on the closed flow of a recognizer that is not ready, the intended and the written collector both give "" |
| Pipeline.SttPhase | shared/src/commonMain/kotlin/com/jetbrains/kmpapp/pipeline/TranslationPipeline.kt:124-171 | Listening is published first; without exception exactly that, with the initialize, collect and release calls under SEQUENTIAL and only the collect otherwise; an exception is the world's fault; CONCURRENT loads nothing |
| Pipeline.TranslationPhase | shared/src/commonMain/kotlin/com/jetbrains/kmpapp/pipeline/TranslationPipeline.kt:137-185 | Recognized(text, source) and Translating are published; without exception then Translated(answer), with initialize, translate and release under SEQUENTIAL; CONCURRENT loads nothing |
| Pipeline.TranslateWork | shared/src/commonMain/kotlin/com/jetbrains/kmpapp/pipeline/TranslationPipeline.kt:141-147 | publishes nothing; without exception SEQUENTIAL initializes the translator for source→target, translates and releases it, CONCURRENT only translates; an exception is the world's fault; CONCURRENT leaves the engines untouched |
| Pipeline.SpeechPhase | shared/src/commonMain/kotlin/com/jetbrains/kmpapp/pipeline/TranslationPipeline.kt:152-195 | Speaking is published; without exception the voice is initialized, synthesizes and plays, then is released under SEQUENTIAL |
| Pipeline.AfterRecognition | shared/src/commonMain/kotlin/com/jetbrains/kmpapp/pipeline/TranslationPipeline.kt:132-197 | the trace only grows; a run without exception ends Idle; an exception is the world's fault |
| Pipeline.Execute | shared/src/commonMain/kotlin/com/jetbrains/kmpapp/pipeline/TranslationPipeline.kt:122-198 | both strategies publish Listening first and end Idle when nothing throws; CONCURRENT never loads or releases an engine |
| Pipeline.ExecuteOneAtATime | shared/src/commonMain/kotlin/com/jetbrains/kmpapp/pipeline/TranslationPipeline.kt:122-164 | a SEQUENTIAL run from no engine loaded has at most one engine ready at any moment; with releases in finally it also leaves none loaded |
| Pipeline.New | shared/src/commonMain/kotlin/com/jetbrains/kmpapp/pipeline/TranslationPipeline.kt:31-34 | a new pipeline is Idle and not running |
| Pipeline.Launch | shared/src/commonMain/kotlin/com/jetbrains/kmpapp/pipeline/TranslationPipeline.kt:48-62 | a running pipeline ignores start; otherwise the flag ends cleared, the trace begins with Listening and its last state is the pipeline's; a final Error carries the fault's message; without fault the pipeline ends Idle; CONCURRENT never touches the engines |
| Pipeline.Settle | shared/src/commonMain/kotlin/com/jetbrains/kmpapp/pipeline/TranslationPipeline.kt:57-61 | the catch publishes Error with the exception's message or "Pipeline error" and the run stops in its last state; the last state is an Error exactly when something threw, and Idle otherwise |
| Pipeline.HappyRun | shared/src/commonMain/kotlin/com/jetbrains/kmpapp/pipeline/TranslationPipeline.kt:48-198 | without exception and with non-blank text: Listening, Recognized, Translating, Translated, Speaking exactly when asked, Idle; the last final text is what gets translated |
| Pipeline.BlankTextStopsAfterListening | shared/src/commonMain/kotlin/com/jetbrains/kmpapp/pipeline/TranslationPipeline.kt:132-176 | blank recognized text gives Listening then Idle, and no translation, synthesis or other engine load |
| Pipeline.SequentialOneEngineAtATime | shared/src/commonMain/kotlin/com/jetbrains/kmpapp/pipeline/TranslationPipeline.kt:122-164 | as written, a SEQUENTIAL run from no engine loaded never has two engines ready, and leaves none loaded when nothing throws |
| Pipeline.LeftoverEngineDoublesUp | shared/src/commonMain/kotlin/com/jetbrains/kmpapp/pipeline/TranslationPipeline.kt:122-128 | a SEQUENTIAL run starting with another engine still loaded has two ready once the recognizer loads |
| Pipeline.StrandedTranslator | shared/src/commonMain/kotlin/com/jetbrains/kmpapp/pipeline/TranslationPipeline.kt:141-147 | when translate throws, the Error state is published and the translator stays loaded, and the next run has two engines ready |
| Pipeline.ReleasingLeavesNothingLoaded | shared/src/commonMain/kotlin/com/jetbrains/kmpapp/engine/EngineConfig.kt:37-42 | with each release in finally, one SEQUENTIAL run keeps at most one engine ready and leaves none loaded whatever throws |
| Pipeline.ReleasingRunsKeepOneEngine | shared/src/commonMain/kotlin/com/jetbrains/kmpapp/engine/EngineConfig.kt:37-42 | with each release in finally, any number of SEQUENTIAL runs never has two engines loaded at once |
| Pipeline.AsWrittenRunsDoubleUp | shared/src/commonMain/kotlin/com/jetbrains/kmpapp/pipeline/TranslationPipeline.kt:122-164 | as written, two runs (the first with a throwing translate) have two engines loaded at once |
| Pipeline.Stop | shared/src/commonMain/kotlin/com/jetbrains/kmpapp/pipeline/TranslationPipeline.kt:64-70 | not running, Idle published, recognition, speech and playback stopped, no engine loaded or released |
| Pipeline.Release | shared/src/commonMain/kotlin/com/jetbrains/kmpapp/pipeline/TranslationPipeline.kt:112-118 | stop's three calls, then the three engines and the player released, leaving no engine ready |
| Pipeline.Initialize | shared/src/commonMain/kotlin/com/jetbrains/kmpapp/pipeline/TranslationPipeline.kt:39-209 | SEQUENTIAL does nothing; CONCURRENT initializes recognizer, translator and voice with the pipeline's ids and configs and all three are ready, unless one of those calls throws: then that exception escapes to the caller, the later calls are not made and the failed engine is not ready |
| Pipeline.Preload | shared/src/commonMain/kotlin/com/jetbrains/kmpapp/pipeline/TranslationPipeline.kt:200-209 | the recognizer, translator and voice are initialized in that order, all three ready when nothing throws; the first call that throws is the last one made, and its engine is left not ready while the earlier ones are ready |
| Pipeline.SpeakTranslation | shared/src/commonMain/kotlin/com/jetbrains/kmpapp/pipeline/TranslationPipeline.kt:90-106 | Speaking is published; under SEQUENTIAL the translator is released and the voice loaded, used and released |
| Pipeline.TranslateStep | shared/src/commonMain/kotlin/com/jetbrains/kmpapp/pipeline/TranslationPipeline.kt:81-88 | Translating is published, then Translated(answer) with the translate call made, unless something throws |
| Pipeline.TranslateText | shared/src/commonMain/kotlin/com/jetbrains/kmpapp/pipeline/TranslationPipeline.kt:75-110 | a result iff nothing throws, and it is the engine's answer; the shown state is the last published; translate is always called; CONCURRENT never loads; the running flag is untouched |
| Pipeline.TranslateTextOneAtATime | shared/src/commonMain/kotlin/com/jetbrains/kmpapp/pipeline/TranslationPipeline.kt:75-110 | SEQUENTIAL translateText from no engine loaded keeps one engine at a time and leaves none loaded when it returns |
| TranslationEngines.Estimate | shared/src/androidMain/kotlin/com/jetbrains/kmpapp/translation/AndroidTranslationEngine.kt:28-30 | 50 MiB on Android, 200 MiB on iOS |
| TranslationEngines.MemoryUsage | shared/src/iosMain/kotlin/com/jetbrains/kmpapp/translation/IOSTranslationEngine.kt:27-29 | 0 unless initialized, else the platform's fixed estimate |
| TranslationEngines.Translate | shared/src/androidMain/kotlin/com/jetbrains/kmpapp/translation/AndroidTranslationEngine.kt:32-43 | the placeholder result carries the languages asked for, no confidence, and text from which the input reads back |
| TranslationEngines.PlaceholderText | shared/src/iosMain/kotlin/com/jetbrains/kmpapp/translation/IOSTranslationEngine.kt:36-40 | whatever it reads back rebuilds the placeholder text exactly |
| TranslationEngines.TranslateIgnoresReadiness | shared/src/androidMain/kotlin/com/jetbrains/kmpapp/translation/AndroidTranslationEngine.kt:32-43 | the answer does not depend on the engine's state, and distinct inputs give distinct answers |
| TranslationEngines.SupportedLanguagePairs | shared/src/androidMain/kotlin/com/jetbrains/kmpapp/translation/AndroidTranslationEngine.kt:45-48 | exactly the two pairs en→tr and tr→en |
| TranslationEngines.PairsHaveCatalogModels | shared/src/iosMain/kotlin/com/jetbrains/kmpapp/translation/IOSTranslationEngine.kt:43-46 | each supported pair's reverse is supported, and each pair has an OPUS-MT model in the catalog |
| TtsEngines.Initial | shared/src/androidMain/kotlin/com/jetbrains/kmpapp/tts/AndroidTTSEngine.kt:11-13 | a new engine is neither ready nor speaking |
| TtsEngines.Estimate | shared/src/androidMain/kotlin/com/jetbrains/kmpapp/tts/AndroidTTSEngine.kt:29-31 | 30 MiB on Android, 80 MiB on iOS |
| TtsEngines.MemoryUsage | shared/src/iosMain/kotlin/com/jetbrains/kmpapp/tts/IOSTTSEngine.kt:28-30 | 0 unless initialized, else the platform's fixed estimate |
| TtsEngines.Synthesize | shared/src/androidMain/kotlin/com/jetbrains/kmpapp/tts/AndroidTTSEngine.kt:33-40 | no samples and zero duration, at the sample rate asked for |
| TtsEngines.ReadinessAfterCall | shared/src/androidMain/kotlin/com/jetbrains/kmpapp/tts/AndroidTTSEngine.kt:15-46 | after a call the engine is ready iff it was initialize, or synthesize or stop on a ready engine; initialize records the model; isSpeaking is set after a call iff it was set before and the call was not stop, so no call ever sets it |
| Speech.CodesIdentifyLanguages | shared/src/commonMain/kotlin/com/jetbrains/kmpapp/speech/SpeechRecognizer.kt:17-29 | the two-letter codes are distinct, so a code names one language |
| LanguageDetection.Put | shared/src/androidMain/kotlin/com/jetbrains/kmpapp/speech/LanguageDetector.android.kt:28-39 | a map write keeps keys distinct: a new key is appended at the end, an existing key's value replaced in place and nothing else changes |
| LanguageDetection.FirstIndex | shared/src/androidMain/kotlin/com/jetbrains/kmpapp/speech/LanguageDetector.android.kt:31 | the first position of a language in the list; no earlier position holds it |
| LanguageDetection.ScoreAll | shared/src/androidMain/kotlin/com/jetbrains/kmpapp/speech/LanguageDetector.android.kt:28-44 | the scores hold distinct languages from the list, each with its score, and every list language that scored is present |
| LanguageDetection.ScoreAllOrdered | shared/src/androidMain/kotlin/com/jetbrains/kmpapp/speech/LanguageDetector.android.kt:28-44 | of any two entries, the earlier one's language is mentioned first in the list |
| LanguageDetection.MaxIndex | shared/src/androidMain/kotlin/com/jetbrains/kmpapp/speech/LanguageDetector.android.kt:51 | maxByOrNull: a greatest score, and the first of the greatest |
| LanguageDetection.DetectPicksFirstBest | shared/src/androidMain/kotlin/com/jetbrains/kmpapp/speech/LanguageDetector.android.kt:20-61 | Error iff the audio is empty; Unsupported iff it is not and no score exceeds 0.3; a detected language was scored with that confidence, it is above 0.3, no score exceeds it, and no earlier-listed language ties it |
| LanguageDetection.LowScoreNeverDetected | shared/src/androidMain/kotlin/com/jetbrains/kmpapp/speech/LanguageDetector.android.kt:53-60 | a language scoring 0.3 or less is never detected |
| LanguageDetection.Int32 | shared/src/androidMain/kotlin/com/jetbrains/kmpapp/speech/LanguageDetector.android.kt:70 | the result is a 32-bit value, equal to the input when that fits and differing from it by a multiple of 2^32 |
| LanguageDetection.StreamSamples | shared/src/androidMain/kotlin/com/jetbrains/kmpapp/speech/LanguageDetector.android.kt:63-78 | any result is a prefix of the audio; up to MaxWholeDuration seconds it is the first 16000·d samples; a negative product makes take throw |
| LanguageDetection.LongDurationWraps | shared/src/androidMain/kotlin/com/jetbrains/kmpapp/speech/LanguageDetector.android.kt:70-72 | one second beyond MaxWholeDuration the sample count wraps negative and take throws |
| LanguageDetection.ZeroDurationIsEmpty | shared/src/androidMain/kotlin/com/jetbrains/kmpapp/speech/LanguageDetector.android.kt:24-77 | a zero duration keeps no samples, and detection on them is the empty-audio error |
| AndroidDetector.ConfidenceScore | shared/src/androidMain/kotlin/com/jetbrains/kmpapp/speech/LanguageDetector.android.kt:137-156 | empty text scores 0 and only it; the score is one of 0, 0.3, 0.5, 0.8; lengths are Kotlin's `text.length` in UTF-16 code units; text shorter than half the expected length scores 0.3; text longer than twice the expected length scores 0.5; 0.8 exactly for non-empty text within half to twice the expected length |
| AndroidDetector.SurrogatePairCountsTwice | shared/src/androidMain/kotlin/com/jetbrains/kmpapp/speech/LanguageDetector.android.kt:145-153 | an emoji has length 2, so on one second of audio it scores 0.8, where a count of characters would give 0.3 |
| Text.Utf16Length | shared/src/androidMain/kotlin/com/jetbrains/kmpapp/speech/LanguageDetector.android.kt:145 | `String.length` lies between the number of characters and twice it, and equals it exactly when every character is in the Basic Multilingual Plane |
| Text.Utf16LengthAppend | shared/src/androidMain/kotlin/com/jetbrains/kmpapp/speech/LanguageDetector.android.kt:145 | the length of a concatenation is the sum of the lengths |
| AndroidDetector.ShortAudioScoresHalf | shared/src/androidMain/kotlin/com/jetbrains/kmpapp/speech/LanguageDetector.android.kt:146-153 | under 3200 samples the expected length is 0, so any text scores 0.5 |
| AndroidDetector.WeakAttemptNeverDetected | shared/src/androidMain/kotlin/com/jetbrains/kmpapp/speech/LanguageDetector.android.kt:31-131 | a language whose recognition failed or produced less than half the expected UTF-16 length is never detected |
| AndroidDetector.DetectedIffSomeTextFits | shared/src/androidMain/kotlin/com/jetbrains/kmpapp/speech/LanguageDetector.android.kt:20-61 | detection succeeds iff the audio is non-empty and some supported language with model paths produced non-empty text of at least half the expected UTF-16 length |
| AndroidDetector.DetectLanguageFromStream | shared/src/androidMain/kotlin/com/jetbrains/kmpapp/speech/LanguageDetector.android.kt:63-78 | detection on the clipped samples, throwing exactly when the clip does |
| AndroidDetector.FactoryPaths | shared/src/androidMain/kotlin/com/jetbrains/kmpapp/speech/LanguageDetector.android.kt:162-180 | the factory detector has model paths for Turkish and English only, the encoder, decoder, joiner and tokens files under sherpa-onnx/turkish and sherpa-onnx/english |
| IosDetector.PlaceholderScore | shared/src/iosMain/kotlin/com/jetbrains/kmpapp/speech/LanguageDetector.ios.kt:92-95 | every scored language gets 0.7 or 0.1 |
| IosDetector.PlaceholderThreshold | shared/src/iosMain/kotlin/com/jetbrains/kmpapp/speech/LanguageDetector.ios.kt:92-95 | the placeholder score passes the 0.3 threshold iff there are at least 5334 samples |
| IosDetector.DetectsFirstWithPaths | shared/src/iosMain/kotlin/com/jetbrains/kmpapp/speech/LanguageDetector.ios.kt:21-96 | from 5334 samples on the result is the first supported language with paths at 0.7; shorter non-empty audio, or no language with paths, is Unsupported |
| IosDetector.LongAudioDetectsFirst | shared/src/iosMain/kotlin/com/jetbrains/kmpapp/speech/LanguageDetector.ios.kt:51-95 | from 5334 samples on, the first supported language with paths is detected at 0.7 |
| IosDetector.WeakAudioUnsupported | shared/src/iosMain/kotlin/com/jetbrains/kmpapp/speech/LanguageDetector.ios.kt:47-95 | non-empty audio under 5334 samples, or no supported language with paths, is Unsupported |
| IosDetector.DetectLanguageFromStream | shared/src/iosMain/kotlin/com/jetbrains/kmpapp/speech/LanguageDetector.ios.kt:64-78 | detection on the clipped samples, throwing exactly when the clip does |
| IosDetector.FactoryPaths | shared/src/iosMain/kotlin/com/jetbrains/kmpapp/speech/LanguageDetector.ios.kt:118-137 | the factory detector has model paths for Turkish and English only, each file the bundle's path under sherpa-onnx/turkish or sherpa-onnx/english, or empty when the bundle lacks it |
| IosDetector.FactoryAlwaysPicksTurkish | shared/src/iosMain/kotlin/com/jetbrains/kmpapp/speech/LanguageDetector.ios.kt:118-137 | with the factory detector and default languages: empty audio is an error, under 5334 samples Unsupported, otherwise Turkish at 0.7, whatever the bundle holds |
| MultiLanguageRecognizer.New | shared/src/commonMain/kotlin/com/jetbrains/kmpapp/speech/MultiLanguageSpeechRecognizer.kt:15-27 | nothing detected, not initialized, candidates Turkish and English |
| MultiLanguageRecognizer.Initialize | shared/src/commonMain/kotlin/com/jetbrains/kmpapp/speech/MultiLanguageSpeechRecognizer.kt:34-63 | on a detected language it becomes current and published and the inner recognizer is initialized once with the caller's config switched to it, the answer being its result; otherwise the published language is cleared, false is answered, no call is made and the rest is kept |
| MultiLanguageRecognizer.StartRecognition | shared/src/commonMain/kotlin/com/jetbrains/kmpapp/speech/MultiLanguageSpeechRecognizer.kt:68-76 | delegates (one start call) iff initialized with a language; otherwise a flow of the single error "Language not detected or recognizer not initialized" |
| MultiLanguageRecognizer.ProcessAudioData | shared/src/commonMain/kotlin/com/jetbrains/kmpapp/speech/MultiLanguageSpeechRecognizer.kt:81-85 | audio is forwarded exactly when initialized |
| MultiLanguageRecognizer.Release | shared/src/commonMain/kotlin/com/jetbrains/kmpapp/speech/MultiLanguageSpeechRecognizer.kt:97-102 | the inner recognizer is released; language and initialization forgotten, candidates kept |
| MultiLanguageRecognizer.RunKeepsValid | shared/src/commonMain/kotlin/com/jetbrains/kmpapp/speech/MultiLanguageSpeechRecognizer.kt:15-116 | over any call sequence an initialized recognizer has a current language and a published language is the current one |
| MultiLanguageRecognizer.StepForwardsOnlyWhenReady | shared/src/commonMain/kotlin/com/jetbrains/kmpapp/speech/MultiLanguageSpeechRecognizer.kt:68-85 | start and audio reach the inner recognizer only once initialized with a language |
| MultiLanguageRecognizer.InitUsesDetectedLanguage | shared/src/commonMain/kotlin/com/jetbrains/kmpapp/speech/MultiLanguageSpeechRecognizer.kt:45-53 | every config handed on is the caller's with only the language replaced by the detected one |
| MultiLanguageRecognizer.FailedRedetectionKeepsOldLanguage | shared/src/commonMain/kotlin/com/jetbrains/kmpapp/speech/MultiLanguageSpeechRecognizer.kt:54-61 | a failed re-detection answers false and withdraws the published language, yet recognition still starts in the old language |
| MultiLanguageRecognizer.ReleasedRecognizerRefuses | shared/src/commonMain/kotlin/com/jetbrains/kmpapp/speech/MultiLanguageSpeechRecognizer.kt:97-102 | after release start refuses and audio is dropped |
| Wav.LE16RoundTrip | iosApp/iosApp/AudioRecordView.swift:193-196 | 16-bit little-endian encoding and decoding are inverse both ways |
| Wav.LE32RoundTrip | iosApp/iosApp/AudioRecordView.swift:189-192 | 32-bit little-endian encoding and decoding are inverse both ways |
| Wav.TagsAreAscii | iosApp/iosApp/AudioRecordView.swift:154-172 | the four chunk tags are the ASCII bytes of "RIFF", "WAVE", "fmt " and "data" |
| Wav.EncodeHeader | iosApp/iosApp/AudioRecordView.swift:154-172 | the header is 44 bytes |
| Wav.ParseEncoded | iosApp/iosApp/AudioRecordView.swift:148-176 | reading back an encoded header followed by PCM yields that header and those bytes |
| Wav.CreateWav | iosApp/iosApp/AudioRecordView.swift:148-176 | a WAV exists iff no conversion or unsigned operation overflows; it is 44 header bytes followed by the PCM bytes unchanged |
| Wav.CreateWavReadsBack | iosApp/iosApp/AudioRecordView.swift:149-172 | the header reads back as RIFF size 36+n, fmt size 16, format 3, the channels, rate, byte rate rate·channels·bytes, block align channels·bytes, bit depth and data size n |
| Wav.PlaybackFormat | iosApp/iosApp/AudioRecordView.swift:122-126 | at 48 kHz mono 32-bit the byte rate is 192000 and the block align 4 |
| Wav.BitPatternRoundTrip | iosApp/iosApp/AudioRecordView.swift:74-81 | the unsigned byte copied from a signed byte reads back as the same signed value |
| Wav.CopyChunk | iosApp/iosApp/AudioRecordView.swift:74-81 | the chunk copy has the same length and the same bits in each position |
| Wav.FlattenLength | iosApp/iosApp/AudioRecordView.swift:116-119 | the concatenated recording is as long as the sum of the chunk sizes |
| Wav.FlattenPlacesChunks | iosApp/iosApp/AudioRecordView.swift:116-119 | each chunk sits unchanged in the concatenation right after the bytes of the chunks before it |
| Wav.ConcatChunks | iosApp/iosApp/AudioRecordView.swift:116-119 | the append loop yields the concatenation of all chunks, of the summed size |
| Wav.StartRecording | iosApp/iosApp/AudioRecordView.swift:70-72 | counters and chunks cleared, no recording |
| Wav.Receive | iosApp/iosApp/AudioRecordView.swift:82-85 | a delivery appends its chunk and keeps the byte count consistent |
| Wav.StopRecording | iosApp/iosApp/AudioRecordView.swift:92-99 | a recording exists after stop iff bytes arrived or one existed; nothing else changes |
| Wav.RecordingHoldsChunks | iosApp/iosApp/AudioRecordView.swift:70-99 | a fresh recording fed chunks holds them in order, counts their bytes, and is marked on stop iff they hold any |
| Wav.PlaybackBytes | iosApp/iosApp/AudioRecordView.swift:108-126 | nothing to play without chunks; otherwise the WAV of all chunks with the PCM unchanged after the header |
| Pipeline.ReleaseStep | shared/src/commonMain/kotlin/com/jetbrains/kmpapp/pipeline/TranslationPipeline.kt:130-160 | a release after an exception is skipped as written and made when it sits in finally; it unloads only its engine and never changes the published states or the exception |

## Left out

**Not modelled: native code, I/O and platform plumbing**

- Native inference is not modelled: Sherpa-ONNX recognizers, ONNX Runtime and the C-interop reachability calls. Their answers are parameters.
- `SpeechRecognizer.android.kt` and `SpeechRecognizer.ios.kt` are not part of this model. They are thin wrappers whose own logic is only a recognizing flag and a `downloadModel` that always answers false.
- Transport and file I/O are not modelled: `HttpURLConnection`, `NSURLSession`, the busy-wait polling loop, file streams and archive extraction. The file system is a set of paths and a transfer is a list of chunk sizes.
- MD5 hashing and hex formatting are not modelled. A digest is an opaque string supplied with the transfer.
- Concurrency is not modelled: coroutine launches, `downloadJob` cancellation races, `StateFlow`/`SharedFlow`/`callbackFlow` plumbing and OS callback registration. Emitted values are kept as traces, and launches run to completion in place.
- UI, app shell, audio devices and dependency injection are not modelled. This covers the Compose and SwiftUI screens, the SwiftUI/AVAudioPlayer parts of the recording screen, the audio recorders and players, and Koin wiring.
- Plain field reads carry no contract of their own: `isReady`, `isRecognizing`, `isSpeaking`, `getCurrentLanguage`, `getEstimatedMemoryBytes` and `engineId`. Where these fields matter, the lemmas above state them.

**Numbers: float arithmetic replaced by exact values**

- Confidences are whole tenths (0.3 is 3) rather than 32-bit floats.
- Download progress is an exact fraction rather than a float.
- PCM Short→Float conversion (/32768) is not modelled. Audio is kept as the raw samples.
- `Stt.ThreeSecondsBuffered` reads Whisper's `size / sampleRate >= 3.0f` test over the reals.
  - A positive rate needs at least 3·rate samples.
  - A zero rate passes any non-empty buffer (division gives +infinity).
  - A negative rate never passes.
  - Float rounding of very large buffers is not modelled.
- `AndroidDetector.ExpectedLength` computes `(audioLength / 16000.0 * 5).toInt()` exactly as ⌊5·audioLength/16000⌋. Double rounding at exact multiples is not modelled.
- `IosDetector.PlaceholderScore` computes `(size / 16000.0 * 3).toInt()` exactly in the same way.
- `Wav.CreateWav` takes a whole-number sample rate. The Swift parameter is a `Double` whose fractional part `UInt32(sampleRate)` drops.

**Contracts stated narrower than the source**

- `Wav.Receive` does not model an overflow of the Swift `Int` `totalBytes` counter. It would need 2^63 bytes.
- `ModelStore.DeleteModel` models a failed recursive delete as removing nothing. The source's `deleteRecursively` may remove part of the tree before it fails.
- `Pipeline.Launch` assumes engine `release()` calls never throw. The placeholder and Sherpa-ONNX releases in scope do not.
- `Pipeline.Launch` records synthesis and playback as calls only. No audio is produced.
- `Pipeline.Start` and `Pipeline.StartReleasing` carry no ensures of their own. They are `Launch` with the releases as written and in `finally`, and their properties are stated by `Pipeline.Launch` and the lemmas about them.
- `Pipeline.CollectRecognition` and the pipeline runs built on it take the recognizer's results as a finite list that ends collection. The Android and iOS recognizers in this model never close the flow of a ready engine (AndroidSTTEngine.kt:159-168, IOSSTTEngine.kt:174-184): `stopRecognition` does not close it, and `ReadyRecognizerKeepsListening` proves that the written collector never returns there. With these engines a run therefore reaches Recognized only through a recognizer that is not ready, whose single final "" gives Listening → Idle. `Pipeline.HappyRun`, `Pipeline.StrandedTranslator` and the non-blank branches of `AfterRecognition` describe a recognizer whose flow ends after a final result, as the corrected collector `CollectUntilFinal` makes it (see Findings).
- ModelStore.GetModelInfo: answers from the corrected catalog, so the Android "whisper-base-tr" URL is the release archive name, not the `sherper-onnx-whisper-base` of ModelDownloader.android.kt:44 (see Findings; `AndroidCatalogAsWritten` keeps the line as written).
- ModelStore.GetAvailableModels: lists the corrected catalog, with the same one-URL difference from the Android source as `GetModelInfo`.
- ModelStore.GetDownloadedModels: filters the corrected catalog, with the same one-URL difference from the Android source.
- `LanguageDetection.StreamSamples` states the sample count only for durations within ±134217 seconds, where 16000·d fits in 32 bits. Beyond that the function body computes the wrapped count, and `LongDurationWraps` shows one case.

## Findings

| source | as written | input that shows it | evidently intended | confidence | as-written member | corrected member |
|---|---|---|---|---|---|---|
| shared/src/commonMain/kotlin/com/jetbrains/kmpapp/pipeline/TranslationPipeline.kt:122-164 | under SEQUENTIAL each phase's `release()` follows its work with no `finally`, so an exception skips it and the engine stays loaded | a run whose `translate` call throws: Error is published with the translator still loaded, and the next `start` loads the recognizer beside it, two engines ready | load one engine at a time and release it before loading the next, whatever throws (EngineConfig.kt:38) | not executed | Pipeline.StrandedTranslator, Pipeline.AsWrittenRunsDoubleUp | Pipeline.ReleasingLeavesNothingLoaded, Pipeline.ReleasingRunsKeepOneEngine |
| shared/src/androidMain/kotlin/com/jetbrains/kmpapp/model/ModelDownloader.android.kt:44 | the Whisper base archive URL is spelled `sherper-onnx-whisper-base` | `getModelInfo("whisper-base-tr")` on Android gives a URL for `sherper-onnx-whisper-base.tar.bz2`, which differs from the URL of the other entry named `whisper-base` and from the iOS catalog's `sherpa-onnx-whisper-base.tar.bz2` | every URL follows the release archive name `sherpa-onnx-<model>` | not executed | ModelStore.AndroidBaseUrlMisnamed | ModelStore.CatalogUrlsFollowReleaseNames |
| shared/src/commonMain/kotlin/com/jetbrains/kmpapp/pipeline/TranslationPipeline.kt:211-224 | `collectRecognition` collects the recognizer's flow to its end and calls `stopRecognition` on a final result, which does not close the flow | a ready Android recognizer that forwards a final result: the flow stays open and `collect` never returns, so the run stays in Listening; `stop()` publishes Idle but does not cancel the collecting coroutine | the first final result ends collection, and the run goes on to Recognized with its text | not executed | Pipeline.ReadyRecognizerKeepsListening | Pipeline.ReadyRecognizerReturnsFirstFinal |
| shared/src/commonMain/kotlin/com/jetbrains/kmpapp/model/ModelManagerViewModel.kt:88-98 | the confirmation callback handed to the model manager always answers false | on a CELLULAR network, `downloadModelWithConfirmation` and then `confirmDownload`: the manager asks again, gets false and returns Cancelled, so the download never starts | after the user confirms, the download proceeds | not executed | ViewModel.MeteredDownloadNeverStarts | ViewModel.ConfirmedMeteredDownloadProceeds |
