# On-device model handlers of Medora-ai, modelled in Dafny

The Android side of the Medora-ai app has two platform-channel handlers.

- `LlmInferenceHandler` holds at most one loaded inference engine and one
  session on it. `initializeModel` replaces them. `generateResponse` starts a
  streamed generation whose partial results go to the subscribed event sink
  of the `inference_stream` channel. `isModelDownloaded` looks up the model
  allow-list and tests whether the model's file is complete on disk.
  `disposeModel` tries to release both and forget the model; when a close
  throws, every field keeps its value.
- `ModelDownloadHandler` validates a download request and hands one work
  request to the work manager. It turns each RUNNING, SUCCEEDED, FAILED or
  CANCELLED report of that work into a progress event for the sink
  subscribed to the `download_progress` channel (other reports, and any
  report while no sink is subscribed, publish nothing). It cancels tagged
  work, and it tests whether a given file is complete on disk.

The model has six modules.

- `Common` (`common.dfy`): optional arguments, the reply a call sends back
  (success value, error code, or an exception escaping the handler), and
  delivery of an event to the current single subscriber.
- `Paths` (`paths.dfy`): Kotlin's `String.replace`, the directory name
  derived from a model id, the `root/dir/version/file` layout, and the
  presence test (the file exists with exactly the expected length).
- `Catalog` (`catalog.dfy`): the allow-list as a sequence of records and
  the first-match lookup, as a specification function and as the loop the
  handler runs.
- `LlmInference` (`llm_inference.dfy`): each operation as a pure function of
  the handler's fields (engine, session, model id) returning the new
  fields, the reply and the library calls made; the class
  `LlmInferenceHandler` whose methods update those fields and are proved
  equal to the functions.
- `ModelDownload` (`model_download.dfy`): the report-to-event mapping, the
  worker's input data and its read-back, the presence test, and the class
  `ModelDownloadHandler` with its queue of requests, observers, cancelled
  ids and published events.
- `Layout` (`layout.dfy`): how the two presence tests relate.

The inference library, the work manager and the file system are outside
the model. An engine or session is an opaque number. Every library call
that returns normally is recorded, in order, in a ghost trace; a call that
throws is not recorded. Which library call throws is a parameter, and a
fault fires only if the call it names is actually made. The file system is
a map from path to file length. The clock reading is a parameter.

Behaviour of the code worth knowing:

- The directory name deletes every occurrence of `google-` in the id,
  wherever it stands (`StorageDirDeletesInnerVendorPart`). One left-to-right
  pass can also leave `google-` in the result (`StorageDirMayKeepVendorPart`),
  and the id `google-` gives an empty directory name (`StorageDirMayBeEmpty`).
- A partial result from a session that has since been replaced is still
  published; no handle is checked before publishing
  (`LlmInference.LlmInferenceHandler.OnPartialResult`).
- `cancelDownload` cancels by the tag `model_download`. The requests
  `startDownload` builds carry only the worker class name as tag, so the
  call selects none of them (`ModelDownload.ModelDownloadHandler.CancelDownload`,
  `CancelTagSelectsNoBuiltRequest`). That no `cancelled` event follows is
  a consequence in the code, not a fact the model proves: the work manager
  is outside the model, and `OnWorkInfoChanged` accepts whatever report it
  is given.
- When the session cannot be created, the engine created just before it is
  neither kept nor closed (`SessionFailureLeaksEngine`).

## Model

| member | source | states |
|---|---|---|
| `Common.Publish` | android/app/src/main/kotlin/com/example/flutter_gallery/LlmInferenceHandler.kt:256 | Definition of `sink?.success(event)` (also ModelDownloadHandler.kt:83 and the other `progressEventSink?.success` calls); its contract: nothing is delivered exactly when no sink is subscribed, at most one delivery, and it carries the event to the subscribed sink. Used by `Deliveries` and `ProgressDeliveries` |
| `Paths.ReplaceAll` | android/app/src/main/kotlin/com/example/flutter_gallery/LlmInferenceHandler.kt:107 | Definition of Kotlin's `replace` (one left-to-right pass, resuming after each replaced occurrence); its contract: a replacement no longer than the pattern never lengthens the string. Its behaviour is stated by `ReplaceCharAt`, `ReplaceAllKeepsCharacters`, `ReplaceAllWithoutOccurrence`, `ReplaceAllAtFront` and `ReplaceAllKeepsPlainFront` |
| `Paths.ReplaceCharAt` | android/app/src/main/kotlin/com/example/flutter_gallery/LlmInferenceHandler.kt:107 | Replacing "/" by "-" keeps the length and changes exactly the positions that held "/" |
| `Paths.ReplaceAllKeepsCharacters` | android/app/src/main/kotlin/com/example/flutter_gallery/LlmInferenceHandler.kt:107 | Replacement introduces no character that is in neither the input nor the replacement |
| `Paths.ReplaceAllWithoutOccurrence` | android/app/src/main/kotlin/com/example/flutter_gallery/LlmInferenceHandler.kt:107 | A string with no occurrence of the pattern is left unchanged |
| `Paths.ReplaceAllAtFront` | android/app/src/main/kotlin/com/example/flutter_gallery/LlmInferenceHandler.kt:107 | An occurrence at the front is replaced and the scan resumes right after it |
| `Paths.ReplaceAllKeepsPlainFront` | android/app/src/main/kotlin/com/example/flutter_gallery/LlmInferenceHandler.kt:107 | A front part where no occurrence starts passes through unchanged |
| `Paths.StorageDir` | android/app/src/main/kotlin/com/example/flutter_gallery/LlmInferenceHandler.kt:107 | Definition of the directory name derived from a model id (the same expression as line 199); its contract: the name is never longer than the id. Its properties are stated by the `StorageDir…` lemmas below |
| `Paths.StorageDirIsOneSegment` | android/app/src/main/kotlin/com/example/flutter_gallery/LlmInferenceHandler.kt:107 | The directory derived from any model id contains no "/" |
| `Paths.StorageDirOfPlainId` | android/app/src/main/kotlin/com/example/flutter_gallery/LlmInferenceHandler.kt:199 | An id without "/" and without "google-" is its own directory name |
| `Paths.StorageDirStripsVendor` | android/app/src/main/kotlin/com/example/flutter_gallery/LlmInferenceHandler.kt:199 | `google/<name>` is stored under `<name>` |
| `Paths.StorageDirDeletesInnerVendorPart` | android/app/src/main/kotlin/com/example/flutter_gallery/LlmInferenceHandler.kt:107 | "acme/google-x" is stored under "acme-x": the vendor part is deleted inside the id too |
| `Paths.StorageDirMayKeepVendorPart` | android/app/src/main/kotlin/com/example/flutter_gallery/LlmInferenceHandler.kt:199 | "googoogle-gle-" is stored under "google-": one pass can join the pieces into a new occurrence |
| `Paths.StorageDirMayBeEmpty` | android/app/src/main/kotlin/com/example/flutter_gallery/LlmInferenceHandler.kt:199 | The id "google-" derives an empty directory name |
| `Paths.JoinPath` | android/app/src/main/kotlin/com/example/flutter_gallery/LlmInferenceHandler.kt:108-109 | Definition of the `root/dir/version/file` join; its contract: the path starts with the root and a separator and ends with a separator and the file name. Injectivity is `JoinPathInjective` |
| `Paths.ModelPath` | android/app/src/main/kotlin/com/example/flutter_gallery/LlmInferenceHandler.kt:202-203 | Definition of where the inference handler expects a catalogued file: the join of root, derived directory, version or "main", and file name; its contract: the path starts with the root and ends with "/" and the file name, and is at most as long as root, id, version and file name joined. Its use is stated by `ResolveModelPathPrefersCatalog`, `IsModelDownloadedExactly` and `PresenceScenario` |
| `Paths.Present` | android/app/src/main/kotlin/com/example/flutter_gallery/LlmInferenceHandler.kt:209 | Definition of the presence test: the file exists and its length equals the expected size; stated by `IsModelDownloadedFollowsTheFile` and `CheckFollowsTheFile` |
| `Paths.FirstSeparator` | android/app/src/main/kotlin/com/example/flutter_gallery/LlmInferenceHandler.kt:108-109 | The separator after a segment without "/" is the first "/" of the path |
| `Paths.SplitAtSeparator` | android/app/src/main/kotlin/com/example/flutter_gallery/LlmInferenceHandler.kt:108-109 | Two segment-plus-separator prefixes of one path are equal, and so are the rests |
| `Paths.JoinPathInjective` | android/app/src/main/kotlin/com/example/flutter_gallery/LlmInferenceHandler.kt:202-203 | Under one root, non-empty single-segment directory and version with a non-empty file name determine the path and are determined by it |
| `Catalog.FirstMatch` | android/app/src/main/kotlin/com/example/flutter_gallery/LlmInferenceHandler.kt:319-325 | A found record is in the document and carries the requested id |
| `Catalog.Lookup` | android/app/src/main/kotlin/com/example/flutter_gallery/LlmInferenceHandler.kt:311-330 | Definition of `getModelConfig` on a document; its contract: a found record belongs to the document and carries the requested id. Which record is found is `FirstMatchIsFirst` |
| `Catalog.FirstMatchIsFirst` | android/app/src/main/kotlin/com/example/flutter_gallery/LlmInferenceHandler.kt:311-330 | The lookup returns the first record with the id when every earlier record has a readable id, and nothing otherwise |
| `Catalog.FirstMatchMissesOnlyAbsentIds` | android/app/src/main/kotlin/com/example/flutter_gallery/LlmInferenceHandler.kt:319-325 | When every record has an id, nothing is found exactly when no record carries the requested id |
| `Catalog.GetModelConfig` | android/app/src/main/kotlin/com/example/flutter_gallery/LlmInferenceHandler.kt:311-330 | The loop returns what the lookup specifies: no document gives nothing, an id-less record ends the scan with nothing, and a result is a record of the document with that id |
| `LlmInference.LowerChar` | android/app/src/main/kotlin/com/example/flutter_gallery/LlmInferenceHandler.kt:136 | Definition of lower-casing one character (ASCII); its contract: the result is never a capital, and a changed character was a capital that became a small letter. The exact mapping is `LowerCharOf` |
| `LlmInference.Lowercase` | android/app/src/main/kotlin/com/example/flutter_gallery/LlmInferenceHandler.kt:136 | Definition of `accelerator.lowercase()`; its contract: the length is kept and no capital remains. Its effect on the backend is `SelectBackendCpuExactly` |
| `LlmInference.SelectBackend` | android/app/src/main/kotlin/com/example/flutter_gallery/LlmInferenceHandler.kt:136-140 | Definition of the backend choice; its contract: "cpu" and "CPU" select the CPU, and a name not of length 3 selects the GPU. The exact set is `SelectBackendCpuExactly`, the fallback `SelectBackendFallsBackToGpu` |
| `LlmInference.SelectBackendCpuExactly` | android/app/src/main/kotlin/com/example/flutter_gallery/LlmInferenceHandler.kt:136-140 | The CPU backend is chosen exactly for the case variants of "cpu" |
| `LlmInference.LowerCharOf` | android/app/src/main/kotlin/com/example/flutter_gallery/LlmInferenceHandler.kt:136 | Exactly a small letter and its capital lower-case to that small letter |
| `LlmInference.SelectBackendFallsBackToGpu` | android/app/src/main/kotlin/com/example/flutter_gallery/LlmInferenceHandler.kt:93-140 | The default "gpu", "GPU", an unknown name and the empty name select the GPU |
| `LlmInference.SplitOnSpace` | android/app/src/main/kotlin/com/example/flutter_gallery/LlmInferenceHandler.kt:308 | Splitting on " " always gives at least one piece |
| `LlmInference.TotalTokens` | android/app/src/main/kotlin/com/example/flutter_gallery/LlmInferenceHandler.kt:306-309 | Definition of the token count; its contract: it lies between 1 and the text's length plus one. Its exact value is `TotalTokensCountsSpaces` |
| `LlmInference.TotalTokensCountsSpaces` | android/app/src/main/kotlin/com/example/flutter_gallery/LlmInferenceHandler.kt:306-309 | The token count is the number of spaces plus one |
| `LlmInference.SplitJoinRoundTrip` | android/app/src/main/kotlin/com/example/flutter_gallery/LlmInferenceHandler.kt:308 | Joining the pieces with single spaces gives the text back |
| `LlmInference.SplitPiecesHaveNoSpace` | android/app/src/main/kotlin/com/example/flutter_gallery/LlmInferenceHandler.kt:308 | No piece contains a space |
| `LlmInference.Deliveries` | android/app/src/main/kotlin/com/example/flutter_gallery/LlmInferenceHandler.kt:251-272 | Definition of what the callbacks publish; its contract: at most one event per callback, and none without a subscriber. The exact events are `DeliveriesOnePerCallback` |
| `LlmInference.DeliveriesOnePerCallback` | android/app/src/main/kotlin/com/example/flutter_gallery/LlmInferenceHandler.kt:251-272 | With a subscriber each callback yields one event, in order, with its text, its done flag and a token count of at least one; with none, nothing is published |
| `LlmInference.DeliveriesAppend` | android/app/src/main/kotlin/com/example/flutter_gallery/LlmInferenceHandler.kt:251-272 | Successive callbacks publish the concatenation of what each publishes |
| `LlmInference.TwoPartialsScenario` | android/app/src/main/kotlin/com/example/flutter_gallery/LlmInferenceHandler.kt:256-261 | Partial results "He" then "Hello" (done) reach the sink as exactly two events, the second marked done |
| `LlmInference.Releases` | android/app/src/main/kotlin/com/example/flutter_gallery/LlmInferenceHandler.kt:130-131 | Definition of `llmSession?.close(); llmInference?.close()` (also lines 287-288); its contract: at most two calls, all closes, the session's before the engine's, and none exactly when nothing is held. Its use is stated by `ReleasesFirst` (in `InitializeReleasesBeforeCreating`) and `DisposeReleasesInOrder` |
| `LlmInference.ResolveModelPath` | android/app/src/main/kotlin/com/example/flutter_gallery/LlmInferenceHandler.kt:101-115 | Definition of the model-path choice; its contract: no path exactly when the catalogued record has no file name, a catalogued path lies under the root, and an id the catalog lacks keeps the caller's path. The full choice is `ResolveModelPathPrefersCatalog` |
| `LlmInference.EngineConfigFor` | android/app/src/main/kotlin/com/example/flutter_gallery/LlmInferenceHandler.kt:144-148 | Definition of the engine options; its contract: the resolved path is used, a missing token limit gives 8192, and a missing accelerator selects the GPU |
| `LlmInference.ReleaseAndCreate` | android/app/src/main/kotlin/com/example/flutter_gallery/LlmInferenceHandler.kt:128-172 | Definition of the coroutine body; its contract: success exactly when no fault fires on a call that is made, otherwise INIT_ERROR with the model id kept, and handle numbers never go back. The order of the calls is `ReleaseAndCreateReleasesFirst` |
| `LlmInference.Initialize` | android/app/src/main/kotlin/com/example/flutter_gallery/LlmInferenceHandler.kt:85-181 | Definition of `initializeModel` on the handler's fields; its contract: success only with a model id and path, and then that id is current; on failure the old id stays; handle numbers never go back. Its properties are the `Initialize…` lemmas and `SessionFailureLeaksEngine` |
| `LlmInference.InitializeRejectsMissingArguments` | android/app/src/main/kotlin/com/example/flutter_gallery/LlmInferenceHandler.kt:95-99 | A missing model id or path gives INIT_ERROR, changes no field and calls nothing |
| `LlmInference.ResolveModelPathPrefersCatalog` | android/app/src/main/kotlin/com/example/flutter_gallery/LlmInferenceHandler.kt:101-115 | A catalogued id is loaded from `root/<derived dir>/<version or main>/<file>`; the caller's path is used only for ids the catalog lacks |
| `LlmInference.InitializeReleasesBeforeCreating` | android/app/src/main/kotlin/com/example/flutter_gallery/LlmInferenceHandler.kt:128-172 | The session is closed before the engine, every close precedes every creation, and creations use fresh handles only after both old handles were closed |
| `LlmInference.ReleaseAndCreateReleasesFirst` | android/app/src/main/kotlin/com/example/flutter_gallery/LlmInferenceHandler.kt:128-172 | The coroutine body alone closes the old session, then the old engine, before any creation, and creates only fresh handles |
| `LlmInference.InitializeSucceedsUnlessAFaultFires` | android/app/src/main/kotlin/com/example/flutter_gallery/LlmInferenceHandler.kt:125-180 | Success exactly when no library call throws; then the new engine (resolved path, 8192 tokens by default, selected backend) and session (top-k 40 by default) are held with the id; otherwise INIT_ERROR and the old model id stays |
| `LlmInference.InitializeCreationFailureHoldsNothing` | android/app/src/main/kotlin/com/example/flutter_gallery/LlmInferenceHandler.kt:128-179 | When engine or session creation throws, no engine or session is held afterwards |
| `LlmInference.SessionFailureLeaksEngine` | android/app/src/main/kotlin/com/example/flutter_gallery/LlmInferenceHandler.kt:151-172 | When session creation throws, the engine just created is neither held nor closed |
| `LlmInference.InitializeKeepsConsistency` | android/app/src/main/kotlin/com/example/flutter_gallery/LlmInferenceHandler.kt:128-172 | Engine and session are held together, a held engine has a model id, and handles stay fresh |
| `LlmInference.IsModelDownloaded` | android/app/src/main/kotlin/com/example/flutter_gallery/LlmInferenceHandler.kt:183-221 | The reply is always a boolean success, never an error |
| `LlmInference.IsModelDownloadedExactly` | android/app/src/main/kotlin/com/example/flutter_gallery/LlmInferenceHandler.kt:183-221 | True exactly when an id is given, the catalog has a record for it with file name and size, and that file is present with that size; a missing or unknown id answers false |
| `LlmInference.IsModelDownloadedFollowsTheFile` | android/app/src/main/kotlin/com/example/flutter_gallery/LlmInferenceHandler.kt:194-211 | Writing the derived file with the catalogued length makes the answer true, any other length false, deleting it false |
| `LlmInference.InitializeLoadsCheckedFile` | android/app/src/main/kotlin/com/example/flutter_gallery/LlmInferenceHandler.kt:101-111 | A model reported downloaded is loaded from the file that was checked, whatever path the caller passed |
| `LlmInference.PresenceScenario` | android/app/src/main/kotlin/com/example/flutter_gallery/LlmInferenceHandler.kt:196-209 | Id "m1", file "m1.bin", 1000 bytes, no version: the file is "R/m1/main/m1.bin" and only a 1000-byte file there counts |
| `LlmInference.Generate` | android/app/src/main/kotlin/com/example/flutter_gallery/LlmInferenceHandler.kt:223-281 | Definition of `generateResponse` on the held session; its contract: success only with a prompt and a session, and at most two library calls. The full behaviour is `GenerateStartsOnlyWithPromptAndSession` |
| `LlmInference.GenerateStartsOnlyWithPromptAndSession` | android/app/src/main/kotlin/com/example/flutter_gallery/LlmInferenceHandler.kt:223-281 | NO_PROMPT, then NO_MODEL, without library calls; a generation starts exactly when the prompt was first added to the held session and nothing threw, and the reply is then success with null |
| `LlmInference.Dispose` | android/app/src/main/kotlin/com/example/flutter_gallery/LlmInferenceHandler.kt:283-299 | Definition of `disposeModel` on the handler's fields; its contract: the closes made are a prefix of (close session, close engine), and a failure keeps every field. The full behaviour is `DisposeReleasesInOrder` |
| `LlmInference.DisposeReleasesInOrder` | android/app/src/main/kotlin/com/example/flutter_gallery/LlmInferenceHandler.kt:283-299 | The closes that return are a prefix of (close session, close engine); success exactly when no close throws, and then nothing is held and both were closed; on failure DISPOSE_ERROR, every field keeps its value and the prefix is proper |
| `LlmInference.LlmInferenceHandler.constructor` | android/app/src/main/kotlin/com/example/flutter_gallery/LlmInferenceHandler.kt:38-43 | A new handler holds nothing, has no subscriber and has published nothing |
| `LlmInference.LlmInferenceHandler.OnListen` | android/app/src/main/kotlin/com/example/flutter_gallery/LlmInferenceHandler.kt:48-51 | The new subscriber replaces the previous one |
| `LlmInference.LlmInferenceHandler.OnCancel` | android/app/src/main/kotlin/com/example/flutter_gallery/LlmInferenceHandler.kt:52-55 | No subscriber remains |
| `LlmInference.LlmInferenceHandler.InitializeModel` | android/app/src/main/kotlin/com/example/flutter_gallery/LlmInferenceHandler.kt:85-181 | The new fields, reply and library calls are those `Initialize` gives for the old fields; consistency is kept |
| `LlmInference.LlmInferenceHandler.ReplaceModel` | android/app/src/main/kotlin/com/example/flutter_gallery/LlmInferenceHandler.kt:128-172 | Close, forget, create and hold exactly as `ReleaseAndCreate` specifies |
| `LlmInference.LlmInferenceHandler.GenerateResponse` | android/app/src/main/kotlin/com/example/flutter_gallery/LlmInferenceHandler.kt:223-281 | Reply and library calls are those `Generate` gives for the held session |
| `LlmInference.LlmInferenceHandler.OnPartialResult` | android/app/src/main/kotlin/com/example/flutter_gallery/LlmInferenceHandler.kt:251-272 | Appends the callback's event to the current subscriber's deliveries, whichever session started the generation |
| `LlmInference.LlmInferenceHandler.DisposeModel` | android/app/src/main/kotlin/com/example/flutter_gallery/LlmInferenceHandler.kt:283-299 | New fields, reply and calls are those `Dispose` gives; consistency is kept |
| `ModelDownload.EventFor` | android/app/src/main/kotlin/com/example/flutter_gallery/ModelDownloadHandler.kt:80-115 | Definition of the report-to-event mapping; its contract: only a report publishes, and every transfer event carries the total the download was started with. The mapping is stated by `EventNamesItsWorkState`, `RunningEventDefaults` and `TerminalEventContents` |
| `ModelDownload.EventNamesItsWorkState` | android/app/src/main/kotlin/com/example/flutter_gallery/ModelDownloadHandler.kt:80-115 | An event is published exactly for running, succeeded, failed and cancelled reports; its state string names that work state; it is terminal exactly when the work is finished |
| `ModelDownload.RunningEventDefaults` | android/app/src/main/kotlin/com/example/flutter_gallery/ModelDownloadHandler.kt:81-91 | A running report carries the requested total; unset progress values read 0 (unzipping false) and set ones pass unchanged |
| `ModelDownload.TerminalEventContents` | android/app/src/main/kotlin/com/example/flutter_gallery/ModelDownloadHandler.kt:92-113 | Completion reports the whole file at rate 0 with nothing remaining; failure carries the worker's message; cancellation only its state |
| `ModelDownload.ProgressDeliveries` | android/app/src/main/kotlin/com/example/flutter_gallery/ModelDownloadHandler.kt:78-116 | Definition of what a run of reports publishes; its contract: at most one event per report, and none without a subscriber. The terminal count is `TerminalEventsMatchFinishedReports` |
| `ModelDownload.ProgressDeliveriesAppend` | android/app/src/main/kotlin/com/example/flutter_gallery/ModelDownloadHandler.kt:78-116 | Successive reports publish the concatenation of what each publishes |
| `ModelDownload.TerminalEventsMatchFinishedReports` | android/app/src/main/kotlin/com/example/flutter_gallery/ModelDownloadHandler.kt:78-116 | With a subscriber, the number of terminal events equals the number of finished reports and all go to it; with none, nothing is published |
| `ModelDownload.CountTerminalAppend` | android/app/src/main/kotlin/com/example/flutter_gallery/ModelDownloadHandler.kt:80-115 | Terminal events of two runs of events add up |
| `ModelDownload.HasRequired` | android/app/src/main/kotlin/com/example/flutter_gallery/ModelDownloadHandler.kt:44-49 | Definition of the six arguments read with `!!`; its effect is stated by `ModelDownload.ModelDownloadHandler.StartDownload` (DOWNLOAD_ERROR and nothing enqueued without them) |
| `ModelDownload.InputData` | android/app/src/main/kotlin/com/example/flutter_gallery/ModelDownloadHandler.kt:58-70 | Definition of the worker's input data; its contract: every one of the twelve keys is set, absent arguments as null. Its read-back is `InputDataRoundTrip` |
| `ModelDownload.BuildRequest` | android/app/src/main/kotlin/com/example/flutter_gallery/ModelDownloadHandler.kt:57-75 | Definition of the work request; its contract: it has the given id, the input data, a required CONNECTED network, exactly the worker class name as tag and so never the tag `cancelDownload` uses (see `CancelTagSelectsNoBuiltRequest`) |
| `ModelDownload.InputDataRoundTrip` | android/app/src/main/kotlin/com/example/flutter_gallery/ModelDownloadHandler.kt:44-71 | Reading the worker's input back gives the call's arguments, the archive flag defaulted to false, and the clock reading under the timestamp key |
| `ModelDownload.TaggedIds` | android/app/src/main/kotlin/com/example/flutter_gallery/ModelDownloadHandler.kt:129 | Definition of the requests `cancelAllWorkByTag` selects; its contract: an id is selected exactly when a queued request with that id carries the tag. That the cancel tag selects no built request is `CancelTagSelectsNoBuiltRequest` |
| `ModelDownload.CancelTagSelectsNoBuiltRequest` | android/app/src/main/kotlin/com/example/flutter_gallery/ModelDownloadHandler.kt:127-134 | The tag "model_download" selects none of the requests `startDownload` builds |
| `ModelDownload.CheckIfModelDownloaded` | android/app/src/main/kotlin/com/example/flutter_gallery/ModelDownloadHandler.kt:136-159 | The reply is a boolean success or CHECK_ERROR |
| `ModelDownload.CheckFollowsTheFile` | android/app/src/main/kotlin/com/example/flutter_gallery/ModelDownloadHandler.kt:136-159 | CHECK_ERROR exactly when an argument is missing; otherwise a file with the expected length gives true, any other length or no file gives false |
| `ModelDownload.ModelDownloadHandler.constructor` | android/app/src/main/kotlin/com/example/flutter_gallery/ModelDownloadHandler.kt:17-30 | A new handler has no subscriber, no requests, no observers, nothing cancelled or published |
| `ModelDownload.ModelDownloadHandler.OnListen` | android/app/src/main/kotlin/com/example/flutter_gallery/ModelDownloadHandler.kt:23-25 | The new subscriber replaces the previous one |
| `ModelDownload.ModelDownloadHandler.OnCancel` | android/app/src/main/kotlin/com/example/flutter_gallery/ModelDownloadHandler.kt:26-28 | No subscriber remains |
| `ModelDownload.ModelDownloadHandler.StartDownload` | android/app/src/main/kotlin/com/example/flutter_gallery/ModelDownloadHandler.kt:41-125 | A missing required argument gives DOWNLOAD_ERROR and enqueues nothing; otherwise exactly one request (the arguments as input data, a connection required, the worker tag) is enqueued and observed with its total, and the reply is true |
| `ModelDownload.ModelDownloadHandler.OnWorkInfoChanged` | android/app/src/main/kotlin/com/example/flutter_gallery/ModelDownloadHandler.kt:78-116 | Appends the report's event, with the observed request's total, to the current subscriber's deliveries |
| `ModelDownload.ModelDownloadHandler.CancelDownload` | android/app/src/main/kotlin/com/example/flutter_gallery/ModelDownloadHandler.kt:127-134 | Cancels the requests tagged "model_download", which are none of those enqueued, and replies true |
| `Layout.HandlersAgreeOnPresence` | android/app/src/main/kotlin/com/example/flutter_gallery/ModelDownloadHandler.kt:143-153 | For a catalogued model, the download handler called with the derived directory, catalogued version (or "main"), file and size answers as the inference handler does |
| `Layout.SameFileOnlyForSameArguments` | android/app/src/main/kotlin/com/example/flutter_gallery/ModelDownloadHandler.kt:144-145 | With single-segment versions and no empty part, the download check looks at a catalogued model's file only when given its derived directory, version and file name |
| `Layout.VendorAndPlainIdsShareFiles` | android/app/src/main/kotlin/com/example/flutter_gallery/LlmInferenceHandler.kt:199 | `google/<name>` and `<name>` are looked for in the same file |

## Left out

- Temperature, top-p and the tokens-per-second placeholder are floating point and are not modelled; the session's top-k is.
- Logging (`println`, stack traces) has no effect on state and is left out.
- The inference library's own behaviour (loading, generating text, the graph options) is outside the model; its calls are recorded actions and its exceptions are fault parameters.
- Threads are not modelled: each coroutine body, each posted callback and each observer call runs as one atomic step. Races between a generation's callbacks and a concurrent `initializeModel` or `disposeModel` are not captured beyond the fact that callbacks publish regardless of the held session.
- The `CONTEXT_ERROR` replies cannot happen, because construction already refuses a context that is not a lifecycle owner; the constructor check itself is left out.
- JSON parsing of the allow-list asset is replaced by a sequence of records whose fields are absent when unreadable; a non-object array element, and `optString` on a JSON null, are not modelled.
- `java.io.File` path normalisation and a missing external files directory are not modelled; paths are joined with "/".
- Paths.JoinPathInjective: holds of the "/"-join; `java.io.File` also drops empty parts and collapses repeated separators and a leading or trailing one in the file name, so the lemma requires non-empty parts and still does not cover a file name with a leading, trailing or repeated separator.
- Layout.SameFileOnlyForSameArguments: rests on `Paths.JoinPathInjective` and has the same limits; an id such as "google-" derives an empty directory, which its requires exclude.
- Argument decoding by the channel codec is not modelled. When the codec delivers `totalBytes` as a 32-bit integer, `call.argument<Long>("totalBytes")!!` fails its cast, and the reply is DOWNLOAD_ERROR in `startDownload` or CHECK_ERROR in `checkIfModelDownloaded`. The model accepts any integer there, so it is more permissive than the code.
- A failure of `workManager.enqueue` after the observer was registered is not modelled, and neither is the `CANCEL_ERROR` reply of `cancelDownload`.
- ModelDownload.ModelDownloadHandler.StartDownload: `Data.Builder().build()` (ModelDownloadHandler.kt:71) throws when the serialised input data exceeds the work manager's 10 KB limit, and the code then replies DOWNLOAD_ERROR with nothing observed or enqueued. Serialised sizes are not modelled, so the model's `StartDownload` succeeds for every input that has the six required arguments.
- The download worker, the work manager's scheduling and the LiveData lifecycle (which reports arrive, and whether intermediate ones are merged) are outside the model: reports are inputs to `OnWorkInfoChanged`.
- Request ids are numbered by a counter instead of random UUIDs.
- Lower-casing of the accelerator name covers ASCII letters only.
- `onMethodCall` dispatch and `MainActivity` wiring only route calls and are not modelled.
- The key names of the worker's input and progress data are defined in `Consts.kt`, which is not part of this model (the copies in `DownloadConstants.kt` are commented out); the keys are an enumeration here.
