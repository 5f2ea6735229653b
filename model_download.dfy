/** The download handler: it validates a download request and hands one
    work request to the work manager, turns each state report of that work
    into the progress event the one subscribed progress sink receives,
    cancels tagged work, and checks whether a file is complete on disk.

    The work manager and the worker are outside the model: a work request
    is a value appended to the manager's queue, cancellation records the
    ids it selects, and state reports are given inputs. */
module ModelDownload {
  import opened Common
  import opened Paths

  /** The tag `cancelDownload` cancels by. */
  const DownloadTag := "model_download"
  /** The one tag every request built for the download worker carries: the
      worker's class name, which the request builder adds on its own. */
  const WorkerClassTag := "com.google.ai.edge.gallery.worker.DownloadWorker"

  const Downloading := "downloading"
  const Completed := "completed"
  const FailedState := "failed"
  const CancelledState := "cancelled"

  // ---------------------------------------------------------------------
  // Work state reports and the events they publish

  datatype WorkState = Enqueued | Running | Succeeded | Failed | Blocked | Cancelled {
    /** The work manager's own notion of a state the work never leaves. */
    predicate IsFinished() {
      Succeeded? || Failed? || Cancelled?
    }
  }

  /** The worker's progress data; a key it has not set is `None`. */
  datatype ProgressData = ProgressData(
    receivedBytes: Option<int>,
    downloadRate: Option<int>,
    remainingMs: Option<int>,
    startUnzipping: Option<bool>)

  /** One report of the observed work: its state, its progress data and the
      error message in its output data. */
  datatype WorkInfo = WorkInfo(state: WorkState, progress: ProgressData, errorMessage: Option<string>)

  /** The three shapes of map the handler publishes. */
  datatype ProgressEvent =
    | Transfer(receivedBytes: int, totalBytes: int, downloadRate: int, remainingMs: int,
               isUnzipping: bool, state: string)
    | FailureReport(errorMessage: Option<string>, state: string)
    | StateOnly(state: string)

  /** The observer's `when (workInfo?.state)`: the event a report publishes,
      if any. `totalBytes` is the size the download was started with. */
  function EventFor(info: Option<WorkInfo>, totalBytes: int): (event: Option<ProgressEvent>)
    ensures event.Some? ==> info.Some?
    ensures event.Some? && event.value.Transfer? ==> event.value.totalBytes == totalBytes
  {
    if info.None? then None
    else
      var progress := info.value.progress;
      match info.value.state
      case Running =>
        Some(Transfer(progress.receivedBytes.GetOr(0), totalBytes, progress.downloadRate.GetOr(0),
                      progress.remainingMs.GetOr(0), progress.startUnzipping.GetOr(false), Downloading))
      case Succeeded => Some(Transfer(totalBytes, totalBytes, 0, 0, false, Completed))
      case Failed => Some(FailureReport(info.value.errorMessage, FailedState))
      case Cancelled => Some(StateOnly(CancelledState))
      case Enqueued => None
      case Blocked => None
  }

  /** The work state a published event names, read back from its state. */
  function StateNamed(state: string): Option<WorkState> {
    if state == Downloading then Some(Running)
    else if state == Completed then Some(Succeeded)
    else if state == FailedState then Some(Failed)
    else if state == CancelledState then Some(Cancelled)
    else None
  }

  predicate IsTerminal(e: ProgressEvent) {
    e.state == Completed || e.state == FailedState || e.state == CancelledState
  }

  /** Only running, succeeded, failed and cancelled work publishes; the
      event's state names the work state it came from, so the receiver can
      recover it; and an event is terminal exactly when the work state is
      finished. */
  lemma EventNamesItsWorkState(info: Option<WorkInfo>, totalBytes: int)
    ensures EventFor(info, totalBytes).Some? <==>
      info.Some? && (info.value.state.Running? || info.value.state.IsFinished())
    ensures EventFor(info, totalBytes).Some? ==>
      && StateNamed(EventFor(info, totalBytes).value.state) == Some(info.value.state)
      && (IsTerminal(EventFor(info, totalBytes).value) <==> info.value.state.IsFinished())
  {
  }

  /** A running report always carries the requested total; progress keys
      the worker has not set read as 0 and unzipping as false, and set keys
      are passed on unchanged (nothing checks that the received count grows). */
  lemma RunningEventDefaults(progress: ProgressData, errorMessage: Option<string>, totalBytes: int)
    ensures var e := EventFor(Some(WorkInfo(Running, progress, errorMessage)), totalBytes).value;
      && e.Transfer? && e.state == Downloading && e.totalBytes == totalBytes
      && e.receivedBytes == (if progress.receivedBytes.Some? then progress.receivedBytes.value else 0)
      && e.downloadRate == (if progress.downloadRate.Some? then progress.downloadRate.value else 0)
      && e.remainingMs == (if progress.remainingMs.Some? then progress.remainingMs.value else 0)
      && e.isUnzipping == (progress.startUnzipping == Some(true))
  {
  }

  /** The completion event reports the whole file received at rate 0 with
      nothing remaining; the failure event carries the worker's message;
      the cancellation event carries the state alone. */
  lemma TerminalEventContents(info: WorkInfo, totalBytes: int)
    ensures info.state.Succeeded? ==>
      EventFor(Some(info), totalBytes) == Some(Transfer(totalBytes, totalBytes, 0, 0, false, Completed))
    ensures info.state.Failed? ==>
      EventFor(Some(info), totalBytes) == Some(FailureReport(info.errorMessage, FailedState))
    ensures info.state.Cancelled? ==> EventFor(Some(info), totalBytes) == Some(StateOnly(CancelledState))
  {
  }

  /** The events a run of state reports publishes to the sink `sink`. */
  function ProgressDeliveries(sink: Option<nat>, infos: seq<Option<WorkInfo>>, totalBytes: int)
    : (ds: seq<Delivery<ProgressEvent>>)
    ensures |ds| <= |infos|
    ensures sink.None? ==> ds == []
  {
    if infos == [] then []
    else
      (match EventFor(infos[0], totalBytes)
       case None => []
       case Some(e) => Publish(sink, e))
      + ProgressDeliveries(sink, infos[1..], totalBytes)
  }

  function CountFinished(infos: seq<Option<WorkInfo>>): nat {
    if infos == [] then 0
    else (if infos[0].Some? && infos[0].value.state.IsFinished() then 1 else 0) + CountFinished(infos[1..])
  }

  function CountTerminal(ds: seq<Delivery<ProgressEvent>>): nat {
    if ds == [] then 0
    else (if IsTerminal(ds[0].event) then 1 else 0) + CountTerminal(ds[1..])
  }

  /** Reports delivered one after another publish the concatenation of
      what each publishes. */
  lemma {:induction false} ProgressDeliveriesAppend(sink: Option<nat>, a: seq<Option<WorkInfo>>,
                                                    b: seq<Option<WorkInfo>>, totalBytes: int)
    ensures ProgressDeliveries(sink, a + b, totalBytes)
         == ProgressDeliveries(sink, a, totalBytes) + ProgressDeliveries(sink, b, totalBytes)
  {
    if a != [] {
      assert (a + b)[1..] == a[1..] + b;
      ProgressDeliveriesAppend(sink, a[1..], b, totalBytes);
    } else {
      assert a + b == b;
    }
  }

  /** With a subscriber, the sink receives as many terminal events as the
      reports contain finished states (exactly one when the work manager
      reports its final state once); every event goes to that subscriber.
      With none, nothing is received. */
  lemma {:induction false} TerminalEventsMatchFinishedReports(sink: Option<nat>, infos: seq<Option<WorkInfo>>,
                                                              totalBytes: int)
    ensures sink.None? ==> ProgressDeliveries(sink, infos, totalBytes) == []
    ensures sink.Some? ==> CountTerminal(ProgressDeliveries(sink, infos, totalBytes)) == CountFinished(infos)
    ensures sink.Some? ==> forall d :: d in ProgressDeliveries(sink, infos, totalBytes) ==> d.sink == sink.value
  {
    if infos != [] {
      TerminalEventsMatchFinishedReports(sink, infos[1..], totalBytes);
      EventNamesItsWorkState(infos[0], totalBytes);
      var head := match EventFor(infos[0], totalBytes) case None => [] case Some(e) => Publish(sink, e);
      var rest := ProgressDeliveries(sink, infos[1..], totalBytes);
      if sink.Some? {
        CountTerminalAppend(head, rest);
      }
    }
  }

  lemma {:induction false} CountTerminalAppend(a: seq<Delivery<ProgressEvent>>, b: seq<Delivery<ProgressEvent>>)
    ensures CountTerminal(a + b) == CountTerminal(a) + CountTerminal(b)
  {
    if a != [] {
      assert (a + b)[1..] == a[1..] + b;
      CountTerminalAppend(a[1..], b);
    } else {
      assert a + b == b;
    }
  }

  // ---------------------------------------------------------------------
  // startDownload: validation and the work request

  /** The call's arguments; absent ones are `None`. */
  datatype DownloadArgs = DownloadArgs(
    modelUrl: Option<string>,
    modelName: Option<string>,
    version: Option<string>,
    fileName: Option<string>,
    modelDir: Option<string>,
    totalBytes: Option<int>,
    extraDataUrls: Option<string>,
    extraDataFileNames: Option<string>,
    accessToken: Option<string>,
    isZip: Option<bool>,
    unzippedDir: Option<string>)

  /** The six arguments read with `!!`. */
  predicate HasRequired(args: DownloadArgs) {
    && args.modelUrl.Some? && args.modelName.Some? && args.version.Some?
    && args.fileName.Some? && args.modelDir.Some? && args.totalBytes.Some?
  }

  /** The worker's input keys. */
  datatype InputKey =
    | ModelUrlKey | ModelNameKey | VersionKey | FileNameKey | ModelDirKey | TotalBytesKey
    | ExtraDataUrlsKey | ExtraDataFileNamesKey | AccessTokenKey | IsZipKey | UnzippedDirKey
    | AppTimestampKey

  /** The twelve keys the handler writes. */
  const AllInputKeys: set<InputKey> :=
    {ModelUrlKey, ModelNameKey, VersionKey, FileNameKey, ModelDirKey, TotalBytesKey,
     ExtraDataUrlsKey, ExtraDataFileNamesKey, AccessTokenKey, IsZipKey, UnzippedDirKey, AppTimestampKey}

  /** There is no key besides those twelve. */
  lemma EveryInputKeyListed()
    ensures forall key: InputKey :: key in AllInputKeys
  {
    forall key: InputKey ensures key in AllInputKeys {
      match key
      case ModelUrlKey =>
      case ModelNameKey =>
      case VersionKey =>
      case FileNameKey =>
      case ModelDirKey =>
      case TotalBytesKey =>
      case ExtraDataUrlsKey =>
      case ExtraDataFileNamesKey =>
      case AccessTokenKey =>
      case IsZipKey =>
      case UnzippedDirKey =>
      case AppTimestampKey =>
    }
  }

  /** A value in the input data; a string put as null is kept as null. */
  datatype DataValue = Text(text: Option<string>) | Long(n: int) | Flag(b: bool)

  datatype NetworkType = NotRequired | Connected

  datatype WorkRequest = WorkRequest(
    id: nat,
    input: map<InputKey, DataValue>,
    requiredNetwork: NetworkType,
    tags: set<string>)

  /** The input data; `now` is the clock reading taken when it is built.
      Every key is set, including those whose argument is absent. */
  function InputData(args: DownloadArgs, now: int): (input: map<InputKey, DataValue>)
    requires HasRequired(args)
    ensures forall key: InputKey :: key in input
  {
    var input := map[
        ModelUrlKey := Text(args.modelUrl),
        ModelNameKey := Text(args.modelName),
        VersionKey := Text(args.version),
        FileNameKey := Text(args.fileName),
        ModelDirKey := Text(args.modelDir),
        TotalBytesKey := Long(args.totalBytes.value),
        ExtraDataUrlsKey := Text(args.extraDataUrls),
        ExtraDataFileNamesKey := Text(args.extraDataFileNames),
        AccessTokenKey := Text(args.accessToken),
        IsZipKey := Flag(args.isZip.GetOr(false)),
        UnzippedDirKey := Text(args.unzippedDir),
        AppTimestampKey := Long(now)];
    EveryInputKeyListed();
    assert input.Keys == AllInputKeys;
    input
  }

  /** The one-time request for the download worker, needing a connection.
      Its only tag is the worker's class name, never the cancel tag. */
  function BuildRequest(id: nat, args: DownloadArgs, now: int): (request: WorkRequest)
    requires HasRequired(args)
    ensures request.id == id && DownloadTag !in request.tags
    ensures request.tags == {WorkerClassTag} && request.requiredNetwork == Connected
    ensures request.input == InputData(args, now)
    ensures forall key: InputKey :: key in request.input
  {
    WorkRequest(id, InputData(args, now), Connected, {WorkerClassTag})
  }

  function TextAt(input: map<InputKey, DataValue>, key: InputKey): Option<string> {
    if key in input && input[key].Text? then input[key].text else None
  }

  function LongAt(input: map<InputKey, DataValue>, key: InputKey): Option<int> {
    if key in input && input[key].Long? then Some(input[key].n) else None
  }

  function FlagAt(input: map<InputKey, DataValue>, key: InputKey): Option<bool> {
    if key in input && input[key].Flag? then Some(input[key].b) else None
  }

  /** How the worker reads its arguments back from the input data. */
  function ReadArgs(input: map<InputKey, DataValue>): DownloadArgs {
    DownloadArgs(
      TextAt(input, ModelUrlKey), TextAt(input, ModelNameKey), TextAt(input, VersionKey),
      TextAt(input, FileNameKey), TextAt(input, ModelDirKey), LongAt(input, TotalBytesKey),
      TextAt(input, ExtraDataUrlsKey), TextAt(input, ExtraDataFileNamesKey),
      TextAt(input, AccessTokenKey), FlagAt(input, IsZipKey), TextAt(input, UnzippedDirKey))
  }

  /** Every argument travels under its own key: reading the input data back
      gives the arguments, with the archive flag defaulted to false, and the
      clock reading sits under the timestamp key. */
  lemma InputDataRoundTrip(args: DownloadArgs, now: int)
    requires HasRequired(args)
    ensures ReadArgs(InputData(args, now)) == args.(isZip := Some(args.isZip.GetOr(false)))
    ensures LongAt(InputData(args, now), AppTimestampKey) == Some(now)
  {
  }

  /** The ids of the queued requests that carry `tag`. */
  function TaggedIds(requests: seq<WorkRequest>, tag: string): (ids: set<nat>)
    ensures forall id :: id in ids ==> exists i :: 0 <= i < |requests| && requests[i].id == id && tag in requests[i].tags
    ensures forall i :: 0 <= i < |requests| && tag in requests[i].tags ==> requests[i].id in ids
  {
    set i | 0 <= i < |requests| && tag in requests[i].tags :: requests[i].id
  }

  /** Requests built by `startDownload` are never selected by the tag
      `cancelDownload` uses. */
  lemma CancelTagSelectsNoBuiltRequest(requests: seq<WorkRequest>)
    requires forall i :: 0 <= i < |requests| ==> requests[i].tags == {WorkerClassTag}
    ensures TaggedIds(requests, DownloadTag) == {}
  {
    assert DownloadTag != WorkerClassTag;
  }

  // ---------------------------------------------------------------------
  // checkIfModelDownloaded

  /** The call's arguments; absent ones are `None`. */
  datatype CheckArgs = CheckArgs(
    fileName: Option<string>,
    modelDir: Option<string>,
    version: Option<string>,
    totalBytes: Option<int>)

  /** `checkIfModelDownloaded`: CHECK_ERROR when an argument is missing;
      otherwise whether `root/modelDir/version/fileName` (the directory as
      the caller gives it) exists with exactly `totalBytes` bytes. */
  function CheckIfModelDownloaded(fs: FileSystem, root: string, args: CheckArgs): (r: Reply)
    ensures r.Success? || r == Error(CheckError)
    ensures r.Success? ==> r.value.Bool?
  {
    if args.fileName.None? || args.modelDir.None? || args.version.None? || args.totalBytes.None? then
      Error(CheckError)
    else
      Success(Bool(Present(fs, JoinPath(root, args.modelDir.value, args.version.value, args.fileName.value),
                           args.totalBytes.value)))
  }

  /** An error answers exactly a missing argument; otherwise the answer is
      recomputed from the file: true for exactly the expected length, false
      for any other length or once the file is gone. */
  lemma CheckFollowsTheFile(fs: FileSystem, root: string, args: CheckArgs, length: int)
    ensures CheckIfModelDownloaded(fs, root, args).Error? <==>
      args.fileName.None? || args.modelDir.None? || args.version.None? || args.totalBytes.None?
    ensures !CheckIfModelDownloaded(fs, root, args).Error? ==>
      var path := JoinPath(root, args.modelDir.value, args.version.value, args.fileName.value);
      && CheckIfModelDownloaded(fs[path := length], root, args) == Success(Bool(length == args.totalBytes.value))
      && CheckIfModelDownloaded(fs - {path}, root, args) == Success(Bool(false))
  {
  }

  // ---------------------------------------------------------------------
  // The handler object

  class ModelDownloadHandler {
    var progressEventSink: Option<nat>
    /** The requests handed to the work manager, in order. */
    var enqueued: seq<WorkRequest>
    /** The ids of the requests the work manager was told to cancel. */
    var cancelled: set<nat>
    /** For each observed request, the total its observer reports. */
    var observers: map<nat, int>
    /** The next request id. */
    var nextRequestId: nat
    /** Every event the progress sinks have received, in order. */
    ghost var published: seq<Delivery<ProgressEvent>>

    ghost predicate Valid()
      reads this
    {
      && (forall i :: 0 <= i < |enqueued| ==>
            enqueued[i].id in observers && enqueued[i].tags == {WorkerClassTag})
      && (forall id :: id in observers ==> id < nextRequestId)
    }

    constructor ()
      ensures Valid()
      ensures progressEventSink.None? && enqueued == [] && cancelled == {} && observers == map[]
      ensures published == []
    {
      progressEventSink := None;
      enqueued := [];
      cancelled := {};
      observers := map[];
      nextRequestId := 0;
      published := [];
    }

    /** The stream handler's `onListen`: the new subscriber replaces any
        previous one. */
    method OnListen(events: Option<nat>)
      modifies this`progressEventSink
      ensures progressEventSink == events
    {
      progressEventSink := events;
    }

    /** The stream handler's `onCancel`. */
    method OnCancel()
      modifies this`progressEventSink
      ensures progressEventSink.None?
    {
      progressEventSink := None;
    }

    /** `startDownload`: a missing required argument gives DOWNLOAD_ERROR and
        enqueues nothing; otherwise one request is built, observed and
        enqueued, and the reply is true. */
    method StartDownload(args: DownloadArgs, now: int) returns (reply: Reply)
      requires Valid()
      modifies this`enqueued, this`observers, this`nextRequestId
      ensures Valid()
      ensures !HasRequired(args) ==>
        && reply == Error(DownloadError)
        && enqueued == old(enqueued) && observers == old(observers) && nextRequestId == old(nextRequestId)
      ensures HasRequired(args) ==>
        && reply == Success(Bool(true))
        && enqueued == old(enqueued) + [BuildRequest(old(nextRequestId), args, now)]
        && observers == old(observers)[old(nextRequestId) := args.totalBytes.value]
        && nextRequestId == old(nextRequestId) + 1
    {
      if !HasRequired(args) {
        return Error(DownloadError);
      }
      var request := BuildRequest(nextRequestId, args, now);
      nextRequestId := nextRequestId + 1;
      observers := observers[request.id := args.totalBytes.value];
      enqueued := enqueued + [request];
      reply := Success(Bool(true));
    }

    /** The observer of request `requestId` receiving a state report. */
    method OnWorkInfoChanged(requestId: nat, info: Option<WorkInfo>)
      requires requestId in observers
      modifies this`published
      ensures published == old(published) + ProgressDeliveries(progressEventSink, [info], observers[requestId])
    {
      var event := EventFor(info, observers[requestId]);
      if event.Some? && progressEventSink.Some? {
        published := published + [Delivery(progressEventSink.value, event.value)];
      }
    }

    /** `cancelDownload`: cancel all work tagged "model_download" and answer
        true. No request this handler enqueued carries that tag, so none of
        them is cancelled. */
    method CancelDownload() returns (reply: Reply)
      requires Valid()
      modifies this`cancelled
      ensures reply == Success(Bool(true))
      ensures cancelled == old(cancelled) + TaggedIds(enqueued, DownloadTag)
      ensures cancelled == old(cancelled)
    {
      CancelTagSelectsNoBuiltRequest(enqueued);
      cancelled := cancelled + TaggedIds(enqueued, DownloadTag);
      reply := Success(Bool(true));
    }
  }
}
