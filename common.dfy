/** Values shared by the two platform-channel handlers: optional call
    arguments, the reply a method call sends back, and delivery of events
    through a single-subscriber event sink. */
module Common {

  /** An argument or field that may be absent (Kotlin's nullable `T?`). */
  datatype Option<T> = None | Some(value: T) {
    /** Kotlin's `x ?: default`. */
    function GetOr(default: T): T {
      if Some? then value else default
    }
  }

  /** The value carried by a successful reply. */
  datatype Value = Null | Bool(b: bool)

  /** What a method call answers on its channel: `result.success(v)`,
      `result.error(code, ...)`, or an exception that escapes the handler
      itself, which the channel turns into an error reply of its own. */
  datatype Reply = Success(value: Value) | Error(code: string) | Uncaught

  const InitError := "INIT_ERROR"
  const NoPrompt := "NO_PROMPT"
  const NoModel := "NO_MODEL"
  const InferenceError := "INFERENCE_ERROR"
  const DisposeError := "DISPOSE_ERROR"
  const DownloadError := "DOWNLOAD_ERROR"
  const CheckError := "CHECK_ERROR"

  /** One event as received by the sink (identified by a number) that was
      subscribed when the event was published. */
  datatype Delivery<E> = Delivery(sink: nat, event: E)

  /** `sink?.success(event)`: the event reaches the current subscriber, or
      is dropped when there is none. */
  function Publish<E>(sink: Option<nat>, event: E): (ds: seq<Delivery<E>>)
    ensures ds == [] <==> sink.None?
    ensures |ds| <= 1
    ensures forall d :: d in ds ==> d.event == event && sink == Some(d.sink)
  {
    match sink
    case None => []
    case Some(k) => [Delivery(k, event)]
  }
}
