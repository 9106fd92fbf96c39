/** HMSSEDelegate: how the three URLSession data-delegate callbacks become items pushed to the
    connection's observer. The observer is modelled as the sequence of items it has received. */
module SSEDelegate {
  import opened Wrappers
  import opened SSEvent
  import opened StreamSplitter

  /** An error delivered by the session; every Swift error bridges to an NSError with a code. */
  datatype TransportError = TransportError(code: int, description: string)

  /** NSURLErrorCancelled: the task was cancelled on purpose. */
  const Cancelled: int := 999

  /** The message of the error raised when the transfer ends without an error. */
  const Resubscribing := "Data transfer completed - resubscribing."

  /** The delegate callbacks that reach this class. */
  datatype Callback =
    | DidReceiveData(data: seq<Byte>)
    | DidReceiveResponse
    | DidCompleteWithError(error: Option<TransportError>)

  /** Why a `Try` failed: a transport error, or the error raised to trigger a resubscription. */
  datatype Failure = Transport(error: TransportError) | Raised(message: string)

  /** `Try<HMSSEvent<Data>>`. */
  datatype Try = TrySuccess(event: Event<seq<Byte>>) | TryFailure(failure: Failure)

  /** What the observer receives: `onNext` of a `Try`, or `onCompleted`. */
  datatype Item = Next(value: Try) | Completed

  /** How the response is let through (`completionHandler(.allow)`). */
  datatype Disposition = Allow

  /** The items one callback pushes to the observer. */
  function Emitted(callback: Callback): (items: seq<Item>)
    ensures callback.DidReceiveData? ==>
      (items == [] <==> |callback.data| <= 1)
      && (|callback.data| > 1 ==> items == [Next(TrySuccess(DataReceived(callback.data)))])
    ensures callback.DidReceiveResponse? ==> items == [Next(TrySuccess(ConnectionOpened))]
    ensures callback.DidCompleteWithError? ==>
      |items| == 1
      && (items[0] == Completed <==> callback.error.Some? && callback.error.value.code == Cancelled)
      && (items[0].Next? ==> items[0].value.TryFailure?)
  {
    match callback
    case DidReceiveData(data) =>
      if |data| > 1 then [Next(TrySuccess(DataReceived(data)))] else []
    case DidReceiveResponse => [Next(TrySuccess(ConnectionOpened))]
    case DidCompleteWithError(error) =>
      if error.Some? && error.value.code != Cancelled then [Next(TryFailure(Transport(error.value)))]
      else if error.None? then [Next(TryFailure(Raised(Resubscribing)))]
      else [Completed]
  }

  /** A transfer that ends, with or without an error, fails (and so is retried) unless it was
      cancelled; the failure carries the transport error when there is one. */
  lemma EndOfTransferRetriesUnlessCancelled(error: Option<TransportError>)
    ensures error.Some? && error.value.code != Cancelled ==>
      Emitted(DidCompleteWithError(error)) == [Next(TryFailure(Transport(error.value)))]
    ensures error.None? ==> Emitted(DidCompleteWithError(error)) == [Next(TryFailure(Raised(Resubscribing)))]
  {
  }

  /** Every callback pushes at most one item, and only a cancelled task completes the stream. */
  lemma AtMostOneItem(callback: Callback)
    ensures |Emitted(callback)| <= 1
    ensures Completed in Emitted(callback) ==> callback == DidCompleteWithError(callback.error)
                                               && callback.error.value.code == Cancelled
  {
  }

  /** The delegate object: the observer it pushes to and the dispositions it hands back. */
  class Delegate {
    var observer: seq<Item>
    var dispositions: seq<Disposition>

    constructor ()
      ensures observer == [] && dispositions == []
    {
      observer := [];
      dispositions := [];
    }

    /** `urlSession(_:dataTask:didReceive data:)`: skips chunks of one byte or fewer. */
    method DidReceiveData(data: seq<Byte>)
      modifies this
      ensures observer == old(observer) + Emitted(Callback.DidReceiveData(data))
      ensures dispositions == old(dispositions)
    {
      if |data| > 1 {
        observer := observer + [Next(TrySuccess(DataReceived(data)))];
      }
    }

    /** `urlSession(_:dataTask:didReceive response:completionHandler:)`: allows the response,
        then reports the connection as opened. */
    method DidReceiveResponse()
      modifies this
      ensures dispositions == old(dispositions) + [Allow]
      ensures observer == old(observer) + Emitted(Callback.DidReceiveResponse)
    {
      dispositions := dispositions + [Allow];
      observer := observer + [Next(TrySuccess(ConnectionOpened))];
    }

    /** `urlSession(_:task:didCompleteWithError:)`. */
    method DidCompleteWithError(error: Option<TransportError>)
      modifies this
      ensures observer == old(observer) + Emitted(Callback.DidCompleteWithError(error))
      ensures dispositions == old(dispositions)
    {
      if error.Some? && error.value.code != Cancelled {
        observer := observer + [Next(TryFailure(Transport(error.value)))];
      } else if error.None? {
        observer := observer + [Next(TryFailure(Raised(Resubscribing)))];
      } else {
        observer := observer + [Completed];
      }
    }
  }
}
