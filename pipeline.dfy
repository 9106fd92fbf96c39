/** The pure steps of the connection pipeline of HMSSEManagerType: choosing the reconnection
    behaviour from the request's strategy, and turning each transport event into the batch of
    parsed events that is stored and delivered. The reactive composition around them
    (retries, delays, reachability) is not part of this model. */
module Pipeline {
  import opened Wrappers
  import opened Urls
  import opened SSEData
  import opened SSEvents
  import opened SSEvent
  import opened StreamSplitter
  import opened EventParser
  import opened SSERequest
  import opened LastEventIds

  /** The stream builders `openConnection` chooses between. */
  datatype Stream = InfiniteRetry | RetryOnConnectivityChange

  /** The `switch` on `sseStreamStrategy()` in `openConnection`. */
  function StreamFor(strategy: Strategy): (s: Stream)
    ensures s == InfiniteRetry <==> strategy == RetryOnError
    ensures s == RetryOnConnectivityChange <==> strategy == RetryOnConnectivity
  {
    match strategy
    case RetryOnError => InfiniteRetry
    case RetryOnConnectivity => RetryOnConnectivityChange
  }

  /** The batch a transport event becomes in `inifiniteRetrySSE`: received bytes are parsed;
      the payload-less events are cast to the parsed type and delivered alone. */
  function BatchOf(event: Event<seq<Byte>>, decode: Utf8Decoder): (batch: seq<Event<Data>>)
    ensures event.DataReceived? ==> batch == ParsedData(event.payload, decode)
    ensures event.ConnectionOpened? ==> batch == [ConnectionOpened]
    ensures event.Dummy? ==> batch == [Dummy]
  {
    match event.Value()
    case Some(bytes) => ParsedData(bytes, decode)
    case None => [Cast(event, (b: seq<Byte>) => None)]
  }

  /** A batch holds `.connectionOpened` exactly when the transport event was the response. */
  lemma ConnectionOpenedOnlyFromResponse(event: Event<seq<Byte>>, decode: Utf8Decoder)
    ensures ConnectionOpened in BatchOf(event, decode) <==> event.ConnectionOpened?
  {
    if event.DataReceived? && ConnectionOpened in BatchOf(event, decode) {
      var blocks := EventBlocks(event.payload, decode);
      var k :| 0 <= k < |ParsedEvents(blocks)| && ParsedEvents(blocks)[k] == ConnectionOpened;
      EventKinds(blocks, k);
    }
  }

  /** Batches that come from the response or a `.dummy` carry no id, so storing them leaves
      the stored last event id alone. */
  lemma PayloadlessBatchesKeepStore(store: Store, request: Request, event: Event<seq<Byte>>,
                                    decode: Utf8Decoder, parse: UrlParser)
    requires !event.DataReceived?
    ensures Stored(store, request, BatchOf(event, decode), parse) == store
  {
    var batch := BatchOf(event, decode);
    assert batch[..0] == [];
    assert Values(batch) == [];
  }
}
