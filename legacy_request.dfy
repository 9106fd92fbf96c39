/** The default parameters of the older manager, which builds an HMNetworkRequest of the
    request framework. Only the parts of that request this client touches are modelled: the
    operation and the headers. */
module LegacyRequest {
  import opened SSERequest
  import opened LastEventIds

  /** The HTTP operation of a network request; only GET is named by this client. */
  datatype Operation = Get | Other(name: string)

  datatype NetworkRequest = NetworkRequest(operation: Operation, headers: Headers)

  /** `requestWithDefaultParams`: a copy of the request that is a GET and carries `Accept` and
      `Cache-Control`; unlike `AddDefaultParams`, it never adds `Last-Event-Id`. */
  function RequestWithDefaultParams(request: NetworkRequest): (r: NetworkRequest)
    ensures r.operation == Get
    ensures r.headers.Keys == request.headers.Keys + {AcceptKey, CacheControlKey}
    ensures r.headers[AcceptKey] == TextEventStream && r.headers[CacheControlKey] == NoCache
    ensures forall k :: k in request.headers && k !in {AcceptKey, CacheControlKey} ==> r.headers[k] == request.headers[k]
    ensures LastEventIdKeyName in r.headers <==> LastEventIdKeyName in request.headers
  {
    NetworkRequest(Get, request.headers[AcceptKey := TextEventStream][CacheControlKey := NoCache])
  }

  /** Applying the defaults twice is the same as applying them once. */
  lemma RequestWithDefaultParamsIdempotent(request: NetworkRequest)
    ensures RequestWithDefaultParams(RequestWithDefaultParams(request)) == RequestWithDefaultParams(request)
  {
    var once := RequestWithDefaultParams(request);
    assert once.headers[AcceptKey := TextEventStream][CacheControlKey := NoCache] == once.headers;
  }
}
