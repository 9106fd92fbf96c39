/** HMSSERequest: the description of one SSE connection (target URL, extra headers, retry
    delay and reconnection strategy), and the Builder that fills it in place. */
module SSERequest {
  import opened Wrappers
  import opened Urls

  /** HMSSEStrategy. */
  datatype Strategy = RetryOnError | RetryOnConnectivity

  /** Header dictionaries; the source's `[String : Any]` values are strings in every use. */
  type Headers = map<string, string>

  /** `updateValues(from:)`: every key of `from` overwrites or adds; the other keys stay. */
  function UpdateValues(headers: Headers, from: Headers): (r: Headers)
    ensures r.Keys == headers.Keys + from.Keys
    ensures forall k :: k in from ==> r[k] == from[k]
    ensures forall k :: k in headers && k !in from ==> r[k] == headers[k]
  {
    headers + from
  }

  /** The retry delay is a `TimeInterval` (seconds). */
  datatype Request = Request(retryDelayIntv: real, urlStr: Option<string>, headers: Headers,
                             sseStrategy: Strategy)
  {
    /** `urlString()`: throws exactly when no URL string was set. */
    function UrlString(): (r: Result<string>)
      ensures r.Failure? <==> urlStr.None?
      ensures r.Success? ==> r.value == urlStr.value
    {
      match urlStr
      case Some(s) => Success(s)
      case None => Failure(Exception("URL String cannot be nil"))
    }

    /** `url()`: the parsed URL string; throws when there is no string or it does not parse. */
    function GetUrl(parse: UrlParser): (r: Result<Url>)
      ensures UrlString().Failure? ==> r.Failure?
      ensures r.Success? <==> urlStr.Some? && parse(urlStr.value).Some?
      ensures r.Success? ==> r.value == parse(urlStr.value).value
    {
      match UrlString()
      case Failure(e) => Failure(e)
      case Success(s) =>
        match parse(s)
        case Some(u) => Success(u)
        case None => Failure(Exception("URL cannot be constructed for " + s))
    }

    /** `with(retryDelay:)`: nil changes nothing; a value replaces only the delay. */
    function WithRetryDelay(retryDelay: Option<real>): (r: Request)
      ensures retryDelay.None? ==> r == this
      ensures retryDelay.Some? ==> r.retryDelayIntv == retryDelay.value
      ensures r.urlStr == urlStr && r.headers == headers && r.sseStrategy == sseStrategy
    {
      match retryDelay
      case Some(d) => this.(retryDelayIntv := d)
      case None => this
    }

    /** `with(urlString:)`: stores its argument, nil included. */
    function WithUrlString(urlString: Option<string>): (r: Request)
      ensures r.urlStr == urlString
      ensures r.retryDelayIntv == retryDelayIntv && r.headers == headers && r.sseStrategy == sseStrategy
    {
      this.(urlStr := urlString)
    }

    /** `add(headers:)`: nil changes nothing; otherwise every given header overwrites or adds. */
    function AddHeaders(extra: Option<Headers>): (r: Request)
      ensures extra.None? ==> r == this
      ensures extra.Some? ==> r.headers.Keys == headers.Keys + extra.value.Keys
      ensures extra.Some? ==> forall k :: k in extra.value ==> r.headers[k] == extra.value[k]
      ensures forall k :: k in headers && (extra.None? || k !in extra.value) ==> r.headers[k] == headers[k]
      ensures r.retryDelayIntv == retryDelayIntv && r.urlStr == urlStr && r.sseStrategy == sseStrategy
    {
      match extra
      case Some(h) => this.(headers := UpdateValues(headers, h))
      case None => this
    }

    /** `add(header:forKey:)`: nil changes nothing; a value sets or overwrites only that key. */
    function AddHeader(header: Option<string>, key: string): (r: Request)
      ensures header.None? ==> r == this
      ensures header.Some? ==> r.headers.Keys == headers.Keys + {key} && r.headers[key] == header.value
      ensures forall k :: k in headers && k != key ==> r.headers[k] == headers[k]
      ensures r.retryDelayIntv == retryDelayIntv && r.urlStr == urlStr && r.sseStrategy == sseStrategy
    {
      match header
      case Some(h) => this.(headers := headers[key := h])
      case None => this
    }

    /** `with(headers:)`: clears the headers, then adds the given ones. */
    function WithHeaders(newHeaders: Option<Headers>): (r: Request)
      ensures r.headers == newHeaders.GetOr(map[])
      ensures r.retryDelayIntv == retryDelayIntv && r.urlStr == urlStr && r.sseStrategy == sseStrategy
    {
      this.(headers := map[]).AddHeaders(newHeaders)
    }

    /** `with(sseStrategy:)`. */
    function WithStrategy(strategy: Strategy): (r: Request)
      ensures r.sseStrategy == strategy
      ensures r.retryDelayIntv == retryDelayIntv && r.urlStr == urlStr && r.headers == headers
    {
      this.(sseStrategy := strategy)
    }

    /** `with(buildable:)`: copies all four fields of the given request through the setters above. */
    function WithBuildable(buildable: Option<Request>): (r: Request)
      ensures buildable.None? ==> r == this
      ensures buildable.Some? ==> r == buildable.value
    {
      match buildable
      case Some(b) =>
        this.WithRetryDelay(Some(b.retryDelayIntv))
            .WithUrlString(b.urlStr)
            .WithHeaders(Some(b.headers))
            .WithStrategy(b.sseStrategy)
      case None => this
    }
  }

  /** The request a new Builder starts from. */
  function Initial(): (r: Request)
    ensures r.retryDelayIntv == 0.0 && r.urlStr.None? && r.headers == map[] && r.sseStrategy == RetryOnError
  {
    Request(0.0, None, map[], RetryOnError)
  }

  /** `cloneBuilder()`: a fresh Builder seeded with a copy of the request. */
  function CloneBuilder(r: Request): (b: Request)
    ensures b == r
  {
    Initial().WithBuildable(Some(r))
  }

  /** Adding a header twice with the same value is the same as adding it once. */
  lemma AddHeaderIdempotent(r: Request, header: Option<string>, key: string)
    ensures r.AddHeader(header, key).AddHeader(header, key) == r.AddHeader(header, key)
  {
  }

  /** `with(headers:)` forgets every header set before it. */
  lemma WithHeadersForgetsEarlier(r: Request, header: string, key: string, h: Headers)
    requires key !in h
    ensures key !in r.AddHeader(Some(header), key).WithHeaders(Some(h)).headers
  {
  }

  /** HMSSERequest.Builder: holds the request under construction and updates it in place. */
  class Builder {
    var request: Request

    constructor ()
      ensures request == Initial()
    {
      request := Request(0.0, None, map[], RetryOnError);
    }

    method WithRetryDelay(retryDelay: Option<real>)
      modifies this
      ensures request == old(request).WithRetryDelay(retryDelay)
    {
      if retryDelay.Some? {
        request := request.(retryDelayIntv := retryDelay.value);
      }
    }

    method WithUrlString(urlString: Option<string>)
      modifies this
      ensures request == old(request).WithUrlString(urlString)
    {
      request := request.(urlStr := urlString);
    }

    method WithHeaders(headers: Option<Headers>)
      modifies this
      ensures request == old(request).WithHeaders(headers)
    {
      request := request.(headers := map[]);
      AddHeaders(headers);
    }

    method AddHeaders(headers: Option<Headers>)
      modifies this
      ensures request == old(request).AddHeaders(headers)
    {
      if headers.Some? {
        request := request.(headers := UpdateValues(request.headers, headers.value));
      }
    }

    method AddHeader(header: Option<string>, key: string)
      modifies this
      ensures request == old(request).AddHeader(header, key)
    {
      if header.Some? {
        request := request.(headers := request.headers[key := header.value]);
      }
    }

    method WithStrategy(strategy: Strategy)
      modifies this
      ensures request == old(request).WithStrategy(strategy)
    {
      request := request.(sseStrategy := strategy);
    }

    method WithBuildable(buildable: Option<Request>)
      modifies this
      ensures buildable.Some? ==> request == buildable.value
      ensures buildable.None? ==> request == old(request)
    {
      if buildable.Some? {
        var b := buildable.value;
        WithRetryDelay(Some(b.retryDelayIntv));
        WithUrlString(b.urlStr);
        WithHeaders(Some(b.headers));
        WithStrategy(b.sseStrategy);
      }
    }

    method Build() returns (r: Request)
      ensures r == request
    {
      r := request;
    }
  }
}
