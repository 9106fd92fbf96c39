/** Last-Event-Id bookkeeping of HMSSEManagerType: the storage key derived from a request's
    URL, reading and writing the last received id, and the default headers of a connection
    request. The platform's UserDefaults is modelled as a string-to-string map. */
module LastEventIds {
  import opened Wrappers
  import opened Urls
  import opened SSEData
  import opened SSEvent
  import opened SSEvents
  import opened SSERequest

  const AcceptKey := "Accept"
  const CacheControlKey := "Cache-Control"
  const LastEventIdKeyName := "Last-Event-Id"
  const NoCache := "no-cache"
  const TextEventStream := "text/event-stream"
  const KeyPrefix := "com.holmusk.HMEventSourceManager."

  /** The key-value store behind `lastEventIdForKey` and `storeLastEventIdWithKey`. */
  type Store = map<string, string>

  function Lookup(store: Store, key: string): (r: Option<string>)
    ensures r.Some? <==> key in store
    ensures r.Some? ==> r.value == store[key]
  {
    if key in store then Some(store[key]) else None
  }

  // ---------------------------------------------------------------------------------------
  // Storage key
  // ---------------------------------------------------------------------------------------

  /** `uniqueURLIdentifier`: "scheme.host.port.relativePath", with "" for a missing scheme or
      host and 0 for a missing port. */
  function UniqueUrlIdentifier(url: Url): string
  {
    url.scheme.GetOr("") + "." + url.host.GetOr("") + "." + DecimalString(url.port.GetOr(0))
    + "." + url.relativePath
  }

  /** `lastEventIdKey(_ url:)`. */
  function UrlKey(url: Url): (key: string)
    ensures |key| > |KeyPrefix| && key[..|KeyPrefix|] == KeyPrefix
  {
    KeyPrefix + UniqueUrlIdentifier(url)
  }

  /** `lastEventIdKey(_ request:)`: the key of the request's URL, or "" when `url()` throws. */
  function LastEventIdKey(request: Request, parse: UrlParser): (key: string)
    ensures key == "" <==> request.GetUrl(parse).Failure?
    ensures request.GetUrl(parse).Success? ==> key == UrlKey(request.GetUrl(parse).value)
  {
    match request.GetUrl(parse)
    case Success(url) => UrlKey(url)
    case Failure(_) => ""
  }

  /** Two URLs that differ only in their port have different keys. */
  lemma DistinctPortsDistinctKeys(u: Url, v: Url)
    requires u.scheme == v.scheme && u.host == v.host && u.relativePath == v.relativePath
    requires u.port.GetOr(0) != v.port.GetOr(0)
    ensures UrlKey(u) != UrlKey(v)
  {
    var pre := KeyPrefix + u.scheme.GetOr("") + "." + u.host.GetOr("") + ".";
    var du, dv := DecimalString(u.port.GetOr(0)), DecimalString(v.port.GetOr(0));
    var tail := "." + u.relativePath;
    KeyAroundPort(u);
    KeyAroundPort(v);
    DecimalRoundTrip(u.port.GetOr(0));
    DecimalRoundTrip(v.port.GetOr(0));
    MiddleDiffers(pre, du, dv, tail);
  }

  /** The key of a URL is what precedes the port, the port's digits, then what follows. */
  lemma KeyAroundPort(u: Url)
    ensures UrlKey(u) == (KeyPrefix + u.scheme.GetOr("") + "." + u.host.GetOr("") + ".")
                         + DecimalString(u.port.GetOr(0)) + ("." + u.relativePath)
  {
    var pre := KeyPrefix + u.scheme.GetOr("") + "." + u.host.GetOr("") + ".";
    var id := u.scheme.GetOr("") + "." + u.host.GetOr("") + "." + DecimalString(u.port.GetOr(0));
    assert KeyPrefix + (id + "." + u.relativePath) == KeyPrefix + id + "." + u.relativePath;
    assert KeyPrefix + id == pre + DecimalString(u.port.GetOr(0));
  }

  lemma MiddleDiffers(pre: string, a: string, b: string, tail: string)
    requires a != b
    ensures pre + a + tail != pre + b + tail
  {
    if |a| == |b| {
      var i :| 0 <= i < |a| && a[i] != b[i];
      assert (pre + a + tail)[|pre| + i] == a[i];
      assert (pre + b + tail)[|pre| + i] == b[i];
    }
  }

  /** A missing port shares its key with an explicit port 0, and a missing host or scheme with
      an empty one. */
  lemma MissingPartsShareKeys(u: Url)
    ensures UrlKey(u.(port := None)) == UrlKey(u.(port := Some(0)))
    ensures UrlKey(u.(host := None)) == UrlKey(u.(host := Some("")))
    ensures UrlKey(u.(scheme := None)) == UrlKey(u.(scheme := Some("")))
  {
  }

  // ---------------------------------------------------------------------------------------
  // Reading and writing the last event id
  // ---------------------------------------------------------------------------------------

  /** `lastEventId(_ request:)`. */
  function LastEventId(store: Store, request: Request, parse: UrlParser): Option<string>
  {
    Lookup(store, LastEventIdKey(request, parse))
  }

  /** The non-nil ids of some payloads, in order (`flatMap({$0.id})`). */
  function Ids(ds: seq<Data>): (ids: seq<string>)
    ensures |ids| <= |ds|
  {
    if ds == [] then []
    else
      var last := ds[|ds| - 1];
      Ids(ds[..|ds| - 1]) + (if last.id.Some? then [last.id.value] else [])
  }

  /** The id `storeLastEventId` writes for a batch: the last of its non-nil ids. */
  function LastId(events: seq<Event<Data>>): Option<string>
  {
    var ids := Ids(Values(events));
    if ids == [] then None else Some(ids[|ids| - 1])
  }

  /** The last non-nil id of some payloads belongs to the last payload that has one. */
  lemma {:induction false} LastOfIds(ds: seq<Data>)
    ensures Ids(ds) == [] <==> forall j :: 0 <= j < |ds| ==> ds[j].id.None?
    ensures Ids(ds) != [] ==>
      exists j :: 0 <= j < |ds| && ds[j].id == Some(Ids(ds)[|Ids(ds)| - 1])
        && forall k :: j < k < |ds| ==> ds[k].id.None?
  {
    if ds != [] {
      var init := ds[..|ds| - 1];
      LastOfIds(init);
      if ds[|ds| - 1].id.None? {
        assert Ids(ds) == Ids(init);
        if Ids(ds) != [] {
          var j :| 0 <= j < |init| && init[j].id == Some(Ids(init)[|Ids(init)| - 1])
                   && forall k :: j < k < |init| ==> init[k].id.None?;
          assert ds[j] == init[j];
        } else {
          assert forall j :: 0 <= j < |init| ==> ds[j] == init[j];
        }
      } else {
        assert ds[|ds| - 1].id == Some(Ids(ds)[|Ids(ds)| - 1]);
      }
    }
  }

  /** `LastId` is the id of the last `dataReceived` payload that has one, and None exactly
      when no payload of the batch has an id. */
  lemma LastIdIsLastNonNil(events: seq<Event<Data>>)
    ensures var vs := Values(events);
      LastId(events).None? <==> forall j :: 0 <= j < |vs| ==> vs[j].id.None?
    ensures var vs := Values(events);
      LastId(events).Some? ==>
        exists j :: 0 <= j < |vs| && vs[j].id == LastId(events)
          && forall k :: j < k < |vs| ==> vs[k].id.None?
  {
    LastOfIds(Values(events));
  }

  /** The store after `storeLastEventId(request, events)`. */
  function Stored(store: Store, request: Request, events: seq<Event<Data>>, parse: UrlParser): (s: Store)
    ensures LastId(events).None? ==> s == store
    ensures LastId(events).Some? ==> s.Keys == store.Keys + {LastEventIdKey(request, parse)}
    ensures forall k :: k in store && k != LastEventIdKey(request, parse) ==> k in s && s[k] == store[k]
  {
    match LastId(events)
    case Some(id) => store[LastEventIdKey(request, parse) := id]
    case None => store
  }

  /** Reading back after a store gives the batch's last id; a batch without ids, such as one
      holding only `.dummy`, leaves the stored id as it was. */
  lemma StoreThenRead(store: Store, request: Request, events: seq<Event<Data>>, parse: UrlParser)
    ensures LastId(events).Some? ==> LastEventId(Stored(store, request, events, parse), request, parse) == LastId(events)
    ensures LastId(events).None? ==> LastEventId(Stored(store, request, events, parse), request, parse) == LastEventId(store, request, parse)
  {
  }

  /** A batch's last id of a concatenation is the second part's when it has one. */
  lemma {:induction false} IdsAppend(a: seq<Data>, b: seq<Data>)
    ensures Ids(a + b) == Ids(a) + Ids(b)
  {
    if b == [] {
      assert a + b == a;
    } else {
      assert (a + b)[..|a + b| - 1] == a + b[..|b| - 1];
      IdsAppend(a, b[..|b| - 1]);
    }
  }

  /** Storing two batches one after the other leaves the same id as storing them as one. */
  lemma StoringBatchesInTurn(store: Store, request: Request, a: seq<Event<Data>>, b: seq<Event<Data>>, parse: UrlParser)
    ensures Stored(Stored(store, request, a, parse), request, b, parse) == Stored(store, request, a + b, parse)
  {
    ValuesAppend(a, b);
    IdsAppend(Values(a), Values(b));
  }

  /** The example of the batch test: ids "5" then "7", then a batch holding only `.dummy`,
      leaves "7" stored for the request. */
  lemma SaveLastEventIdExample(store: Store, request: Request, parse: UrlParser)
    ensures var first := [DataReceived(Data(Some("5"), None, None)), DataReceived(Data(Some("7"), None, None))];
      var second: seq<Event<Data>> := [Dummy];
      LastEventId(Stored(Stored(store, request, first, parse), request, second, parse), request, parse) == Some("7")
  {
    var first := [DataReceived(Data(Some("5"), None, None)), DataReceived(Data(Some("7"), None, None))];
    assert first[..1] == [first[0]];
    assert [first[0]][..0] == [];
    assert Values(first) == [Data(Some("5"), None, None), Data(Some("7"), None, None)];
    var ds := Values(first);
    assert ds[..1] == [ds[0]];
    assert [ds[0]][..0] == [];
    assert LastId(first) == Some("7");
    var second: seq<Event<Data>> := [Dummy];
    assert second[..0] == [];
    assert Values(second) == [];
  }

  // ---------------------------------------------------------------------------------------
  // Default parameters
  // ---------------------------------------------------------------------------------------

  /** `addDefaultParams`: a copy of the request with `Accept` and `Cache-Control` set, and
      `Last-Event-Id` set when an id is stored for it (a nil header adds nothing). */
  function AddDefaultParams(store: Store, request: Request, parse: UrlParser): (r: Request)
    ensures r.headers.Keys == request.headers.Keys + {AcceptKey, CacheControlKey}
              + (if LastEventId(store, request, parse).Some? then {LastEventIdKeyName} else {})
    ensures AcceptKey in r.headers && r.headers[AcceptKey] == TextEventStream
    ensures CacheControlKey in r.headers && r.headers[CacheControlKey] == NoCache
    ensures LastEventId(store, request, parse).Some? ==>
              (LastEventIdKeyName in r.headers
               && r.headers[LastEventIdKeyName] == LastEventId(store, request, parse).value)
    ensures forall k :: k in request.headers && k !in {AcceptKey, CacheControlKey, LastEventIdKeyName}
              ==> r.headers[k] == request.headers[k]
    ensures LastEventId(store, request, parse).None? && LastEventIdKeyName in request.headers ==>
              r.headers[LastEventIdKeyName] == request.headers[LastEventIdKeyName]
    ensures r.retryDelayIntv == request.retryDelayIntv && r.urlStr == request.urlStr
              && r.sseStrategy == request.sseStrategy
  {
    CloneBuilder(request)
      .AddHeader(Some(TextEventStream), AcceptKey)
      .AddHeader(Some(NoCache), CacheControlKey)
      .AddHeader(LastEventId(store, request, parse), LastEventIdKeyName)
  }

  /** Adding the default parameters twice is the same as adding them once. */
  lemma AddDefaultParamsIdempotent(store: Store, request: Request, parse: UrlParser)
    ensures var once := AddDefaultParams(store, request, parse);
      AddDefaultParams(store, once, parse) == once
  {
    var once := AddDefaultParams(store, request, parse);
    assert once.GetUrl(parse) == request.GetUrl(parse);
    var id := LastEventId(store, request, parse);
    assert LastEventId(store, once, parse) == id;
    assert CloneBuilder(once) == once;
    AddPresentHeader(once, TextEventStream, AcceptKey);
    AddPresentHeader(once, NoCache, CacheControlKey);
    if id.Some? {
      AddPresentHeader(once, id.value, LastEventIdKeyName);
    }
  }

  /** Adding a header that is already there with the same value changes nothing. */
  lemma AddPresentHeader(r: Request, header: string, key: string)
    requires key in r.headers && r.headers[key] == header
    ensures r.AddHeader(Some(header), key) == r
  {
    assert r.headers[key := header] == r.headers;
  }

  /** A reconnection after a batch with ids carries the batch's last id in `Last-Event-Id`. */
  lemma ResumeCarriesStoredId(store: Store, request: Request, events: seq<Event<Data>>, parse: UrlParser)
    requires LastId(events).Some?
    ensures var r := AddDefaultParams(Stored(store, request, events, parse), request, parse);
      LastEventIdKeyName in r.headers && r.headers[LastEventIdKeyName] == LastId(events).value
  {
  }

  /** The store-backed part of HMSSEManager. */
  class Manager {
    var userDefaults: Store

    constructor (initial: Store)
      ensures userDefaults == initial
    {
      userDefaults := initial;
    }

    /** `lastEventIdForKey`. */
    function LastEventIdForKey(key: string): Option<string>
      reads this
    {
      Lookup(userDefaults, key)
    }

    /** `storeLastEventIdWithKey`. */
    method StoreLastEventIdWithKey(key: string, value: string)
      modifies this
      ensures userDefaults == old(userDefaults)[key := value]
    {
      userDefaults := userDefaults[key := value];
    }

    /** `storeLastEventId`: writes the batch's last id under the request's key, if it has one. */
    method StoreLastEventId(request: Request, events: seq<Event<Data>>, parse: UrlParser)
      modifies this
      ensures userDefaults == Stored(old(userDefaults), request, events, parse)
    {
      var ids := Ids(Values(events));
      if ids != [] {
        var lastEventIdKey := LastEventIdKey(request, parse);
        StoreLastEventIdWithKey(lastEventIdKey, ids[|ids| - 1]);
      }
    }
  }
}
