/** HMEventSourceManager: the configuration of the older manager (extra headers, network checker,
    user defaults and target URL), and the Builder that fills it in place. The network checker
    and the user defaults are platform objects the configuration only holds, so they are type
    parameters. */
module EventSourceManager {
  import opened Wrappers
  import opened Urls
  import opened SSERequest

  datatype Manager<Checker, Defaults> = Manager(headers: Headers, nwChecker: Option<Checker>,
                                                userDefs: Option<Defaults>, sseURL: Option<Url>)
  {
    /** `networkChecker()`: a `fatalError` when unset, so callers must have set it. */
    function NetworkChecker(): (c: Checker)
      requires nwChecker.Some?
      ensures nwChecker == Some(c)
    {
      nwChecker.value
    }

    /** `userDefaults()`: a `fatalError` when unset. */
    function UserDefaults(): (d: Defaults)
      requires userDefs.Some?
      ensures userDefs == Some(d)
    {
      userDefs.value
    }

    /** `targetURL()`: a `fatalError` when unset. */
    function TargetUrl(): (u: Url)
      requires sseURL.Some?
      ensures sseURL == Some(u)
    {
      sseURL.value
    }

    /** `additionalHeaders()`: the stored headers, unchanged. */
    function AdditionalHeaders(): (h: Headers)
      ensures h == headers
    {
      headers
    }

    /** All three fatal accessors can be called. */
    predicate Complete()
    {
      nwChecker.Some? && userDefs.Some? && sseURL.Some?
    }
  }

  /** HMEventSourceManager.Builder: holds the manager under construction and updates it in place. */
  class Builder<Checker, Defaults> {
    var manager: Manager<Checker, Defaults>

    /** A fresh manager has no headers and no checker, defaults or URL. */
    constructor ()
      ensures manager == Manager(map[], None, None, None)
    {
      manager := Manager(map[], None, None, None);
    }

    /** `with(networkChecker:)`: stores its argument, nil included. */
    method WithNetworkChecker(networkChecker: Option<Checker>)
      modifies this
      ensures manager == old(manager).(nwChecker := networkChecker)
    {
      manager := manager.(nwChecker := networkChecker);
    }

    /** `with(userDefaults:)`. */
    method WithUserDefaults(userDefaults: Defaults)
      modifies this
      ensures manager == old(manager).(userDefs := Some(userDefaults))
    {
      manager := manager.(userDefs := Some(userDefaults));
    }

    /** `with(url:)`: stores its argument, nil included. */
    method WithUrl(url: Option<Url>)
      modifies this
      ensures manager == old(manager).(sseURL := url)
    {
      manager := manager.(sseURL := url);
    }

    /** `with(urlString:)`: nil leaves the URL unchanged; a string replaces it with its parse,
        which is nil when the string is not a valid URL. */
    method WithUrlString(urlString: Option<string>, parse: UrlParser)
      modifies this
      ensures urlString.None? ==> manager == old(manager)
      ensures urlString.Some? ==> manager == old(manager).(sseURL := parse(urlString.value))
    {
      if urlString.Some? {
        WithUrl(parse(urlString.value));
      }
    }

    /** `add(headers:)`: nil changes nothing; otherwise every given header overwrites or adds. */
    method AddHeaders(headers: Option<Headers>)
      modifies this
      ensures headers.None? ==> manager == old(manager)
      ensures headers.Some? ==> manager == old(manager).(headers := UpdateValues(old(manager).headers, headers.value))
    {
      if headers.Some? {
        manager := manager.(headers := UpdateValues(manager.headers, headers.value));
      }
    }

    /** `add(header:forKey:)`: nil changes nothing; a value sets or overwrites only that key. */
    method AddHeader(header: Option<string>, key: string)
      modifies this
      ensures header.None? ==> manager == old(manager)
      ensures header.Some? ==> manager == old(manager).(headers := old(manager).headers[key := header.value])
    {
      if header.Some? {
        manager := manager.(headers := manager.headers[key := header.value]);
      }
    }

    /** `with(headers:)`: clears the headers, then adds the given ones, so afterwards they are
        exactly the given ones. */
    method WithHeaders(headers: Option<Headers>)
      modifies this
      ensures manager == old(manager).(headers := headers.GetOr(map[]))
    {
      manager := manager.(headers := map[]);
      AddHeaders(headers);
    }

    /** `with(buildable:)`: copies all four fields of the given manager; its accessors are
        fatal when a field is unset, so a given manager must be complete. */
    method WithBuildable(buildable: Option<Manager<Checker, Defaults>>)
      requires buildable.Some? ==> buildable.value.Complete()
      modifies this
      ensures buildable.None? ==> manager == old(manager)
      ensures buildable.Some? ==> manager == buildable.value
    {
      if buildable.Some? {
        var b := buildable.value;
        WithNetworkChecker(Some(b.NetworkChecker()));
        WithUserDefaults(b.UserDefaults());
        WithUrl(Some(b.TargetUrl()));
        WithHeaders(Some(b.AdditionalHeaders()));
      }
    }

    method Build() returns (m: Manager<Checker, Defaults>)
      ensures m == manager
    {
      m := manager;
    }
  }
}
