/** HMSSEvent: the tagged union every stage of the client delivers. A Swift closure that
    `throws` is modelled as a function returning `None` where the closure throws. */
module SSEvent {
  import opened Wrappers

  datatype Event<T> = ConnectionOpened | DataReceived(payload: T) | Dummy {

    /** `value`: the payload of `dataReceived`, nil for the other two cases. */
    function Value(): (v: Option<T>)
      ensures v.Some? <==> DataReceived?
      ensures v.Some? ==> v.value == payload
    {
      match this
      case DataReceived(t) => Some(t)
      case _ => None
    }
  }

  /** `mapValue`: apply a throwing transform and wrap with `m`, or `.dummy` if it throws. */
  function MapValue<T, U>(t: T, f: T -> Option<U>, m: U -> Event<U>): Event<U>
  {
    match f(t)
    case Some(u) => m(u)
    case None => Dummy
  }

  /** `flatMapValue`: apply a throwing transform to an event, or `.dummy` if it throws. */
  function FlatMapValue<T, U>(t: T, f: T -> Option<Event<U>>): Event<U>
  {
    match f(t)
    case Some(e) => e
    case None => Dummy
  }

  /** `map`: transform the payload; the payload-less cases pass through. */
  function Map<T, U>(e: Event<T>, f: T -> Option<U>): (r: Event<U>)
    ensures e.ConnectionOpened? <==> r.ConnectionOpened?
    ensures e.Dummy? ==> r.Dummy?
    ensures e.DataReceived? && f(e.payload).Some? ==> r == DataReceived(f(e.payload).value)
    ensures e.DataReceived? && f(e.payload).None? ==> r.Dummy?
  {
    match e
    case ConnectionOpened => ConnectionOpened
    case DataReceived(t) => MapValue(t, f, u => DataReceived(u))
    case Dummy => Dummy
  }

  /** `flatMap`: replace a `dataReceived` by the transform's event; the rest pass through. */
  function FlatMap<T, U>(e: Event<T>, f: T -> Option<Event<U>>): (r: Event<U>)
    ensures e.ConnectionOpened? ==> r.ConnectionOpened?
    ensures e.Dummy? ==> r.Dummy?
    ensures e.DataReceived? && f(e.payload).Some? ==> r == f(e.payload).value
    ensures e.DataReceived? && f(e.payload).None? ==> r.Dummy?
  {
    match e
    case ConnectionOpened => ConnectionOpened
    case DataReceived(t) => FlatMapValue(t, f)
    case Dummy => Dummy
  }

  /** `cast(to:)`: `asTarget` is the dynamic `as? T2` test. */
  function Cast<T, U>(e: Event<T>, asTarget: T -> Option<U>): (r: Event<U>)
    ensures e.DataReceived? && asTarget(e.payload).Some? ==> r == DataReceived(asTarget(e.payload).value)
    ensures e.DataReceived? && asTarget(e.payload).None? ==> r.Dummy?
    ensures !e.DataReceived? ==> r.Value().None? && (r.ConnectionOpened? <==> e.ConnectionOpened?)
  {
    Map(e, asTarget)
  }

  /** `map` with a transform that never throws and returns its argument gives back the event. */
  lemma MapIdentity<T>(e: Event<T>)
    ensures Map(e, (t: T) => Some(t)) == e
  {
  }

  /** Throwing transforms compose under `map`: a throw at either stage gives `.dummy`. */
  lemma MapComposes<T, U, V>(e: Event<T>, f: T -> Option<U>, g: U -> Option<V>)
    ensures Map(Map(e, f), g)
         == Map(e, (t: T) => match f(t) case Some(u) => g(u) case None => None)
  {
  }

  /** `map` is the special case of `flatMap` whose transform always yields `dataReceived`. */
  lemma MapIsFlatMap<T, U>(e: Event<T>, f: T -> Option<U>)
    ensures Map(e, f)
         == FlatMap(e, (t: T) => match f(t) case Some(u) => Some(DataReceived(u)) case None => None)
  {
  }

  /** Only `dataReceived` can carry a value after `map`, and then only if the transform succeeded. */
  lemma MapValueIffSucceeded<T, U>(e: Event<T>, f: T -> Option<U>)
    ensures Map(e, f).Value().Some? <==> e.DataReceived? && f(e.payload).Some?
  {
  }
}
