/** HMSSEvents: helpers over a batch of events. */
module SSEvents {
  import opened Wrappers
  import opened SSEvent

  /** `values`: the non-nil `value`s of the batch, in order (Swift's `flatMap` drops nils). */
  function Values<T>(events: seq<Event<T>>): (vs: seq<T>)
    ensures |vs| <= |events|
  {
    if events == [] then []
    else
      var last := events[|events| - 1];
      Values(events[..|events| - 1]) + (if last.DataReceived? then [last.payload] else [])
  }

  /** `hasData`: some event in the batch has a non-nil `value`. */
  predicate HasData<T>(events: seq<Event<T>>)
  {
    exists i :: 0 <= i < |events| && events[i].Value().Some?
  }

  /** Number of `dataReceived` events in a batch. */
  function CountData<T>(events: seq<Event<T>>): nat
  {
    if events == [] then 0
    else CountData(events[..|events| - 1]) + (if events[|events| - 1].DataReceived? then 1 else 0)
  }

  lemma {:induction false} ValuesLength<T>(events: seq<Event<T>>)
    ensures |Values(events)| == CountData(events)
  {
    if events != [] {
      ValuesLength(events[..|events| - 1]);
    }
  }

  /** `values` distributes over concatenation of batches. */
  lemma {:induction false} ValuesAppend<T>(a: seq<Event<T>>, b: seq<Event<T>>)
    ensures Values(a + b) == Values(a) + Values(b)
  {
    if b == [] {
      assert a + b == a;
    } else {
      assert (a + b)[..|a + b| - 1] == a + b[..|b| - 1];
      ValuesAppend(a, b[..|b| - 1]);
    }
  }

  /** The payload of the i-th event, when it is `dataReceived`, sits in `values` right after the
      payloads of the `dataReceived` events before it: `values` keeps every payload, in order. */
  lemma ValuesInOrder<T>(events: seq<Event<T>>, i: nat)
    requires i < |events| && events[i].DataReceived?
    ensures CountData(events[..i]) < |Values(events)|
    ensures Values(events)[CountData(events[..i])] == events[i].payload
  {
    assert events == events[..i] + [events[i]] + events[i + 1..];
    ValuesAppend(events[..i] + [events[i]], events[i + 1..]);
    ValuesAppend(events[..i], [events[i]]);
    assert Values([events[i]]) == [events[i].payload] by {
      assert [events[i]][..0] == [];
    }
    ValuesLength(events[..i]);
  }

  /** Every element of `values` is the payload of some `dataReceived` event of the batch. */
  lemma {:induction false} ValuesComeFromEvents<T>(events: seq<Event<T>>, j: nat)
    requires j < |Values(events)|
    ensures exists i :: 0 <= i < |events| && events[i] == DataReceived(Values(events)[j])
  {
    var init := events[..|events| - 1];
    if j < |Values(init)| {
      ValuesComeFromEvents(init, j);
      var i :| 0 <= i < |init| && init[i] == DataReceived(Values(init)[j]);
      assert events[i] == init[i];
    } else {
      assert events[|events| - 1] == DataReceived(Values(events)[j]);
    }
  }

  /** `hasData` holds exactly when `values` is non-empty. */
  lemma HasDataIffValues<T>(events: seq<Event<T>>)
    ensures HasData(events) <==> |Values(events)| > 0
  {
    if HasData(events) {
      var i :| 0 <= i < |events| && events[i].Value().Some?;
      ValuesInOrder(events, i);
    }
    if |Values(events)| > 0 {
      ValuesComeFromEvents(events, 0);
    }
  }
}
