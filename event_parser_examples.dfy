/** Worked examples of the event-stream parser: blocks written in the wire format, line by
    line, and the events `parseEvent` and `parseEventStream` make of them. */
module EventParserExamples {
  import opened Wrappers
  import opened SSEData
  import opened SSEvent
  import opened EventParser

  /** A value that survives a line unchanged: non-empty, not starting with whitespace the
      scanner skips, and without newline characters. */
  predicate PlainValue(v: string)
  {
    |v| > 0 && !IsSkipped(v[0]) && NoNewline(v)
  }

  /** A field name that can head a line: non-empty, no leading whitespace, no newline, no colon. */
  predicate PlainKey(key: string)
  {
    |key| > 0 && !IsSkipped(key[0]) && NoNewline(key) && forall j :: 0 <= j < |key| ==> key[j] != ':'
  }

  /** A line `key: value` has no newline and parses to that key and value. */
  lemma FieldLine(key: string, v: string)
    requires PlainKey(key) && PlainValue(v)
    ensures NoNewline(key + ": " + v)
    ensures ParseKeyValuePair(key + ": " + v) == KeyValue(Some(key), Some(v))
  {
    SpaceAfterColonSkipped(key, v);
    var l := key + ": " + v;
    forall j | 0 <= j < |l| ensures !IsNewline(l[j]) {
      if j < |key| { assert l[j] == key[j]; }
      else if j < |key| + 2 { }
      else { assert l[j] == v[j - |key| - 2]; }
    }
  }

  /** The event of a block made of newline-free lines is read off the pairs of those lines. */
  lemma EventOfLines(lines: seq<string>)
    requires |lines| > 0
    requires forall i :: 0 <= i < |lines| ==> NoNewline(lines[i])
    ensures var fields := FieldsOf(Pairs(lines));
            EventFrom(JoinLines(lines))
            == DataReceived(Data(Lookup(fields, "id"), Lookup(fields, "event"), Lookup(fields, "data")))
  {
    SplitJoinedLines(lines);
  }

  /** The fold over two pairs, written out. */
  lemma FieldsOfTwo(a: KeyValue, b: KeyValue)
    ensures FieldsOf([a, b]) == AddLine(AddLine(map[], a), b)
  {
    var s := [a, b];
    assert s[..|s| - 1] == [a];
    var one := [a];
    assert one[..|one| - 1] == [];
    assert FieldsOf(one) == AddLine(map[], a);
  }

  /** The fold over three pairs, written out. */
  lemma FieldsOfThree(a: KeyValue, b: KeyValue, c: KeyValue)
    ensures FieldsOf([a, b, c]) == AddLine(AddLine(AddLine(map[], a), b), c)
  {
    var s := [a, b, c];
    assert s[..|s| - 1] == [a, b];
    FieldsOfTwo(a, b);
  }

  /** Two values for one key are joined with "\n". */
  lemma JoinedFold(k: string, v1: string, v2: string)
    ensures FieldsOf([KeyValue(Some(k), Some(v1)), KeyValue(Some(k), Some(v2))]) == map[k := v1 + "\n" + v2]
  {
    FieldsOfTwo(KeyValue(Some(k), Some(v1)), KeyValue(Some(k), Some(v2)));
  }

  /** Three distinct keys with a value each give a dictionary of exactly those entries. */
  lemma DistinctFold(k1: string, v1: string, k2: string, v2: string, k3: string, v3: string)
    requires k1 != k2 && k1 != k3 && k2 != k3
    ensures FieldsOf([KeyValue(Some(k1), Some(v1)), KeyValue(Some(k2), Some(v2)), KeyValue(Some(k3), Some(v3))])
         == map[k1 := v1, k2 := v2, k3 := v3]
  {
    FieldsOfThree(KeyValue(Some(k1), Some(v1)), KeyValue(Some(k2), Some(v2)), KeyValue(Some(k3), Some(v3)));
  }

  /** A key without value between two values for that key discards the first value. */
  lemma ResetFold(k: string, v1: string, v2: string)
    ensures FieldsOf([KeyValue(Some(k), Some(v1)), KeyValue(Some(k), None), KeyValue(Some(k), Some(v2))])
         == map[k := "\n" + v2]
  {
    FieldsOfThree(KeyValue(Some(k), Some(v1)), KeyValue(Some(k), None), KeyValue(Some(k), Some(v2)));
    assert "" + "\n" + v2 == "\n" + v2;
  }

  /** Two `key: value` lines have no newline and parse to their keys and values. */
  lemma TwoFieldLines(k1: string, v1: string, k2: string, v2: string)
    requires PlainKey(k1) && PlainValue(v1) && PlainKey(k2) && PlainValue(v2)
    ensures var lines := [k1 + ": " + v1, k2 + ": " + v2];
            (forall i :: 0 <= i < |lines| ==> NoNewline(lines[i]))
            && Pairs(lines) == [KeyValue(Some(k1), Some(v1)), KeyValue(Some(k2), Some(v2))]
  {
    FieldLine(k1, v1);
    FieldLine(k2, v2);
  }

  /** Three `key: value` lines have no newline and parse to their keys and values. */
  lemma ThreeFieldLines(k1: string, v1: string, k2: string, v2: string, k3: string, v3: string)
    requires PlainKey(k1) && PlainValue(v1) && PlainKey(k2) && PlainValue(v2)
    requires PlainKey(k3) && PlainValue(v3)
    ensures var lines := [k1 + ": " + v1, k2 + ": " + v2, k3 + ": " + v3];
            (forall i :: 0 <= i < |lines| ==> NoNewline(lines[i]))
            && Pairs(lines)
               == [KeyValue(Some(k1), Some(v1)), KeyValue(Some(k2), Some(v2)), KeyValue(Some(k3), Some(v3))]
  {
    FieldLine(k1, v1);
    FieldLine(k2, v2);
    FieldLine(k3, v3);
  }

  /** A `key: value` line, a bare `key` line and another `key: value` line parse to the key
      with the first value, the key without value and the key with the second value. */
  lemma ResetLines(k: string, v1: string, v2: string)
    requires PlainKey(k) && PlainValue(v1) && PlainValue(v2)
    ensures var lines := [k + ": " + v1, k, k + ": " + v2];
            (forall i :: 0 <= i < |lines| ==> NoNewline(lines[i]))
            && Pairs(lines) == [KeyValue(Some(k), Some(v1)), KeyValue(Some(k), None), KeyValue(Some(k), Some(v2))]
  {
    FieldLine(k, v1);
    FieldLine(k, v2);
    KeyWithoutValue(k);
  }

  /** Two `data` lines are joined with "\n". */
  lemma MultiLineData(v1: string, v2: string)
    requires PlainValue(v1) && PlainValue(v2)
    ensures EventFrom(JoinLines(["data: " + v1, "data: " + v2]))
         == DataReceived(Data(None, None, Some(v1 + "\n" + v2)))
  {
    var lines := ["data: " + v1, "data: " + v2];
    assert "data: " == "data" + ": ";
    TwoFieldLines("data", v1, "data", v2);
    EventOfLines(lines);
    JoinedFold("data", v1, v2);
  }

  /** A block with one line each of `id`, `event` and `data` yields those three values. */
  lemma WellFormedBlock(id: string, ev: string, v: string)
    requires PlainValue(id) && PlainValue(ev) && PlainValue(v)
    ensures EventFrom(JoinLines(["id: " + id, "event: " + ev, "data: " + v]))
         == DataReceived(Data(Some(id), Some(ev), Some(v)))
  {
    var lines := ["id: " + id, "event: " + ev, "data: " + v];
    assert "id: " == "id" + ": " && "event: " == "event" + ": " && "data: " == "data" + ": ";
    ThreeFieldLines("id", id, "event", ev, "data", v);
    EventOfLines(lines);
    DistinctFold("id", id, "event", ev, "data", v);
  }

  /** A `data` line without value between two values discards the first: the result is the
      empty string followed by "\n" and the last value. */
  lemma ResetBetweenValues(a: string, b: string)
    requires PlainValue(a) && PlainValue(b)
    ensures EventFrom(JoinLines(["data: " + a, "data", "data: " + b]))
         == DataReceived(Data(None, None, Some("\n" + b)))
  {
    var lines := ["data: " + a, "data", "data: " + b];
    assert "data: " == "data" + ": ";
    ResetLines("data", a, b);
    EventOfLines(lines);
    ResetFold("data", a, b);
  }

  /** A comment block, whatever its text, yields no event. */
  lemma CommentBlockYieldsNothing(comment: string)
    ensures ParsedEvents([":" + comment]) == []
  {
    var blocks := [":" + comment];
    assert blocks[..|blocks| - 1] == [];
  }

  /** A kept block with "retry:" anywhere in it, at its start or not even at the start of a
      line, yields `.dummy`. */
  lemma RetryAnywhereIsDummy(before: string, after: string)
    requires before == [] || before[0] != ':'
    ensures ParsedEvents([before + "retry:" + after]) == [Dummy]
  {
    var block := before + "retry:" + after;
    assert SubstringAt(block, "retry:", |before|);
    var blocks := [block];
    assert blocks[..|blocks| - 1] == [];
  }
}
