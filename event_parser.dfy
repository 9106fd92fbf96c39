/** The text half of the event-stream parser: turning decoded event blocks into events
    (`parseEventStream`, `parseEvent`, `parseKeyValuePair`, `parseRetryTime`). */
module EventParser {
  import opened Wrappers
  import opened SSEData
  import opened SSEvent
  import opened StreamSplitter

  // ---------------------------------------------------------------------------------------
  // Foundation pieces: line splitting and Scanner's whitespace skipping
  // ---------------------------------------------------------------------------------------

  /** The characters of `CharacterSet.newlines`. */
  predicate IsNewline(c: char)
  {
    c == '\n' || c == '\U{000B}' || c == '\U{000C}' || c == '\r' || c == '\U{0085}'
    || c == '\U{2028}' || c == '\U{2029}'
  }

  /** `components(separatedBy: CharacterSet.newlines)`: cuts at every newline character, so a
      CRLF pair leaves an empty line between its two halves. */
  function SplitLines(s: string): (lines: seq<string>)
    ensures |lines| >= 1
    ensures forall i, j :: 0 <= i < |lines| && 0 <= j < |lines[i]| ==> !IsNewline(lines[i][j])
  {
    if s == [] then [""]
    else
      var rest := SplitLines(s[1..]);
      if IsNewline(s[0]) then [""] + rest
      else
        assert forall j :: 1 <= j < |[s[0]] + rest[0]| ==> ([s[0]] + rest[0])[j] == rest[0][j - 1];
        [[s[0]] + rest[0]] + rest[1..]
  }

  /** Number of newline characters in a string. */
  function NewlineCount(s: string): nat
  {
    if s == [] then 0 else (if IsNewline(s[0]) then 1 else 0) + NewlineCount(s[1..])
  }

  /** There is one line more than there are newline characters. */
  lemma {:induction false} SplitLinesCount(s: string)
    ensures |SplitLines(s)| == NewlineCount(s) + 1
  {
    if s != [] {
      SplitLinesCount(s[1..]);
    }
  }

  predicate NoNewline(line: string)
  {
    forall j :: 0 <= j < |line| ==> !IsNewline(line[j])
  }

  /** Lines joined with "\n" between them. */
  function JoinLines(vs: seq<string>): string
    requires |vs| > 0
  {
    if |vs| == 1 then vs[0] else JoinLines(vs[..|vs| - 1]) + "\n" + vs[|vs| - 1]
  }

  /** Appending "\n" and a line without newline characters appends that line. */
  lemma {:induction false} SplitLinesSnoc(s: string, line: string)
    requires NoNewline(line)
    ensures SplitLines(s + "\n" + line) == SplitLines(s) + [line]
  {
    if s == [] {
      assert s + "\n" + line == "\n" + line;
      assert ("\n" + line)[1..] == line;
      SplitLinesSingle(line);
    } else {
      assert (s + "\n" + line)[1..] == s[1..] + "\n" + line;
      SplitLinesSnoc(s[1..], line);
    }
  }

  /** A line without newline characters splits into itself. */
  lemma {:induction false} SplitLinesSingle(line: string)
    requires NoNewline(line)
    ensures SplitLines(line) == [line]
  {
    if line != [] {
      SplitLinesSingle(line[1..]);
      assert [line[0]] + line[1..] == line;
    }
  }

  /** Splitting undoes joining with "\n", for lines without newline characters. */
  lemma {:induction false} SplitJoinedLines(lines: seq<string>)
    requires |lines| > 0
    requires forall i :: 0 <= i < |lines| ==> NoNewline(lines[i])
    ensures SplitLines(JoinLines(lines)) == lines
  {
    if |lines| == 1 {
      SplitLinesSingle(lines[0]);
    } else {
      var init := lines[..|lines| - 1];
      SplitJoinedLines(init);
      SplitLinesSnoc(JoinLines(init), lines[|lines| - 1]);
    }
  }

  /** The characters Scanner skips by default (`whitespacesAndNewlines`), restricted to space,
      tab and the newline characters. */
  predicate IsSkipped(c: char)
  {
    c == ' ' || c == '\t' || IsNewline(c)
  }

  /** Scanner's skipping of leading whitespace before each scan. */
  function SkipWhitespace(s: string): (t: string)
    ensures |t| <= |s|
    ensures t == [] || !IsSkipped(t[0])
  {
    if s != [] && IsSkipped(s[0]) then SkipWhitespace(s[1..]) else s
  }

  /** `scanUpTo(":")`: the text before the first ':', or all of it when there is none. */
  function ScanUpToColon(t: string): (key: string)
    ensures |key| <= |t| && key == t[..|key|]
    ensures forall j :: 0 <= j < |key| ==> key[j] != ':'
    ensures |key| < |t| ==> t[|key|] == ':'
  {
    if t == [] || t[0] == ':' then [] else [t[0]] + ScanUpToColon(t[1..])
  }

  // ---------------------------------------------------------------------------------------
  // parseKeyValuePair
  // ---------------------------------------------------------------------------------------

  datatype KeyValue = KeyValue(key: Option<string>, value: Option<string>)

  /** `parseKeyValuePair`: after skipping leading whitespace, the key is the text up to the
      first ':' (nil when empty) and the value is the text after it, again without leading
      whitespace (nil when empty). Lines never contain newline characters (they come from
      `SplitLines`), so the newline stops of the value scan never apply. */
  function ParseKeyValuePair(line: string): (kv: KeyValue)
    ensures kv.key.Some? ==> |kv.key.value| > 0 && !IsSkipped(kv.key.value[0])
    ensures kv.key.Some? ==> forall j :: 0 <= j < |kv.key.value| ==> kv.key.value[j] != ':'
    ensures kv.value.Some? ==> |kv.value.value| > 0 && !IsSkipped(kv.value.value[0])
  {
    var t := SkipWhitespace(line);
    var key := ScanUpToColon(t);
    var rest := t[|key|..];
    var v := SkipWhitespace(if rest == [] then [] else rest[1..]);
    KeyValue(if key == [] then None else Some(key), if v == [] then None else Some(v))
  }

  /** A well-formed key and value written as "key:value" read back as that key and value. */
  lemma KeyValueRoundTrip(key: string, value: string)
    requires |key| > 0 && !IsSkipped(key[0]) && forall j :: 0 <= j < |key| ==> key[j] != ':'
    requires |value| > 0 && !IsSkipped(value[0])
    ensures ParseKeyValuePair(key + ":" + value) == KeyValue(Some(key), Some(value))
  {
    assert SkipWhitespace(value) == value;
    KeyThenRest(key, value, key + ":" + value);
  }

  /** The space after the colon, as servers usually write it, is not part of the value. */
  lemma SpaceAfterColonSkipped(key: string, value: string)
    requires |key| > 0 && !IsSkipped(key[0]) && forall j :: 0 <= j < |key| ==> key[j] != ':'
    requires |value| > 0 && !IsSkipped(value[0])
    ensures ParseKeyValuePair(key + ": " + value) == KeyValue(Some(key), Some(value))
  {
    var rest := " " + value;
    assert rest[1..] == value;
    assert SkipWhitespace(rest) == value;
    var line := key + ": " + value;
    assert line == key + ":" + rest by {
      assert ": " == ":" + " ";
    }
    KeyThenRest(key, rest, line);
  }

  /** The line "key:" + rest has key `key` and scans its value from `rest`. */
  lemma KeyThenRest(key: string, rest: string, line: string)
    requires |key| > 0 && !IsSkipped(key[0]) && forall j :: 0 <= j < |key| ==> key[j] != ':'
    requires line == key + ":" + rest
    ensures var v := SkipWhitespace(rest);
      ParseKeyValuePair(line) == KeyValue(Some(key), if v == [] then None else Some(v))
  {
    assert line == key + (":" + rest);
    assert line[0] == key[0];
    assert SkipWhitespace(line) == line;
    ScanUpToColonStops(key, ":" + rest);
    assert line[|key|..] == ":" + rest;
    assert (":" + rest)[1..] == rest;
  }

  /** A line without ':' is a key without value; so is a key followed by ':' alone. */
  lemma KeyWithoutValue(key: string)
    requires |key| > 0 && !IsSkipped(key[0]) && forall j :: 0 <= j < |key| ==> key[j] != ':'
    ensures ParseKeyValuePair(key) == KeyValue(Some(key), None)
    ensures ParseKeyValuePair(key + ":") == KeyValue(Some(key), None)
  {
    ScanUpToColonStops(key, []);
    assert key + [] == key;
    assert (key + ":")[0] == key[0];
    ScanUpToColonStops(key, ":");
    assert (key + ":")[|key|..] == ":";
  }

  /** A line starting with ':' (a comment line) has no key. */
  lemma CommentLineHasNoKey(comment: string)
    ensures ParseKeyValuePair(":" + comment).key.None?
  {
    var line := ":" + comment;
    assert line[0] == ':';
    assert SkipWhitespace(line) == line;
    assert ScanUpToColon(line) == [];
  }

  lemma {:induction false} ScanUpToColonStops(key: string, rest: string)
    requires forall j :: 0 <= j < |key| ==> key[j] != ':'
    requires rest == [] || rest[0] == ':'
    ensures ScanUpToColon(key + rest) == key
  {
    if key != [] {
      assert (key + rest)[1..] == key[1..] + rest;
      ScanUpToColonStops(key[1..], rest);
    } else {
      assert key + rest == rest;
    }
  }

  // ---------------------------------------------------------------------------------------
  // parseEvent: folding the lines of a block into a dictionary
  // ---------------------------------------------------------------------------------------

  type Fields = map<string, string>

  /** The effect of one line on the dictionary: a value is joined to an earlier one with "\n";
      a key without value sets "" and so discards what was accumulated. */
  function AddLine(fields: Fields, kv: KeyValue): Fields
  {
    match kv.key
    case None => fields
    case Some(k) =>
      match kv.value
      case Some(v) => if k in fields then fields[k := fields[k] + "\n" + v] else fields[k := v]
      case None => fields[k := ""]
  }

  /** The key-value pairs of the lines of a block, line by line. */
  function Pairs(lines: seq<string>): (kvs: seq<KeyValue>)
    ensures |kvs| == |lines|
    ensures forall i :: 0 <= i < |lines| ==> kvs[i] == ParseKeyValuePair(lines[i])
  {
    seq(|lines|, i requires 0 <= i < |lines| => ParseKeyValuePair(lines[i]))
  }

  /** The dictionary after the loop of `parseEvent` has seen the pairs `kvs`. */
  function FieldsOf(kvs: seq<KeyValue>): Fields
  {
    if kvs == [] then map[] else AddLine(FieldsOf(kvs[..|kvs| - 1]), kvs[|kvs| - 1])
  }

  lemma FieldsOfStep(kvs: seq<KeyValue>, i: nat)
    requires i < |kvs|
    ensures FieldsOf(kvs[..i + 1]) == AddLine(FieldsOf(kvs[..i]), kvs[i])
  {
    assert kvs[..i + 1][..i] == kvs[..i];
  }

  function Lookup(fields: Fields, key: string): Option<string>
  {
    if key in fields then Some(fields[key]) else None
  }

  /** What `parseEvent` returns for a block. */
  function EventFrom(block: string): Event<Data>
  {
    var fields := FieldsOf(Pairs(SplitLines(block)));
    DataReceived(Data(Lookup(fields, "id"), Lookup(fields, "event"), Lookup(fields, "data")))
  }

  /** `parseEvent`: loops over the lines, updating the dictionary in place, and always returns
      `dataReceived` of the `id`, `event` and `data` entries. */
  method ParseEvent(eventString: string) returns (e: Event<Data>)
    ensures e.DataReceived?
    ensures e == EventFrom(eventString)
  {
    var event: Fields := map[];
    var lines := SplitLines(eventString);
    ghost var kvs := Pairs(lines);
    for i := 0 to |lines|
      invariant event == FieldsOf(kvs[..i])
    {
      ghost var before := event;
      var kv := ParseKeyValuePair(lines[i]);
      if kv.key.Some? && kv.value.Some? {
        var key, value := kv.key.value, kv.value.value;
        if key in event {
          event := event[key := event[key] + "\n" + value];
        } else {
          event := event[key := value];
        }
      } else if kv.key.Some? && kv.value.None? {
        event := event[kv.key.value := ""];
      }
      assert event == AddLine(before, kv);
      FieldsOfStep(kvs, i);
    }
    assert kvs[..|lines|] == kvs;
    e := DataReceived(Data(Lookup(event, "id"), Lookup(event, "event"), Lookup(event, "data")));
  }

  // An independent description of one dictionary entry.

  /** The values of the pairs whose key is `key`, in order; None for a pair without value. */
  function Entries(kvs: seq<KeyValue>, key: string): seq<Option<string>>
  {
    if kvs == [] then []
    else
      var kv := kvs[|kvs| - 1];
      Entries(kvs[..|kvs| - 1], key) + (if kv.key == Some(key) then [kv.value] else [])
  }

  /** Index of the last entry without value. */
  function LastReset(entries: seq<Option<string>>): (r: Option<nat>)
    ensures r.None? ==> forall i :: 0 <= i < |entries| ==> entries[i].Some?
    ensures r.Some? ==> r.value < |entries| && entries[r.value].None?
    ensures r.Some? ==> forall i :: r.value < i < |entries| ==> entries[i].Some?
  {
    if entries == [] then None
    else if entries[|entries| - 1].None? then Some(|entries| - 1)
    else LastReset(entries[..|entries| - 1])
  }

  /** The values that are present, in order. */
  function Present(entries: seq<Option<string>>): (vs: seq<string>)
    ensures (forall i :: 0 <= i < |entries| ==> entries[i].Some?) ==> |vs| == |entries|
  {
    if entries == [] then []
    else
      var last := entries[|entries| - 1];
      Present(entries[..|entries| - 1]) + (if last.Some? then [last.value] else [])
  }

  /** The text accumulated after a reset to "": every later value preceded by "\n". */
  function AfterReset(vs: seq<string>): string
  {
    if vs == [] then "" else AfterReset(vs[..|vs| - 1]) + "\n" + vs[|vs| - 1]
  }

  /** The entry a key ends up with: all its values joined with "\n" when none of its lines lacks
      a value; otherwise "" followed by "\n" + value for each value after the last such line. */
  function Expected(entries: seq<Option<string>>): string
    requires |entries| > 0
  {
    match LastReset(entries)
    case None => JoinLines(Present(entries))
    case Some(j) => AfterReset(Present(entries[j + 1..]))
  }

  /** The entry of `key` described line by line: `Expected` of its entries, nil when no line
      has it. */
  function FieldFor(kvs: seq<KeyValue>, key: string): Option<string>
  {
    var entries := Entries(kvs, key);
    if |entries| > 0 then Some(Expected(entries)) else None
  }

  /** The loop of `parseEvent` leaves in the dictionary, for every key, exactly what `FieldFor`
      describes: the key is present iff some line has it, and then its entry is `Expected`. */
  lemma {:induction false} FieldValue(kvs: seq<KeyValue>, key: string)
    ensures Lookup(FieldsOf(kvs), key) == FieldFor(kvs, key)
  {
    if kvs != [] {
      var init := kvs[..|kvs| - 1];
      var kv := kvs[|kvs| - 1];
      FieldValue(init, key);
      assert FieldsOf(kvs) == AddLine(FieldsOf(init), kv);
      AddLineEffect(FieldsOf(init), kv, key);
      assert kvs == init + [kv];
      FieldForStep(init, kv, key);
    }
  }

  /** What one more line does to `FieldFor`: the same as `AddLine` does to the dictionary. */
  lemma FieldForStep(init: seq<KeyValue>, kv: KeyValue, key: string)
    ensures kv.key != Some(key) ==> FieldFor(init + [kv], key) == FieldFor(init, key)
    ensures kv.key == Some(key) && kv.value.None? ==> FieldFor(init + [kv], key) == Some("")
    ensures kv.key == Some(key) && kv.value.Some? ==>
      FieldFor(init + [kv], key)
        == Some(if FieldFor(init, key).Some? then FieldFor(init, key).value + "\n" + kv.value.value
                else kv.value.value)
  {
    var kvs := init + [kv];
    assert kvs[..|kvs| - 1] == init;
    var e0 := Entries(init, key);
    if kv.key == Some(key) {
      assert Entries(kvs, key) == e0 + [kv.value];
      if kv.value.None? {
        ExpectedAfterReset(e0);
      } else if |e0| > 0 {
        ExpectedAfterValue(e0, kv.value.value);
      } else {
        assert e0 + [kv.value] == [kv.value];
      }
    } else {
      assert Entries(kvs, key) == e0;
    }
  }

  /** What one line does to the entry of `key`. */
  lemma AddLineEffect(fields: Fields, kv: KeyValue, key: string)
    ensures kv.key != Some(key) ==> Lookup(AddLine(fields, kv), key) == Lookup(fields, key)
    ensures kv.key == Some(key) && kv.value.None? ==> Lookup(AddLine(fields, kv), key) == Some("")
    ensures kv.key == Some(key) && kv.value.Some? ==>
      Lookup(AddLine(fields, kv), key)
        == Some(if key in fields then fields[key] + "\n" + kv.value.value else kv.value.value)
  {
  }

  /** A line without value resets the entry to "". */
  lemma ExpectedAfterReset(e0: seq<Option<string>>)
    ensures Expected(e0 + [None]) == ""
  {
    var e := e0 + [None];
    assert e[|e0| + 1..] == [];
  }

  /** A further value is appended after "\n". */
  lemma ExpectedAfterValue(e0: seq<Option<string>>, v: string)
    requires |e0| > 0
    ensures Expected(e0 + [Some(v)]) == Expected(e0) + "\n" + v
  {
    var e := e0 + [Some(v)];
    assert e[..|e| - 1] == e0;
    assert LastReset(e) == LastReset(e0);
    match LastReset(e0)
    case None =>
      PresentSnoc(e0, v);
      JoinLinesSnoc(Present(e0), v);
    case Some(j) =>
      var tail := e0[j + 1..];
      assert e[j + 1..] == tail + [Some(v)];
      PresentSnoc(tail, v);
  }

  /** A present value extends `Present` by that value. */
  lemma PresentSnoc(entries: seq<Option<string>>, v: string)
    ensures Present(entries + [Some(v)]) == Present(entries) + [v]
  {
    var e := entries + [Some(v)];
    assert e[..|e| - 1] == entries;
  }

  /** Joining one more line appends "\n" and that line. */
  lemma JoinLinesSnoc(vs: seq<string>, v: string)
    requires |vs| > 0
    ensures JoinLines(vs + [v]) == JoinLines(vs) + "\n" + v
  {
    var all := vs + [v];
    assert all[..|all| - 1] == vs;
  }

  /** `parseEvent` keeps `id`, `event` and `data` as described by `Expected` and discards the
      other keys; an absent key gives nil. */
  lemma ParseEventFields(block: string)
    ensures var kvs := Pairs(SplitLines(block));
      EventFrom(block) == DataReceived(Data(FieldFor(kvs, "id"), FieldFor(kvs, "event"), FieldFor(kvs, "data")))
  {
    var kvs := Pairs(SplitLines(block));
    FieldValue(kvs, "id");
    FieldValue(kvs, "event");
    FieldValue(kvs, "data");
  }

  /** Repeated values of one key are joined with "\n" in the order of the lines. */
  lemma RepeatedKeyJoined(kvs: seq<KeyValue>, key: string)
    requires |Entries(kvs, key)| > 0
    requires forall i :: 0 <= i < |Entries(kvs, key)| ==> Entries(kvs, key)[i].Some?
    ensures key in FieldsOf(kvs) && FieldsOf(kvs)[key] == JoinLines(Present(Entries(kvs, key)))
  {
    FieldValue(kvs, key);
  }

  /** A key whose last line has no value ends up as "". */
  lemma ValuelessKeyResets(kvs: seq<KeyValue>, key: string)
    requires |Entries(kvs, key)| > 0
    requires Entries(kvs, key)[|Entries(kvs, key)| - 1].None?
    ensures key in FieldsOf(kvs) && FieldsOf(kvs)[key] == ""
  {
    FieldValue(kvs, key);
    var e := Entries(kvs, key);
    assert e[|e| - 1 + 1..] == [];
  }

  // ---------------------------------------------------------------------------------------
  // parseRetryTime and parseEventStream
  // ---------------------------------------------------------------------------------------

  /** `parseRetryTime`: the retry directive is recognised but its value is not applied. */
  function ParseRetryTime(eventString: string): Event<Data>
  {
    Dummy
  }

  /** Swift's `String.contains(_:)` for a substring. */
  predicate Contains(s: string, sub: string)
  {
    exists i :: 0 <= i <= |s| - |sub| && SubstringAt(s, sub, i)
  }

  predicate SubstringAt(s: string, sub: string, i: int)
  {
    0 <= i <= |s| - |sub| && s[i..i + |sub|] == sub
  }

  /** Blocks that `parseEventStream` skips: empty ones and those starting with ':'. */
  predicate Skipped(block: string)
  {
    block == [] || block[0] == ':'
  }

  /** The event a kept block yields. */
  function EventOfBlock(block: string): Event<Data>
  {
    if Contains(block, "retry:") then ParseRetryTime(block) else EventFrom(block)
  }

  /** What `parseEventStream` returns for a list of blocks. */
  function ParsedEvents(blocks: seq<string>): (events: seq<Event<Data>>)
    ensures |events| <= |blocks|
  {
    if blocks == [] then []
    else
      var last := blocks[|blocks| - 1];
      ParsedEvents(blocks[..|blocks| - 1]) + (if Skipped(last) then [] else [EventOfBlock(last)])
  }

  /** `parseEventStream` over decoded blocks. */
  method ParseEventStream(events: seq<string>) returns (parsedEvents: seq<Event<Data>>)
    ensures parsedEvents == ParsedEvents(events)
  {
    parsedEvents := [];
    for i := 0 to |events|
      invariant parsedEvents == ParsedEvents(events[..i])
    {
      var event := events[i];
      assert events[..i + 1][..i] == events[..i];
      if Skipped(event) {
        continue;
      }
      if Contains(event, "retry:") {
        parsedEvents := parsedEvents + [ParseRetryTime(event)];
      } else {
        var e := ParseEvent(event);
        parsedEvents := parsedEvents + [e];
      }
    }
    assert events[..|events|] == events;
  }

  /** What `parseEventStream` returns for a received chunk of bytes. */
  function ParsedData(data: seq<Byte>, decode: Utf8Decoder): seq<Event<Data>>
  {
    ParsedEvents(EventBlocks(data, decode))
  }

  /** `parseEventStream(_ data:)`: extract the blocks, then parse them. */
  method ParseEventStreamData(data: seq<Byte>, decode: Utf8Decoder) returns (parsedEvents: seq<Event<Data>>)
    ensures parsedEvents == ParsedData(data, decode)
  {
    var blocks := ExtractEvents(data, decode);
    parsedEvents := ParseEventStream(blocks);
  }

  /** Number of blocks that are not skipped. */
  function KeptCount(blocks: seq<string>): nat
  {
    if blocks == [] then 0
    else KeptCount(blocks[..|blocks| - 1]) + (if Skipped(blocks[|blocks| - 1]) then 0 else 1)
  }

  /** Parsing distributes over concatenation of block lists. */
  lemma {:induction false} ParsedEventsAppend(a: seq<string>, b: seq<string>)
    ensures ParsedEvents(a + b) == ParsedEvents(a) + ParsedEvents(b)
  {
    if b == [] {
      assert a + b == a;
    } else {
      assert (a + b)[..|a + b| - 1] == a + b[..|b| - 1];
      ParsedEventsAppend(a, b[..|b| - 1]);
    }
  }

  /** Exactly one event per block that is not skipped. */
  lemma {:induction false} ParsedEventsLength(blocks: seq<string>)
    ensures |ParsedEvents(blocks)| == KeptCount(blocks)
  {
    if blocks != [] {
      ParsedEventsLength(blocks[..|blocks| - 1]);
    }
  }

  /** The events come in block order: the event of the i-th block, when it is kept, follows the
      events of the kept blocks before it. */
  lemma EventsInBlockOrder(blocks: seq<string>, i: nat)
    requires i < |blocks| && !Skipped(blocks[i])
    ensures KeptCount(blocks[..i]) < |ParsedEvents(blocks)|
    ensures ParsedEvents(blocks)[KeptCount(blocks[..i])] == EventOfBlock(blocks[i])
  {
    assert blocks == blocks[..i] + [blocks[i]] + blocks[i + 1..];
    ParsedEventsAppend(blocks[..i] + [blocks[i]], blocks[i + 1..]);
    ParsedEventsAppend(blocks[..i], [blocks[i]]);
    assert ParsedEvents([blocks[i]]) == [EventOfBlock(blocks[i])] by {
      assert [blocks[i]][..0] == [];
    }
    ParsedEventsLength(blocks[..i]);
  }

  /** A skipped block can be removed from anywhere without changing the result. */
  lemma SkippedBlockVanishes(before: seq<string>, block: string, after: seq<string>)
    requires Skipped(block)
    ensures ParsedEvents(before + [block] + after) == ParsedEvents(before + after)
  {
    ParsedEventsAppend(before + [block], after);
    ParsedEventsAppend(before, [block]);
    ParsedEventsAppend(before, after);
    var one := [block];
    assert one[..|one| - 1] == [];
    assert ParsedEvents(one) == [];
    assert ParsedEvents(before + [block]) == ParsedEvents(before);
  }

  /** A block containing "retry:" anywhere yields `.dummy`; every other block yields
      `dataReceived`; no block yields `connectionOpened`. */
  lemma EventOfBlockKinds(block: string)
    ensures EventOfBlock(block).Dummy? <==> Contains(block, "retry:")
    ensures EventOfBlock(block).DataReceived? <==> !Contains(block, "retry:")
  {
    if !Contains(block, "retry:") {
      ParseEventFields(block);
    }
  }

  /** Every event comes from its own kept block: the k-th event is the event of the kept block
      with exactly k kept blocks before it; so no event is `connectionOpened`. */
  lemma {:induction false} EventKinds(blocks: seq<string>, k: nat)
    requires k < |ParsedEvents(blocks)|
    ensures !ParsedEvents(blocks)[k].ConnectionOpened?
    ensures exists i :: 0 <= i < |blocks| && !Skipped(blocks[i]) && KeptCount(blocks[..i]) == k
              && ParsedEvents(blocks)[k] == EventOfBlock(blocks[i])
  {
    var init := blocks[..|blocks| - 1];
    var last := blocks[|blocks| - 1];
    if k < |ParsedEvents(init)| {
      EventKinds(init, k);
      var i :| 0 <= i < |init| && !Skipped(init[i]) && KeptCount(init[..i]) == k
               && ParsedEvents(init)[k] == EventOfBlock(init[i]);
      assert blocks[i] == init[i];
      assert blocks[..i] == init[..i];
    } else {
      ParsedEventsLength(init);
      assert ParsedEvents(blocks)[k] == EventOfBlock(last);
      assert !Skipped(blocks[|blocks| - 1]);
      assert blocks[..|blocks| - 1] == init;
      EventOfBlockKinds(last);
    }
  }
}
