# HMEventSourceManager — a Dafny model of the Server-Sent Events client core

HMEventSourceManager is a Swift client for Server-Sent Events (SSE). It opens a streaming
HTTP connection and classifies what URLSession delivers. It cuts the received bytes into event
blocks at doubled newlines and parses each block into an `HMSSEData(id, event, data)`. It keeps
the last received event id per URL in UserDefaults, so that a reconnection can send it back
in a `Last-Event-Id` header.

This project models that core in Dafny and proves properties of the model:

| file | module | what it models |
|---|---|---|
| `wrappers.dfy` | `Wrappers` | `Option`, and `Result` for the Swift functions that throw |
| `sse_data.dfy` | `SSEData` | `HMSSEData`: its fields, field-wise `==` and the summed `hashValue` |
| `sse_event.dfy` | `SSEvent` | `HMSSEvent` (`connectionOpened`, `dataReceived`, `dummy`) with `value`, `map`, `flatMap`, `cast`, `mapValue`, `flatMapValue` |
| `sse_events.dfy` | `SSEvents` | `values` and `hasData` over a sequence of events |
| `url.dfy` | `Urls` | the parts of a `URL` the client reads; decimal rendering of the port |
| `sse_request.dfy` | `SSERequest` | `HMSSERequest`, its getters and its in-place `Builder`, and `HMSSEStrategy` |
| `event_source_manager.dfy` | `EventSourceManager` | the `HMEventSourceManager` configuration, its fatal accessors and its in-place `Builder` |
| `stream_splitter.dfy` | `StreamSplitter` | `extractEvents` and `searchForEventInRange`: bytes to event blocks |
| `event_parser.dfy` | `EventParser` | `parseKeyValuePair`, `parseEvent`, `parseRetryTime` and both `parseEventStream` overloads |
| `event_parser_examples.dfy` | `EventParserExamples` | whole blocks of event-stream text and the events they become |
| `last_event_id.dfy` | `LastEventIds` | the storage key, reading and storing the last event id, and `addDefaultParams` |
| `legacy_request.dfy` | `LegacyRequest` | `requestWithDefaultParams` of the older manager |
| `sse_delegate.dfy` | `SSEDelegate` | the three URLSession callbacks and the observer items they emit |
| `pipeline.dfy` | `Pipeline` | the strategy switch of `openConnection`, and the per-event batch step of `inifiniteRetrySSE` |

The parts that change state step by step are imperative Dafny:

- `extractEvents`, `searchForEventInRange`, `parseEventStream` and `parseEvent` are methods with
  loops. Each is proved equal to a specification function, and the lemmas are about those
  functions.
- The two `Builder` classes, the delegate (its observer is a sequence of emitted items) and the
  store-backed manager are classes. Their methods state their whole new state.

The platform's UTF-8 decoding (`NSString(data:encoding:)`) and `URL(string:)` are function-typed
parameters (`Utf8Decoder`, `UrlParser`). Likewise the hash of a string (`hash`) is a parameter.
UserDefaults is a `map<string, string>`.

The parser loosely follows "Interpreting an event stream", section 9.2.6 of the WHATWG HTML
Living Standard. The model follows the code where the two differ:

- **Delimiter priority.** The search tries `\r\n\r\n`, then `\n\n`, then `\r\r`. It returns the
  first of these that occurs anywhere in the range, not the delimiter at the earliest position.
  `StreamSplitter.PriorityBeatsPosition` shows a later `\r\n\r\n` winning over an earlier `\n\n`.
- **Retry anywhere.** A block that contains `retry:` anywhere becomes `.dummy`, and no retry value
  is applied.
- **Comments only at the start.** A block that starts with `:` is skipped as a comment. A `:` line
  inside a block only has no key, so it is ignored.
- **Value-less key overwrites.** A line with a key and no value, or with no `:` at all, sets that
  key to `""`, discarding what earlier lines of the same key accumulated.
- **Repeated keys joined.** Repeated values of one key are joined with `"\n"`. This applies to
  every key, not only `data`.

`HMEventSourceManagerType.swift` holds an older copy of the parser. It is the same logic
line for line; its `parseRetryTime` also computes and prints a value it then discards. The same
members model both copies; the table cites the newer one. In `HMEventSourceManagerType.swift` the
older copy sits at lines 88-113 (`extractEvents`), 121-138 (`searchForEventInRange`), 144-169
(both `parseEventStream` overloads), 176-200 (`parseEvent`), 202-216 (`parseKeyValuePair`) and
218-227 (`parseRetryTime`).

## Model

| member | source | states |
|---|---|---|
| `SSEData.Equal` | HMEventSourceManager/HMSSEData.swift:41-45 | field-wise `==`; what it means is stated by `EqualIsValueEquality` and `EqualIsEquivalence` |
| `SSEData.EqualIsValueEquality` | HMEventSourceManager/HMSSEData.swift:41-45 | `==` holds exactly when `id`, `event` and `data` are all equal |
| `SSEData.EqualIsEquivalence` | HMEventSourceManager/HMSSEData.swift:41-45 | `==` is reflexive, symmetric and transitive |
| `SSEData.HashValue` | HMEventSourceManager/HMSSEData.swift:32-37 | the hash is the sum of the field hashes with nil as 0: the all-nil value hashes to 0, and a value with only an id hashes to the id's hash |
| `SSEData.EqualValuesHashEqually` | HMEventSourceManager/HMSSEData.swift:32-45 | values that are `==` have equal hashes |
| `SSEData.HashIgnoresFieldOrder` | HMEventSourceManager/HMSSEData.swift:32-37 | the hash is a sum, so permuting the three field values does not change it |
| `SSEvent.Event.Value` | HMEventSourceManager/HMSSEvent.swift:22-30 | `value` is non-nil exactly for `.dataReceived`, and is then its payload |
| `SSEvent.Map` | HMEventSourceManager/HMSSEvent.swift:36-47 | `.connectionOpened` and `.dummy` pass through; `.dataReceived(t)` becomes `.dataReceived(f(t))` when `f` succeeds and `.dummy` when it throws |
| `SSEvent.FlatMap` | HMEventSourceManager/HMSSEvent.swift:53-64 | `.connectionOpened` and `.dummy` pass through; `.dataReceived(t)` becomes `f(t)` when `f` succeeds and `.dummy` when it throws |
| `SSEvent.Cast` | HMEventSourceManager/HMSSEvent.swift:70-78 | a payload of the target type gives `.dataReceived` of the cast value, one that is not gives `.dummy`; a payload-less event keeps its case |
| `SSEvent.MapIdentity` | HMEventSourceManager/HMSSEvent.swift:36-47 | mapping with the identity returns the same event |
| `SSEvent.MapComposes` | HMEventSourceManager/HMSSEvent.swift:36-47 | mapping with `f` then with `g` equals mapping once with `f` followed by `g` |
| `SSEvent.MapIsFlatMap` | HMEventSourceManager/HMSSEvent.swift:87-111 | `map(f)` is `flatMap` of `f` followed by `.dataReceived` (`mapValue` in terms of `flatMapValue`) |
| `SSEvent.MapValueIffSucceeded` | HMEventSourceManager/HMSSEvent.swift:87-95 | the mapped event has a value exactly when the input was `.dataReceived` and `f` succeeded |
| `SSEvents.Values` | HMEventSourceManager/HMSSEvents.swift:16-20 | `values` is never longer than its input |
| `SSEvents.ValuesLength` | HMEventSourceManager/HMSSEvents.swift:16-20 | `values` has one element per `.dataReceived` event |
| `SSEvents.ValuesAppend` | HMEventSourceManager/HMSSEvents.swift:16-20 | `values` of a concatenation is the concatenation of the `values` |
| `SSEvents.ValuesInOrder` | HMEventSourceManager/HMSSEvents.swift:16-20 | the payload of the i-th event, if it is `.dataReceived`, sits in `values` after those of the earlier `.dataReceived` events |
| `SSEvents.ValuesComeFromEvents` | HMEventSourceManager/HMSSEvents.swift:16-20 | every element of `values` is the payload of some `.dataReceived` event |
| `SSEvents.HasData` | HMEventSourceManager/HMSSEvents.swift:26-30 | some event has a value; stated against `values` by `HasDataIffValues` |
| `SSEvents.HasDataIffValues` | HMEventSourceManager/HMSSEvents.swift:16-30 | `hasData` holds exactly when `values` is non-empty |
| `Urls.DecimalString` | HMEventSourceManager/HMSSEManagerType.swift:53-59 | the interpolated port is a non-empty string of digits with no leading zero |
| `Urls.DecimalRoundTrip` | HMEventSourceManager/HMSSEManagerType.swift:53-59 | reading the interpolated port back gives the port |
| `SSERequest.UpdateValues` | HMEventSourceManager/HMSSERequest.swift:97-103 | every given key overwrites or adds, and every other key keeps its value |
| `SSERequest.Initial` | HMEventSourceManager/HMSSERequest.swift:18-22 | a fresh request has retry delay 0, no URL string, no headers and strategy `.retryOnError` |
| `SSERequest.Request.UrlString` | HMEventSourceManager/HMSSERequest.swift:30-36 | `urlString()` throws exactly when no URL string is stored, and otherwise returns it |
| `SSERequest.Request.GetUrl` | HMEventSourceManager/HMSSERequest.swift:154-162 | `url()` throws whenever `urlString()` throws; it succeeds exactly when the string is set and parses, and returns the parsed URL |
| `SSERequest.Request.WithRetryDelay` | HMEventSourceManager/HMSSERequest.swift:64-70 | nil changes nothing; a value replaces only the retry delay |
| `SSERequest.Request.WithUrlString` | HMEventSourceManager/HMSSERequest.swift:77-80 | the argument is stored even when nil; nothing else changes |
| `SSERequest.Request.AddHeaders` | HMEventSourceManager/HMSSERequest.swift:97-103 | nil changes nothing; otherwise the given headers overwrite or add and the others stay |
| `SSERequest.Request.AddHeader` | HMEventSourceManager/HMSSERequest.swift:112-118 | nil changes nothing; a value sets or overwrites only that key |
| `SSERequest.Request.WithHeaders` | HMEventSourceManager/HMSSERequest.swift:87-90 | afterwards the headers are exactly the given ones, or empty for nil |
| `SSERequest.Request.WithStrategy` | HMEventSourceManager/HMSSERequest.swift:125-128 | only the strategy changes |
| `SSERequest.Request.WithBuildable` | HMEventSourceManager/HMSSERequest.swift:136-146 | copying from a request reproduces all four of its fields; nil changes nothing |
| `SSERequest.CloneBuilder` | HMEventSourceManager/HMSSEManagerType.swift:113 | `cloneBuilder()` starts from a copy equal to the request |
| `SSERequest.AddHeaderIdempotent` | HMEventSourceManager/HMSSERequest.swift:112-118 | adding the same header twice equals adding it once |
| `SSERequest.WithHeadersForgetsEarlier` | HMEventSourceManager/HMSSERequest.swift:87-90 | a header added before `with(headers:)` is gone afterwards unless the new headers hold it |
| `SSERequest.Builder.constructor` | HMEventSourceManager/HMSSERequest.swift:18-22 | the builder starts from the fresh request |
| `SSERequest.Builder.WithRetryDelay` | HMEventSourceManager/HMSSERequest.swift:64-70 | the request becomes `WithRetryDelay` of the old one |
| `SSERequest.Builder.WithUrlString` | HMEventSourceManager/HMSSERequest.swift:77-80 | the request becomes `WithUrlString` of the old one |
| `SSERequest.Builder.WithHeaders` | HMEventSourceManager/HMSSERequest.swift:87-90 | clearing then adding in place gives `WithHeaders` of the old request |
| `SSERequest.Builder.AddHeaders` | HMEventSourceManager/HMSSERequest.swift:97-103 | the request becomes `AddHeaders` of the old one |
| `SSERequest.Builder.AddHeader` | HMEventSourceManager/HMSSERequest.swift:112-118 | the request becomes `AddHeader` of the old one |
| `SSERequest.Builder.WithStrategy` | HMEventSourceManager/HMSSERequest.swift:125-128 | the request becomes `WithStrategy` of the old one |
| `SSERequest.Builder.WithBuildable` | HMEventSourceManager/HMSSERequest.swift:136-146 | after the four in-place setters the request equals the given one; nil changes nothing |
| `SSERequest.Builder.Build` | HMEventSourceManager/HMSSERequest.swift:148-150 | `build()` returns the request built so far |
| `EventSourceManager.Manager.NetworkChecker` | HMEventSourceManager/HMEventSourceManager.swift:29-35 | callable only when a checker is set (otherwise `fatalError`), and returns it |
| `EventSourceManager.Manager.UserDefaults` | HMEventSourceManager/HMEventSourceManager.swift:37-43 | callable only when user defaults are set, and returns them |
| `EventSourceManager.Manager.TargetUrl` | HMEventSourceManager/HMEventSourceManager.swift:45-51 | callable only when a URL is set, and returns it |
| `EventSourceManager.Manager.AdditionalHeaders` | HMEventSourceManager/HMEventSourceManager.swift:53-55 | returns the stored headers unchanged |
| `EventSourceManager.Builder.constructor` | HMEventSourceManager/HMEventSourceManager.swift:24-27 | a fresh manager has no headers and no checker, defaults or URL |
| `EventSourceManager.Builder.WithNetworkChecker` | HMEventSourceManager/HMEventSourceManager.swift:77-80 | stores its argument, nil included; nothing else changes |
| `EventSourceManager.Builder.WithUserDefaults` | HMEventSourceManager/HMEventSourceManager.swift:87-90 | stores its argument; nothing else changes |
| `EventSourceManager.Builder.WithUrl` | HMEventSourceManager/HMEventSourceManager.swift:97-100 | stores its argument, nil included; nothing else changes |
| `EventSourceManager.Builder.WithUrlString` | HMEventSourceManager/HMEventSourceManager.swift:107-113 | nil leaves the URL unchanged; a string replaces it with its parse, which is nil for an invalid URL |
| `EventSourceManager.Builder.AddHeaders` | HMEventSourceManager/HMEventSourceManager.swift:120-126 | nil changes nothing; otherwise the given headers overwrite or add |
| `EventSourceManager.Builder.AddHeader` | HMEventSourceManager/HMEventSourceManager.swift:135-141 | nil changes nothing; a value overwrites just that key |
| `EventSourceManager.Builder.WithHeaders` | HMEventSourceManager/HMEventSourceManager.swift:148-151 | clears the headers before adding, so afterwards they are exactly the given ones |
| `EventSourceManager.Builder.WithBuildable` | HMEventSourceManager/HMEventSourceManager.swift:159-169 | copying from a complete manager reproduces all four fields; nil changes nothing |
| `EventSourceManager.Builder.Build` | HMEventSourceManager/HMEventSourceManager.swift:171-173 | `build()` returns the manager built so far |
| `StreamSplitter.DelimitersAreDoubledNewlines` | HMEventSourceManager/HMSSEManager.swift:29 | the delimiters are the newline strings `\r\n`, `\n`, `\r` each written twice, in that order |
| `StreamSplitter.RangeOf` | HMEventSourceManager/HMSSEManagerType.swift:186-188 | a found range has the pattern's length and lies inside the search range |
| `StreamSplitter.RangeOfIsLeftmost` | HMEventSourceManager/HMSSEManagerType.swift:186-188 | the found range is the leftmost occurrence, and nil means the pattern does not occur in the range |
| `StreamSplitter.FirstDelimiterIn` | HMEventSourceManager/HMSSEManagerType.swift:185-192 | a found range lies inside the search range |
| `StreamSplitter.FirstDelimiterByPriority` | HMEventSourceManager/HMSSEManagerType.swift:185-192 | the result is the leftmost occurrence of the first delimiter in list order that occurs at all, and no earlier delimiter of the list occurs |
| `StreamSplitter.SearchForEvent` | HMEventSourceManager/HMSSEManagerType.swift:175-193 | the returned range lies inside the search range |
| `StreamSplitter.FoundIsDelimiter` | HMEventSourceManager/HMSSEManagerType.swift:175-193 | the returned range is an occurrence of one of the delimiters |
| `StreamSplitter.NotFoundIffNoDelimiter` | HMEventSourceManager/HMSSEManagerType.swift:175-193 | nil exactly when no delimiter occurs anywhere in the range |
| `StreamSplitter.SearchForEventInRange` | HMEventSourceManager/HMSSEManagerType.swift:175-193 | the loop over the delimiters returns what `SearchForEvent` specifies |
| `StreamSplitter.PriorityBeatsPosition` | HMEventSourceManager/HMSSEManagerType.swift:175-193 | on `\n\n\r\n\r\n` the later `\r\n\r\n` is returned, not the earlier `\n\n` |
| `StreamSplitter.ChunkSpans` | HMEventSourceManager/HMSSEManagerType.swift:148-164 | every chunk cut out is non-empty and lies inside the data past the start |
| `StreamSplitter.ChunksEndAtDelimiters` | HMEventSourceManager/HMSSEManagerType.swift:148-164 | every chunk ends where a delimiter starts |
| `StreamSplitter.ChunksInOrder` | HMEventSourceManager/HMSSEManagerType.swift:148-164 | the chunks come in input order and do not overlap |
| `StreamSplitter.ChunkSpansWellFormed` | HMEventSourceManager/HMSSEManagerType.swift:148-164 | chunks end at delimiters and come in order |
| `StreamSplitter.DecodeChunk` | HMEventSourceManager/HMSSEManagerType.swift:155-157 | a chunk adds its decoded string when it decodes, and nothing when it does not |
| `StreamSplitter.DecodeChunks` | HMEventSourceManager/HMSSEManagerType.swift:148-164 | there are never more blocks than chunks |
| `StreamSplitter.ExtractEvents` | HMEventSourceManager/HMSSEManagerType.swift:141-167 | the loop, whose search start moves strictly past each delimiter, returns `EventBlocks` |
| `StreamSplitter.ExtractStep` | HMEventSourceManager/HMSSEManagerType.swift:148-164 | one loop step appends the decoded chunk before the delimiter found and keeps the blocks still to come |
| `StreamSplitter.TrailingBytesDropped` | HMEventSourceManager/HMSSEManagerType.swift:141-167 | no chunk reaches the bytes after the last delimiter |
| `StreamSplitter.NoDelimiterNoBlocks` | HMEventSourceManager/HMSSEManagerType.swift:141-167 | data without a delimiter yields no blocks |
| `StreamSplitter.BlocksComeFromChunks` | HMEventSourceManager/HMSSEManagerType.swift:155-157 | every block is the decoding of one of the chunks |
| `StreamSplitter.DecodeChunksLength` | HMEventSourceManager/HMSSEManagerType.swift:155-157 | there is exactly one block per chunk that decodes |
| `StreamSplitter.ChunksDecodedInOrder` | HMEventSourceManager/HMSSEManagerType.swift:148-164 | the string of every chunk that decodes appears among the blocks, after those of the decodable chunks before it |
| `StreamSplitter.FoundDelimiters` | HMEventSourceManager/HMSSEManagerType.swift:148-164 | the delimiters the loop finds, one per iteration, each inside the data past the start |
| `StreamSplitter.FoundShift` | HMEventSourceManager/HMSSEManagerType.swift:162-163 | moving the search start past the first delimiter found shifts the later delimiters and gaps by one |
| `StreamSplitter.FoundIsDelimiterAfterGap` | HMEventSourceManager/HMSSEManagerType.swift:148-164 | each delimiter found is a delimiter, and the gap before it ends no earlier than it starts |
| `StreamSplitter.CutEndShift` | HMEventSourceManager/HMSSEManagerType.swift:148-164 | past the first delimiter, the loop stops cutting where it stops from there |
| `StreamSplitter.CoveredUpToCutEnd` | HMEventSourceManager/HMSSEManagerType.swift:148-164 | every byte up to the end of the last delimiter found lies in a gap or a delimiter found |
| `StreamSplitter.FoundDelimitersTile` | HMEventSourceManager/HMSSEManagerType.swift:141-167 | the delimiters found and the gaps before them tile the data up to the end of the last delimiter |
| `StreamSplitter.ChunkIsGap` | HMEventSourceManager/HMSSEManagerType.swift:148-157 | every chunk is the gap before some delimiter found |
| `StreamSplitter.GapIsChunk` | HMEventSourceManager/HMSSEManagerType.swift:148-157 | every non-empty gap before a delimiter found is a chunk |
| `StreamSplitter.ChunksAreGaps` | HMEventSourceManager/HMSSEManagerType.swift:141-167 | the chunks are exactly the non-empty gaps between the delimiters found |
| `StreamSplitter.LineFeedsInsideBlockKept` | HMEventSourceManager/HMSSEManagerType.swift:141-193 | the bytes of `a\n\nb\r\n\r\nc` give the single block `a\n\nb`: the `\n\n` stays inside the block and the trailing `c` is dropped |
| `EventParser.SplitLines` | HMEventSourceManager/HMSSEManagerType.swift:238 | splitting at newline characters gives at least one line, and no line holds a newline character |
| `EventParser.SplitLinesCount` | HMEventSourceManager/HMSSEManagerType.swift:238 | there is one line more than there are newline characters |
| `EventParser.SplitLinesSnoc` | HMEventSourceManager/HMSSEManagerType.swift:238 | text, a newline and a newline-free line split into the text's lines plus that line |
| `EventParser.SplitLinesSingle` | HMEventSourceManager/HMSSEManagerType.swift:238 | a newline-free line splits into itself |
| `EventParser.SplitJoinedLines` | HMEventSourceManager/HMSSEManagerType.swift:238 | splitting newline-free lines joined with `"\n"` gives the lines back |
| `EventParser.SkipWhitespace` | HMEventSourceManager/HMSSEManagerType.swift:264 | the scanner's skipping leaves text that does not start with whitespace |
| `EventParser.ScanUpToColon` | HMEventSourceManager/HMSSEManagerType.swift:264 | the key is the longest prefix without `:`, followed by `:` or the end of the line |
| `EventParser.ScanUpToColonStops` | HMEventSourceManager/HMSSEManagerType.swift:264 | scanning a `:`-free key followed by `:` or nothing returns the key |
| `EventParser.ParseKeyValuePair` | HMEventSourceManager/HMSSEManagerType.swift:261-276 | a key is non-empty, holds no `:` and does not start with whitespace; a value is non-empty and does not start with whitespace |
| `EventParser.KeyValueRoundTrip` | HMEventSourceManager/HMSSEManagerType.swift:261-276 | `key:value` parses back into that key and value |
| `EventParser.SpaceAfterColonSkipped` | HMEventSourceManager/HMSSEManagerType.swift:261-276 | `key: value` parses into that key and value, without the space |
| `EventParser.KeyThenRest` | HMEventSourceManager/HMSSEManagerType.swift:261-276 | after `key:` the value is the rest with leading whitespace skipped, and nil when that is empty |
| `EventParser.KeyWithoutValue` | HMEventSourceManager/HMSSEManagerType.swift:261-276 | a line with no `:`, or ending in `:`, has a key and no value |
| `EventParser.CommentLineHasNoKey` | HMEventSourceManager/HMSSEManagerType.swift:261-276 | a line starting with `:` has no key |
| `EventParser.Pairs` | HMEventSourceManager/HMSSEManagerType.swift:238-240 | one key-value pair per line, in line order |
| `EventParser.FieldsOfStep` | HMEventSourceManager/HMSSEManagerType.swift:238-252 | the dictionary after a line is the dictionary before it updated by that line |
| `EventParser.ParseEvent` | HMEventSourceManager/HMSSEManagerType.swift:233-259 | the loop always returns `.dataReceived`, with the fields `EventFrom` specifies |
| `EventParser.LastReset` | HMEventSourceManager/HMSSEManagerType.swift:249-250 | the position of the last value-less line of a key, after which every line of that key has a value |
| `EventParser.Present` | HMEventSourceManager/HMSSEManagerType.swift:242-247 | when every line of a key has a value, there is one value per line |
| `EventParser.FieldValue` | HMEventSourceManager/HMSSEManagerType.swift:238-252 | the dictionary entry of a key is nil without a line of that key, `""` when its last line has no value, and otherwise the values since its last value-less line joined with `"\n"` (with a leading `"\n"` after a reset) |
| `EventParser.FieldForStep` | HMEventSourceManager/HMSSEManagerType.swift:242-250 | a line of another key changes nothing; a value-less line gives `""`; a value is joined to the earlier value with `"\n"`, or starts the entry |
| `EventParser.AddLine` | HMEventSourceManager/HMSSEManagerType.swift:242-250 | one dictionary update of the loop; its three cases are stated by `AddLineEffect` |
| `EventParser.AddLineEffect` | HMEventSourceManager/HMSSEManagerType.swift:242-250 | the same three cases for one dictionary update |
| `EventParser.ExpectedAfterReset` | HMEventSourceManager/HMSSEManagerType.swift:249-250 | a value-less last line leaves `""` |
| `EventParser.ExpectedAfterValue` | HMEventSourceManager/HMSSEManagerType.swift:243-244 | a further value is appended after `"\n"` |
| `EventParser.PresentSnoc` | HMEventSourceManager/HMSSEManagerType.swift:242-247 | a line with a value adds that value at the end |
| `EventParser.JoinLinesSnoc` | HMEventSourceManager/HMSSEManagerType.swift:243-244 | joining one more value appends `"\n"` and that value |
| `EventParser.ParseEventFields` | HMEventSourceManager/HMSSEManagerType.swift:233-259 | the event's `id`, `event` and `data` are the dictionary entries of those keys, other keys are discarded, and an absent key gives nil |
| `EventParser.RepeatedKeyJoined` | HMEventSourceManager/HMSSEManagerType.swift:242-247 | when every line of a key has a value, the values are joined with `"\n"` in line order |
| `EventParser.ValuelessKeyResets` | HMEventSourceManager/HMSSEManagerType.swift:249-250 | a key whose last line has no value is `""`, overwriting earlier values |
| `EventParser.ParsedEvents` | HMEventSourceManager/HMSSEManagerType.swift:199-216 | never more events than blocks |
| `EventParser.Skipped` | HMEventSourceManager/HMSSEManagerType.swift:204-205 | the guard `isEmpty \|\| hasPrefix(":")` of `parseEventStream`; a skipped block contributes nothing, as `SkippedBlockVanishes` and `ParsedEventsLength` state |
| `EventParser.Contains` | HMEventSourceManager/HMSSEManagerType.swift:208 | `contains("retry:")`: some position holds the substring; its effect on the event is stated by `EventOfBlockKinds` and `RetryAnywhereIsDummy` |
| `EventParser.EventOfBlock` | HMEventSourceManager/HMSSEManagerType.swift:208-212 | the dispatch of a kept block to `parseRetryTime` or `parseEvent`; stated by `EventOfBlockKinds` and `ParseEventFields`, and tied to each event by `EventKinds` |
| `EventParser.ParseEventStream` | HMEventSourceManager/HMSSEManagerType.swift:199-216 | the loop returns `ParsedEvents` of the blocks |
| `EventParser.ParseEventStreamData` | HMEventSourceManager/HMSSEManagerType.swift:223-226 | parsing bytes is parsing the blocks `extractEvents` cuts out of them |
| `EventParser.ParsedEventsAppend` | HMEventSourceManager/HMSSEManagerType.swift:199-216 | blocks are parsed one by one: the events of a concatenation are the concatenation of the events |
| `EventParser.ParsedEventsLength` | HMEventSourceManager/HMSSEManagerType.swift:199-216 | exactly one event per block that is neither empty nor starts with `:` |
| `EventParser.EventsInBlockOrder` | HMEventSourceManager/HMSSEManagerType.swift:199-216 | the event of the i-th kept block comes after those of the earlier kept blocks |
| `EventParser.SkippedBlockVanishes` | HMEventSourceManager/HMSSEManagerType.swift:204-206 | an empty or `:`-prefixed block contributes nothing |
| `EventParser.EventOfBlockKinds` | HMEventSourceManager/HMSSEManagerType.swift:208-212 | a block yields `.dummy` exactly when it contains `retry:`, and `.dataReceived` otherwise |
| `EventParser.EventKinds` | HMEventSourceManager/HMSSEManagerType.swift:199-216 | the k-th event is the event of the kept block with exactly k kept blocks before it, and never `.connectionOpened` |
| `EventParserExamples.FieldLine` | HMEventSourceManager/HMSSEManagerType.swift:261-276 | a `key: value` line with plain key and value holds no newline and parses into that key and value |
| `EventParserExamples.EventOfLines` | HMEventSourceManager/HMSSEManagerType.swift:233-259 | the event of newline-free lines joined by `"\n"` is read off the dictionary folded from those lines |
| `EventParserExamples.FieldsOfTwo` | HMEventSourceManager/HMSSEManagerType.swift:238-252 | the dictionary of two lines is two updates of the empty dictionary |
| `EventParserExamples.FieldsOfThree` | HMEventSourceManager/HMSSEManagerType.swift:238-252 | the dictionary of three lines is three updates of the empty dictionary |
| `EventParserExamples.JoinedFold` | HMEventSourceManager/HMSSEManagerType.swift:242-244 | two values of one key give that key the values joined by `"\n"` |
| `EventParserExamples.DistinctFold` | HMEventSourceManager/HMSSEManagerType.swift:242-247 | three distinct keys give a dictionary of exactly those three entries |
| `EventParserExamples.ResetFold` | HMEventSourceManager/HMSSEManagerType.swift:242-250 | value, reset, value of one key gives `"\n"` followed by the last value |
| `EventParserExamples.TwoFieldLines` | HMEventSourceManager/HMSSEManagerType.swift:261-276 | two `key: value` lines are newline-free and parse into their pairs |
| `EventParserExamples.ThreeFieldLines` | HMEventSourceManager/HMSSEManagerType.swift:261-276 | three `key: value` lines are newline-free and parse into their pairs |
| `EventParserExamples.ResetLines` | HMEventSourceManager/HMSSEManagerType.swift:261-276 | `key: v1`, `key`, `key: v2` parse into value, no value, value |
| `EventParserExamples.MultiLineData` | HMEventSourceManager/HMSSEManagerType.swift:233-259 | `data: v1` and `data: v2` give the data `v1\nv2` and no id or event |
| `EventParserExamples.WellFormedBlock` | HMEventSourceManager/HMSSEManagerType.swift:233-259 | an `id`, `event`, `data` block gives exactly those three values |
| `EventParserExamples.ResetBetweenValues` | HMEventSourceManager/HMSSEManagerType.swift:233-259 | `data: a`, `data`, `data: b` give the data `"\n" + b`: the reset drops `a` |
| `EventParserExamples.CommentBlockYieldsNothing` | HMEventSourceManager/HMSSEManagerType.swift:204-206 | a comment block gives no event |
| `EventParser.ParseRetryTime` | HMEventSourceManager/HMSSEManagerType.swift:278-286 | gives `.dummy` whatever the block; stated by `RetryAnywhereIsDummy` and `EventOfBlockKinds` |
| `EventParserExamples.RetryAnywhereIsDummy` | HMEventSourceManager/HMSSEManagerType.swift:199-286 | a kept block containing `retry:` anywhere, its start included, gives `.dummy` through `parseRetryTime`, and no retry value is applied |
| `LastEventIds.Lookup` | HMEventSourceManager/HMSSEManager+Extension.swift:23-25 | a key has a stored string exactly when it is in the store, and the string is the stored one |
| `LastEventIds.UrlKey` | HMEventSourceManager/HMSSEManagerType.swift:65-67 | every URL key starts with `com.holmusk.HMEventSourceManager.` and has something after it |
| `LastEventIds.LastEventIdKey` | HMEventSourceManager/HMSSEManagerType.swift:73-81 | the key is `""` exactly when `url()` throws, and otherwise the key of the URL |
| `LastEventIds.DistinctPortsDistinctKeys` | HMEventSourceManager/HMSSEManagerType.swift:53-59 | URLs that differ only in their port have different keys |
| `LastEventIds.UniqueUrlIdentifier` | HMEventSourceManager/HMSSEManagerType.swift:53-59 | `scheme.host.port.path`; its layout and distinctness are stated by `KeyAroundPort`, `DistinctPortsDistinctKeys` and `MissingPartsShareKeys` |
| `LastEventIds.KeyAroundPort` | HMEventSourceManager/HMSSEManagerType.swift:53-67 | the key is prefix, scheme, `.`, host, `.`, port, `.`, path, with `""` and 0 for missing parts |
| `LastEventIds.MissingPartsShareKeys` | HMEventSourceManager/HMSSEManagerType.swift:53-59 | a missing port, host or scheme gives the same key as 0 or `""` |
| `LastEventIds.Ids` | HMEventSourceManager/HMSSEManagerType.swift:100 | never more ids than payloads |
| `LastEventIds.LastOfIds` | HMEventSourceManager/HMSSEManagerType.swift:100-103 | no id exactly when no payload has one; otherwise the last id belongs to the last payload that has one |
| `LastEventIds.LastIdIsLastNonNil` | HMEventSourceManager/HMSSEManagerType.swift:97-104 | the id stored for a batch is that of its last `.dataReceived` payload with an id, and there is none exactly when no payload has one |
| `LastEventIds.Stored` | HMEventSourceManager/HMSSEManagerType.swift:97-104 | a batch with no id leaves the store unchanged; otherwise only the request's key is written |
| `LastEventIds.LastEventId` | HMEventSourceManager/HMSSEManagerType.swift:87-90 | the stored string under the request's key; stated against storing by `StoreThenRead` |
| `LastEventIds.StoreThenRead` | HMEventSourceManager/HMSSEManagerType.swift:87-104 | after storing, `lastEventId` returns the batch's last id, or the earlier one when the batch has none |
| `LastEventIds.IdsAppend` | HMEventSourceManager/HMSSEManagerType.swift:100 | the ids of two batches in a row are the ids of each in turn |
| `LastEventIds.StoringBatchesInTurn` | HMEventSourceManager/HMSSEManagerType.swift:97-104 | storing two batches one after the other equals storing them as one |
| `LastEventIds.SaveLastEventIdExample` | HMEventSourceManagerTests/SaveLastEventIDTest.swift:42-59 | ids "5" then "7", then a batch of only `.dummy`, leave "7" as the last event id |
| `LastEventIds.AddDefaultParams` | HMEventSourceManager/HMSSEManagerType.swift:110-118 | the copy has `Accept: text/event-stream` and `Cache-Control: no-cache`, `Last-Event-Id` set to the stored id exactly when one is stored, every other header and field unchanged |
| `LastEventIds.AddDefaultParamsIdempotent` | HMEventSourceManager/HMSSEManagerType.swift:110-118 | adding the default parameters twice equals adding them once |
| `LastEventIds.AddPresentHeader` | HMEventSourceManager/HMSSERequest.swift:112-118 | adding a header that is already there with that value changes nothing |
| `LastEventIds.ResumeCarriesStoredId` | HMEventSourceManager/HMSSEManagerType.swift:97-118 | a request built after a batch with ids carries the batch's last id in `Last-Event-Id` |
| `LastEventIds.Manager.constructor` | HMEventSourceManager/HMSSEManager+Extension.swift:23-29 | the manager starts on the given store |
| `LastEventIds.Manager.StoreLastEventIdWithKey` | HMEventSourceManager/HMSSEManager+Extension.swift:27-29 | writes the value under the key, and nothing else |
| `LastEventIds.Manager.StoreLastEventId` | HMEventSourceManager/HMSSEManagerType.swift:97-104 | the store becomes `Stored` of the old store |
| `LegacyRequest.RequestWithDefaultParams` | HMEventSourceManager/HMEventSourceManagerType.swift:59-65 | operation GET, `Accept` and `Cache-Control` set, other headers unchanged, and no `Last-Event-Id` added |
| `LegacyRequest.RequestWithDefaultParamsIdempotent` | HMEventSourceManager/HMEventSourceManagerType.swift:59-65 | applying it twice equals applying it once |
| `SSEDelegate.Emitted` | HMEventSourceManager/HMSSEDelegate.swift:37-65 | a chunk of 1 byte or fewer emits nothing and a longer one one `dataReceived`; a response emits one `connectionOpened`; completion emits exactly one item, `onCompleted` exactly for code 999 and a failure otherwise |
| `SSEDelegate.EndOfTransferRetriesUnlessCancelled` | HMEventSourceManager/HMSSEDelegate.swift:56-62 | an error other than 999 emits one failure carrying it; a nil error emits one failure, not a completion, so the stream retries |
| `SSEDelegate.AtMostOneItem` | HMEventSourceManager/HMSSEDelegate.swift:37-65 | each callback emits at most one item, and only completion can complete |
| `SSEDelegate.Delegate.constructor` | HMEventSourceManager/HMSSEDelegate.swift:23-25 | nothing is emitted yet and no disposition handed back |
| `SSEDelegate.Delegate.DidReceiveData` | HMEventSourceManager/HMSSEDelegate.swift:37-39 | appends what `Emitted` gives for the data |
| `SSEDelegate.Delegate.DidReceiveResponse` | HMEventSourceManager/HMSSEDelegate.swift:47-48 | hands back `.allow` and appends one `connectionOpened` |
| `SSEDelegate.Delegate.DidCompleteWithError` | HMEventSourceManager/HMSSEDelegate.swift:56-65 | appends what `Emitted` gives for the error |
| `Pipeline.StreamFor` | HMEventSourceManager/HMSSEManagerType.swift:443-446 | `.retryOnError` selects the infinite-retry stream and `.retryOnConnectivity` the connectivity-aware one |
| `Pipeline.BatchOf` | HMEventSourceManager/HMSSEManagerType.swift:336-341 | received bytes become their parsed events; a payload-less event is cast and delivered alone |
| `Pipeline.ConnectionOpenedOnlyFromResponse` | HMEventSourceManager/HMSSEManagerType.swift:336-341 | a batch holds `connectionOpened` exactly when the transport event was the response |
| `Pipeline.PayloadlessBatchesKeepStore` | HMEventSourceManager/HMSSEManagerType.swift:336-341 | storing (as `doOnNext` does) the batch of a response or `.dummy` leaves the store unchanged |

## Left out

- The reactive composition (RxSwift): `sseObservable`, the retry streams, `openConnection` and its
  overloads, the `Reactive` extensions and `HMEventSourceManager+Rx.swift`. These are scheduling
  and concurrency on a library that is not part of this model. Only the strategy switch and the
  per-event batch step are modelled.
- Networking: URLSession creation and teardown and `urlSessionConfig`, whose timeouts are
  floating-point intervals. The delegate is modelled from the callbacks in.
- Reachability and the UserDefaults bindings. The store is a `map<string, string>`, and the
  reachability of the network is not modelled.
- UTF-8 decoding and `URL(string:)` are parameters. Their results are not characterised beyond
  "nil or a value".
- `EventParser.SkipWhitespace`: Scanner skips every Unicode whitespace and newline character. The
  model skips space, tab and the newline characters only.
- `SSEData.HashValue`: Swift's string hashes are randomised per process, so the string hash is a
  parameter. The model does not trap when the sum of the three hashes overflows `Int`, as Swift does.
- `HMSSEData.description`, the `print` in the older `parseRetryTime`, and the main-thread
  precondition checks. They are output and thread checks.
- `HMEventSourceManager+URLSession.swift` wraps a request type of a framework that is not part of
  this model. The older manager's request is modelled only by its operation and headers.
- `SSEData.Equal`, `EventParser.Skipped` and `EventParser.Contains`: strings are sequences of
  code points, compared code point by code point. Swift compares `String` by canonical
  equivalence, so `"\u{E9}"` and `"e\u{301}"` are equal there and different here. The same holds
  for dictionary keys in `parseEvent`, `hasPrefix(":")` and `contains("retry:")`. Unicode
  normalisation is not modelled.
- Header values are `[String: Any]` in the source and strings in the model, as every header the
  client sets is a string. The retry delay is a real number.
- `HMSSEvents.eventData`, used by `storeLastEventId`, is not part of this model. It is taken to be
  `values`.
- `cloneBuilder` and `updateValues(from:)` are not part of this model. They are taken to copy a
  request and to overwrite per key.
- `LastEventIds.Manager.LastEventIdForKey` and the other store-reading functions state their
  results through `LastEventIds.Lookup`.
- `SSEvent.MapValue` and `SSEvent.FlatMapValue` are stated through `Map` and `FlatMap`, which
  call them.
- `SSEDelegate`: the task and session arguments of the callbacks are dropped, since the delegate
  never reads them. The model records that `.allow` is handed back, not that this happens before
  the observer is called.
