/** The byte-level half of the event-stream parser: cutting a received chunk of bytes into
    event blocks at doubled newlines (`extractEvents`, `searchForEventInRange`). */
module StreamSplitter {
  import opened Wrappers

  type Byte = b: int | 0 <= b < 256

  const CR: Byte := 13
  const LF: Byte := 10

  /** The manager's `newlineCharacters`, in the order the search tries them. */
  const NewlineCharacters: seq<string> := ["\r\n", "\n", "\r"]

  /** UTF-8 encoding of an ASCII string. */
  function AsciiBytes(s: string): (b: seq<Byte>)
    ensures |b| == |s|
  {
    seq(|s|, i requires 0 <= i < |s| => if s[i] as int < 128 then s[i] as int else 0)
  }

  /** The event delimiters: every newline string written twice and encoded as UTF-8, in the
      order of `NewlineCharacters`: CRLFCRLF, then LFLF, then CRCR. */
  const Delimiters: seq<seq<Byte>> := [[CR, LF, CR, LF], [LF, LF], [CR, CR]]

  lemma DelimitersAreDoubledNewlines()
    ensures |Delimiters| == |NewlineCharacters|
    ensures forall k :: 0 <= k < |Delimiters| ==>
      Delimiters[k] == AsciiBytes(NewlineCharacters[k] + NewlineCharacters[k])
  {
  }

  /** `Data.Index` ranges: `lower` inclusive, `upper` exclusive. */
  datatype Range = Range(lower: nat, upper: nat)

  predicate OccursAt(data: seq<Byte>, pattern: seq<Byte>, i: nat)
  {
    i + |pattern| <= |data| && data[i..i + |pattern|] == pattern
  }

  /** Some delimiter starts at position i. */
  predicate DelimiterAt(data: seq<Byte>, i: nat)
  {
    exists k :: 0 <= k < |Delimiters| && OccursAt(data, Delimiters[k], i)
  }

  /** Foundation's `Data.range(of:in:)`: the leftmost occurrence of a non-empty pattern lying
      wholly inside [lower, upper), or nil (characterised by `RangeOfIsLeftmost`). */
  function RangeOf(data: seq<Byte>, pattern: seq<Byte>, lower: nat, upper: nat): (r: Option<Range>)
    requires lower <= upper <= |data| && |pattern| > 0
    ensures r.Some? ==> lower <= r.value.lower && r.value.upper == r.value.lower + |pattern| <= upper
    decreases upper - lower
  {
    if lower + |pattern| > upper then None
    else if data[lower..lower + |pattern|] == pattern then Some(Range(lower, lower + |pattern|))
    else RangeOf(data, pattern, lower + 1, upper)
  }

  lemma {:induction false} RangeOfIsLeftmost(data: seq<Byte>, pattern: seq<Byte>, lower: nat, upper: nat)
    requires lower <= upper <= |data| && |pattern| > 0
    ensures var r := RangeOf(data, pattern, lower, upper);
      && (r.Some? ==> OccursAt(data, pattern, r.value.lower))
      && (r.Some? ==> forall i :: lower <= i < r.value.lower ==> !OccursAt(data, pattern, i))
      && (r.None? ==> forall i :: lower <= i && i + |pattern| <= upper ==> !OccursAt(data, pattern, i))
    decreases upper - lower
  {
    if lower + |pattern| <= upper && data[lower..lower + |pattern|] != pattern {
      RangeOfIsLeftmost(data, pattern, lower + 1, upper);
    }
  }

  /** Tries the delimiters in list order and answers with the first one found anywhere in the
      range (characterised by `FirstDelimiterByPriority`). */
  function FirstDelimiterIn(data: seq<Byte>, delimiters: seq<seq<Byte>>, lower: nat, upper: nat)
    : (r: Option<Range>)
    requires lower <= upper <= |data|
    requires forall k :: 0 <= k < |delimiters| ==> |delimiters[k]| > 0
    ensures r.Some? ==> lower <= r.value.lower < r.value.upper <= upper
  {
    if delimiters == [] then None
    else
      match RangeOf(data, delimiters[0], lower, upper)
      case Some(found) => Some(found)
      case None => FirstDelimiterIn(data, delimiters[1..], lower, upper)
  }

  /** The choice goes by priority in the list, not by position in the data: the answer is the
      leftmost occurrence of the first delimiter that occurs at all. */
  lemma {:induction false} FirstDelimiterByPriority(data: seq<Byte>, delimiters: seq<seq<Byte>>, lower: nat, upper: nat)
    requires lower <= upper <= |data|
    requires forall k :: 0 <= k < |delimiters| ==> |delimiters[k]| > 0
    ensures var r := FirstDelimiterIn(data, delimiters, lower, upper);
      && (r.Some? ==> exists k :: 0 <= k < |delimiters| && r == RangeOf(data, delimiters[k], lower, upper)
                        && forall j :: 0 <= j < k ==> RangeOf(data, delimiters[j], lower, upper).None?)
      && (r.None? <==> forall k :: 0 <= k < |delimiters| ==> RangeOf(data, delimiters[k], lower, upper).None?)
  {
    if delimiters != [] && RangeOf(data, delimiters[0], lower, upper).None? {
      var tail := delimiters[1..];
      FirstDelimiterByPriority(data, tail, lower, upper);
      var r := FirstDelimiterIn(data, tail, lower, upper);
      assert forall k :: 1 <= k < |delimiters| ==> delimiters[k] == tail[k - 1];
      if r.Some? {
        var k :| 0 <= k < |tail| && r == RangeOf(data, tail[k], lower, upper)
                 && forall j :: 0 <= j < k ==> RangeOf(data, tail[j], lower, upper).None?;
        assert r == RangeOf(data, delimiters[k + 1], lower, upper);
      }
    }
  }

  /** The result of `searchForEventInRange` over the real delimiters; the range found lies
      inside the search range. */
  function SearchForEvent(data: seq<Byte>, lower: nat, upper: nat): (r: Option<Range>)
    requires lower <= upper <= |data|
    ensures r.Some? ==> lower <= r.value.lower < r.value.upper <= upper
  {
    FirstDelimiterIn(data, Delimiters, lower, upper)
  }

  /** The search answers a range exactly where some delimiter starts ... */
  lemma FoundIsDelimiter(data: seq<Byte>, lower: nat, upper: nat)
    requires lower <= upper <= |data|
    ensures var r := SearchForEvent(data, lower, upper);
            r.Some? ==> DelimiterAt(data, r.value.lower)
  {
    var r := SearchForEvent(data, lower, upper);
    FirstDelimiterByPriority(data, Delimiters, lower, upper);
    if r.Some? {
      var k :| 0 <= k < |Delimiters| && r == RangeOf(data, Delimiters[k], lower, upper);
      RangeOfIsLeftmost(data, Delimiters[k], lower, upper);
      assert OccursAt(data, Delimiters[k], r.value.lower);
    }
  }

  /** ... and finds nothing only when no delimiter lies wholly inside the search range. */
  lemma NotFoundIffNoDelimiter(data: seq<Byte>, lower: nat, upper: nat)
    requires lower <= upper <= |data|
    ensures SearchForEvent(data, lower, upper).None? <==>
      forall k, i :: 0 <= k < |Delimiters| && lower <= i && i + |Delimiters[k]| <= upper
        ==> !OccursAt(data, Delimiters[k], i)
  {
    var r := SearchForEvent(data, lower, upper);
    FirstDelimiterByPriority(data, Delimiters, lower, upper);
    if r.Some? {
      var k :| 0 <= k < |Delimiters| && r == RangeOf(data, Delimiters[k], lower, upper);
      RangeOfIsLeftmost(data, Delimiters[k], lower, upper);
      assert OccursAt(data, Delimiters[k], r.value.lower);
    } else {
      forall k | 0 <= k < |Delimiters| {
        RangeOfIsLeftmost(data, Delimiters[k], lower, upper);
      }
    }
  }

  /** `searchForEventInRange`: the loop over the delimiters, returning at the first hit. */
  method SearchForEventInRange(data: seq<Byte>, searchRange: Range) returns (found: Option<Range>)
    requires searchRange.lower <= searchRange.upper <= |data|
    ensures found == SearchForEvent(data, searchRange.lower, searchRange.upper)
  {
    var lower, upper := searchRange.lower, searchRange.upper;
    for k := 0 to |Delimiters|
      invariant FirstDelimiterIn(data, Delimiters[k..], lower, upper) == SearchForEvent(data, lower, upper)
    {
      var r := RangeOf(data, Delimiters[k], lower, upper);
      if r.Some? {
        return r;
      }
      assert Delimiters[k..][1..] == Delimiters[k + 1..];
    }
    return None;
  }

  /** A later CRLFCRLF wins over an earlier LFLF: in "\n\n\r\n\r\n" the search answers the
      range 2..6, not 0..2. */
  lemma PriorityBeatsPosition()
    ensures SearchForEvent([LF, LF, CR, LF, CR, LF], 0, 6) == Some(Range(2, 6))
  {
    var data: seq<Byte> := [LF, LF, CR, LF, CR, LF];
    assert data[0..4] != Delimiters[0] by { assert data[0..4][0] != CR; }
    assert data[1..5] != Delimiters[0] by { assert data[1..5][0] != CR; }
    assert data[2..6] == Delimiters[0];
  }

  /** The ranges of the non-empty chunks that `extractEvents` cuts from data[lower..]: the bytes
      between the search start and each delimiter found, in order. Empty chunks are skipped and
      the bytes after the last delimiter are never a chunk. */
  function ChunkSpans(data: seq<Byte>, lower: nat): (spans: seq<Range>)
    requires lower <= |data|
    ensures forall i :: 0 <= i < |spans| ==> lower <= spans[i].lower < spans[i].upper <= |data|
    decreases |data| - lower
  {
    match SearchForEvent(data, lower, |data|)
    case None => []
    case Some(found) =>
      var rest := ChunkSpans(data, found.upper);
      if found.lower > lower then [Range(lower, found.lower)] + rest else rest
  }

  /** Each chunk ends where a delimiter starts, and the chunks are disjoint and in input order
      with at least a delimiter between two of them. */
  lemma ChunkSpansWellFormed(data: seq<Byte>, lower: nat)
    requires lower <= |data|
    ensures forall i :: 0 <= i < |ChunkSpans(data, lower)| ==> DelimiterAt(data, ChunkSpans(data, lower)[i].upper)
    ensures forall i, j :: 0 <= i < j < |ChunkSpans(data, lower)| ==>
              ChunkSpans(data, lower)[i].upper < ChunkSpans(data, lower)[j].lower
  {
    ChunksEndAtDelimiters(data, lower);
    ChunksInOrder(data, lower);
  }

  /** Each chunk ends where a delimiter starts. */
  lemma {:induction false} ChunksEndAtDelimiters(data: seq<Byte>, lower: nat)
    requires lower <= |data|
    ensures forall i :: 0 <= i < |ChunkSpans(data, lower)| ==> DelimiterAt(data, ChunkSpans(data, lower)[i].upper)
    decreases |data| - lower
  {
    var found := SearchForEvent(data, lower, |data|);
    if found.Some? {
      var f := found.value;
      FoundIsDelimiter(data, lower, |data|);
      ChunksEndAtDelimiters(data, f.upper);
      var rest := ChunkSpans(data, f.upper);
      if f.lower > lower {
        var spans := [Range(lower, f.lower)] + rest;
        assert ChunkSpans(data, lower) == spans;
        forall i | 0 <= i < |spans|
          ensures DelimiterAt(data, spans[i].upper)
        {
          if i > 0 { assert spans[i] == rest[i - 1]; }
        }
      } else {
        assert ChunkSpans(data, lower) == rest;
      }
    }
  }

  /** The chunks are disjoint and in input order, with a gap between two of them. */
  lemma {:induction false} ChunksInOrder(data: seq<Byte>, lower: nat)
    requires lower <= |data|
    ensures forall i, j :: 0 <= i < j < |ChunkSpans(data, lower)| ==>
              ChunkSpans(data, lower)[i].upper < ChunkSpans(data, lower)[j].lower
    decreases |data| - lower
  {
    var found := SearchForEvent(data, lower, |data|);
    if found.Some? {
      var f := found.value;
      FoundIsDelimiter(data, lower, |data|);
      ChunksInOrder(data, f.upper);
      var rest := ChunkSpans(data, f.upper);
      if f.lower > lower {
        var spans := [Range(lower, f.lower)] + rest;
        assert ChunkSpans(data, lower) == spans;
        forall i, j | 0 <= i < j < |spans|
          ensures spans[i].upper < spans[j].lower
        {
          assert spans[j] == rest[j - 1];
          if i > 0 { assert spans[i] == rest[i - 1]; }
        }
      } else {
        assert ChunkSpans(data, lower) == rest;
      }
    }
  }

  /** UTF-8 decoding of a chunk (`NSString(data:encoding:)`), nil when it is not valid UTF-8. */
  type Utf8Decoder = seq<Byte> -> Option<string>

  /** A chunk as `extractEvents` appends it: its decoding, or nothing when it does not decode. */
  function DecodeChunk(chunk: seq<Byte>, decode: Utf8Decoder): (blocks: seq<string>)
    ensures |blocks| <= 1
    ensures decode(chunk).None? ==> blocks == []
    ensures decode(chunk).Some? ==> blocks == [decode(chunk).value]
  {
    match decode(chunk)
    case Some(s) => [s]
    case None => []
  }

  /** The decoded chunks; a chunk that does not decode is skipped. */
  function DecodeChunks(data: seq<Byte>, spans: seq<Range>, decode: Utf8Decoder): (blocks: seq<string>)
    requires forall i :: 0 <= i < |spans| ==> spans[i].lower <= spans[i].upper <= |data|
    ensures |blocks| <= |spans|
  {
    if spans == [] then []
    else DecodeChunk(data[spans[0].lower..spans[0].upper], decode) + DecodeChunks(data, spans[1..], decode)
  }

  /** The blocks `extractEvents` collects once its search range starts at `lower`. */
  function BlocksFrom(data: seq<Byte>, lower: nat, decode: Utf8Decoder): seq<string>
    requires lower <= |data|
  {
    DecodeChunks(data, ChunkSpans(data, lower), decode)
  }

  /** What `extractEvents` returns for the whole of `data`. */
  function EventBlocks(data: seq<Byte>, decode: Utf8Decoder): seq<string>
  {
    BlocksFrom(data, 0, decode)
  }

  /** `extractEvents`: moves the search range past each delimiter found and collects the
      decoded non-empty chunks in between. */
  method ExtractEvents(data: seq<Byte>, decode: Utf8Decoder) returns (events: seq<string>)
    ensures events == EventBlocks(data, decode)
  {
    events := [];
    var searchRange := Range(0, |data|);
    var found := SearchForEventInRange(data, searchRange);
    while found.Some?
      invariant searchRange.lower <= searchRange.upper == |data|
      invariant found == SearchForEvent(data, searchRange.lower, |data|)
      invariant events + BlocksFrom(data, searchRange.lower, decode) == EventBlocks(data, decode)
      decreases |data| - searchRange.lower
    {
      var foundRange := found.value;
      ghost var before := events;
      if foundRange.lower > searchRange.lower {
        var dataChunk := data[searchRange.lower..foundRange.lower];
        var event := decode(dataChunk);
        if event.Some? {
          events := events + [event.value];
        }
      }
      ExtractStep(data, searchRange.lower, decode, before, events);
      searchRange := Range(foundRange.upper, |data|);
      found := SearchForEventInRange(data, searchRange);
    }
  }

  /** One step of `ExtractEvents`: appending the decoded chunk before the delimiter found (when
      that chunk is non-empty) and moving past the delimiter keeps the blocks still to come. */
  lemma ExtractStep(data: seq<Byte>, lower: nat, decode: Utf8Decoder, before: seq<string>, after: seq<string>)
    requires lower <= |data| && SearchForEvent(data, lower, |data|).Some?
    requires before + BlocksFrom(data, lower, decode) == EventBlocks(data, decode)
    requires var found := SearchForEvent(data, lower, |data|).value;
      after == before + (if found.lower > lower then DecodeChunk(data[lower..found.lower], decode) else [])
    ensures after + BlocksFrom(data, SearchForEvent(data, lower, |data|).value.upper, decode)
         == EventBlocks(data, decode)
  {
    var found := SearchForEvent(data, lower, |data|).value;
    var chunk := if found.lower > lower then DecodeChunk(data[lower..found.lower], decode) else [];
    var tail := BlocksFrom(data, found.upper, decode);
    BlocksFromStep(data, lower, decode);
    assert after == before + chunk;
    assert BlocksFrom(data, lower, decode) == chunk + tail;
    SeqAssoc(before, chunk, tail);
  }

  lemma SeqAssoc(a: seq<string>, b: seq<string>, c: seq<string>)
    ensures a + b + c == a + (b + c)
  {
  }

  /** The blocks from `lower` on: the chunk before the first delimiter found, if non-empty,
      then the blocks from just past that delimiter. */
  lemma BlocksFromStep(data: seq<Byte>, lower: nat, decode: Utf8Decoder)
    requires lower <= |data| && SearchForEvent(data, lower, |data|).Some?
    ensures var found := SearchForEvent(data, lower, |data|).value;
      BlocksFrom(data, lower, decode)
      == (if found.lower > lower then DecodeChunk(data[lower..found.lower], decode) else [])
         + BlocksFrom(data, found.upper, decode)
  {
    var found := SearchForEvent(data, lower, |data|).value;
    var rest := ChunkSpans(data, found.upper);
    if found.lower > lower {
      var span := Range(lower, found.lower);
      assert ChunkSpans(data, lower) == [span] + rest;
      assert ([span] + rest)[1..] == rest;
    } else {
      assert ChunkSpans(data, lower) == rest;
      assert [] + BlocksFrom(data, found.upper, decode) == BlocksFrom(data, found.upper, decode);
    }
  }

  /** Bytes after the last delimiter are dropped: when no delimiter starts at or after position
      t, every chunk ends before t. */
  lemma TrailingBytesDropped(data: seq<Byte>, t: nat)
    requires forall p :: t <= p ==> !DelimiterAt(data, p)
    ensures forall i :: 0 <= i < |ChunkSpans(data, 0)| ==> ChunkSpans(data, 0)[i].upper < t
  {
    ChunkSpansWellFormed(data, 0);
  }

  /** Data without any delimiter yields no block at all, however long it is. */
  lemma NoDelimiterNoBlocks(data: seq<Byte>, decode: Utf8Decoder)
    requires forall p :: !DelimiterAt(data, p)
    ensures EventBlocks(data, decode) == []
  {
    forall k, i | 0 <= k < |Delimiters| && 0 <= i && i + |Delimiters[k]| <= |data|
      ensures !OccursAt(data, Delimiters[k], i)
    {
      assert !DelimiterAt(data, i);
    }
    NotFoundIffNoDelimiter(data, 0, |data|);
    assert ChunkSpans(data, 0) == [];
  }

  /** Every block is the decoding of a non-empty run of bytes ending right before a delimiter. */
  lemma {:induction false} BlocksComeFromChunks(data: seq<Byte>, spans: seq<Range>, decode: Utf8Decoder, j: nat)
    requires forall i :: 0 <= i < |spans| ==> spans[i].lower <= spans[i].upper <= |data|
    requires j < |DecodeChunks(data, spans, decode)|
    ensures exists i :: 0 <= i < |spans|
              && decode(data[spans[i].lower..spans[i].upper]) == Some(DecodeChunks(data, spans, decode)[j])
  {
    var head := DecodeChunk(data[spans[0].lower..spans[0].upper], decode);
    if j < |head| {
      assert decode(data[spans[0].lower..spans[0].upper]) == Some(DecodeChunks(data, spans, decode)[j]);
    } else {
      BlocksComeFromChunks(data, spans[1..], decode, j - |head|);
      var i :| 0 <= i < |spans[1..]|
             && decode(data[spans[1..][i].lower..spans[1..][i].upper]) == Some(DecodeChunks(data, spans[1..], decode)[j - |head|]);
      assert spans[i + 1] == spans[1..][i];
    }
  }

  // ---------------------------------------------------------------------------------------
  // Completeness of the cut: the chunks are exactly the non-empty gaps between the delimiters
  // the loop finds, and those gaps and delimiters cover the data up to the last delimiter.
  // ---------------------------------------------------------------------------------------

  /** The delimiter ranges the loop of `extractEvents` finds from `lower` on, in order. */
  function FoundDelimiters(data: seq<Byte>, lower: nat): (found: seq<Range>)
    requires lower <= |data|
    ensures forall k :: 0 <= k < |found| ==> lower <= found[k].lower < found[k].upper <= |data|
    decreases |data| - lower
  {
    match SearchForEvent(data, lower, |data|)
    case None => []
    case Some(f) => [f] + FoundDelimiters(data, f.upper)
  }

  /** The gap before the k-th delimiter found: from where its search starts to where it
      starts. */
  function Gap(data: seq<Byte>, lower: nat, k: nat): Range
    requires lower <= |data| && k < |FoundDelimiters(data, lower)|
  {
    var found := FoundDelimiters(data, lower);
    Range(if k == 0 then lower else found[k - 1].upper, found[k].lower)
  }

  /** Where the loop stops cutting: past the last delimiter found, or `lower` if none. */
  function CutEnd(data: seq<Byte>, lower: nat): nat
    requires lower <= |data|
  {
    var found := FoundDelimiters(data, lower);
    if found == [] then lower else found[|found| - 1].upper
  }

  /** Position p lies in some gap or in the delimiter that follows it. */
  predicate Covered(data: seq<Byte>, lower: nat, p: nat)
    requires lower <= |data|
  {
    exists k :: 0 <= k < |FoundDelimiters(data, lower)|
      && Gap(data, lower, k).lower <= p < FoundDelimiters(data, lower)[k].upper
  }

  /** r is the gap before some delimiter found. */
  predicate IsGap(data: seq<Byte>, lower: nat, r: Range)
    requires lower <= |data|
  {
    exists k :: 0 <= k < |FoundDelimiters(data, lower)| && r == Gap(data, lower, k)
  }

  /** Dropping the first delimiter found shifts the delimiters and the gaps by one. */
  lemma FoundShift(data: seq<Byte>, lower: nat, k: nat)
    requires lower <= |data| && SearchForEvent(data, lower, |data|).Some?
    requires k + 1 < |FoundDelimiters(data, lower)|
    ensures var f := SearchForEvent(data, lower, |data|).value;
      k < |FoundDelimiters(data, f.upper)|
      && FoundDelimiters(data, lower)[k + 1] == FoundDelimiters(data, f.upper)[k]
      && Gap(data, lower, k + 1) == Gap(data, f.upper, k)
  {
    var f := SearchForEvent(data, lower, |data|).value;
    var rest := FoundDelimiters(data, f.upper);
    assert FoundDelimiters(data, lower) == [f] + rest;
    if k > 0 {
      assert FoundDelimiters(data, lower)[k] == rest[k - 1];
    }
  }

  /** Each delimiter found is a delimiter, and its gap is well formed. */
  lemma {:induction false} FoundIsDelimiterAfterGap(data: seq<Byte>, lower: nat, k: nat)
    requires lower <= |data| && k < |FoundDelimiters(data, lower)|
    ensures Gap(data, lower, k).lower <= Gap(data, lower, k).upper
    ensures DelimiterAt(data, FoundDelimiters(data, lower)[k].lower)
    decreases |data| - lower
  {
    var f := SearchForEvent(data, lower, |data|).value;
    FoundIsDelimiter(data, lower, |data|);
    if k == 0 {
      assert FoundDelimiters(data, lower)[0] == f;
    } else {
      FoundShift(data, lower, k - 1);
      FoundIsDelimiterAfterGap(data, f.upper, k - 1);
    }
  }

  /** Past the first delimiter found, the loop stops cutting where it would from there. */
  lemma CutEndShift(data: seq<Byte>, lower: nat)
    requires lower <= |data| && SearchForEvent(data, lower, |data|).Some?
    ensures var f := SearchForEvent(data, lower, |data|).value;
      CutEnd(data, lower) == if FoundDelimiters(data, f.upper) == [] then f.upper else CutEnd(data, f.upper)
  {
    var f := SearchForEvent(data, lower, |data|).value;
    var rest := FoundDelimiters(data, f.upper);
    var found := [f] + rest;
    assert FoundDelimiters(data, lower) == found;
    if rest != [] {
      assert found[|found| - 1] == rest[|rest| - 1];
    }
  }

  /** Every byte from `lower` up to the end of the last delimiter found is covered. */
  lemma {:induction false} CoveredUpToCutEnd(data: seq<Byte>, lower: nat, p: nat)
    requires lower <= |data| && lower <= p < CutEnd(data, lower)
    ensures Covered(data, lower, p)
    decreases |data| - lower
  {
    var f := SearchForEvent(data, lower, |data|).value;
    var rest := FoundDelimiters(data, f.upper);
    CutEndShift(data, lower);
    if p < f.upper {
      assert FoundDelimiters(data, lower)[0] == f;
      assert Gap(data, lower, 0).lower <= p < FoundDelimiters(data, lower)[0].upper;
    } else {
      CoveredUpToCutEnd(data, f.upper, p);
      var k :| 0 <= k < |rest| && Gap(data, f.upper, k).lower <= p < rest[k].upper;
      FoundShift(data, lower, k);
    }
  }

  /** The delimiters found tile the data: each is a delimiter after its gap, and every byte
      from `lower` up to the end of the last one lies in a gap or a delimiter. */
  lemma FoundDelimitersTile(data: seq<Byte>, lower: nat)
    requires lower <= |data|
    ensures forall k :: 0 <= k < |FoundDelimiters(data, lower)| ==>
              Gap(data, lower, k).lower <= Gap(data, lower, k).upper
              && DelimiterAt(data, FoundDelimiters(data, lower)[k].lower)
    ensures forall p: nat :: lower <= p < CutEnd(data, lower) ==> Covered(data, lower, p)
  {
    forall k | 0 <= k < |FoundDelimiters(data, lower)|
      ensures Gap(data, lower, k).lower <= Gap(data, lower, k).upper
      ensures DelimiterAt(data, FoundDelimiters(data, lower)[k].lower)
    {
      FoundIsDelimiterAfterGap(data, lower, k);
    }
    forall p: nat | lower <= p < CutEnd(data, lower)
      ensures Covered(data, lower, p)
    {
      CoveredUpToCutEnd(data, lower, p);
    }
  }

  /** Every chunk is the gap before some delimiter found. */
  lemma {:induction false} ChunkIsGap(data: seq<Byte>, lower: nat, i: nat)
    requires lower <= |data| && i < |ChunkSpans(data, lower)|
    ensures IsGap(data, lower, ChunkSpans(data, lower)[i])
    decreases |data| - lower
  {
    var f := SearchForEvent(data, lower, |data|).value;
    var found := FoundDelimiters(data, lower);
    var restSpans := ChunkSpans(data, f.upper);
    assert found == [f] + FoundDelimiters(data, f.upper);
    if f.lower > lower && i == 0 {
      assert ChunkSpans(data, lower)[0] == Gap(data, lower, 0);
      assert IsGap(data, lower, ChunkSpans(data, lower)[i]);
    } else {
      var j := if f.lower > lower then i - 1 else i;
      assert ChunkSpans(data, lower)[i] == restSpans[j];
      ChunkIsGap(data, f.upper, j);
      var k :| 0 <= k < |FoundDelimiters(data, f.upper)| && restSpans[j] == Gap(data, f.upper, k);
      FoundShift(data, lower, k);
      assert ChunkSpans(data, lower)[i] == Gap(data, lower, k + 1);
    }
  }

  /** Every non-empty gap is a chunk. */
  lemma {:induction false} GapIsChunk(data: seq<Byte>, lower: nat, k: nat)
    requires lower <= |data| && k < |FoundDelimiters(data, lower)|
    requires Gap(data, lower, k).lower < Gap(data, lower, k).upper
    ensures Gap(data, lower, k) in ChunkSpans(data, lower)
    decreases |data| - lower
  {
    var f := SearchForEvent(data, lower, |data|).value;
    var restSpans := ChunkSpans(data, f.upper);
    assert FoundDelimiters(data, lower) == [f] + FoundDelimiters(data, f.upper);
    if k == 0 {
      assert ChunkSpans(data, lower)[0] == Gap(data, lower, 0);
    } else {
      FoundShift(data, lower, k - 1);
      GapIsChunk(data, f.upper, k - 1);
      assert ChunkSpans(data, lower) == (if f.lower > lower then [Range(lower, f.lower)] + restSpans else restSpans);
    }
  }

  /** The chunks are exactly the non-empty gaps between the delimiters found. */
  lemma ChunksAreGaps(data: seq<Byte>, lower: nat)
    requires lower <= |data|
    ensures forall i :: 0 <= i < |ChunkSpans(data, lower)| ==> IsGap(data, lower, ChunkSpans(data, lower)[i])
    ensures forall k :: 0 <= k < |FoundDelimiters(data, lower)| ==>
              (Gap(data, lower, k).lower < Gap(data, lower, k).upper ==> Gap(data, lower, k) in ChunkSpans(data, lower))
  {
    forall i | 0 <= i < |ChunkSpans(data, lower)|
      ensures IsGap(data, lower, ChunkSpans(data, lower)[i])
    {
      ChunkIsGap(data, lower, i);
    }
    forall k | 0 <= k < |FoundDelimiters(data, lower)| && Gap(data, lower, k).lower < Gap(data, lower, k).upper
      ensures Gap(data, lower, k) in ChunkSpans(data, lower)
    {
      GapIsChunk(data, lower, k);
    }
  }

  /** How many of the chunks decode. */
  function DecodableCount(data: seq<Byte>, spans: seq<Range>, decode: Utf8Decoder): nat
    requires forall i :: 0 <= i < |spans| ==> spans[i].lower <= spans[i].upper <= |data|
  {
    if spans == [] then 0
    else (if decode(data[spans[0].lower..spans[0].upper]).Some? then 1 else 0)
         + DecodableCount(data, spans[1..], decode)
  }

  /** One block per chunk that decodes. */
  lemma {:induction false} DecodeChunksLength(data: seq<Byte>, spans: seq<Range>, decode: Utf8Decoder)
    requires forall i :: 0 <= i < |spans| ==> spans[i].lower <= spans[i].upper <= |data|
    ensures |DecodeChunks(data, spans, decode)| == DecodableCount(data, spans, decode)
  {
    if spans != [] {
      DecodeChunksLength(data, spans[1..], decode);
    }
  }

  /** The converse of `BlocksComeFromChunks`: the string of every chunk that decodes appears
      among the blocks, after the strings of the decodable chunks before it. */
  lemma {:induction false} ChunksDecodedInOrder(data: seq<Byte>, spans: seq<Range>, decode: Utf8Decoder, i: nat)
    requires forall j :: 0 <= j < |spans| ==> spans[j].lower <= spans[j].upper <= |data|
    requires i < |spans| && decode(data[spans[i].lower..spans[i].upper]).Some?
    ensures DecodableCount(data, spans[..i], decode) < |DecodeChunks(data, spans, decode)|
    ensures DecodeChunks(data, spans, decode)[DecodableCount(data, spans[..i], decode)]
            == decode(data[spans[i].lower..spans[i].upper]).value
  {
    var head := DecodeChunk(data[spans[0].lower..spans[0].upper], decode);
    if i == 0 {
      assert spans[..0] == [];
    } else {
      var tail := spans[1..];
      assert tail[i - 1] == spans[i];
      ChunksDecodedInOrder(data, tail, decode, i - 1);
      assert spans[..i][1..] == tail[..i - 1];
      assert DecodableCount(data, spans[..i], decode) == |head| + DecodableCount(data, tail[..i - 1], decode);
    }
  }

  /** With priority search a `\n\n` inside a block does not end it when a CRLFCRLF follows: the
      bytes of "a\n\nb\r\n\r\nc" give the single block "a\n\nb", and the trailing "c" is dropped. */
  lemma LineFeedsInsideBlockKept(decode: Utf8Decoder)
    requires decode([97, LF, LF, 98]) == Some("a\n\nb")
    ensures EventBlocks([97, LF, LF, 98, CR, LF, CR, LF, 99], decode) == ["a\n\nb"]
  {
    var data: seq<Byte> := [97, LF, LF, 98, CR, LF, CR, LF, 99];
    assert data[0..4] != Delimiters[0] by { assert data[0..4][0] != CR; }
    assert data[1..5] != Delimiters[0] by { assert data[1..5][0] != CR; }
    assert data[2..6] != Delimiters[0] by { assert data[2..6][0] != CR; }
    assert data[3..7] != Delimiters[0] by { assert data[3..7][0] != CR; }
    assert data[4..8] == Delimiters[0];
    assert SearchForEvent(data, 0, 9) == Some(Range(4, 8));
    NotFoundIffNoDelimiter(data, 8, 9);
    assert SearchForEvent(data, 8, 9).None?;
    assert ChunkSpans(data, 8) == [];
    assert ChunkSpans(data, 0) == [Range(0, 4)];
    assert data[0..4] == [97, LF, LF, 98];
  }
}
