/** HMSSEData: the payload of one parsed server-sent event. */
module SSEData {
  import opened Wrappers

  /** The three optional fields of an event; `init` stores them unchanged. */
  datatype Data = Data(id: Option<string>, event: Option<string>, data: Option<string>)

  /** The source's `==`: field-wise equality of the three optionals. */
  predicate Equal(lhs: Data, rhs: Data)
  {
    lhs.id == rhs.id && lhs.event == rhs.event && lhs.data == rhs.data
  }

  lemma EqualIsValueEquality(lhs: Data, rhs: Data)
    ensures Equal(lhs, rhs) <==> lhs == rhs
  {
  }

  lemma EqualIsEquivalence(a: Data, b: Data, c: Data)
    ensures Equal(a, a)
    ensures Equal(a, b) ==> Equal(b, a)
    ensures Equal(a, b) && Equal(b, c) ==> Equal(a, c)
  {
  }

  /** A field's contribution to `hashValue`: the string's hash, or 0 when the field is nil. */
  function FieldHash(s: Option<string>, hash: string -> int): int
  {
    match s
    case Some(v) => hash(v)
    case None => 0
  }

  /** `hashValue`: the sum of the three field hashes. The string hash is a parameter because
      Swift randomises it per process. */
  function HashValue(d: Data, hash: string -> int): (h: int)
    ensures d.id.None? && d.event.None? && d.data.None? ==> h == 0
    ensures d.event.None? && d.data.None? && d.id.Some? ==> h == hash(d.id.value)
  {
    FieldHash(d.id, hash) + FieldHash(d.event, hash) + FieldHash(d.data, hash)
  }

  /** `Hashable` is consistent with `Equatable`: equal values have equal hashes. */
  lemma EqualValuesHashEqually(a: Data, b: Data, hash: string -> int)
    requires Equal(a, b)
    ensures HashValue(a, hash) == HashValue(b, hash)
  {
  }

  /** The sum ignores field order: swapping the contents of two fields keeps the hash. */
  lemma HashIgnoresFieldOrder(d: Data, hash: string -> int)
    ensures HashValue(Data(d.data, d.id, d.event), hash) == HashValue(d, hash)
  {
  }
}
