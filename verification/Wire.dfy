/**
 Protocol Buffers fields as `client/src/grpcTransport.ts` reads and writes them: keys,
 length-delimited payloads, skipping of unknown fields, and the split of a message into fields.
 */
module Wire {
  import opened Prelude
  import opened Bits
  import opened Varint
  import opened Splitting

  /** The wire type a decoder insists on for a field it knows. */
  datatype Kind = VarintKind | ChunkKind

  /** The fields a message decoder knows. */
  type Schema = map<nat, Kind>

  datatype Key = Key(number: nat, wireType: nat)
  datatype Payload = Number(value: nat) | Chunk(bytes: seq<byte>) | Skipped
  datatype Field = Field(number: nat, payload: Payload)

  function WireType(kind: Kind): nat {
    match kind case VarintKind => 0 case ChunkKind => 2
  }

  // ------------------------------------------------------------------ reading

  function ReadFieldKey(s: seq<byte>): Result<Read<Key>, DecodeError> {
    match ReadVarint(s)
    case Ok(r) => Ok(Read(Key(r.value / 8, r.value % 8), r.size))
    case Err(e) => Err(e)
  }

  function ReadLengthDelimited(s: seq<byte>): Result<Read<seq<byte>>, DecodeError> {
    match ReadVarint(s)
    case Ok(r) =>
      if r.size + r.value > |s| then Err(MalformedLengthDelimitedField)
      else Ok(Read(s[r.size..r.size + r.value], r.size + r.value))
    case Err(e) => Err(e)
  }

  /** `skipField`: the size of a payload; fixed-width payloads are not checked against the end. */
  function SkipField(s: seq<byte>, wireType: nat): Result<nat, DecodeError> {
    if wireType == 0 then
      match ReadVarint(s) case Ok(r) => Ok(r.size) case Err(e) => Err(e)
    else if wireType == 1 then Ok(8)
    else if wireType == 2 then
      match ReadLengthDelimited(s) case Ok(r) => Ok(r.size) case Err(e) => Err(e)
    else if wireType == 5 then Ok(4)
    else Err(UnsupportedWireType(wireType))
  }

  function ReadPayload(schema: Schema, key: Key, s: seq<byte>): Result<Read<Payload>, DecodeError> {
    if key.number in schema then
      if key.wireType != WireType(schema[key.number]) then Err(UnexpectedWireType(key.number))
      else
        match schema[key.number]
        case VarintKind =>
          (match ReadVarint(s) case Ok(r) => Ok(Read(Number(r.value), r.size)) case Err(e) => Err(e))
        case ChunkKind =>
          (match ReadLengthDelimited(s) case Ok(r) => Ok(Read(Chunk(r.value), r.size)) case Err(e) => Err(e))
    else
      match SkipField(s, key.wireType) case Ok(size) => Ok(Read(Skipped, size)) case Err(e) => Err(e)
  }

  /** One turn of a decoder's loop: a key and its payload. The size may run past the end. */
  function NextField(schema: Schema, s: seq<byte>): (r: Result<Read<Field>, DecodeError>)
    ensures r.Ok? ==> r.value.size > 0
  {
    match ReadFieldKey(s)
    case Err(e) => Err(e)
    case Ok(k) =>
      ReadVarintValue(s);
      match ReadPayload(schema, k.value, s[k.size..])
      case Err(e) => Err(e)
      case Ok(p) => Ok(Read(Field(k.value.number, p.value), k.size + p.size))
  }

  /** The reader that a decoder with this schema applies at each turn of its loop. */
  function Reader(schema: Schema): (next: seq<byte> -> Result<Read<Field>, DecodeError>)
    ensures Progressive(next)
  {
    s => NextField(schema, s)
  }

  function Fields(schema: Schema, s: seq<byte>): Result<Split<Field>, DecodeError> {
    SplitAll(Reader(schema), s)
  }

  /** A message that splits into fields which end exactly where it does. */
  predicate WellFormed(schema: Schema, s: seq<byte>) {
    Exact(Fields(schema, s))
  }

  // --------------------------------------------------------- cut-short fields

  /** The field at the front is unknown, of fixed width, and reaches past the end. */
  predicate CutShort(schema: Schema, s: seq<byte>) {
    var key := ReadFieldKey(s);
    && key.Ok? && key.value.value.number !in schema
    && ((key.value.value.wireType == 1 && |s| < key.value.size + 8)
        || (key.value.value.wireType == 5 && |s| < key.value.size + 4))
  }

  /** A field that is read reaches past the end only when it is cut short. */
  lemma PastTheEnd(schema: Schema, s: seq<byte>)
    requires NextField(schema, s).Ok?
    ensures NextField(schema, s).value.size > |s| <==> CutShort(schema, s)
  {
    ReadVarintValue(s);
    var rest := s[ReadFieldKey(s).value.size..];
    if ReadVarint(rest).Ok? { ReadVarintValue(rest); }
  }

  /**
   A message that splits is well formed exactly when its last field is not an unknown field of
   fixed width cut short: every other truncation is an error.
   */
  lemma WellFormedExactly(schema: Schema, s: seq<byte>)
    requires s != [] && Fields(schema, s).Ok?
    ensures WellFormed(schema, s) <==> !CutShort(schema, s[LastStart(Reader(schema), s)..])
  {
    OverrunOfLast(Reader(schema), s);
    PastTheEnd(schema, s[LastStart(Reader(schema), s)..]);
  }

  // ------------------------------------------------- reading at an offset

  method ReadFieldKeyAt(bytes: seq<byte>, startOffset: nat) returns (r: Result<Read<Key>, DecodeError>)
    requires startOffset <= |bytes|
    ensures r == ReadFieldKey(bytes[startOffset..])
    ensures r.Ok? ==> 0 < r.value.size && startOffset + r.value.size <= |bytes|
  {
    var v := ReadVarintAt(bytes, startOffset);
    match v
    case Err(e) => r := Err(e);
    case Ok(read) =>
      ReadVarintValue(bytes[startOffset..]);
      r := Ok(Read(Key(read.value / 8, read.value % 8), read.size));
  }

  method ReadLengthDelimitedAt(bytes: seq<byte>, startOffset: nat)
      returns (r: Result<Read<seq<byte>>, DecodeError>)
    requires startOffset <= |bytes|
    ensures r == ReadLengthDelimited(bytes[startOffset..])
    ensures r.Ok? ==> startOffset + r.value.size <= |bytes|
  {
    var v := ReadVarintAt(bytes, startOffset);
    match v
    case Err(e) => r := Err(e);
    case Ok(read) =>
      ReadVarintValue(bytes[startOffset..]);
      var nextOffset := startOffset + read.size;
      var endOffset := nextOffset + read.value;
      if endOffset > |bytes| {
        r := Err(MalformedLengthDelimitedField);
      } else {
        assert bytes[startOffset..][read.size..read.size + read.value] == bytes[nextOffset..endOffset];
        r := Ok(Read(bytes[nextOffset..endOffset], endOffset - startOffset));
      }
  }

  method SkipFieldAt(bytes: seq<byte>, startOffset: nat, wireType: nat) returns (r: Result<nat, DecodeError>)
    requires startOffset <= |bytes|
    ensures r == SkipField(bytes[startOffset..], wireType)
  {
    if wireType == 0 {
      var v := ReadVarintAt(bytes, startOffset);
      r := match v case Ok(read) => Ok(read.size) case Err(e) => Err(e);
    } else if wireType == 1 {
      r := Ok(8);
    } else if wireType == 2 {
      var v := ReadLengthDelimitedAt(bytes, startOffset);
      r := match v case Ok(read) => Ok(read.size) case Err(e) => Err(e);
    } else if wireType == 5 {
      r := Ok(4);
    } else {
      r := Err(UnsupportedWireType(wireType));
    }
  }

  // ------------------------------------------------------------- concatenation

  lemma ReadLengthDelimitedExtends(a: seq<byte>, b: seq<byte>)
    requires ReadLengthDelimited(a).Ok?
    ensures ReadLengthDelimited(a + b) == ReadLengthDelimited(a)
    ensures ReadLengthDelimited(a).value.size <= |a|
  {
    ReadVarintExtends(a, b);
    var r := ReadVarint(a).value;
    assert (a + b)[r.size..r.size + r.value] == a[r.size..r.size + r.value];
  }

  lemma ReadPayloadExtends(schema: Schema, key: Key, a: seq<byte>, b: seq<byte>)
    requires ReadPayload(schema, key, a).Ok?
    ensures ReadPayload(schema, key, a + b) == ReadPayload(schema, key, a)
  {
    if ReadVarint(a).Ok? { ReadVarintExtends(a, b); }
    if ReadLengthDelimited(a).Ok? { ReadLengthDelimitedExtends(a, b); }
  }

  /** A field that was read does not depend on the bytes after the message. */
  lemma NextFieldExtends(schema: Schema, a: seq<byte>, b: seq<byte>)
    requires NextField(schema, a).Ok?
    ensures NextField(schema, a + b) == NextField(schema, a)
  {
    ReadVarintExtends(a, b);
    ReadVarintValue(a);
    var k := ReadFieldKey(a).value;
    ReadPayloadExtends(schema, k.value, a[k.size..], b);
    assert (a + b)[k.size..] == a[k.size..] + b;
  }

  lemma ReaderIsLocal(schema: Schema)
    ensures Local(Reader(schema))
  {
    var next := Reader(schema);
    forall a: seq<byte>, b: seq<byte> | next(a).Ok?
      ensures next(a + b) == next(a)
    {
      NextFieldExtends(schema, a, b);
    }
  }

  /**
   Splitting into fields is a homomorphism: a well-formed message followed by any bytes at all
   splits into its own fields followed by those of the rest, with the same error or overrun.
   */
  lemma FieldsConcat(schema: Schema, a: seq<byte>, b: seq<byte>)
    requires WellFormed(schema, a)
    ensures Fields(schema, a + b) == Prepend(Fields(schema, a).value.parts, Fields(schema, b))
  {
    ReaderIsLocal(schema);
    SplitConcat(Reader(schema), a, b);
  }

  // ------------------------------------------------------------------ writing

  function FieldKeyBytes(number: nat, wireType: nat): seq<byte> {
    VarintBytes(8 * number + wireType)
  }

  function ChunkFieldBytes(number: nat, chunk: seq<byte>): seq<byte> {
    FieldKeyBytes(number, 2) + VarintBytes(ToUint32(|chunk|)) + chunk
  }

  function NumberFieldBytes(number: nat, value: int): seq<byte> {
    FieldKeyBytes(number, 0) + VarintBytes(ToUint32(value))
  }

  /** `encodeFieldKey`: `(fieldNumber << 3) | wireType`, for field numbers below 2^29. */
  method EncodeFieldKey(number: nat, wireType: nat) returns (bytes: seq<byte>)
    requires number < 0x2000_0000 && wireType < 8
    ensures bytes == FieldKeyBytes(number, wireType) == VarintBytes(8 * number + wireType)
  {
    OrKey(number, wireType);
    bytes := EncodeVarint(Or(ShiftLeft(number, 3), wireType));
  }

  /** `encodeStringField` and `encodeEmbeddedMessage` once the payload bytes are known. */
  method EncodeChunkField(number: nat, chunk: seq<byte>) returns (bytes: seq<byte>)
    requires number < 0x2000_0000
    ensures bytes == ChunkFieldBytes(number, chunk)
    ensures bytes == VarintBytes(8 * number + 2) + VarintBytes(|chunk| % U32) + chunk
  {
    var key := EncodeFieldKey(number, 2);
    var length := EncodeVarint(|chunk|);
    bytes := key + length + chunk;
  }

  /** `encodeUInt32Field`. */
  method EncodeNumberField(number: nat, value: int) returns (bytes: seq<byte>)
    requires number < 0x2000_0000
    ensures bytes == NumberFieldBytes(number, value)
    ensures bytes == VarintBytes(8 * number) + VarintBytes(value % U32)
  {
    var key := EncodeFieldKey(number, 0);
    var digits := EncodeVarint(ToUint32(value));
    bytes := key + digits;
  }

  lemma OrKey(number: nat, wireType: nat)
    requires number < 0x2000_0000 && wireType < 8
    ensures Or(ShiftLeft(number, 3), wireType) == 8 * number + wireType
  {
    Pow2Values();
    ShiftLow(number, 3, 8);
    OrDisjoint(wireType, number, 3);
    OrCommutes(wireType, 8 * number);
  }

  lemma KeyRoundTrip(number: nat, wireType: nat, rest: seq<byte>)
    requires number < 0x2000_0000 && wireType < 8
    ensures ReadFieldKey(FieldKeyBytes(number, wireType) + rest) ==
            Ok(Read(Key(number, wireType), |FieldKeyBytes(number, wireType)|))
  {
    var key := 8 * number + wireType;
    VarintRoundTrip(key, rest);
    assert key / 8 == number && key % 8 == wireType;
  }

  /** A key and a payload read one after the other make a field. */
  lemma KeyThenPayload(schema: Schema, number: nat, wireType: nat, body: seq<byte>, payload: Read<Payload>)
    requires number < 0x2000_0000 && wireType < 8
    requires ReadPayload(schema, Key(number, wireType), body) == Ok(payload)
    ensures var key := FieldKeyBytes(number, wireType);
            NextField(schema, key + body) == Ok(Read(Field(number, payload.value), |key| + payload.size))
  {
    KeyRoundTrip(number, wireType, body);
    var key := FieldKeyBytes(number, wireType);
    assert (key + body)[|key|..] == body;
  }

  lemma LengthDelimitedRoundTrip(chunk: seq<byte>, rest: seq<byte>)
    requires |chunk| < U32
    ensures var length := VarintBytes(|chunk|);
            ReadLengthDelimited(length + (chunk + rest)) == Ok(Read(chunk, |length| + |chunk|))
  {
    var length := VarintBytes(|chunk|);
    VarintRoundTrip(|chunk|, chunk + rest);
    assert (length + (chunk + rest))[|length|..|length| + |chunk|] == chunk;
  }

  lemma Reassociate(a: seq<byte>, b: seq<byte>, c: seq<byte>, d: seq<byte>)
    ensures ((a + b) + c) + d == a + (b + (c + d))
  {
  }

  lemma ChunkPayloadRoundTrip(schema: Schema, number: nat, chunk: seq<byte>, rest: seq<byte>)
    requires |chunk| < U32 && number in schema && schema[number] == ChunkKind
    ensures var length := VarintBytes(|chunk|);
            ReadPayload(schema, Key(number, 2), length + (chunk + rest)) ==
            Ok(Read(Chunk(chunk), |length| + |chunk|))
  {
    LengthDelimitedRoundTrip(chunk, rest);
  }

  /** A written chunk field is the next field read, whatever follows it. */
  lemma ChunkFieldRoundTrip(schema: Schema, number: nat, chunk: seq<byte>, rest: seq<byte>)
    requires number < 0x2000_0000 && |chunk| < U32 && number in schema && schema[number] == ChunkKind
    ensures NextField(schema, ChunkFieldBytes(number, chunk) + rest) ==
            Ok(Read(Field(number, Chunk(chunk)), |ChunkFieldBytes(number, chunk)|))
  {
    var key, length := FieldKeyBytes(number, 2), VarintBytes(|chunk|);
    ChunkPayloadRoundTrip(schema, number, chunk, rest);
    KeyThenPayload(schema, number, 2, length + (chunk + rest), Read(Chunk(chunk), |length| + |chunk|));
    Reassociate(key, length, chunk, rest);
  }

  lemma NumberFieldRoundTrip(schema: Schema, number: nat, value: nat, rest: seq<byte>)
    requires number < 0x2000_0000 && value < U32 && number in schema && schema[number] == VarintKind
    ensures NextField(schema, NumberFieldBytes(number, value) + rest) ==
            Ok(Read(Field(number, Number(value)), |NumberFieldBytes(number, value)|))
  {
    var key, digits := FieldKeyBytes(number, 0), VarintBytes(value);
    assert ReadPayload(schema, Key(number, 0), digits + rest) == Ok(Read(Number(value), |digits|)) by {
      VarintRoundTrip(value, rest);
    }
    KeyThenPayload(schema, number, 0, digits + rest, Read(Number(value), |digits|));
    assert NumberFieldBytes(number, value) + rest == key + (digits + rest);
  }

  /** A field that can be read in front of anything is one element of the split. */
  lemma FieldsCons(schema: Schema, s: seq<byte>, field: Field, rest: seq<byte>)
    requires s != [] && NextField(schema, s + rest) == Ok(Read(field, |s|))
    ensures Fields(schema, s + rest) == Prepend([field], Fields(schema, rest))
  {
    SplitCons(Reader(schema), s, field, rest);
  }

  // ------------------------------------------------------------ unknown fields

  /** What is written for field `number` with a wire type is a key, and then its payload. */
  lemma UnknownPayload(schema: Schema, number: nat, wireType: nat, body: seq<byte>, size: nat)
    requires number < 0x2000_0000 && wireType < 8 && number !in schema && SkipField(body, wireType) == Ok(size)
    ensures var key := VarintBytes(8 * number + wireType);
            NextField(schema, key + body) == Ok(Read(Field(number, Skipped), |key| + size))
  {
    KeyThenPayload(schema, number, wireType, body, Read(Skipped, size));
  }

  lemma SkippedWhole(schema: Schema, number: nat, wireType: nat, payload: seq<byte>, rest: seq<byte>)
    requires number < 0x2000_0000 && wireType < 8 && number !in schema
    requires SkipField(payload + rest, wireType) == Ok(|payload|)
    ensures var s := VarintBytes(8 * number + wireType) + payload;
            NextField(schema, s + rest) == Ok(Read(Field(number, Skipped), |s|))
  {
    UnknownPayload(schema, number, wireType, payload + rest, |payload|);
    var key := VarintBytes(8 * number + wireType);
    assert (key + payload) + rest == key + (payload + rest);
  }

  /** An unknown length-delimited field is skipped with all of its payload. */
  lemma UnknownChunkSkipped(schema: Schema, number: nat, chunk: seq<byte>, rest: seq<byte>)
    requires number < 0x2000_0000 && number !in schema && |chunk| < U32
    ensures var s := VarintBytes(8 * number + 2) + VarintBytes(|chunk|) + chunk;
            NextField(schema, s + rest) == Ok(Read(Field(number, Skipped), |s|))
  {
    var key, length := VarintBytes(8 * number + 2), VarintBytes(|chunk|);
    LengthDelimitedRoundTrip(chunk, rest);
    UnknownPayload(schema, number, 2, length + (chunk + rest), |length| + |chunk|);
    Reassociate(key, length, chunk, rest);
  }

  lemma SkipNumber(value: nat, rest: seq<byte>)
    requires value < U32
    ensures SkipField(VarintBytes(value) + rest, 0) == Ok(|VarintBytes(value)|)
  {
    VarintRoundTrip(value, rest);
  }

  /** An unknown varint field is skipped with its value. */
  lemma UnknownNumberSkipped(schema: Schema, number: nat, value: nat, rest: seq<byte>)
    requires number < 0x2000_0000 && number !in schema && value < U32
    ensures var s := VarintBytes(8 * number) + VarintBytes(value);
            NextField(schema, s + rest) == Ok(Read(Field(number, Skipped), |s|))
  {
    SkipNumber(value, rest);
    SkippedWhole(schema, number, 0, VarintBytes(value), rest);
  }

  /** Unknown fields of fixed width: eight bytes for wire type 1, four for wire type 5. */
  lemma UnknownFixedSkipped(schema: Schema, number: nat, rest: seq<byte>)
    requires number < 0x2000_0000 && number !in schema
    ensures var key := VarintBytes(8 * number + 1);
            NextField(schema, key + rest) == Ok(Read(Field(number, Skipped), |key| + 8))
    ensures var key := VarintBytes(8 * number + 5);
            NextField(schema, key + rest) == Ok(Read(Field(number, Skipped), |key| + 4))
  {
    UnknownPayload(schema, number, 1, rest, 8);
    UnknownPayload(schema, number, 5, rest, 4);
  }

  lemma KeyThenError(schema: Schema, number: nat, wireType: nat, rest: seq<byte>, e: DecodeError)
    requires number < 0x2000_0000 && wireType < 8 && ReadPayload(schema, Key(number, wireType), rest) == Err(e)
    ensures NextField(schema, VarintBytes(8 * number + wireType) + rest) == Err(e)
  {
    KeyRoundTrip(number, wireType, rest);
    var key := VarintBytes(8 * number + wireType);
    assert (key + rest)[|key|..] == rest;
  }

  /** The other wire types are refused on an unknown field. */
  lemma UnsupportedRefused(schema: Schema, number: nat, wireType: nat, rest: seq<byte>)
    requires number < 0x2000_0000 && number !in schema && wireType in {3, 4, 6, 7}
    ensures NextField(schema, VarintBytes(8 * number + wireType) + rest) == Err(UnsupportedWireType(wireType))
  {
    KeyThenError(schema, number, wireType, rest, UnsupportedWireType(wireType));
  }

  /** A known field is refused with any wire type but its own: 0 for a varint, 2 for a chunk. */
  lemma WrongWireTypeRefused(schema: Schema, number: nat, wireType: nat, rest: seq<byte>)
    requires number < 0x2000_0000 && wireType < 8 && number in schema
    requires wireType != if schema[number] == VarintKind then 0 else 2
    ensures NextField(schema, VarintBytes(8 * number + wireType) + rest) == Err(UnexpectedWireType(number))
  {
    KeyThenError(schema, number, wireType, rest, UnexpectedWireType(number));
  }

  /** A chunk that is announced longer than what is left is refused, known or not. */
  lemma LongChunkRefused(schema: Schema, number: nat, length: nat, rest: seq<byte>)
    requires number < 0x2000_0000 && length < U32 && |rest| < length
    requires number in schema ==> schema[number] == ChunkKind
    ensures NextField(schema, VarintBytes(8 * number + 2) + (VarintBytes(length) + rest)) ==
            Err(MalformedLengthDelimitedField)
  {
    VarintRoundTrip(length, rest);
    KeyThenError(schema, number, 2, VarintBytes(length) + rest, MalformedLengthDelimitedField);
  }
}
