/** The fee-bump response messages of `client/src/grpcTransport.ts`. */
module Messages {
  import opened Prelude
  import opened Splitting
  import opened Varint
  import opened Wire

  /** The platform's `TextEncoder` and `TextDecoder`. */
  datatype Utf8 = Utf8(encode: string -> seq<byte>, decode: seq<byte> -> string)

  datatype Response = Response(
    xdr: string,
    status: string,
    hash: Option<string>,
    feePayer: Option<string>,
    submittedVia: Option<string>,
    submissionAttempts: Option<nat>
  )

  const RESPONSE_SCHEMA: Schema :=
    map[1 := ChunkKind, 2 := ChunkKind, 3 := ChunkKind, 4 := ChunkKind, 5 := ChunkKind, 6 := VarintKind]

  const BATCH_SCHEMA: Schema := map[1 := ChunkKind]

  const EMPTY_RESPONSE := Response("", "", None, None, None, None)

  // ------------------------------------------------------ decoding a response

  /** The assignment a decoder makes for one field. */
  function Assign(u: Utf8, r: Response, f: Field): Response {
    match f.payload
    case Skipped => r
    case Number(n) => if f.number == 6 then r.(submissionAttempts := Some(n)) else r
    case Chunk(bytes) =>
      if f.number == 1 then r.(xdr := u.decode(bytes))
      else if f.number == 2 then r.(status := u.decode(bytes))
      else if f.number == 3 then r.(hash := Some(u.decode(bytes)))
      else if f.number == 4 then r.(feePayer := Some(u.decode(bytes)))
      else if f.number == 5 then r.(submittedVia := Some(u.decode(bytes)))
      else r
  }

  function AssignAll(u: Utf8, r: Response, fields: seq<Field>): Response
    decreases |fields|
  {
    if fields == [] then r else AssignAll(u, Assign(u, r, fields[0]), fields[1..])
  }

  /** Split first, assign afterwards: what the one-pass loop below amounts to. */
  function DecodeResponse(u: Utf8, payload: seq<byte>): Result<Response, DecodeError> {
    match Fields(RESPONSE_SCHEMA, payload)
    case Err(e) => Err(e)
    case Ok(split) => Ok(AssignAll(u, EMPTY_RESPONSE, split.parts))
  }

  function AssignFrom(u: Utf8, r: Response, s: seq<byte>): Result<Response, DecodeError> {
    match Fields(RESPONSE_SCHEMA, s)
    case Err(e) => Err(e)
    case Ok(split) => Ok(AssignAll(u, r, split.parts))
  }

  lemma AssignTurn(u: Utf8, r: Response, s: seq<byte>)
    requires s != []
    ensures AssignFrom(u, r, s) ==
            match NextField(RESPONSE_SCHEMA, s)
            case Err(e) => Err(e)
            case Ok(f) =>
              if f.size > |s| then Ok(Assign(u, r, f.value)) else AssignFrom(u, Assign(u, r, f.value), s[f.size..])
  {
    var next := Reader(RESPONSE_SCHEMA);
    assert next(s) == NextField(RESPONSE_SCHEMA, s);
    if next(s).Ok? {
      var f := next(s).value;
      assert AssignAll(u, r, [f.value]) == AssignAll(u, Assign(u, r, f.value), [f.value][1..]);
      if f.size <= |s| && SplitAll(next, s[f.size..]).Ok? {
        var rest := SplitAll(next, s[f.size..]).value.parts;
        assert ([f.value] + rest)[1..] == rest;
      }
    }
  }

  /** One turn of the decoder's loop: the field at `offset`. */
  method ReadResponseField(u: Utf8, payload: seq<byte>, offset: nat, response: Response)
      returns (r: Result<Read<Response>, DecodeError>)
    requires offset < |payload|
    ensures r == match NextField(RESPONSE_SCHEMA, payload[offset..])
                 case Err(e) => Err(e)
                 case Ok(f) => Ok(Read(Assign(u, response, f.value), f.size))
  {
    var key := ReadFieldKeyAt(payload, offset);
    if key.Err? {
      return Err(key.error);
    }
    var Key(number, wireType) := key.value.value;
    var nextOffset := offset + key.value.size;
    assert payload[offset..][key.value.size..] == payload[nextOffset..];
    if 1 <= number <= 5 {
      if wireType != 2 {
        return Err(UnexpectedWireType(number));
      }
      var field := ReadLengthDelimitedAt(payload, nextOffset);
      if field.Err? {
        return Err(field.error);
      }
      var text := u.decode(field.value.value);
      var response' :=
        if number == 1 then response.(xdr := text)
        else if number == 2 then response.(status := text)
        else if number == 3 then response.(hash := Some(text))
        else if number == 4 then response.(feePayer := Some(text))
        else response.(submittedVia := Some(text));
      return Ok(Read(response', key.value.size + field.value.size));
    } else if number == 6 {
      if wireType != 0 {
        return Err(UnexpectedWireType(number));
      }
      var field := ReadVarintAt(payload, nextOffset);
      if field.Err? {
        return Err(field.error);
      }
      return Ok(Read(response.(submissionAttempts := Some(field.value.value)), key.value.size + field.value.size));
    } else {
      var size := SkipFieldAt(payload, nextOffset, wireType);
      if size.Err? {
        return Err(size.error);
      }
      return Ok(Read(response, key.value.size + size.value));
    }
  }

  /** `decodeFeeBumpResponse`. */
  method DecodeFeeBumpResponse(u: Utf8, payload: seq<byte>) returns (r: Result<Response, DecodeError>)
    ensures r == DecodeResponse(u, payload)
  {
    var response, offset := EMPTY_RESPONSE, 0;
    assert payload[0..] == payload;
    while offset < |payload|
      invariant offset <= |payload| ==> DecodeResponse(u, payload) == AssignFrom(u, response, payload[offset..])
      invariant offset > |payload| ==> DecodeResponse(u, payload) == Ok(response)
      decreases |payload| - offset
    {
      AssignTurn(u, response, payload[offset..]);
      var field := ReadResponseField(u, payload, offset, response);
      if field.Err? {
        return Err(field.error);
      }
      ghost var before := offset;
      response, offset := field.value.value, offset + field.value.size;
      if offset <= |payload| {
        assert payload[before..][field.value.size..] == payload[offset..];
      }
    }
    if offset == |payload| {
      assert payload[offset..] == [];
    }
    return Ok(response);
  }

  // ----------------------------------------------------- truncated messages

  /** The decoder takes a truncated message exactly when its last field is an unknown one cut short. */
  lemma TruncatedExactly(u: Utf8, payload: seq<byte>)
    requires payload != [] && DecodeResponse(u, payload).Ok?
    ensures WellFormed(RESPONSE_SCHEMA, payload) <==>
            !CutShort(RESPONSE_SCHEMA, payload[LastStart(Reader(RESPONSE_SCHEMA), payload)..])
  {
    WellFormedExactly(RESPONSE_SCHEMA, payload);
  }

  /** It does take one: the key of a 64-bit field 7 and a single byte of its payload. */
  lemma TruncatedAccepted(u: Utf8)
    ensures DecodeResponse(u, [57, 0]) == Ok(EMPTY_RESPONSE)
    ensures Fields(RESPONSE_SCHEMA, [57, 0]) == Ok(Split([Field(7, Skipped)], 7))
    ensures !WellFormed(RESPONSE_SCHEMA, [57, 0])
  {
    var s: seq<byte> := [57, 0];
    assert VarintBytes(57) == [57];
    VarintRoundTrip(57, [0]);
    assert s == VarintBytes(57) + [0];
    assert NextField(RESPONSE_SCHEMA, s) == Ok(Read(Field(7, Skipped), 9));
    assert Reader(RESPONSE_SCHEMA)(s) == NextField(RESPONSE_SCHEMA, s);
    assert AssignAll(u, EMPTY_RESPONSE, [Field(7, Skipped)]) == AssignAll(u, EMPTY_RESPONSE, [Field(7, Skipped)][1..]);
  }

  // ---------------------------------------------------------- last one wins

  /** The payload of the last chunk field with a given number. */
  function LastChunk(fields: seq<Field>, number: nat): Option<seq<byte>> {
    if fields == [] then None
    else
      var last := fields[|fields| - 1];
      if last.number == number && last.payload.Chunk? then Some(last.payload.bytes)
      else LastChunk(fields[..|fields| - 1], number)
  }

  function LastNumber(fields: seq<Field>, number: nat): Option<nat> {
    if fields == [] then None
    else
      var last := fields[|fields| - 1];
      if last.number == number && last.payload.Number? then Some(last.payload.value)
      else LastNumber(fields[..|fields| - 1], number)
  }

  function Text(u: Utf8, chunk: Option<seq<byte>>): Option<string> {
    if chunk.Some? then Some(u.decode(chunk.value)) else None
  }

  /** What a message says about each field, with absent kept apart from empty. */
  datatype Patch = Patch(
    xdr: Option<string>,
    status: Option<string>,
    hash: Option<string>,
    feePayer: Option<string>,
    submittedVia: Option<string>,
    submissionAttempts: Option<nat>
  )

  function PatchOf(u: Utf8, fields: seq<Field>): Patch {
    Patch(Text(u, LastChunk(fields, 1)), Text(u, LastChunk(fields, 2)), Text(u, LastChunk(fields, 3)),
          Text(u, LastChunk(fields, 4)), Text(u, LastChunk(fields, 5)), LastNumber(fields, 6))
  }

  function Later<T>(older: Option<T>, newer: Option<T>): Option<T> {
    if newer.Some? then newer else older
  }

  function MergePatch(older: Patch, newer: Patch): Patch {
    Patch(Later(older.xdr, newer.xdr), Later(older.status, newer.status), Later(older.hash, newer.hash),
          Later(older.feePayer, newer.feePayer), Later(older.submittedVia, newer.submittedVia),
          Later(older.submissionAttempts, newer.submissionAttempts))
  }

  function Overlay(r: Response, p: Patch): Response {
    Response(if p.xdr.Some? then p.xdr.value else r.xdr, if p.status.Some? then p.status.value else r.status,
             Later(r.hash, p.hash), Later(r.feePayer, p.feePayer), Later(r.submittedVia, p.submittedVia),
             Later(r.submissionAttempts, p.submissionAttempts))
  }

  lemma {:induction false} LastChunkConcat(a: seq<Field>, b: seq<Field>, number: nat)
    ensures LastChunk(a + b, number) == Later(LastChunk(a, number), LastChunk(b, number))
    decreases |b|
  {
    if b == [] {
      assert a + b == a;
    } else {
      LastChunkConcat(a, b[..|b| - 1], number);
      assert (a + b)[..|a + b| - 1] == a + b[..|b| - 1];
    }
  }

  lemma {:induction false} LastNumberConcat(a: seq<Field>, b: seq<Field>, number: nat)
    ensures LastNumber(a + b, number) == Later(LastNumber(a, number), LastNumber(b, number))
    decreases |b|
  {
    if b == [] {
      assert a + b == a;
    } else {
      LastNumberConcat(a, b[..|b| - 1], number);
      assert (a + b)[..|a + b| - 1] == a + b[..|b| - 1];
    }
  }

  lemma PatchConcat(u: Utf8, a: seq<Field>, b: seq<Field>)
    ensures PatchOf(u, a + b) == MergePatch(PatchOf(u, a), PatchOf(u, b))
  {
    LastChunkConcat(a, b, 1);
    LastChunkConcat(a, b, 2);
    LastChunkConcat(a, b, 3);
    LastChunkConcat(a, b, 4);
    LastChunkConcat(a, b, 5);
    LastNumberConcat(a, b, 6);
  }

  lemma {:induction false} AssignAllSnoc(u: Utf8, r: Response, fields: seq<Field>, f: Field)
    ensures AssignAll(u, r, fields + [f]) == Assign(u, AssignAll(u, r, fields), f)
    decreases |fields|
  {
    if fields == [] {
      assert [f][1..] == [];
    } else {
      assert (fields + [f])[1..] == fields[1..] + [f];
      AssignAllSnoc(u, Assign(u, r, fields[0]), fields[1..], f);
    }
  }

  /** Assigning the fields in turn leaves, in each slot, the last field that names it. */
  lemma {:induction false} LastOneWins(u: Utf8, r: Response, fields: seq<Field>)
    ensures AssignAll(u, r, fields) == Overlay(r, PatchOf(u, fields))
    decreases |fields|
  {
    if fields == [] {
    } else {
      var init, last := fields[..|fields| - 1], fields[|fields| - 1];
      assert fields == init + [last];
      LastOneWins(u, r, init);
      AssignAllSnoc(u, r, init, last);
    }
  }

  function ResponsePatch(u: Utf8, payload: seq<byte>): Patch
    requires Fields(RESPONSE_SCHEMA, payload).Ok?
  {
    PatchOf(u, Fields(RESPONSE_SCHEMA, payload).value.parts)
  }

  /**
   Decoding is a homomorphism. After a well-formed message, further bytes either fail just as they
   would alone, or overlay what they say: the last value wins for every field.
   */
  lemma DecodeResponseConcat(u: Utf8, a: seq<byte>, b: seq<byte>)
    requires WellFormed(RESPONSE_SCHEMA, a)
    ensures match Fields(RESPONSE_SCHEMA, b)
            case Err(e) => DecodeResponse(u, a + b) == Err(e)
            case Ok(_) =>
              && Fields(RESPONSE_SCHEMA, a + b).Ok?
              && ResponsePatch(u, a + b) == MergePatch(ResponsePatch(u, a), ResponsePatch(u, b))
              && DecodeResponse(u, a).Ok?
              && DecodeResponse(u, a + b) == Ok(Overlay(DecodeResponse(u, a).value, ResponsePatch(u, b)))
              && DecodeResponse(u, b) == Ok(Overlay(EMPTY_RESPONSE, ResponsePatch(u, b)))
  {
    FieldsConcat(RESPONSE_SCHEMA, a, b);
    if Fields(RESPONSE_SCHEMA, b).Ok? {
      var fa, fb := Fields(RESPONSE_SCHEMA, a).value.parts, Fields(RESPONSE_SCHEMA, b).value.parts;
      PatchConcat(u, fa, fb);
      LastOneWins(u, EMPTY_RESPONSE, fa + fb);
      LastOneWins(u, EMPTY_RESPONSE, fa);
      LastOneWins(u, EMPTY_RESPONSE, fb);
    }
  }

  /** Merging two decoded messages without looking at which fields they carried. */
  function MergeValues(older: Response, newer: Response): Response {
    Response(if newer.xdr != "" then newer.xdr else older.xdr,
             if newer.status != "" then newer.status else older.status,
             Later(older.hash, newer.hash), Later(older.feePayer, newer.feePayer),
             Later(older.submittedVia, newer.submittedVia),
             Later(older.submissionAttempts, newer.submissionAttempts))
  }

  /**
   Decoded values alone merge to the decoded concatenation exactly when the second message does
   not blank out, with an explicit empty string, an `xdr` or `status` that the first one set.
   */
  lemma MergeValuesExact(u: Utf8, a: seq<byte>, b: seq<byte>)
    requires WellFormed(RESPONSE_SCHEMA, a) && Fields(RESPONSE_SCHEMA, b).Ok?
    ensures DecodeResponse(u, a).Ok? && DecodeResponse(u, b).Ok?
    ensures var da, db, pb := DecodeResponse(u, a).value, DecodeResponse(u, b).value, ResponsePatch(u, b);
            DecodeResponse(u, a + b) == Ok(MergeValues(da, db)) <==>
            && (pb.xdr == Some("") ==> da.xdr == "")
            && (pb.status == Some("") ==> da.status == "")
  {
    DecodeResponseConcat(u, a, b);
  }

  /** Fields that a decoder does not know. */
  predicate AllSkipped(fields: seq<Field>) {
    forall f :: f in fields ==> f.payload.Skipped?
  }

  lemma {:induction false} SkippedSayNothing(fields: seq<Field>, number: nat)
    requires AllSkipped(fields)
    ensures LastChunk(fields, number) == None && LastNumber(fields, number) == None
    decreases |fields|
  {
    if fields == [] {
    } else {
      assert fields[|fields| - 1] in fields;
      SkippedSayNothing(fields[..|fields| - 1], number);
    }
  }

  /** Well-formed unknown fields inserted at any field boundary change neither the result nor the error. */
  lemma UnknownFieldsIgnored(u: Utf8, a: seq<byte>, unknown: seq<byte>, b: seq<byte>)
    requires WellFormed(RESPONSE_SCHEMA, a) && WellFormed(RESPONSE_SCHEMA, unknown)
    requires AllSkipped(Fields(RESPONSE_SCHEMA, unknown).value.parts)
    ensures DecodeResponse(u, a + unknown + b) == DecodeResponse(u, a + b)
  {
    FieldsConcat(RESPONSE_SCHEMA, a, unknown);
    FieldsConcat(RESPONSE_SCHEMA, a + unknown, b);
    FieldsConcat(RESPONSE_SCHEMA, a, b);
    if Fields(RESPONSE_SCHEMA, b).Ok? {
      var fa, fu := Fields(RESPONSE_SCHEMA, a).value.parts, Fields(RESPONSE_SCHEMA, unknown).value.parts;
      var fb := Fields(RESPONSE_SCHEMA, b).value.parts;
      SkippedPatch(u, fu);
      PatchConcat(u, fa, fu);
      PatchConcat(u, fa + fu, fb);
      PatchConcat(u, fa, fb);
      LastOneWins(u, EMPTY_RESPONSE, fa + fu + fb);
      LastOneWins(u, EMPTY_RESPONSE, fa + fb);
    }
  }

  lemma SkippedPatch(u: Utf8, fields: seq<Field>)
    requires AllSkipped(fields)
    ensures PatchOf(u, fields) == Patch(None, None, None, None, None, None)
  {
    SkippedSayNothing(fields, 1);
    SkippedSayNothing(fields, 2);
    SkippedSayNothing(fields, 3);
    SkippedSayNothing(fields, 4);
    SkippedSayNothing(fields, 5);
    SkippedSayNothing(fields, 6);
  }

  // --------------------------------------------------- fields, byte by byte

  /** A field in front of a message that splits off as `field`. */
  lemma FieldInFront(u: Utf8, s: seq<byte>, field: Field, b: seq<byte>)
    requires s != [] && NextField(RESPONSE_SCHEMA, s + b) == Ok(Read(field, |s|))
    ensures DecodeResponse(u, s + b) == AssignFrom(u, Assign(u, EMPTY_RESPONSE, field), b)
  {
    AssignTurn(u, EMPTY_RESPONSE, s + b);
    assert (s + b)[|s|..] == b;
  }

  /** An unknown field in front of a message changes nothing, whatever its payload holds. */
  lemma UnknownInFront(u: Utf8, number: nat, chunk: seq<byte>, value: nat, b: seq<byte>)
    requires number < 0x2000_0000 && !(1 <= number <= 6) && |chunk| < U32 && value < U32
    ensures DecodeResponse(u, VarintBytes(8 * number + 2) + VarintBytes(|chunk|) + chunk + b) == DecodeResponse(u, b)
    ensures DecodeResponse(u, VarintBytes(8 * number) + VarintBytes(value) + b) == DecodeResponse(u, b)
    ensures |chunk| == 8 ==> DecodeResponse(u, VarintBytes(8 * number + 1) + chunk + b) == DecodeResponse(u, b)
    ensures |chunk| == 4 ==> DecodeResponse(u, VarintBytes(8 * number + 5) + chunk + b) == DecodeResponse(u, b)
  {
    var skipped := Field(number, Skipped);
    UnknownChunkSkipped(RESPONSE_SCHEMA, number, chunk, b);
    FieldInFront(u, VarintBytes(8 * number + 2) + VarintBytes(|chunk|) + chunk, skipped, b);
    UnknownNumberSkipped(RESPONSE_SCHEMA, number, value, b);
    FieldInFront(u, VarintBytes(8 * number) + VarintBytes(value), skipped, b);
    UnknownFixedInFront(u, number, chunk, b);
  }

  lemma UnknownFixedInFront(u: Utf8, number: nat, fixed: seq<byte>, b: seq<byte>)
    requires number < 0x2000_0000 && !(1 <= number <= 6)
    ensures |fixed| == 8 ==> DecodeResponse(u, VarintBytes(8 * number + 1) + fixed + b) == DecodeResponse(u, b)
    ensures |fixed| == 4 ==> DecodeResponse(u, VarintBytes(8 * number + 5) + fixed + b) == DecodeResponse(u, b)
  {
    UnknownFixedSkipped(RESPONSE_SCHEMA, number, fixed + b);
    var wide, narrow := VarintBytes(8 * number + 1), VarintBytes(8 * number + 5);
    assert wide + fixed + b == wide + (fixed + b) && narrow + fixed + b == narrow + (fixed + b);
    if |fixed| == 8 { FieldInFront(u, wide + fixed, Field(number, Skipped), b); }
    if |fixed| == 4 { FieldInFront(u, narrow + fixed, Field(number, Skipped), b); }
  }

  /** A text field alone sets its own slot. */
  lemma TextFieldSets(u: Utf8, number: nat, chunk: seq<byte>)
    requires 1 <= number <= 5 && |chunk| < U32
    ensures var text := u.decode(chunk);
            DecodeResponse(u, VarintBytes(8 * number + 2) + VarintBytes(|chunk|) + chunk) ==
            Ok(if number == 1 then EMPTY_RESPONSE.(xdr := text)
               else if number == 2 then EMPTY_RESPONSE.(status := text)
               else if number == 3 then EMPTY_RESPONSE.(hash := Some(text))
               else if number == 4 then EMPTY_RESPONSE.(feePayer := Some(text))
               else EMPTY_RESPONSE.(submittedVia := Some(text)))
  {
    var s := VarintBytes(8 * number + 2) + VarintBytes(|chunk|) + chunk;
    ChunkFieldRoundTrip(RESPONSE_SCHEMA, number, chunk, []);
    FieldInFront(u, s, Field(number, Chunk(chunk)), []);
    assert s + [] == s;
  }

  /** The sixth field is the number of attempts. */
  lemma NumberFieldSets(u: Utf8, value: nat)
    requires value < U32
    ensures DecodeResponse(u, VarintBytes(48) + VarintBytes(value)) ==
            Ok(EMPTY_RESPONSE.(submissionAttempts := Some(value)))
  {
    var s := VarintBytes(8 * 6) + VarintBytes(value);
    NumberFieldRoundTrip(RESPONSE_SCHEMA, 6, value, []);
    FieldInFront(u, s, Field(6, Number(value)), []);
    assert s + [] == s;
  }

  /** A field of the response with another wire type is refused, and so are wire types nobody knows. */
  lemma WrongTypesRefused(u: Utf8, number: nat, wireType: nat, rest: seq<byte>)
    requires number < 0x2000_0000 && wireType < 8
    ensures (1 <= number <= 5 && wireType != 2) || (number == 6 && wireType != 0) ==>
              DecodeResponse(u, VarintBytes(8 * number + wireType) + rest) == Err(UnexpectedWireType(number))
    ensures !(1 <= number <= 6) && wireType in {3, 4, 6, 7} ==>
              DecodeResponse(u, VarintBytes(8 * number + wireType) + rest) == Err(UnsupportedWireType(wireType))
  {
    var s := VarintBytes(8 * number + wireType) + rest;
    if (1 <= number <= 5 && wireType != 2) || (number == 6 && wireType != 0) {
      WrongWireTypeRefused(RESPONSE_SCHEMA, number, wireType, rest);
      AssignTurn(u, EMPTY_RESPONSE, s);
    } else if !(1 <= number <= 6) && wireType in {3, 4, 6, 7} {
      UnsupportedRefused(RESPONSE_SCHEMA, number, wireType, rest);
      AssignTurn(u, EMPTY_RESPONSE, s);
    }
  }
}
