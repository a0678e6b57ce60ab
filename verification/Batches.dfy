/** Writing responses, and batches of responses as embedded messages. */
module Batches {
  import opened Prelude
  import opened Splitting
  import opened Varint
  import opened Wire
  import opened Messages

  // ------------------------------------------------------ encoding a response

  /** A string that `TextDecoder` gives back after `TextEncoder`, and whose length fits a varint. */
  ghost predicate Faithful(u: Utf8, text: string) {
    u.decode(u.encode(text)) == text && |u.encode(text)| < U32
  }

  ghost predicate FaithfulOption(u: Utf8, text: Option<string>) {
    text.Some? ==> Faithful(u, text.value)
  }

  ghost predicate Encodable(u: Utf8, r: Response) {
    && Faithful(u, r.xdr) && Faithful(u, r.status)
    && FaithfulOption(u, r.hash) && FaithfulOption(u, r.feePayer) && FaithfulOption(u, r.submittedVia)
    && (r.submissionAttempts.Some? ==> r.submissionAttempts.value < U32)
  }

  /** JavaScript truthiness: an empty optional string is treated as absent. */
  function NonEmpty(text: Option<string>): Option<string> {
    if text.Some? && text.value != "" then text else None
  }

  function Normalised(r: Response): Response {
    r.(hash := NonEmpty(r.hash), feePayer := NonEmpty(r.feePayer), submittedVia := NonEmpty(r.submittedVia))
  }

  function OptionalText(u: Utf8, number: nat, text: Option<string>): seq<byte> {
    if NonEmpty(text).Some? then ChunkFieldBytes(number, u.encode(text.value)) else []
  }

  function OptionalNumber(number: nat, value: Option<nat>): seq<byte> {
    if value.Some? then NumberFieldBytes(number, value.value) else []
  }

  function ResponseBytes(u: Utf8, r: Response): seq<byte> {
    ChunkFieldBytes(1, u.encode(r.xdr)) + ChunkFieldBytes(2, u.encode(r.status))
    + OptionalText(u, 3, r.hash) + OptionalText(u, 4, r.feePayer) + OptionalText(u, 5, r.submittedVia)
    + OptionalNumber(6, r.submissionAttempts)
  }

  method EncodeOptionalText(u: Utf8, number: nat, text: Option<string>) returns (bytes: seq<byte>)
    requires number < 0x2000_0000
    ensures bytes == OptionalText(u, number, text)
  {
    bytes := [];
    if text.Some? && text.value != "" {
      bytes := EncodeChunkField(number, u.encode(text.value));
    }
  }

  /** `encodeFeeBumpResponse`. */
  method EncodeFeeBumpResponse(u: Utf8, r: Response) returns (bytes: seq<byte>)
    ensures bytes == ResponseBytes(u, r)
  {
    var xdr := EncodeChunkField(1, u.encode(r.xdr));
    var status := EncodeChunkField(2, u.encode(r.status));
    var hash := EncodeOptionalText(u, 3, r.hash);
    var feePayer := EncodeOptionalText(u, 4, r.feePayer);
    var submittedVia := EncodeOptionalText(u, 5, r.submittedVia);
    var attempts := [];
    if r.submissionAttempts.Some? {
      attempts := EncodeNumberField(6, r.submissionAttempts.value);
    }
    bytes := xdr + status + hash + feePayer + submittedVia + attempts;
  }

  /** The bytes are a well-formed message that says exactly `patch`. */
  ghost predicate Says(u: Utf8, bytes: seq<byte>, patch: Patch) {
    WellFormed(RESPONSE_SCHEMA, bytes) && ResponsePatch(u, bytes) == patch
  }

  lemma SaysConcat(u: Utf8, a: seq<byte>, p: Patch, b: seq<byte>, q: Patch)
    requires Says(u, a, p) && Says(u, b, q)
    ensures Says(u, a + b, MergePatch(p, q))
  {
    DecodeResponseConcat(u, a, b);
    FieldsConcat(RESPONSE_SCHEMA, a, b);
  }

  /** What one field says by itself. */
  function TextPatch(number: nat, text: Option<string>): Patch {
    Patch(if number == 1 then text else None, if number == 2 then text else None,
          if number == 3 then text else None, if number == 4 then text else None,
          if number == 5 then text else None, None)
  }

  lemma OneField(schema: Schema, bytes: seq<byte>, field: Field)
    requires bytes != [] && NextField(schema, bytes + []) == Ok(Read(field, |bytes|))
    ensures Fields(schema, bytes) == Ok(Split([field], 0))
  {
    FieldsCons(schema, bytes, field, []);
    assert bytes + [] == bytes && [field] + [] == [field];
  }

  lemma OneFieldPatch(u: Utf8, field: Field)
    ensures field.payload.Chunk? && 1 <= field.number <= 5 ==>
              PatchOf(u, [field]) == TextPatch(field.number, Some(u.decode(field.payload.bytes)))
    ensures field.payload.Number? && field.number == 6 ==>
              PatchOf(u, [field]) == Patch(None, None, None, None, None, Some(field.payload.value))
  {
    OneLast(field, 1);
    OneLast(field, 2);
    OneLast(field, 3);
    OneLast(field, 4);
    OneLast(field, 5);
    OneLast(field, 6);
  }

  lemma OneLast(field: Field, number: nat)
    ensures LastChunk([field], number) ==
            if field.number == number && field.payload.Chunk? then Some(field.payload.bytes) else None
    ensures LastNumber([field], number) ==
            if field.number == number && field.payload.Number? then Some(field.payload.value) else None
  {
    assert [field][..0] == [];
    assert LastChunk([], number) == None && LastNumber([], number) == None;
    assert |[field]| - 1 == 0;
  }

  lemma SaysText(u: Utf8, number: nat, text: string)
    requires 1 <= number <= 5 && Faithful(u, text)
    ensures Says(u, ChunkFieldBytes(number, u.encode(text)), TextPatch(number, Some(text)))
  {
    var chunk := u.encode(text);
    ChunkFieldRoundTrip(RESPONSE_SCHEMA, number, chunk, []);
    OneField(RESPONSE_SCHEMA, ChunkFieldBytes(number, chunk), Field(number, Chunk(chunk)));
    OneFieldPatch(u, Field(number, Chunk(chunk)));
  }

  lemma SaysOptionalText(u: Utf8, number: nat, text: Option<string>)
    requires 1 <= number <= 5 && FaithfulOption(u, text)
    ensures Says(u, OptionalText(u, number, text), TextPatch(number, NonEmpty(text)))
  {
    if NonEmpty(text).Some? {
      SaysText(u, number, text.value);
    } else {
      SkippedPatch(u, []);
    }
  }

  lemma SaysOptionalNumber(u: Utf8, value: Option<nat>)
    requires value.Some? ==> value.value < U32
    ensures Says(u, OptionalNumber(6, value), Patch(None, None, None, None, None, value))
  {
    if value.Some? {
      NumberFieldRoundTrip(RESPONSE_SCHEMA, 6, value.value, []);
      OneField(RESPONSE_SCHEMA, NumberFieldBytes(6, value.value), Field(6, Number(value.value)));
      OneFieldPatch(u, Field(6, Number(value.value)));
    } else {
      SkippedPatch(u, []);
    }
  }

  /** What an encoded response says about each field: the two mandatory texts are always there. */
  function FullPatch(r: Response): Patch {
    Patch(Some(r.xdr), Some(r.status), NonEmpty(r.hash), NonEmpty(r.feePayer), NonEmpty(r.submittedVia),
          r.submissionAttempts)
  }

  lemma ResponseSays(u: Utf8, r: Response)
    requires Encodable(u, r)
    ensures Says(u, ResponseBytes(u, r), FullPatch(r))
  {
    SaysText(u, 1, r.xdr);
    SaysText(u, 2, r.status);
    SaysOptionalText(u, 3, r.hash);
    SaysOptionalText(u, 4, r.feePayer);
    SaysOptionalText(u, 5, r.submittedVia);
    SaysOptionalNumber(u, r.submissionAttempts);
    var b1, p1 := ChunkFieldBytes(1, u.encode(r.xdr)), TextPatch(1, Some(r.xdr));
    var b2, p2 := ChunkFieldBytes(2, u.encode(r.status)), TextPatch(2, Some(r.status));
    var b3, p3 := OptionalText(u, 3, r.hash), TextPatch(3, NonEmpty(r.hash));
    var b4, p4 := OptionalText(u, 4, r.feePayer), TextPatch(4, NonEmpty(r.feePayer));
    var b5, p5 := OptionalText(u, 5, r.submittedVia), TextPatch(5, NonEmpty(r.submittedVia));
    var b6, p6 := OptionalNumber(6, r.submissionAttempts), Patch(None, None, None, None, None, r.submissionAttempts);
    SixSay(u, b1, p1, b2, p2, b3, p3, b4, p4, b5, p5, b6, p6);
  }

  /** An optional text that was written and read: an empty one comes back as absent. */
  predicate ReadBack(read: Option<string>, written: Option<string>) {
    read == if written == Some("") then None else written
  }

  /** An encoded response is well formed and decodes to itself, empty optional strings apart. */
  lemma ResponseRoundTrip(u: Utf8, r: Response)
    requires Encodable(u, r)
    ensures WellFormed(RESPONSE_SCHEMA, ResponseBytes(u, r))
    ensures DecodeResponse(u, ResponseBytes(u, r)) == Ok(Normalised(r))
    ensures var d := Normalised(r);
            && d.xdr == r.xdr && d.status == r.status && d.submissionAttempts == r.submissionAttempts
            && ReadBack(d.hash, r.hash) && ReadBack(d.feePayer, r.feePayer) && ReadBack(d.submittedVia, r.submittedVia)
  {
    ResponseSays(u, r);
    LastOneWins(u, EMPTY_RESPONSE, Fields(RESPONSE_SCHEMA, ResponseBytes(u, r)).value.parts);
  }

  /**
   Merging decoded values does go wrong: a second message with an explicit empty `xdr` clears the
   first one's, which a merge of the two decoded values would keep.
   */
  lemma MergeLosesBlank(u: Utf8, r: Response)
    requires Encodable(u, r) && Encodable(u, r.(xdr := "")) && r.xdr != ""
    ensures var a, b := ResponseBytes(u, r), ResponseBytes(u, r.(xdr := ""));
            && DecodeResponse(u, a) == Ok(Normalised(r))
            && DecodeResponse(u, b) == Ok(Normalised(r.(xdr := "")))
            && MergeValues(Normalised(r), Normalised(r.(xdr := ""))) == Normalised(r)
            && DecodeResponse(u, a + b) == Ok(Normalised(r.(xdr := "")))
  {
    var blank := r.(xdr := "");
    ResponseRoundTrip(u, r);
    ResponseRoundTrip(u, blank);
    DecodeResponseConcat(u, ResponseBytes(u, r), ResponseBytes(u, blank));
    ResponseSays(u, blank);
  }

  lemma SixSay(u: Utf8, b1: seq<byte>, p1: Patch, b2: seq<byte>, p2: Patch, b3: seq<byte>, p3: Patch,
               b4: seq<byte>, p4: Patch, b5: seq<byte>, p5: Patch, b6: seq<byte>, p6: Patch)
    requires Says(u, b1, p1) && Says(u, b2, p2) && Says(u, b3, p3)
    requires Says(u, b4, p4) && Says(u, b5, p5) && Says(u, b6, p6)
    ensures Says(u, b1 + b2 + b3 + b4 + b5 + b6,
                 MergePatch(MergePatch(MergePatch(MergePatch(MergePatch(p1, p2), p3), p4), p5), p6))
  {
    SaysConcat(u, b1, p1, b2, p2);
    var p12 := MergePatch(p1, p2);
    SaysConcat(u, b1 + b2, p12, b3, p3);
    var p123 := MergePatch(p12, p3);
    SaysConcat(u, b1 + b2 + b3, p123, b4, p4);
    var p1234 := MergePatch(p123, p4);
    SaysConcat(u, b1 + b2 + b3 + b4, p1234, b5, p5);
    SaysConcat(u, b1 + b2 + b3 + b4 + b5, MergePatch(p1234, p5), b6, p6);
  }

  // -------------------------------------------------------------- batches

  /** One turn of the batch decoder: an embedded response, or a field to skip. */
  function NextResponse(u: Utf8, s: seq<byte>): (r: Result<Read<Option<Response>>, DecodeError>)
    ensures r.Ok? ==> r.value.size > 0
  {
    var field := NextField(BATCH_SCHEMA, s);
    if field.Err? then Err(field.error)
    else if !field.value.value.payload.Chunk? then Ok(Read(None, field.value.size))
    else
      var response := DecodeResponse(u, field.value.value.payload.bytes);
      if response.Err? then Err(response.error) else Ok(Read(Some(response.value), field.value.size))
  }

  function BatchReader(u: Utf8): (next: seq<byte> -> Result<Read<Option<Response>>, DecodeError>)
    ensures Progressive(next)
  {
    s => NextResponse(u, s)
  }

  function Single<T>(part: Option<T>): seq<T> {
    if part.Some? then [part.value] else []
  }

  function Present<T>(parts: seq<Option<T>>): seq<T> {
    if parts == [] then []
    else Single(parts[0]) + Present(parts[1..])
  }

  function BatchOf(r: Result<Split<Option<Response>>, DecodeError>): Result<seq<Response>, DecodeError> {
    match r case Err(e) => Err(e) case Ok(split) => Ok(Present(split.parts))
  }

  /** The responses of a batch in order; the first malformed field or embedded message is the error. */
  function DecodeBatch(u: Utf8, payload: seq<byte>): Result<seq<Response>, DecodeError> {
    BatchOf(SplitAll(BatchReader(u), payload))
  }

  function Append(responses: seq<Response>, rest: Result<seq<Response>, DecodeError>)
    : Result<seq<Response>, DecodeError>
  {
    match rest case Err(e) => Err(e) case Ok(more) => Ok(responses + more)
  }

  lemma {:induction false} PresentConcat<T>(a: seq<Option<T>>, b: seq<Option<T>>)
    ensures Present(a + b) == Present(a) + Present(b)
  {
    if a == [] {
      assert a + b == b;
    } else {
      assert (a + b)[1..] == a[1..] + b;
      PresentConcat(a[1..], b);
      assert Present(a + b) == Single(a[0]) + (Present(a[1..]) + Present(b));
    }
  }

  lemma BatchReaderIsLocal(u: Utf8)
    ensures Local(BatchReader(u))
  {
    var next := BatchReader(u);
    forall a: seq<byte>, b: seq<byte> | next(a).Ok?
      ensures next(a + b) == next(a)
    {
      NextFieldExtends(BATCH_SCHEMA, a, b);
    }
  }

  /** A complete batch followed by any bytes decodes to its own responses followed by theirs. */
  lemma DecodeBatchConcat(u: Utf8, a: seq<byte>, b: seq<byte>)
    requires Exact(SplitAll(BatchReader(u), a))
    ensures DecodeBatch(u, a + b) == Append(DecodeBatch(u, a).value, DecodeBatch(u, b))
  {
    BatchReaderIsLocal(u);
    SplitConcat(BatchReader(u), a, b);
    if SplitAll(BatchReader(u), b).Ok? {
      PresentConcat(SplitAll(BatchReader(u), a).value.parts, SplitAll(BatchReader(u), b).value.parts);
    }
  }

  /** A batch that decodes is truncated exactly when its last field is an unknown one cut short. */
  lemma TruncatedBatchExactly(u: Utf8, payload: seq<byte>)
    requires payload != [] && DecodeBatch(u, payload).Ok?
    ensures Exact(SplitAll(BatchReader(u), payload)) <==>
            !CutShort(BATCH_SCHEMA, payload[LastStart(BatchReader(u), payload)..])
  {
    OverrunOfLast(BatchReader(u), payload);
    PastTheEnd(BATCH_SCHEMA, payload[LastStart(BatchReader(u), payload)..]);
  }

  /** One turn of the batch decoder's loop, at `offset`. */
  method ReadBatchField(u: Utf8, payload: seq<byte>, offset: nat)
      returns (r: Result<Read<Option<Response>>, DecodeError>)
    requires offset < |payload|
    ensures r == NextResponse(u, payload[offset..])
  {
    var key := ReadFieldKeyAt(payload, offset);
    if key.Err? {
      return Err(key.error);
    }
    var Key(number, wireType) := key.value.value;
    var nextOffset := offset + key.value.size;
    assert payload[offset..][key.value.size..] == payload[nextOffset..];
    if number == 1 {
      if wireType != 2 {
        return Err(UnexpectedWireType(number));
      }
      var field := ReadLengthDelimitedAt(payload, nextOffset);
      if field.Err? {
        return Err(field.error);
      }
      var response := DecodeFeeBumpResponse(u, field.value.value);
      if response.Err? {
        return Err(response.error);
      }
      return Ok(Read(Some(response.value), key.value.size + field.value.size));
    }
    var size := SkipFieldAt(payload, nextOffset, wireType);
    if size.Err? {
      return Err(size.error);
    }
    return Ok(Read(None, key.value.size + size.value));
  }

  /** What a batch decodes to, from the outcome of the next turn of the loop. */
  function AfterTurn(next: seq<byte> -> Result<Read<Option<Response>>, DecodeError>, s: seq<byte>)
    : Result<seq<Response>, DecodeError>
    requires Progressive(next)
  {
    var turn := next(s);
    if turn.Err? then Err(turn.error)
    else if turn.value.size > |s| then Ok(Single(turn.value.value))
    else Append(Single(turn.value.value), BatchOf(SplitAll(next, s[turn.value.size..])))
  }

  lemma BatchTurn(next: seq<byte> -> Result<Read<Option<Response>>, DecodeError>, s: seq<byte>)
    requires Progressive(next) && s != []
    ensures BatchOf(SplitAll(next, s)) == AfterTurn(next, s)
  {
    var turn := next(s);
    if turn.Ok? { OnePresent(turn.value.value); }
    if turn.Ok? && turn.value.size <= |s| {
      var rest := SplitAll(next, s[turn.value.size..]);
      if rest.Ok? {
        PresentConcat([turn.value.value], rest.value.parts);
      }
    }
  }

  lemma AppendNothing(r: Result<seq<Response>, DecodeError>)
    ensures Append([], r) == r
  {
    if r.Ok? { assert [] + r.value == r.value; }
  }

  lemma AppendTwice(a: seq<Response>, b: seq<Response>, r: Result<seq<Response>, DecodeError>)
    ensures Append(a, Append(b, r)) == Append(a + b, r)
  {
    if r.Ok? { assert a + (b + r.value) == (a + b) + r.value; }
  }

  lemma OnePresent(part: Option<Response>)
    ensures Present([part]) == Single(part)
  {
    assert [part][1..] == [];
    assert Present([part]) == Single(part) + Present([]);
  }

  /** `decodeFeeBumpBatchResponse`. */
  method DecodeFeeBumpBatchResponse(u: Utf8, payload: seq<byte>) returns (r: Result<seq<Response>, DecodeError>)
    ensures r == DecodeBatch(u, payload)
  {
    r := DecodeBatchLoop(u, payload, BatchReader(u));
  }

  /** `next` is what one turn of the loop reads. */
  ghost predicate Turns(u: Utf8, next: seq<byte> -> Result<Read<Option<Response>>, DecodeError>) {
    Progressive(next) && forall s {:trigger NextResponse(u, s)} :: next(s) == NextResponse(u, s)
  }

  method BatchLoopTurn(u: Utf8, payload: seq<byte>, offset: nat,
                       ghost next: seq<byte> -> Result<Read<Option<Response>>, DecodeError>)
      returns (field: Result<Read<Option<Response>>, DecodeError>)
    requires Turns(u, next) && offset < |payload|
    ensures field == next(payload[offset..])
  {
    field := ReadBatchField(u, payload, offset);
  }

  method DecodeBatchLoop(u: Utf8, payload: seq<byte>,
                         ghost next: seq<byte> -> Result<Read<Option<Response>>, DecodeError>)
      returns (r: Result<seq<Response>, DecodeError>)
    requires Turns(u, next)
    ensures r == BatchOf(SplitAll(next, payload))
  {
    var responses, offset := [], 0;
    ghost var goal := BatchOf(SplitAll(next, payload));
    assert payload[0..] == payload;
    AppendNothing(goal);
    while offset < |payload|
      invariant offset <= |payload| ==> goal == Append(responses, BatchOf(SplitAll(next, payload[offset..])))
      invariant offset > |payload| ==> goal == Ok(responses)
      decreases |payload| - offset
    {
      ghost var ahead := payload[offset..];
      BatchTurn(next, ahead);
      var field := BatchLoopTurn(u, payload, offset, next);
      if field.Err? {
        return Err(field.error);
      }
      var part, size := field.value.value, field.value.size;
      if offset + size <= |payload| {
        assert ahead[size..] == payload[offset + size..];
        AppendTwice(responses, Single(part), BatchOf(SplitAll(next, payload[offset + size..])));
      }
      responses := responses + Single(part);
      offset := offset + size;
    }
    if offset == |payload| {
      assert payload[offset..] == [];
      assert responses + [] == responses;
    }
    return Ok(responses);
  }

  /** `concatBytes`: one buffer of the total length, filled part by part. */
  method ConcatBytes(parts: seq<seq<byte>>) returns (output: array<byte>)
    ensures fresh(output) && output[..] == Join(parts)
  {
    var totalLength := |Join(parts)|;
    output := new byte[totalLength](_ => 0);
    var offset := 0;
    for i := 0 to |parts|
      invariant offset == |Join(parts[..i])| <= totalLength
      invariant output[..offset] == Join(parts[..i])
    {
      var part := parts[i];
      assert parts[..i + 1][..i] == parts[..i];
      JoinPrefix(parts, i + 1);
      forall k | 0 <= k < |part| {
        output[offset + k] := part[k];
      }
      assert output[..offset + |part|] == Join(parts[..i]) + part;
      offset := offset + |part|;
    }
    assert parts[..|parts|] == parts;
  }

  lemma {:induction false} JoinPrefix(pieces: seq<seq<byte>>, n: nat)
    requires n <= |pieces|
    ensures |Join(pieces[..n])| <= |Join(pieces)|
  {
    if n < |pieces| {
      JoinPrefix(pieces[..|pieces| - 1], n);
      assert pieces[..|pieces| - 1][..n] == pieces[..n];
    } else {
      assert pieces[..n] == pieces;
    }
  }

  function ResponseFieldBytes(u: Utf8, r: Response): seq<byte> {
    ChunkFieldBytes(1, ResponseBytes(u, r))
  }

  function BatchPieces(u: Utf8, responses: seq<Response>): seq<seq<byte>> {
    seq(|responses|, i requires 0 <= i < |responses| => ResponseFieldBytes(u, responses[i]))
  }

  function BatchBytes(u: Utf8, responses: seq<Response>): seq<byte> {
    Join(BatchPieces(u, responses))
  }

  /** `encodeFeeBumpBatchResponse`. */
  method EncodeFeeBumpBatchResponse(u: Utf8, responses: seq<Response>) returns (bytes: seq<byte>)
    ensures bytes == BatchBytes(u, responses)
  {
    var parts := [];
    for i := 0 to |responses|
      invariant parts == BatchPieces(u, responses[..i])
    {
      var message := EncodeFeeBumpResponse(u, responses[i]);
      var field := EncodeChunkField(1, message);
      parts := parts + [field];
    }
    assert responses[..|responses|] == responses;
    var output := ConcatBytes(parts);
    bytes := output[..];
  }

  lemma OneResponse(u: Utf8, r: Response)
    requires Encodable(u, r) && |ResponseBytes(u, r)| < U32
    ensures SplitAll(BatchReader(u), ResponseFieldBytes(u, r)) == Ok(Split([Some(Normalised(r))], 0))
  {
    var message := ResponseBytes(u, r);
    var field := ChunkFieldBytes(1, message);
    ChunkFieldRoundTrip(BATCH_SCHEMA, 1, message, []);
    ResponseRoundTrip(u, r);
    SplitCons(BatchReader(u), field, Some(Normalised(r)), []);
    assert field + [] == field && [Some(Normalised(r))] + [] == [Some(Normalised(r))];
  }

  ghost predicate AllEncodable(u: Utf8, responses: seq<Response>) {
    forall r :: r in responses ==> Encodable(u, r)
  }

  function NormalisedAll(responses: seq<Response>): seq<Response> {
    seq(|responses|, i requires 0 <= i < |responses| => Normalised(responses[i]))
  }

  lemma {:induction false} PieceWithinJoin(pieces: seq<seq<byte>>, i: nat)
    requires i < |pieces|
    ensures |pieces[i]| <= |Join(pieces)|
  {
    if i < |pieces| - 1 { PieceWithinJoin(pieces[..|pieces| - 1], i); }
  }

  lemma {:induction false} PresentAll<T>(values: seq<T>, parts: seq<Option<T>>)
    requires |parts| == |values| && forall i :: 0 <= i < |values| ==> parts[i] == Some(values[i])
    ensures Present(parts) == values
  {
    if values == [] {
    } else {
      PresentAll(values[1..], parts[1..]);
      assert values == [values[0]] + values[1..];
    }
  }

  /** A batch whose encoding is shorter than 2^32 bytes decodes to the same responses in order. */
  lemma BatchRoundTrip(u: Utf8, responses: seq<Response>)
    requires AllEncodable(u, responses) && |BatchBytes(u, responses)| < U32
    ensures DecodeBatch(u, BatchBytes(u, responses)) == Ok(NormalisedAll(responses))
  {
    var pieces := BatchPieces(u, responses);
    var parts := seq(|responses|, i requires 0 <= i < |responses| => Some(Normalised(responses[i])));
    forall i | 0 <= i < |pieces|
      ensures SplitAll(BatchReader(u), pieces[i]) == Ok(Split([parts[i]], 0))
    {
      PieceWithinJoin(pieces, i);
      assert responses[i] in responses;
      OneResponse(u, responses[i]);
    }
    BatchReaderIsLocal(u);
    SplitJoin(BatchReader(u), pieces, parts);
    PresentAll(NormalisedAll(responses), parts);
  }

  // ------------------------------------------------ unknown fields of a batch

  /** A part in front of a batch that is no response. */
  lemma SkippedInFront(u: Utf8, s: seq<byte>, number: nat, b: seq<byte>)
    requires s != [] && NextField(BATCH_SCHEMA, s + b) == Ok(Read(Field(number, Skipped), |s|))
    ensures DecodeBatch(u, s + b) == DecodeBatch(u, b)
  {
    var next := BatchReader(u);
    assert next(s + b) == NextResponse(u, s + b) == Ok(Read(None, |s|));
    BatchTurn(next, s + b);
    assert (s + b)[|s|..] == b;
    AppendNothing(BatchOf(SplitAll(next, b)));
  }

  /** An unknown field in front of a batch changes nothing, whatever its payload holds. */
  lemma UnknownInFrontOfBatch(u: Utf8, number: nat, chunk: seq<byte>, value: nat, b: seq<byte>)
    requires number < 0x2000_0000 && number != 1 && |chunk| < U32 && value < U32
    ensures DecodeBatch(u, VarintBytes(8 * number + 2) + VarintBytes(|chunk|) + chunk + b) == DecodeBatch(u, b)
    ensures DecodeBatch(u, VarintBytes(8 * number) + VarintBytes(value) + b) == DecodeBatch(u, b)
    ensures |chunk| == 8 ==> DecodeBatch(u, VarintBytes(8 * number + 1) + chunk + b) == DecodeBatch(u, b)
    ensures |chunk| == 4 ==> DecodeBatch(u, VarintBytes(8 * number + 5) + chunk + b) == DecodeBatch(u, b)
  {
    UnknownChunkSkipped(BATCH_SCHEMA, number, chunk, b);
    SkippedInFront(u, VarintBytes(8 * number + 2) + VarintBytes(|chunk|) + chunk, number, b);
    UnknownNumberSkipped(BATCH_SCHEMA, number, value, b);
    SkippedInFront(u, VarintBytes(8 * number) + VarintBytes(value), number, b);
    FixedInFrontOfBatch(u, number, chunk, b);
  }

  lemma FixedInFrontOfBatch(u: Utf8, number: nat, fixed: seq<byte>, b: seq<byte>)
    requires number < 0x2000_0000 && number != 1
    ensures |fixed| == 8 ==> DecodeBatch(u, VarintBytes(8 * number + 1) + fixed + b) == DecodeBatch(u, b)
    ensures |fixed| == 4 ==> DecodeBatch(u, VarintBytes(8 * number + 5) + fixed + b) == DecodeBatch(u, b)
  {
    UnknownFixedSkipped(BATCH_SCHEMA, number, fixed + b);
    var wide, narrow := VarintBytes(8 * number + 1), VarintBytes(8 * number + 5);
    assert wide + fixed + b == wide + (fixed + b) && narrow + fixed + b == narrow + (fixed + b);
    if |fixed| == 8 { SkippedInFront(u, wide + fixed, number, b); }
    if |fixed| == 4 { SkippedInFront(u, narrow + fixed, number, b); }
  }

  /** Field 1 in front of a batch is its first response, and the batch fails if that one does. */
  lemma ResponseInFront(u: Utf8, chunk: seq<byte>, b: seq<byte>)
    requires |chunk| < U32
    ensures var s := VarintBytes(10) + VarintBytes(|chunk|) + chunk;
            DecodeBatch(u, s + b) ==
            if DecodeResponse(u, chunk).Err? then Err(DecodeResponse(u, chunk).error)
            else Append([DecodeResponse(u, chunk).value], DecodeBatch(u, b))
  {
    var s, next := VarintBytes(10) + VarintBytes(|chunk|) + chunk, BatchReader(u);
    ChunkFieldRoundTrip(BATCH_SCHEMA, 1, chunk, b);
    assert s == ChunkFieldBytes(1, chunk);
    assert next(s + b) == NextResponse(u, s + b);
    BatchTurn(next, s + b);
    assert (s + b)[|s|..] == b;
  }
}
