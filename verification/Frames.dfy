/** gRPC-Web message framing: a flag byte, a big-endian length and a payload. */
module Frames {
  import opened Prelude
  import opened Splitting
  import opened Messages
  import opened Batches

  datatype FrameError = MalformedFrameHeader | MalformedFramePayload

  datatype Frame = Frame(flags: byte, payload: seq<byte>)

  /** The length that four bytes announce, the most significant first. */
  function Announced(a: int, b: int, c: int, d: int): int {
    0x100_0000 * a + 0x1_0000 * b + 0x100 * c + d
  }

  /** `DataView.setUint32` in network order. */
  function BigEndian(n: nat): (s: seq<byte>)
    requires n < U32
    ensures |s| == 4
  {
    [n / 0x100_0000, n / 0x1_0000 % 0x100, n / 0x100 % 0x100, n % 0x100]
  }

  function FrameLength(s: seq<byte>): (n: nat)
    requires |s| >= 5
    ensures n < U32
  {
    0x100_0000 * s[1] as int + 0x1_0000 * s[2] as int + 0x100 * s[3] as int + s[4] as int
  }

  function FrameBytes(f: Frame): seq<byte> {
    [f.flags] + BigEndian(ToUint32(|f.payload|)) + f.payload
  }

  function Flags(isTrailer: bool): byte {
    if isTrailer then 0x80 else 0
  }

  /** The trailer bit, the length of the payload with its most significant byte first, and the payload. */
  predicate OnTheWire(s: seq<byte>, isTrailer: bool, payload: seq<byte>) {
    && |s| == 5 + |payload| && s[5..] == payload && s[0] == (if isTrailer then 0x80 else 0)
    && (|payload| < 0x1_0000_0000 ==> Announced(s[1], s[2], s[3], s[4]) == |payload|)
  }

  lemma FrameOnTheWire(payload: seq<byte>, isTrailer: bool)
    ensures OnTheWire(FrameBytes(Frame(Flags(isTrailer), payload)), isTrailer, payload)
  {
    var s := FrameBytes(Frame(Flags(isTrailer), payload));
    assert s[5..] == payload;
    if |payload| < U32 { BigEndianAnnounces(|payload|, s); }
  }

  lemma BigEndianAnnounces(n: nat, s: seq<byte>)
    requires n < U32 && |s| >= 5 && s[1..5] == BigEndian(n)
    ensures Announced(s[1], s[2], s[3], s[4]) == n
  {
    assert s[1] == s[1..5][0] && s[2] == s[1..5][1] && s[3] == s[1..5][2] && s[4] == s[1..5][3];
    Digits(n);
  }

  /** `encodeGrpcWebFrame`. */
  method EncodeGrpcWebFrame(payload: seq<byte>, isTrailer: bool) returns (frame: array<byte>)
    ensures fresh(frame) && frame[..] == FrameBytes(Frame(Flags(isTrailer), payload))
    ensures OnTheWire(frame[..], isTrailer, payload)
  {
    frame := new byte[5 + |payload|](_ => 0);
    frame[0] := if isTrailer then 0x80 else 0x00;
    var length := BigEndian(ToUint32(|payload|));
    frame[1], frame[2], frame[3], frame[4] := length[0], length[1], length[2], length[3];
    forall k | 0 <= k < |payload| {
      frame[5 + k] := payload[k];
    }
    assert frame[..] == [frame[0]] + length + payload;
    FrameOnTheWire(payload, isTrailer);
  }

  /** One turn of the frame loop. */
  function NextFrame(s: seq<byte>): (r: Result<Read<Frame>, FrameError>)
    ensures r.Ok? ==> 0 < r.value.size <= |s|
  {
    if |s| < 5 then Err(MalformedFrameHeader)
    else if 5 + FrameLength(s) > |s| then Err(MalformedFramePayload)
    else Ok(Read(Frame(s[0], s[5..5 + FrameLength(s)]), 5 + FrameLength(s)))
  }

  function FrameReader(): (next: seq<byte> -> Result<Read<Frame>, FrameError>)
    ensures Progressive(next)
  {
    s => NextFrame(s)
  }

  function SplitFrames(body: seq<byte>): Result<Split<Frame>, FrameError> {
    SplitAll(FrameReader(), body)
  }

  // ------------------------------------------------------------------ tiling

  lemma LengthRoundTrip(flags: byte, n: nat, rest: seq<byte>)
    requires n < U32
    ensures FrameLength([flags] + BigEndian(n) + rest) == n
  {
    var s := [flags] + BigEndian(n) + rest;
    assert s[1] == n / 0x100_0000 && s[2] == n / 0x1_0000 % 0x100;
    assert s[3] == n / 0x100 % 0x100 && s[4] == n % 0x100;
    Digits(n);
  }

  lemma Digits(n: nat)
    ensures 0x100_0000 * (n / 0x100_0000) + 0x1_0000 * (n / 0x1_0000 % 0x100)
            + 0x100 * (n / 0x100 % 0x100) + n % 0x100 == n
  {
    var a := n / 0x100;
    var b := a / 0x100;
    assert n / 0x1_0000 == b && n / 0x100_0000 == b / 0x100;
  }

  lemma LengthBytes(s: seq<byte>)
    requires |s| >= 5
    ensures BigEndian(FrameLength(s)) == s[1..5]
  {
    var a, b, c, d := s[1] as int, s[2] as int, s[3] as int, s[4] as int;
    var n := FrameLength(s);
    assert n / 0x100 == 0x1_0000 * a + 0x100 * b + c && n % 0x100 == d;
    assert n / 0x1_0000 == 0x100 * a + b;
    assert n / 0x100_0000 == a;
    assert BigEndian(n) == [s[1], s[2], s[3], s[4]];
  }

  lemma FrameRoundTrip(f: Frame, rest: seq<byte>)
    requires |f.payload| < U32
    ensures NextFrame(FrameBytes(f) + rest) == Ok(Read(f, |FrameBytes(f)|))
  {
    var s := FrameBytes(f) + rest;
    assert s == [f.flags] + BigEndian(|f.payload|) + (f.payload + rest);
    LengthRoundTrip(f.flags, |f.payload|, f.payload + rest);
    assert s[5..5 + |f.payload|] == f.payload;
  }

  lemma FrameReaderIsLocal()
    ensures Local(FrameReader())
  {
    var next := FrameReader();
    forall a: seq<byte>, b: seq<byte> | next(a).Ok?
      ensures next(a + b) == next(a)
    {
      assert (a + b)[5..5 + FrameLength(a)] == a[5..5 + FrameLength(a)];
    }
  }

  ghost predicate Framable(frames: seq<Frame>) {
    forall f :: f in frames ==> |f.payload| < U32
  }

  function FramePieces(frames: seq<Frame>): seq<seq<byte>> {
    seq(|frames|, i requires 0 <= i < |frames| => FrameBytes(frames[i]))
  }

  lemma OneFrame(f: Frame)
    requires |f.payload| < U32
    ensures SplitFrames(FrameBytes(f)) == Ok(Split([f], 0))
  {
    FrameRoundTrip(f, []);
    SplitCons(FrameReader(), FrameBytes(f), f, []);
    assert FrameBytes(f) + [] == FrameBytes(f) && [f] + [] == [f];
  }

  /** Written frames are split back into themselves, in order. */
  lemma FramesRoundTrip(frames: seq<Frame>)
    requires Framable(frames)
    ensures SplitFrames(Join(FramePieces(frames))) == Ok(Split(frames, 0))
  {
    var pieces := FramePieces(frames);
    forall i | 0 <= i < |pieces|
      ensures SplitAll(FrameReader(), pieces[i]) == Ok(Split([frames[i]], 0))
    {
      assert frames[i] in frames;
      OneFrame(frames[i]);
    }
    FrameReaderIsLocal();
    SplitJoin(FrameReader(), pieces, frames);
  }

  /** The frame that is read is what the body starts with. */
  lemma FrameAhead(body: seq<byte>)
    requires NextFrame(body).Ok?
    ensures body == FrameBytes(NextFrame(body).value.value) + body[NextFrame(body).value.size..]
  {
    LengthBytes(body);
  }

  /** A body that splits is the frames it splits into, laid end to end. */
  lemma {:induction false} SplitFramesTile(body: seq<byte>)
    requires SplitFrames(body).Ok?
    ensures var split := SplitFrames(body).value;
            split.overrun == 0 && Framable(split.parts) && body == Join(FramePieces(split.parts))
    decreases |body|
  {
    if body == [] {
    } else {
      var p := NextFrame(body).value;
      assert FrameReader()(body) == NextFrame(body);
      var rest := body[p.size..];
      SplitFramesTile(rest);
      var parts := SplitFrames(rest).value.parts;
      FrameAhead(body);
      assert FramePieces([p.value] + parts) == [FrameBytes(p.value)] + FramePieces(parts);
      JoinCons(FrameBytes(p.value), FramePieces(parts));
    }
  }

  lemma {:induction false} JoinCons(piece: seq<byte>, pieces: seq<seq<byte>>)
    ensures Join([piece] + pieces) == piece + Join(pieces)
    decreases |pieces|
  {
    var all := [piece] + pieces;
    if pieces == [] {
      assert all[..0] == [];
      assert Join(all) == [] + piece;
    } else {
      assert all[..|all| - 1] == [piece] + pieces[..|pieces| - 1];
      JoinCons(piece, pieces[..|pieces| - 1]);
    }
  }

  /** Frame splitting succeeds with `frames` exactly when the frames tile the body. */
  lemma FramesTileExactly(body: seq<byte>, frames: seq<Frame>)
    ensures SplitFrames(body) == Ok(Split(frames, 0)) <==> Framable(frames) && body == Join(FramePieces(frames))
  {
    if SplitFrames(body) == Ok(Split(frames, 0)) {
      SplitFramesTile(body);
    }
    if Framable(frames) && body == Join(FramePieces(frames)) {
      FramesRoundTrip(frames);
    }
  }

  // ---------------------------------------------------------------- decoding

  datatype Decoded = Decoded(dataFrames: seq<seq<byte>>, trailers: map<string, string>)

  /** Data payloads are kept in order; trailer payloads are parsed and assigned over earlier ones. */
  function Collect(parse: seq<byte> -> map<string, string>, frames: seq<Frame>): Decoded {
    if frames == [] then Decoded([], map[])
    else
      var sofar, last := Collect(parse, frames[..|frames| - 1]), frames[|frames| - 1];
      if last.flags >= 0x80 then sofar.(trailers := sofar.trailers + parse(last.payload))
      else sofar.(dataFrames := sofar.dataFrames + [last.payload])
  }

  function DecodeFrames(parse: seq<byte> -> map<string, string>, body: seq<byte>): Result<Decoded, FrameError> {
    match SplitFrames(body) case Err(e) => Err(e) case Ok(split) => Ok(Collect(parse, split.parts))
  }

  /** `decodeGrpcWebFrames`, with the trailer text parser as a parameter. */
  method DecodeGrpcWebFrames(parse: seq<byte> -> map<string, string>, body: seq<byte>)
      returns (r: Result<Decoded, FrameError>)
    ensures r == DecodeFrames(parse, body)
  {
    var decoded, offset := Decoded([], map[]), 0;
    ghost var frames: seq<Frame> := [];
    assert body[0..] == body;
    PrependNothing(SplitFrames(body));
    while offset < |body|
      invariant offset <= |body|
      invariant SplitFrames(body) == Prepend(frames, SplitFrames(body[offset..]))
      invariant decoded == Collect(parse, frames)
    {
      ghost var ahead := body[offset..];
      assert FrameReader()(ahead) == NextFrame(ahead);
      if offset + 5 > |body| {
        return Err(MalformedFrameHeader);
      }
      var flags := body[offset];
      var frameLength := FrameLength(body[offset..]);
      offset := offset + 5;
      if offset + frameLength > |body| {
        return Err(MalformedFramePayload);
      }
      var payload := body[offset..offset + frameLength];
      offset := offset + frameLength;
      ghost var frame := Frame(flags, payload);
      assert NextFrame(ahead) == Ok(Read(frame, 5 + frameLength)) by {
        assert ahead[5..5 + frameLength] == payload;
      }
      assert ahead[5 + frameLength..] == body[offset..];
      PrependTwice(frames, [frame], SplitFrames(body[offset..]));
      assert (frames + [frame])[..|frames|] == frames;
      frames := frames + [frame];
      if flags >= 0x80 {
        decoded := decoded.(trailers := decoded.trailers + parse(payload));
      } else {
        decoded := decoded.(dataFrames := decoded.dataFrames + [payload]);
      }
    }
    assert body[offset..] == [] && frames + [] == frames;
    return Ok(decoded);
  }

  // ----------------------------------------------------------- what is read

  /** The payloads of the frames without the trailer bit, in order. */
  function DataOf(frames: seq<Frame>): seq<seq<byte>> {
    if frames == [] then []
    else
      var n := |frames| - 1;
      if frames[n].flags / 128 == 0 then DataOf(frames[..n]) + [frames[n].payload] else DataOf(frames[..n])
  }

  /** What the last trailer frame that names a trailer says of it. */
  function TrailerOf(parse: seq<byte> -> map<string, string>, frames: seq<Frame>, name: string): Option<string> {
    if frames == [] then None
    else
      var n := |frames| - 1;
      if frames[n].flags / 128 == 1 && name in parse(frames[n].payload) then Some(parse(frames[n].payload)[name])
      else TrailerOf(parse, frames[..n], name)
  }

  lemma {:induction false} CollectIs(parse: seq<byte> -> map<string, string>, frames: seq<Frame>, name: string)
    ensures var d := Collect(parse, frames);
            && d.dataFrames == DataOf(frames)
            && TrailerOf(parse, frames, name) == if name in d.trailers then Some(d.trailers[name]) else None
  {
    if frames == [] {
    } else {
      CollectIs(parse, frames[..|frames| - 1], name);
    }
  }

  /** A body of frames is decoded to their data payloads, and each trailer's last value. */
  lemma FramesDecoded(parse: seq<byte> -> map<string, string>, frames: seq<Frame>, name: string)
    requires Framable(frames)
    ensures var r := DecodeFrames(parse, Join(FramePieces(frames)));
            && r.Ok? && r.value.dataFrames == DataOf(frames)
            && TrailerOf(parse, frames, name) == if name in r.value.trailers then Some(r.value.trailers[name]) else None
  {
    FramesRoundTrip(frames);
    CollectIs(parse, frames, name);
  }

  /** After whole frames, fewer than five bytes are a malformed header and a payload cut short a malformed payload. */
  lemma BrokenTail(parse: seq<byte> -> map<string, string>, frames: seq<Frame>, rest: seq<byte>)
    requires Framable(frames) && rest != []
    ensures var body := Join(FramePieces(frames)) + rest;
            && (|rest| < 5 ==> DecodeFrames(parse, body) == Err(MalformedFrameHeader))
            && (|rest| >= 5 && |rest| - 5 < Announced(rest[1], rest[2], rest[3], rest[4]) ==>
                  DecodeFrames(parse, body) == Err(MalformedFramePayload))
  {
    FramesRoundTrip(frames);
    FrameReaderIsLocal();
    SplitConcat(FrameReader(), Join(FramePieces(frames)), rest);
    assert FrameReader()(rest) == NextFrame(rest);
  }

  /**
   End to end: a batch of responses, encoded, framed and followed by a trailer frame, is split and
   decoded into the same responses in order, empty optional strings read as absent.
   */
  lemma BatchEndToEnd(u: Utf8, parse: seq<byte> -> map<string, string>, responses: seq<Response>, trailer: seq<byte>)
    requires AllEncodable(u, responses) && |BatchBytes(u, responses)| < U32 && |trailer| < U32
    ensures var payload := BatchBytes(u, responses);
            var body := FrameBytes(Frame(Flags(false), payload)) + FrameBytes(Frame(Flags(true), trailer));
            && DecodeFrames(parse, body) == Ok(Decoded([payload], map[] + parse(trailer)))
            && DecodeBatch(u, payload) == Ok(NormalisedAll(responses))
  {
    var payload := BatchBytes(u, responses);
    var data, end := Frame(Flags(false), payload), Frame(Flags(true), trailer);
    BatchRoundTrip(u, responses);
    OneFrame(data);
    OneFrame(end);
    FrameReaderIsLocal();
    SplitConcat(FrameReader(), FrameBytes(data), FrameBytes(end));
    CollectTwo(parse, data, end);
  }

  lemma CollectTwo(parse: seq<byte> -> map<string, string>, data: Frame, end: Frame)
    requires data.flags < 0x80 <= end.flags
    ensures Collect(parse, [data] + [end]) == Decoded([data.payload], map[] + parse(end.payload))
  {
    var both := [data] + [end];
    assert both[..1] == [data] && [data][..0] == [];
    assert Collect(parse, [data]) == Decoded([] + [data.payload], map[]);
  }
}
