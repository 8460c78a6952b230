/** Whole conversations: what one side encodes, the other side decodes, however the bytes arrive. */
module Streams {
  import opened Wrappers
  import opened Bytes
  import opened Utf8
  import opened Frames
  import Requests
  import Responses
  import ReplicationCodec

  function RequestDecoder(zstd: Requests.Compressor): FrameDecoder<Requests.Request> {
    b => Requests.DecodeRequest(zstd, b)
  }

  method PutRequest(zstd: Requests.Compressor, r: Requests.Request, buffer: Buffer) returns (ok: Result<Unit, ProtocolError>)
    requires Requests.WellFormed(r)
    modifies buffer
    ensures var body := Requests.EncodeRequest(zstd, r);
            && old(buffer.data) <= buffer.data
            && (ok.Success? <==> body.Success? && |body.value| < 0x1_0000_0000)
            && (ok.Success? ==> buffer.data == old(buffer.data) + Frame(body.value))
  {
    var body :- Requests.EncodeRequest(zstd, r);
    ok := buffer.PutFrame(body);
  }

  method PutResponse(r: Responses.Response, buffer: Buffer) returns (ok: Result<Unit, ProtocolError>)
    modifies buffer
    ensures var body := Responses.EncodeResponse(r);
            && old(buffer.data) <= buffer.data
            && (ok.Success? <==> body.Success? && |body.value| < 0x1_0000_0000)
            && (ok.Success? ==> buffer.data == old(buffer.data) + Frame(body.value))
  {
    var body :- Responses.EncodeResponse(r);
    ok := buffer.PutFrame(body);
  }

  /** The first message in a buffer and what follows it. */
  function Next<T>(decode: FrameDecoder<T>, buffer: bytes): Result<Option<(T, bytes)>, ProtocolError> {
    match TakeFrame(buffer)
    case Failure(error) => Failure(error)
    case Success(None) => Success(None)
    case Success(Some((frame, rest))) =>
      var message :- decode(frame);
      Success(Some((message, rest)))
  }

  lemma NextOfFrame<T>(decode: FrameDecoder<T>, body: bytes, message: T, rest: bytes)
    requires body != [] && |body| < 0x1_0000_0000 && decode(body) == Success(message)
    ensures Next(decode, Frame(body) + rest)
            == if |body| <= MAX_FRAME_SIZE then Success(Some((message, rest))) else Failure(FrameTooLarge)
  {
    TakeFramed(body, rest);
  }

  /** A request arrives as it was sent, with the bytes behind it untouched, exactly when its frame is within the limit. */
  lemma RequestArrives(zstd: Requests.Compressor, r: Requests.Request, rest: bytes)
    requires Requests.Invertible(zstd) && Requests.WellFormed(r) && Requests.EncodeRequest(zstd, r).Success?
    requires |Requests.EncodeRequest(zstd, r).value| < 0x1_0000_0000
    ensures var body := Requests.EncodeRequest(zstd, r).value;
            Next(RequestDecoder(zstd), Frame(body) + rest)
            == if |body| <= MAX_FRAME_SIZE then Success(Some((r, rest))) else Failure(FrameTooLarge)
  {
    Requests.RequestRoundTrip(zstd, r);
    NextOfFrame(RequestDecoder(zstd), Requests.EncodeRequest(zstd, r).value, r, rest);
  }

  lemma ResponseArrives(r: Responses.Response, rest: bytes)
    requires Responses.WellFormed(r) && Responses.EncodeResponse(r).Success?
    requires |Responses.EncodeResponse(r).value| < 0x1_0000_0000
    ensures var body := Responses.EncodeResponse(r).value;
            Next(Responses.DecodeResponse, Frame(body) + rest) == Success(Some((r, rest)))
            <==> |body| <= MAX_FRAME_SIZE && Responses.Acceptable(r)
  {
    var body := Responses.EncodeResponse(r).value;
    Responses.ResponseRoundTrip(r);
    if Responses.Acceptable(r) {
      NextOfFrame(Responses.DecodeResponse, body, r, rest);
    } else {
      TakeFramed(body, rest);
    }
  }

  lemma ReplicationArrives(r: ReplicationCodec.ReplicateRecord, rest: bytes)
    requires ValidUtf8(r.topic) && ReplicationCodec.EncodeRecord(r).Success?
    ensures |ReplicationCodec.EncodeRecord(r).value| < 0x1_0000_0000
    ensures Next(ReplicationCodec.DecodeRecord, Frame(ReplicationCodec.EncodeRecord(r).value) + rest)
            == Success(Some((ReplicationCodec.Normalized(r), rest)))
  {
    ReplicationCodec.RecordRoundTrip(r);
    NextOfFrame(ReplicationCodec.DecodeRecord, ReplicationCodec.EncodeRecord(r).value, ReplicationCodec.Normalized(r), rest);
  }

  lemma AckArrives(a: ReplicationCodec.ReplicateAck, rest: bytes)
    ensures |ReplicationCodec.EncodeAck(a)| == 13
    ensures Next(ReplicationCodec.DecodeAck, Frame(ReplicationCodec.EncodeAck(a)) + rest) == Success(Some((a, rest)))
  {
    ReplicationCodec.AckRoundTrip(a);
    NextOfFrame(ReplicationCodec.DecodeAck, ReplicationCodec.EncodeAck(a), a, rest);
  }

  /** Requests sent back to back are received in order and unchanged, and an incomplete one behind them is kept for later. */
  lemma RequestsSurviveAnyChunking(zstd: Requests.Compressor, requests: seq<Requests.Request>, bodies: seq<bytes>,
                                   chunks: seq<bytes>, tail: bytes)
    requires Requests.Invertible(zstd) && |bodies| == |requests| && TakeFrame(tail) == Success(None)
    requires forall i :: 0 <= i < |requests| ==>
               && Requests.WellFormed(requests[i]) && Requests.EncodeRequest(zstd, requests[i]) == Success(bodies[i])
               && |bodies[i]| <= MAX_FRAME_SIZE
    requires Concat(chunks) == Stream(bodies) + tail
    ensures Receive(RequestDecoder(zstd), [], chunks) == Drained(requests, tail, None)
  {
    var decode := RequestDecoder(zstd);
    forall i | 0 <= i < |bodies|
      ensures bodies[i] != [] && decode(bodies[i]) == Success(requests[i])
    {
      Requests.RequestRoundTrip(zstd, requests[i]);
    }
    DrainsFrames(decode, bodies, requests, tail);
    ReceiveFromEmpty(decode, chunks);
  }
}
