/** Length-prefixed frames in a stream of bytes that arrives in arbitrary pieces. */
module Frames {
  import opened Wrappers
  import opened Bytes

  const MAX_FRAME_SIZE := 4 * 1024 * 1024
  const FRAME_HEADER_SIZE := 4

  datatype ProtocolError =
    | InvalidFrame
    | FrameTooLarge
    | UnknownOpcode(opcode: u8)
    | InvalidTopic
    | TopicTooLarge
    | KeyTooLarge
    | MessageTooLarge
    | FetchTooLarge
    | FetchWaitTooLong
    | InvalidAckMode(code: u8)
    | InvalidProducerId
    | InvalidBatchCount
    | BatchTooLarge
    | InvalidCompression(code: u8)
    | InvalidCompressedBatch
    | InvalidPartitionCount
    | InvalidClusterMetadata
    | TruncatedFrame

  type Taken = Result<Option<(bytes, bytes)>, ProtocolError>

  /** The first frame of a buffer and what follows it, or `None` while it is incomplete. */
  function TakeFrame(buffer: bytes): (r: Taken)
    ensures r.Success? && r.value.Some? ==>
              && 0 < |r.value.value.0| <= MAX_FRAME_SIZE
              && |buffer| == FRAME_HEADER_SIZE + |r.value.value.0| + |r.value.value.1|
  {
    match ReadU32(buffer)
    case None => Success(None)
    case Some((length, rest)) =>
      if length == 0 then Failure(InvalidFrame)
      else if length > MAX_FRAME_SIZE then Failure(FrameTooLarge)
      else Success(Split(rest, length))
  }

  function Frame(body: bytes): (b: bytes)
    requires |body| < 0x1_0000_0000
    ensures |b| == FRAME_HEADER_SIZE + |body|
  {
    U32(|body|) + body
  }

  /** A frame is taken out of a stream exactly when its body is not empty and within the limit. */
  lemma TakeFramed(body: bytes, rest: bytes)
    requires |body| < 0x1_0000_0000
    ensures TakeFrame(Frame(body) + rest)
            == if body == [] then Failure(InvalidFrame)
               else if |body| > MAX_FRAME_SIZE then Failure(FrameTooLarge)
               else Success(Some((body, rest)))
  {
    ReadBack();
    assert Frame(body) + rest == U32(|body|) + (body + rest);
  }

  /** What is at the front of any buffer: a whole frame, a length that no frame has, or something incomplete. */
  lemma TakesIff(buffer: bytes)
    ensures TakeFrame(buffer) == Success(None)
            <==> |buffer| < 4 || (1 <= Get(buffer[..4]) <= 4_194_304 && |buffer| < 4 + Get(buffer[..4]))
    ensures TakeFrame(buffer) == Failure(InvalidFrame) <==> |buffer| >= 4 && Get(buffer[..4]) == 0
    ensures TakeFrame(buffer) == Failure(FrameTooLarge) <==> |buffer| >= 4 && Get(buffer[..4]) > 4_194_304
    ensures forall body, rest :: TakeFrame(buffer) == Success(Some((body, rest)))
                                 <==> 1 <= |body| <= 4_194_304 && buffer == Frame(body) + rest
  {
    forall body: bytes, rest: bytes | 1 <= |body| <= 4_194_304 && buffer == Frame(body) + rest
      ensures TakeFrame(buffer) == Success(Some((body, rest)))
    {
      TakeFramed(body, rest);
    }
    if TakeFrame(buffer).Success? && TakeFrame(buffer).value.Some? {
      WordIsPut(buffer);
      var (body, rest) := TakeFrame(buffer).value.value;
      assert U32(|body|) + (body + rest) == Frame(body) + rest;
    }
  }

  /** What more bytes change about the first frame: nothing, once it or an error has been seen. */
  lemma TakeFrameIsLocal(buffer: bytes, more: bytes)
    ensures match TakeFrame(buffer)
            case Failure(error) => TakeFrame(buffer + more) == Failure(error)
            case Success(Some((frame, rest))) => TakeFrame(buffer + more) == Success(Some((frame, rest + more)))
            case Success(None) => true
  {
    if |buffer| >= 4 {
      ReadU32Local(buffer, more);
      var (length, rest) := ReadU32(buffer).value;
      if length <= |rest| {
        assert (rest + more)[..length] == rest[..length];
        assert (rest + more)[length..] == rest[length..] + more;
      }
    }
  }

  // ---------------------------------------------------------------- decoding until nothing is complete

  type FrameDecoder<!T> = bytes -> Result<T, ProtocolError>

  /** The messages decoded, the bytes left, and the error that ended decoding, if any. */
  datatype Drained<T> = Drained(messages: seq<T>, rest: bytes, error: Option<ProtocolError>) {
    function After(earlier: seq<T>): Drained<T> {
      this.(messages := earlier + messages)
    }
  }

  function Drain<T>(decode: FrameDecoder<T>, buffer: bytes): Drained<T>
    decreases |buffer|
  {
    match TakeFrame(buffer)
    case Failure(error) => Drained([], buffer, Some(error))
    case Success(None) => Drained([], buffer, None)
    case Success(Some((frame, rest))) =>
      match decode(frame)
      case Failure(error) => Drained([], rest, Some(error))
      case Success(message) => Drain(decode, rest).After([message])
  }

  /** Decoding what is there before more arrives changes neither the messages nor the error. */
  lemma {:induction false} DrainInTwo<T>(decode: FrameDecoder<T>, buffer: bytes, more: bytes)
    ensures var first, all := Drain(decode, buffer), Drain(decode, buffer + more);
            if first.error.Some? then all.messages == first.messages && all.error == first.error
            else all == Drain(decode, first.rest + more).After(first.messages)
    decreases |buffer|
  {
    TakeFrameIsLocal(buffer, more);
    match TakeFrame(buffer)
    case Failure(_) =>
    case Success(None) =>
      assert Drain(decode, buffer + more).After([]) == Drain(decode, buffer + more);
    case Success(Some((frame, rest))) =>
      if decode(frame).Success? {
        DrainInTwo(decode, rest, more);
        var message, inner := decode(frame).value, Drain(decode, rest);
        AfterTwice(Drain(decode, inner.rest + more), [message], inner.messages);
      }
  }

  lemma AfterTwice<T>(d: Drained<T>, a: seq<T>, b: seq<T>)
    ensures d.After(b).After(a) == d.After(a + b)
  {
    assert a + (b + d.messages) == a + b + d.messages;
  }

  function Concat(chunks: seq<bytes>): bytes {
    if chunks == [] then [] else chunks[0] + Concat(chunks[1..])
  }

  /** A connection: read a chunk, decode all that is complete, and again, until an error or the end of the stream. */
  function Receive<T>(decode: FrameDecoder<T>, buffer: bytes, chunks: seq<bytes>): Drained<T>
    decreases |chunks|
  {
    if chunks == [] then Drained([], buffer, None)
    else
      var d := Drain(decode, buffer + chunks[0]);
      if d.error.Some? then d else Receive(decode, d.rest, chunks[1..]).After(d.messages)
  }

  /**
   However the stream is cut into chunks, a connection delivers the same messages and ends with the same error; without
   an error the same incomplete bytes are left.
   */
  lemma {:induction false} ChunkingDoesNotMatter<T>(decode: FrameDecoder<T>, buffer: bytes, chunks: seq<bytes>)
    requires Drain(decode, buffer) == Drained([], buffer, None)
    ensures var got, whole := Receive(decode, buffer, chunks), Drain(decode, buffer + Concat(chunks));
            && got.messages == whole.messages && got.error == whole.error
            && (whole.error.None? ==> got.rest == whole.rest)
    decreases |chunks|
  {
    if chunks == [] {
      assert buffer + Concat(chunks) == buffer;
    } else {
      var now, later := buffer + chunks[0], Concat(chunks[1..]);
      assert buffer + Concat(chunks) == now + later;
      DrainInTwo(decode, now, later);
      var d := Drain(decode, now);
      if d.error.None? {
        DrainLeavesIncomplete(decode, now);
        ChunkingDoesNotMatter(decode, d.rest, chunks[1..]);
      }
    }
  }

  lemma ReceiveAt<T>(decode: FrameDecoder<T>, buffer: bytes, chunks: seq<bytes>, i: nat, earlier: seq<T>)
    requires i < |chunks|
    ensures var d := Drain(decode, buffer + chunks[i]);
            Receive(decode, buffer, chunks[i..]).After(earlier)
            == if d.error.Some? then d.After(earlier) else Receive(decode, d.rest, chunks[i + 1..]).After(earlier + d.messages)
  {
    var d := Drain(decode, buffer + chunks[i]);
    assert chunks[i..][0] == chunks[i] && chunks[i..][1..] == chunks[i + 1..];
    AfterTwice(Receive(decode, d.rest, chunks[i + 1..]), earlier, d.messages);
  }

  lemma ReceiveAll<T>(decode: FrameDecoder<T>, chunks: seq<bytes>)
    ensures var got, whole := Receive(decode, [], chunks[0..]).After([]), Drain(decode, Concat(chunks));
            && got.messages == whole.messages && got.error == whole.error
            && (whole.error.None? ==> got.rest == whole.rest)
  {
    ReceiveFromEmpty(decode, chunks);
    assert chunks[0..] == chunks;
    AfterNothing(Receive(decode, [], chunks));
  }

  lemma AfterNothing<T>(d: Drained<T>)
    ensures d.After([]) == d
  {
    assert [] + d.messages == d.messages;
  }

  lemma ReceiveFromEmpty<T>(decode: FrameDecoder<T>, chunks: seq<bytes>)
    ensures var got, whole := Receive(decode, [], chunks), Drain(decode, Concat(chunks));
            && got.messages == whole.messages && got.error == whole.error
            && (whole.error.None? ==> got.rest == whole.rest)
  {
    NothingDrains(decode);
    ChunkingDoesNotMatter(decode, [], chunks);
    assert [] + Concat(chunks) == Concat(chunks);
  }

  lemma NothingDrains<T>(decode: FrameDecoder<T>)
    ensures Drain(decode, []) == Drained([], [], None)
  {
  }

  /** What is left after decoding is incomplete: decoding again finds nothing and touches nothing. */
  lemma {:induction false} DrainLeavesIncomplete<T>(decode: FrameDecoder<T>, buffer: bytes)
    requires Drain(decode, buffer).error.None?
    ensures TakeFrame(Drain(decode, buffer).rest) == Success(None)
    ensures Drain(decode, Drain(decode, buffer).rest) == Drained([], Drain(decode, buffer).rest, None)
    decreases |buffer|
  {
    match TakeFrame(buffer)
    case Success(None) =>
    case Success(Some((_, rest))) =>
      DrainLeavesIncomplete(decode, rest);
  }

  /** Frames that decode, back to back, followed by an incomplete one. */
  lemma {:induction false} DrainsFrames<T>(decode: FrameDecoder<T>, bodies: seq<bytes>, messages: seq<T>, tail: bytes)
    requires |bodies| == |messages| && TakeFrame(tail) == Success(None)
    requires forall i :: 0 <= i < |bodies| ==> 0 < |bodies[i]| <= MAX_FRAME_SIZE && decode(bodies[i]) == Success(messages[i])
    ensures Drain(decode, Stream(bodies) + tail) == Drained(messages, tail, None)
  {
    if bodies == [] {
      assert Stream(bodies) + tail == tail;
    } else {
      var rest := Stream(bodies[1..]) + tail;
      assert Stream(bodies) + tail == Frame(bodies[0]) + rest;
      TakeFramed(bodies[0], rest);
      DrainsFrames(decode, bodies[1..], messages[1..], tail);
      assert [messages[0]] + messages[1..] == messages;
    }
  }

  /**
   Decoding stops at the first frame that is bad, in its length or in its body: the messages before it are delivered, the error
   is reported, and nothing behind it is decoded.
   */
  lemma {:induction false} DrainStopsAtError<T>(decode: FrameDecoder<T>, bodies: seq<bytes>, messages: seq<T>, tail: bytes,
                                                error: ProtocolError)
    requires |bodies| == |messages|
    requires forall i :: 0 <= i < |bodies| ==> 0 < |bodies[i]| <= MAX_FRAME_SIZE && decode(bodies[i]) == Success(messages[i])
    requires match TakeFrame(tail)
             case Failure(e) => e == error
             case Success(None) => false
             case Success(Some((body, _))) => decode(body) == Failure(error)
    ensures var d := Drain(decode, Stream(bodies) + tail);
            && d.messages == messages && d.error == Some(error)
            && d.rest == if TakeFrame(tail).Success? then TakeFrame(tail).value.value.1 else tail
  {
    if bodies == [] {
      assert Stream(bodies) + tail == tail;
    } else {
      var rest := Stream(bodies[1..]) + tail;
      assert Stream(bodies) + tail == Frame(bodies[0]) + rest;
      TakeFramed(bodies[0], rest);
      DrainStopsAtError(decode, bodies[1..], messages[1..], tail, error);
      assert [messages[0]] + messages[1..] == messages;
    }
  }

  function Stream(bodies: seq<bytes>): bytes
    requires forall b :: b in bodies ==> |b| <= MAX_FRAME_SIZE
  {
    if bodies == [] then [] else Frame(bodies[0]) + Stream(bodies[1..])
  }

  // ---------------------------------------------------------------- buffers

  /** A growable byte buffer that is filled at the end and consumed at the front. */
  class Buffer {
    var data: bytes

    constructor ()
      ensures data == []
    {
      data := [];
    }

    method Put(b: bytes)
      modifies this
      ensures data == old(data) + b
    {
      data := data + b;
    }

    /** Fill in the length of the frame whose header is at `start`. */
    method SetFrameLength(start: nat) returns (r: Result<Unit, ProtocolError>)
      requires start + FRAME_HEADER_SIZE <= |data|
      modifies this
      ensures var body := old(data)[start + FRAME_HEADER_SIZE..];
              if |body| < 0x1_0000_0000 then r == Success(Done) && data == old(data)[..start] + Frame(body)
              else r == Failure(FrameTooLarge) && data == old(data)
    {
      var length := |data| - start - FRAME_HEADER_SIZE;
      if length >= 0x1_0000_0000 {
        return Failure(FrameTooLarge);
      }
      ghost var body := data[start + FRAME_HEADER_SIZE..];
      data := data[..start] + U32(length) + data[start + FRAME_HEADER_SIZE..];
      assert data == old(data)[..start] + (U32(length) + body);
      return Success(Done);
    }

    /** Append a frame with this body: first a header of zeros, then the body, then the length in the header's place. */
    method PutFrame(body: bytes) returns (r: Result<Unit, ProtocolError>)
      modifies this
      ensures if |body| < 0x1_0000_0000 then r == Success(Done) && data == old(data) + Frame(body)
              else r == Failure(FrameTooLarge) && old(data) <= data
    {
      var start := |data|;
      Put(U32(0));
      Put(body);
      assert data[start + FRAME_HEADER_SIZE..] == body && data[..start] == old(data);
      r := SetFrameLength(start);
    }

    method Take() returns (r: Result<Option<bytes>, ProtocolError>)
      modifies this
      ensures match TakeFrame(old(data))
              case Failure(error) => r == Failure(error) && data == old(data)
              case Success(None) => r == Success(None) && data == old(data)
              case Success(Some((frame, rest))) => r == Success(Some(frame)) && data == rest
    {
      if |data| < FRAME_HEADER_SIZE {
        return Success(None);
      }
      var length := Get(data[..FRAME_HEADER_SIZE]);
      if length == 0 {
        return Failure(InvalidFrame);
      }
      if length > MAX_FRAME_SIZE {
        return Failure(FrameTooLarge);
      }
      if |data| < FRAME_HEADER_SIZE + length {
        return Success(None);
      }
      data := data[FRAME_HEADER_SIZE..];
      var frame := data[..length];
      data := data[length..];
      return Success(Some(frame));
    }

    /** Decode frames until none is complete. */
    method DecodeAll<T>(decode: FrameDecoder<T>) returns (messages: seq<T>, error: Option<ProtocolError>)
      modifies this
      ensures Drained(messages, data, error) == Drain(decode, old(data))
    {
      messages := [];
      while true
        invariant Drain(decode, old(data)) == Drain(decode, data).After(messages)
        decreases |data|
      {
        var taken := Take();
        match taken {
          case Failure(e) =>
            return messages, Some(e);
          case Success(None) =>
            return messages, None;
          case Success(Some(frame)) =>
            match decode(frame) {
              case Failure(e) =>
                return messages, Some(e);
              case Success(message) =>
                AfterTwice(Drain(decode, data), messages, [message]);
                messages := messages + [message];
            }
        }
      }
    }
  }

  /** Serve one connection whose stream arrives in these chunks; a stream that ends inside a frame is an error. */
  method Serve<T>(decode: FrameDecoder<T>, chunks: seq<bytes>) returns (messages: seq<T>, error: Option<ProtocolError>)
    ensures var whole := Drain(decode, Concat(chunks));
            && messages == whole.messages
            && error == if whole.error.Some? then whole.error else if whole.rest != [] then Some(TruncatedFrame) else None
  {
    var buffer := new Buffer();
    messages, error := [], None;
    ReceiveAll(decode, chunks);
    ghost var all := Receive(decode, [], chunks[0..]).After([]);
    for i := 0 to |chunks|
      invariant error.None? && all == Receive(decode, buffer.data, chunks[i..]).After(messages)
    {
      ReceiveAt(decode, buffer.data, chunks, i, messages);
      buffer.Put(chunks[i]);
      var more;
      more, error := buffer.DecodeAll(decode);
      messages := messages + more;
      if error.Some? {
        return;
      }
    }
    assert chunks[|chunks|..] == [];
    if buffer.data != [] {
      error := Some(TruncatedFrame);
    }
  }
}
