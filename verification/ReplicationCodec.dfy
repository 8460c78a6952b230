/** Frames between a leader and its followers. */
module ReplicationCodec {
  import opened Wrappers
  import opened Bytes
  import opened Utf8
  import opened Frames
  import opened Fields

  const REPLICATE_RECORD: u8 := 0x50
  const REPLICATE_ACK: u8 := 0x51

  datatype ReplicateRecord = ReplicateRecord(topic: bytes, partition: u32, offset: u64, timestamp: u64, key: Option<bytes>,
                                             value: bytes, durable: bool, leader: u32, epoch: u64)

  datatype ReplicateAck = ReplicateAck(partition: u32, nextOffset: u64)

  function CheckRecord(r: ReplicateRecord): Result<Unit, ProtocolError> {
    var _ :- ValidateTopic(r.topic);
    var _ :- ValidateSize(|r.key.UnwrapOr([])|, MAX_KEY_SIZE, KeyTooLarge);
    ValidateSize(|r.value|, MAX_MESSAGE_SIZE, MessageTooLarge)
  }

  function Position(r: ReplicateRecord, rest: bytes): bytes {
    U32(r.partition) + (U64(r.offset) + (U64(r.timestamp) + (U8(if r.durable then 1 else 0)
    + (U32(r.leader) + (U64(r.epoch) + rest)))))
  }

  function Content(key: bytes, value: bytes): bytes
    requires |key| <= MAX_KEY_SIZE && |value| <= MAX_MESSAGE_SIZE
  {
    U16(|key|) + (key + (U32(|value|) + value))
  }

  function EncodeRecord(r: ReplicateRecord): Result<bytes, ProtocolError> {
    var _ :- CheckRecord(r);
    Success(U8(REPLICATE_RECORD) + (Str(r.topic) + Position(r, Content(r.key.UnwrapOr([]), r.value))))
  }

  function GetContent(b: bytes): Parsed<(bytes, bytes)> {
    var (keyLength, b1) :- GetU16(b);
    var (key, b2) :- GetBytes(b1, keyLength);
    var (valueLength, b3) :- GetU32(b2);
    var _ :- ValidateSize(valueLength, MAX_MESSAGE_SIZE, MessageTooLarge);
    var (value, b4) :- GetBytes(b3, valueLength);
    Success(((key, value), b4))
  }

  function DecodeBody(topic: bytes, b: bytes): Result<ReplicateRecord, ProtocolError> {
    var _ :- EnsureRemaining(b, 35);
    var (partition, b1) :- GetU32(b);
    var (offset, b2) :- GetU64(b1);
    var (timestamp, b3) :- GetU64(b2);
    var (durable, b4) :- GetU8(b3);
    if durable > 1 then Failure(InvalidFrame)
    else
      var (leader, b5) :- GetU32(b4);
      var (epoch, b6) :- GetU64(b5);
      var ((key, value), b7) :- GetContent(b6);
      var _ :- EnsureEmpty(b7);
      Success(ReplicateRecord(topic, partition, offset, timestamp, if key != [] then Some(key) else None, value,
                              durable == 1, leader, epoch))
  }

  function DecodeRecord(frame: bytes): Result<ReplicateRecord, ProtocolError> {
    var (opcode, b) :- GetU8(frame);
    if opcode != REPLICATE_RECORD then Failure(InvalidFrame)
    else
      var (topic, b1) :- GetString(b);
      DecodeBody(topic, b1)
  }

  function EncodeAck(a: ReplicateAck): bytes {
    U8(REPLICATE_ACK) + (U32(a.partition) + U64(a.nextOffset))
  }

  function DecodeAck(frame: bytes): Result<ReplicateAck, ProtocolError> {
    if |frame| != 13 then Failure(InvalidFrame)
    else
      var (opcode, b) :- GetU8(frame);
      if opcode != REPLICATE_ACK then Failure(InvalidFrame)
      else
        var (partition, b1) :- GetU32(b);
        var (nextOffset, _) :- GetU64(b1);
        Success(ReplicateAck(partition, nextOffset))
  }

  lemma ContentReadBack(key: bytes, value: bytes)
    requires |key| <= MAX_KEY_SIZE && |value| <= MAX_MESSAGE_SIZE
    ensures GetContent(Content(key, value)) == Success(((key, value), []))
  {
    FieldsReadBack();
  }

  lemma BodyReadBack(r: ReplicateRecord, content: bytes, key: bytes)
    requires GetContent(content) == Success(((key, r.value), [])) && |content| >= 2
    requires r.key == if key != [] then Some(key) else None
    ensures DecodeBody(r.topic, Position(r, content)) == Success(r)
  {
    FieldsReadBack();
  }

  /** An empty key and no key are the same on the wire. */
  function Normalized(r: ReplicateRecord): ReplicateRecord {
    r.(key := if r.key == Some([]) then None else r.key)
  }

  /** A replicated record that encodes decodes to itself, an empty key apart. */
  lemma RecordRoundTrip(r: ReplicateRecord)
    requires ValidUtf8(r.topic) && EncodeRecord(r).Success?
    ensures 0 < |EncodeRecord(r).value| <= MAX_FRAME_SIZE
    ensures DecodeRecord(EncodeRecord(r).value) == Success(Normalized(r))
    ensures DecodeRecord(EncodeRecord(r).value) == Success(r) <==> r.key != Some([])
  {
    var key := r.key.UnwrapOr([]);
    var content := Content(key, r.value);
    ContentReadBack(key, r.value);
    assert Position(r, content) == Position(Normalized(r), content);
    BodyReadBack(Normalized(r), content, key);
    StringReadBack(r.topic, Position(r, content));
    FieldsReadBack();
    assert GetU8(U8(REPLICATE_RECORD) + (Str(r.topic) + Position(r, content)))
        == Success((REPLICATE_RECORD, Str(r.topic) + Position(r, content)));
  }

  lemma AckRoundTrip(a: ReplicateAck)
    ensures |EncodeAck(a)| == 13 && DecodeAck(EncodeAck(a)) == Success(a)
  {
    FieldsReadBack();
  }

  // ---------------------------------------------------------------- what decodes

  lemma ContentBackwards(b: bytes)
    requires GetContent(b).Success?
    ensures var ((key, value), rest) := GetContent(b).value;
            |key| <= MAX_KEY_SIZE && |value| <= MAX_MESSAGE_SIZE && b == Content(key, value) + rest
  {
    ShortIsPut(b);
    var (keyLength, b1) := GetU16(b).value;
    var (key, b2) := GetBytes(b1, keyLength).value;
    GotWord(b2);
    var ((_, value), rest) := GetContent(b).value;
    ContentAssoc(key, value, rest);
  }

  lemma ContentAssoc(key: bytes, value: bytes, rest: bytes)
    requires |key| <= MAX_KEY_SIZE && |value| <= MAX_MESSAGE_SIZE
    ensures Content(key, value) + rest == U16(|key|) + (key + (U32(|value|) + (value + rest)))
  {
  }

  lemma BodyBackwards(topic: bytes, b: bytes, r: ReplicateRecord)
    requires DecodeBody(topic, b) == Success(r)
    ensures r.topic == topic && r.key != Some([])
    ensures |r.key.UnwrapOr([])| <= MAX_KEY_SIZE && |r.value| <= MAX_MESSAGE_SIZE
    ensures b == Position(r, Content(r.key.UnwrapOr([]), r.value))
  {
    GotWord(b);
    var b1 := GetU32(b).value.1;
    GotLong(b1);
    var b2 := GetU64(b1).value.1;
    GotLong(b2);
    var b3 := GetU64(b2).value.1;
    LeaderForm(b3);
    LastContent(GetU64(GetU32(GetU8(b3).value.1).value.1).value.1);
    PositionOf(r, Content(r.key.UnwrapOr([]), r.value), GetU8(b3).value.0);
  }

  /** Flag, leader and epoch. */
  lemma LeaderForm(b: bytes)
    requires GetU8(b).Success? && GetU32(GetU8(b).value.1).Success? && GetU64(GetU32(GetU8(b).value.1).value.1).Success?
    ensures var (flag, b1) := GetU8(b).value;
            var (leader, b2) := GetU32(b1).value;
            var (epoch, rest) := GetU64(b2).value;
            b == U8(flag) + (U32(leader) + (U64(epoch) + rest))
  {
    ByteIsPut(b);
    var b1 := GetU8(b).value.1;
    GotWord(b1);
    GotLong(GetU32(b1).value.1);
  }

  lemma PositionOf(r: ReplicateRecord, content: bytes, flag: u8)
    requires flag <= 1 && r.durable == (flag == 1)
    ensures Position(r, content)
            == U32(r.partition) + (U64(r.offset) + (U64(r.timestamp) + (U8(flag) + (U32(r.leader) + (U64(r.epoch) + content)))))
  {
  }

  /** Key and value, at the end of a frame. */
  lemma LastContent(b: bytes)
    requires GetContent(b).Success? && GetContent(b).value.1 == []
    ensures var (key, value) := GetContent(b).value.0;
            && |key| <= MAX_KEY_SIZE && |value| <= MAX_MESSAGE_SIZE && b == Content(key, value)
            && (if key != [] then Some(key) else None).UnwrapOr([]) == key
  {
    ContentBackwards(b);
    var (key, value) := GetContent(b).value.0;
    NothingBehind(Content(key, value));
  }

  /**
   Whatever decodes as a replicated record has a key that is not empty, if any, and a key and value within the limits; its
   frame is exactly its encoding, unless it names a topic that only the encoder refuses.
   */
  lemma DecodesOnlyRecords(frame: bytes, r: ReplicateRecord)
    requires DecodeRecord(frame) == Success(r)
    ensures ValidUtf8(r.topic) && r.key != Some([]) && |r.key.UnwrapOr([])| <= MAX_KEY_SIZE && |r.value| <= MAX_MESSAGE_SIZE
    ensures EncodeRecord(r) == match ValidateTopic(r.topic) case Success(_) => Success(frame) case Failure(e) => Failure(e)
  {
    ByteIsPut(frame);
    var b := GetU8(frame).value.1;
    StringBackwards(b);
    NamedBackwards(b, r);
    Encodes(r, frame);
  }

  lemma NamedBackwards(b: bytes, r: ReplicateRecord)
    requires GetString(b).Success? && DecodeBody(GetString(b).value.0, GetString(b).value.1) == Success(r)
    ensures r.topic == GetString(b).value.0 && ValidUtf8(r.topic) && |r.topic| < 0x1_0000 && r.key != Some([])
    ensures |r.key.UnwrapOr([])| <= MAX_KEY_SIZE && |r.value| <= MAX_MESSAGE_SIZE
    ensures b == Str(r.topic) + Position(r, Content(r.key.UnwrapOr([]), r.value))
  {
    StringBackwards(b);
    BodyBackwards(GetString(b).value.0, GetString(b).value.1, r);
  }

  lemma Encodes(r: ReplicateRecord, frame: bytes)
    requires |r.topic| < 0x1_0000 && |r.key.UnwrapOr([])| <= MAX_KEY_SIZE && |r.value| <= MAX_MESSAGE_SIZE
    requires frame == U8(REPLICATE_RECORD) + (Str(r.topic) + Position(r, Content(r.key.UnwrapOr([]), r.value)))
    ensures EncodeRecord(r) == match ValidateTopic(r.topic) case Success(_) => Success(frame) case Failure(e) => Failure(e)
  {
  }

  /** An acknowledgement is its encoding, and nothing else is one. */
  lemma DecodesOnlyAcks(frame: bytes, a: ReplicateAck)
    ensures DecodeAck(frame) == Success(a) <==> frame == EncodeAck(a)
  {
    AckRoundTrip(a);
    if DecodeAck(frame) == Success(a) {
      ByteIsPut(frame);
      var b := GetU8(frame).value.1;
      GotWord(b);
      GotLong(GetU32(b).value.1);
      NothingBehind(U64(a.nextOffset));
    }
  }
}
