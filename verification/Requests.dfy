/** Request frames. */
module Requests {
  import opened Wrappers
  import opened Bytes
  import opened Utf8
  import opened RecordCodec
  import opened Frames
  import opened Fields

  const MAX_BATCH_MESSAGES := 1000
  const MAX_UNCOMPRESSED_BATCH_SIZE := 3 * 1024 * 1024
  const MAX_FETCH_BYTES := 3 * 1024 * 1024
  const MAX_FETCH_WAIT_MS := 30_000

  const PRODUCE: u8 := 0x01
  const PRODUCE_BATCH: u8 := 0x03
  const FETCH: u8 := 0x10
  const JOIN_GROUP: u8 := 0x20
  const HEARTBEAT: u8 := 0x22
  const LEAVE_GROUP: u8 := 0x23
  const COMMIT_OFFSET: u8 := 0x24
  const FETCH_COMMITTED_OFFSET: u8 := 0x25
  const GROUP_FETCH: u8 := 0x28
  const CREATE_TOPIC: u8 := 0x30
  const LIST_TOPICS: u8 := 0x31
  const DESCRIBE_TOPIC: u8 := 0x32
  const CLUSTER_METADATA: u8 := 0x40
  const PROMOTE_LEADER: u8 := 0x42
  const APPLY_LEADERSHIP: u8 := 0x43
  const PARTITION_STATUS: u8 := 0x45

  datatype AckMode = Leader | Durable

  datatype Compression = Plain | Zstd

  datatype BatchRecord = BatchRecord(key: bytes, payload: bytes)

  datatype Member = Member(group: bytes, topic: bytes, member: bytes)

  datatype Request =
    | Produce(topic: bytes, key: bytes, payload: bytes, ackMode: AckMode, producer: Option<Producer>, target: Option<u32>)
    | ProduceBatch(topic: bytes, records: seq<BatchRecord>, ackMode: AckMode, compression: Compression, target: Option<u32>)
    | Fetch(topic: bytes, partition: u32, offset: u64, maxBytes: u32, maxWaitMs: u32)
    | JoinGroup(who: Member)
    | Heartbeat(who: Member, generation: u64)
    | LeaveGroup(who: Member, generation: u64)
    | CommitOffset(who: Member, generation: u64, partition: u32, offset: u64)
    | FetchCommittedOffset(group: bytes, topic: bytes, partition: u32)
    | GroupFetch(who: Member, generation: u64, partition: u32, offset: u64, maxBytes: u32, maxWaitMs: u32)
    | CreateTopic(topic: bytes, partitions: u32)
    | ListTopics
    | DescribeTopic(topic: bytes)
    | ClusterMetadata
    | PromoteLeader(topic: bytes, partition: u32, leader: u32)
    | ApplyLeadership(topic: bytes, partition: u32, leader: u32, epoch: u64, highWatermark: u64)
    | PartitionStatus(topic: bytes, partition: u32)

  /** The compression library, which may fail. */
  datatype Compressor = Compressor(compress: bytes -> Option<bytes>, decompress: (bytes, nat) -> Option<bytes>)

  /** What was compressed is restored if it fits the limit. */
  ghost predicate Invertible(zstd: Compressor) {
    forall b, limit {:trigger zstd.decompress(zstd.compress(b).value, limit)} ::
      zstd.compress(b).Some? && |b| <= limit ==> zstd.decompress(zstd.compress(b).value, limit) == Some(b)
  }

  // ---------------------------------------------------------------- what the constructors check

  function CheckProduce(topic: bytes, key: bytes, payload: bytes, producer: Option<Producer>): Result<Unit, ProtocolError> {
    var _ :- ValidateTopic(topic);
    var _ :- ValidateSize(|key|, MAX_KEY_SIZE, KeyTooLarge);
    var _ :- ValidateSize(|payload|, MAX_MESSAGE_SIZE, MessageTooLarge);
    if producer.Some? && !ValidProducerId(producer.value.id) then Failure(ProtocolError.InvalidProducerId) else Success(Done)
  }

  function CheckFetch(topic: bytes, maxBytes: u32, maxWaitMs: u32): Result<Unit, ProtocolError> {
    var _ :- ValidateTopic(topic);
    if maxBytes == 0 || maxBytes > MAX_FETCH_BYTES then Failure(FetchTooLarge)
    else if maxWaitMs > MAX_FETCH_WAIT_MS then Failure(FetchWaitTooLong)
    else Success(Done)
  }

  /** The size check of one record after the other, and of all together. */
  function CheckRecords(records: seq<BatchRecord>, size: nat): Result<Unit, ProtocolError> {
    if records == [] then ValidateSize(size, MAX_UNCOMPRESSED_BATCH_SIZE, BatchTooLarge)
    else
      var _ :- ValidateSize(|records[0].key|, MAX_KEY_SIZE, KeyTooLarge);
      var _ :- ValidateSize(|records[0].payload|, MAX_MESSAGE_SIZE, MessageTooLarge);
      CheckRecords(records[1..], size + 2 + |records[0].key| + 4 + |records[0].payload|)
  }

  function CheckBatch(topic: bytes, records: seq<BatchRecord>): Result<Unit, ProtocolError> {
    var _ :- ValidateTopic(topic);
    if records == [] || |records| > MAX_BATCH_MESSAGES then Failure(InvalidBatchCount) else CheckRecords(records, 4)
  }

  /** What a produce request may be. */
  lemma ProducesIff(topic: bytes, key: bytes, payload: bytes, producer: Option<Producer>)
    ensures CheckProduce(topic, key, payload, producer).Success?
            <==> ValidateTopic(topic).Success? && |key| < 0x1_0000 && |payload| <= 1_048_576
                 && (producer.Some? ==> ValidProducerId(producer.value.id))
  {
  }

  /** What a fetch may ask for: 1 byte to 3 MiB, and up to 30 seconds of waiting. */
  lemma FetchesIff(topic: bytes, maxBytes: u32, maxWaitMs: u32)
    ensures CheckFetch(topic, maxBytes, maxWaitMs).Success?
            <==> ValidateTopic(topic).Success? && 1 <= maxBytes <= 3_145_728 && maxWaitMs <= 30_000
  {
  }

  /** What a batch may hold: 1 to 1,000 records, each within the limits of one, and together at most 3 MiB on the wire. */
  lemma BatchesIff(topic: bytes, records: seq<BatchRecord>)
    ensures CheckBatch(topic, records).Success?
            <==> && ValidateTopic(topic).Success? && 1 <= |records| <= 1000
                 && (forall r :: r in records ==> |r.key| < 0x1_0000 && |r.payload| <= 1_048_576)
                 && 4 + WireSize(records) <= 3_145_728
  {
    RecordsPassIff(records, 4);
  }

  /** Two lengths, the key and the payload of each record. */
  function WireSize(records: seq<BatchRecord>): nat {
    if records == [] then 0 else 6 + |records[0].key| + |records[0].payload| + WireSize(records[1..])
  }

  lemma {:induction false} RecordsPassIff(records: seq<BatchRecord>, size: nat)
    ensures CheckRecords(records, size).Success?
            <==> (forall r :: r in records ==> |r.key| < 0x1_0000 && |r.payload| <= 1_048_576)
                 && size + WireSize(records) <= 3_145_728
  {
    if records != [] {
      RecordsPassIff(records[1..], size + 2 + |records[0].key| + 4 + |records[0].payload|);
      assert records == [records[0]] + records[1..];
    }
  }

  predicate TextMember(who: Member) {
    ValidUtf8(who.group) && ValidUtf8(who.topic) && ValidUtf8(who.member)
  }

  /** A value a client can hold: strings are UTF-8, and requests with a checking constructor passed it. */
  predicate WellFormed(r: Request) {
    match r
    case Produce(topic, key, payload, _, producer, _) =>
      ValidUtf8(topic) && CheckProduce(topic, key, payload, producer).Success?
    case ProduceBatch(topic, records, _, _, _) => ValidUtf8(topic) && CheckBatch(topic, records).Success?
    case Fetch(topic, _, _, maxBytes, maxWaitMs) => ValidUtf8(topic) && CheckFetch(topic, maxBytes, maxWaitMs).Success?
    case JoinGroup(who) => TextMember(who)
    case Heartbeat(who, _) => TextMember(who)
    case LeaveGroup(who, _) => TextMember(who)
    case CommitOffset(who, _, _, _) => TextMember(who)
    case FetchCommittedOffset(group, topic, _) => ValidUtf8(group) && ValidUtf8(topic)
    case GroupFetch(who, _, _, _, _, _) => TextMember(who)
    case CreateTopic(topic, _) => ValidUtf8(topic)
    case DescribeTopic(topic) => ValidUtf8(topic)
    case PromoteLeader(topic, _, _) => ValidUtf8(topic)
    case ApplyLeadership(topic, _, _, _, _) => ValidUtf8(topic)
    case PartitionStatus(topic, _) => ValidUtf8(topic)
    case ListTopics => true
    case ClusterMetadata => true
  }

  // ---------------------------------------------------------------- encoding

  function AckCode(mode: AckMode): u8 {
    match mode case Leader => 1 case Durable => 2
  }

  function CompressionCode(c: Compression): u8 {
    match c case Plain => 0 case Zstd => 1
  }

  function ProducerFields(producer: Option<Producer>, rest: bytes): bytes
    requires producer.Some? ==> |producer.value.id| < 0x1_0000
  {
    match producer
    case None => U16(0) + (U64(0) + rest)
    case Some(p) => U16(|p.id|) + (p.id + (U64(p.sequence) + rest))
  }

  function ProduceFields(r: Request): bytes
    requires r.Produce? && WellFormed(r)
  {
    U16(|r.topic|) + (r.topic + (BatchRecordFields(BatchRecord(r.key, r.payload))
    + (U8(AckCode(r.ackMode)) + ProducerFields(r.producer, OptionU32(r.target)))))
  }

  function BatchRecordFields(r: BatchRecord): bytes
    requires |r.key| <= MAX_KEY_SIZE && |r.payload| <= MAX_MESSAGE_SIZE
  {
    U16(|r.key|) + (r.key + (U32(|r.payload|) + r.payload))
  }

  function BatchRecords(records: seq<BatchRecord>): bytes
    requires |records| < 0x1_0000_0000
    requires forall r :: r in records ==> |r.key| <= MAX_KEY_SIZE && |r.payload| <= MAX_MESSAGE_SIZE
  {
    U32(|records|) + PutAll(records, BatchRecordFields)
  }

  function BatchFields(r: Request, uncompressed: u32, encoded: bytes): bytes
    requires r.ProduceBatch? && |r.topic| < 0x1_0000 && |encoded| < 0x1_0000_0000
  {
    U16(|r.topic|) + (r.topic + BatchHeader(r.ackMode, r.compression, uncompressed,
    U32(|encoded|) + (encoded + OptionU32(r.target))))
  }

  function BatchHeader(ackMode: AckMode, compression: Compression, uncompressed: u32, rest: bytes): (b: bytes)
    ensures |b| == 6 + |rest|
  {
    U8(AckCode(ackMode)) + (U8(CompressionCode(compression)) + (U32(uncompressed) + rest))
  }

  function EncodeBatch(zstd: Compressor, r: Request): Result<bytes, ProtocolError>
    requires r.ProduceBatch? && WellFormed(r)
  {
    CheckedRecords(r.records, 4);
    var records := BatchRecords(r.records);
    var encoded := if r.compression.Plain? then Some(records) else zstd.compress(records);
    if encoded.None? then Failure(InvalidCompressedBatch)
    else if |records| >= 0x1_0000_0000 then Failure(BatchTooLarge)
    else if |encoded.value| >= 0x1_0000_0000 then Failure(FrameTooLarge)
    else
      var body := U8(PRODUCE_BATCH) + BatchFields(r, |records|, encoded.value);
      if |body| > MAX_FRAME_SIZE then Failure(FrameTooLarge) else Success(body)
  }

  /** What a fetch asks for. */
  function Window(partition: u32, offset: u64, maxBytes: u32, maxWaitMs: u32): bytes {
    U32(partition) + (U64(offset) + (U32(maxBytes) + U32(maxWaitMs)))
  }

  function MemberFields(who: Member, rest: bytes): Result<bytes, ProtocolError> {
    var group :- PutString(who.group);
    var topic :- PutString(who.topic);
    var member :- PutString(who.member);
    Success(group + (topic + (member + rest)))
  }

  /** The body of the frame of a request: its opcode and fields. */
  function EncodeRequest(zstd: Compressor, r: Request): Result<bytes, ProtocolError>
    requires WellFormed(r)
  {
    match r
    case Produce(_, _, _, _, _, _) => Success(U8(PRODUCE) + ProduceFields(r))
    case ProduceBatch(_, _, _, _, _) => EncodeBatch(zstd, r)
    case Fetch(topic, partition, offset, maxBytes, maxWaitMs) =>
      Success(U8(FETCH) + (U16(|topic|) + (topic + Window(partition, offset, maxBytes, maxWaitMs))))
    case JoinGroup(who) =>
      var fields :- MemberFields(who, []);
      Success(U8(JOIN_GROUP) + fields)
    case Heartbeat(who, generation) =>
      var fields :- MemberFields(who, U64(generation));
      Success(U8(HEARTBEAT) + fields)
    case LeaveGroup(who, generation) =>
      var fields :- MemberFields(who, U64(generation));
      Success(U8(LEAVE_GROUP) + fields)
    case CommitOffset(who, generation, partition, offset) =>
      var fields :- MemberFields(who, U64(generation) + (U32(partition) + U64(offset)));
      Success(U8(COMMIT_OFFSET) + fields)
    case FetchCommittedOffset(group, topic, partition) =>
      var group :- PutString(group);
      var topic :- PutString(topic);
      Success(U8(FETCH_COMMITTED_OFFSET) + (group + (topic + U32(partition))))
    case GroupFetch(who, generation, partition, offset, maxBytes, maxWaitMs) =>
      var _ :- CheckFetch(who.topic, maxBytes, maxWaitMs);
      var fields :- MemberFields(who, U64(generation) + Window(partition, offset, maxBytes, maxWaitMs));
      Success(U8(GROUP_FETCH) + fields)
    case CreateTopic(topic, partitions) =>
      var _ :- ValidateTopic(topic);
      if partitions == 0 then Failure(InvalidPartitionCount)
      else Success(U8(CREATE_TOPIC) + (Str(topic) + U32(partitions)))
    case ListTopics => Success(U8(LIST_TOPICS) + [])
    case DescribeTopic(topic) =>
      var _ :- ValidateTopic(topic);
      Success(U8(DESCRIBE_TOPIC) + Str(topic))
    case ClusterMetadata => Success(U8(CLUSTER_METADATA) + [])
    case PromoteLeader(topic, partition, leader) =>
      var _ :- ValidateTopic(topic);
      Success(U8(PROMOTE_LEADER) + (Str(topic) + (U32(partition) + U32(leader))))
    case ApplyLeadership(topic, partition, leader, epoch, highWatermark) =>
      var _ :- ValidateTopic(topic);
      Success(U8(APPLY_LEADERSHIP) + (Str(topic) + (U32(partition) + (U32(leader) + (U64(epoch) + U64(highWatermark))))))
    case PartitionStatus(topic, partition) =>
      var _ :- ValidateTopic(topic);
      Success(U8(PARTITION_STATUS) + (Str(topic) + U32(partition)))
  }

  /** The first byte of a request. */
  lemma RequestOpcode(zstd: Compressor, r: Request)
    requires WellFormed(r) && EncodeRequest(zstd, r).Success?
    ensures |EncodeRequest(zstd, r).value| > 0
    ensures EncodeRequest(zstd, r).value[0] ==
            match r
            case Produce(_, _, _, _, _, _) => 1
            case ProduceBatch(_, _, _, _, _) => 3
            case Fetch(_, _, _, _, _) => 16
            case JoinGroup(_) => 32
            case Heartbeat(_, _) => 34
            case LeaveGroup(_, _) => 35
            case CommitOffset(_, _, _, _) => 36
            case FetchCommittedOffset(_, _, _) => 37
            case GroupFetch(_, _, _, _, _, _) => 40
            case CreateTopic(_, _) => 48
            case ListTopics => 49
            case DescribeTopic(_) => 50
            case ClusterMetadata => 64
            case PromoteLeader(_, _, _) => 66
            case ApplyLeadership(_, _, _, _, _) => 67
            case PartitionStatus(_, _) => 69
  {
  }

  // ---------------------------------------------------------------- decoding

  function AckFrom(code: u8): Result<AckMode, ProtocolError> {
    if code == 1 then Success(Leader) else if code == 2 then Success(Durable) else Failure(InvalidAckMode(code))
  }

  function CompressionFrom(code: u8): Result<Compression, ProtocolError> {
    if code == 0 then Success(Plain) else if code == 1 then Success(Zstd) else Failure(InvalidCompression(code))
  }

  /** A topic name with its own limit and error. */
  function GetTopic(b: bytes): Parsed<bytes> {
    var (length, b1) :- GetU16(b);
    var _ :- ValidateSize(length, MAX_TOPIC_NAME, TopicTooLarge);
    var (topic, b2) :- GetBytes(b1, length);
    if !ValidUtf8(topic) then Failure(InvalidTopic) else Success((topic, b2))
  }

  function GetProducer(b: bytes): Parsed<Option<Producer>> {
    var (length, b1) :- GetU16(b);
    if length == 0 then
      var (_, b2) :- GetU64(b1);
      Success((None, b2))
    else
      var (id, b2) :- GetBytes(b1, length);
      if !ValidUtf8(id) then Failure(ProtocolError.InvalidProducerId)
      else
        var (sequence, b3) :- GetU64(b2);
        Success((Some(Producer(id, sequence)), b3))
  }

  function DecodeProduce(b: bytes): Result<Request, ProtocolError> {
    var (topic, b1) :- GetTopic(b);
    if topic == [] then Failure(InvalidTopic)
    else
      var (message, b2) :- GetBatchRecord(b1);
      var (ackMode, producer, target) :- DecodeProduceOptions(b2);
      var _ :- CheckProduce(topic, message.key, message.payload, producer);
      Success(Produce(topic, message.key, message.payload, ackMode, producer, target))
  }

  function DecodeProduceOptions(b: bytes): Result<(AckMode, Option<Producer>, Option<u32>), ProtocolError> {
    var (code, b1) :- GetU8(b);
    var ackMode :- AckFrom(code);
    var (producer, b2) :- GetProducer(b1);
    var (target, b3) :- GetOptionU32(b2);
    var _ :- EnsureEmpty(b3);
    Success((ackMode, producer, target))
  }

  /** A key and a payload, each after its length. */
  function GetBatchRecord(b: bytes): Parsed<BatchRecord> {
    var (keyLength, b1) :- GetU16(b);
    var _ :- ValidateSize(keyLength, MAX_KEY_SIZE, KeyTooLarge);
    var (key, b2) :- GetBytes(b1, keyLength);
    var (payloadLength, b3) :- GetU32(b2);
    var _ :- ValidateSize(payloadLength, MAX_MESSAGE_SIZE, MessageTooLarge);
    var (payload, b4) :- GetBytes(b3, payloadLength);
    Success((BatchRecord(key, payload), b4))
  }

  function DecodeBatchRecords(b: bytes): Result<seq<BatchRecord>, ProtocolError> {
    var (count, b1) :- GetU32(b);
    if count == 0 || count > MAX_BATCH_MESSAGES then Failure(InvalidBatchCount)
    else
      var (records, b2) :- GetAll(count, b1, GetBatchRecord);
      var _ :- EnsureEmpty(b2);
      Success(records)
  }

  function Decompressed(zstd: Compressor, compression: Compression, encoded: bytes): Result<bytes, ProtocolError> {
    match compression
    case Plain => Success(encoded)
    case Zstd =>
      match zstd.decompress(encoded, MAX_UNCOMPRESSED_BATCH_SIZE)
      case Some(decoded) => Success(decoded)
      case None => Failure(InvalidCompressedBatch)
  }

  function GetBatchHeader(b: bytes): Parsed<(AckMode, Compression, nat)> {
    var _ :- EnsureRemaining(b, 10);
    var (ack, b1) :- GetU8(b);
    var ackMode :- AckFrom(ack);
    var (codec, b2) :- GetU8(b1);
    var compression :- CompressionFrom(codec);
    var (length, b3) :- GetU32(b2);
    if length > MAX_UNCOMPRESSED_BATCH_SIZE then Failure(BatchTooLarge) else Success(((ackMode, compression, length), b3))
  }

  function DecodeBatch(zstd: Compressor, b: bytes): Result<Request, ProtocolError> {
    var (topic, b1) :- GetTopic(b);
    var (header, b2) :- GetBatchHeader(b1);
    var (encodedLength, b3) :- GetU32(b2);
    var (encoded, b4) :- GetBytes(b3, encodedLength);
    var (target, b5) :- GetOptionU32(b4);
    var _ :- EnsureEmpty(b5);
    var decoded :- Decompressed(zstd, header.1, encoded);
    if |decoded| != header.2 then Failure(InvalidCompressedBatch)
    else
      var records :- DecodeBatchRecords(decoded);
      var _ :- CheckBatch(topic, records);
      Success(ProduceBatch(topic, records, header.0, header.1, target))
  }

  function DecodeFetch(b: bytes): Result<Request, ProtocolError> {
    var (topic, b1) :- GetTopic(b);
    var (partition, b2) :- GetU32(b1);
    var (offset, b3) :- GetU64(b2);
    var (maxBytes, b4) :- GetU32(b3);
    var (maxWaitMs, b5) :- GetU32(b4);
    var _ :- EnsureEmpty(b5);
    var _ :- CheckFetch(topic, maxBytes, maxWaitMs);
    Success(Fetch(topic, partition, offset, maxBytes, maxWaitMs))
  }

  function GetMember(b: bytes): Parsed<Member> {
    var (group, b1) :- GetString(b);
    var (topic, b2) :- GetString(b1);
    var (member, b3) :- GetString(b2);
    Success((Member(group, topic, member), b3))
  }

  function DecodeGeneration(b: bytes, make: (Member, u64) -> Request): Result<Request, ProtocolError> {
    var (who, b1) :- GetMember(b);
    var (generation, b2) :- GetU64(b1);
    var _ :- EnsureEmpty(b2);
    Success(make(who, generation))
  }

  function DecodeHeartbeat(b: bytes): Result<Request, ProtocolError> {
    DecodeGeneration(b, (who, generation: u64) => Heartbeat(who, generation))
  }

  function DecodeLeaveGroup(b: bytes): Result<Request, ProtocolError> {
    DecodeGeneration(b, (who, generation: u64) => LeaveGroup(who, generation))
  }

  function DecodeCommitOffset(b: bytes): Result<Request, ProtocolError> {
    var (who, b1) :- GetMember(b);
    var (generation, b2) :- GetU64(b1);
    var (partition, b3) :- GetU32(b2);
    var (offset, b4) :- GetU64(b3);
    var _ :- EnsureEmpty(b4);
    Success(CommitOffset(who, generation, partition, offset))
  }

  function DecodeFetchCommitted(b: bytes): Result<Request, ProtocolError> {
    var (group, b1) :- GetString(b);
    var (topic, b2) :- GetString(b1);
    var (partition, b3) :- GetU32(b2);
    var _ :- EnsureEmpty(b3);
    Success(FetchCommittedOffset(group, topic, partition))
  }

  function DecodeGroupFetch(b: bytes): Result<Request, ProtocolError> {
    var (who, b1) :- GetMember(b);
    var (generation, b2) :- GetU64(b1);
    var (partition, b3) :- GetU32(b2);
    var (offset, b4) :- GetU64(b3);
    var (maxBytes, b5) :- GetU32(b4);
    var (maxWaitMs, b6) :- GetU32(b5);
    var _ :- EnsureEmpty(b6);
    var _ :- CheckFetch(who.topic, maxBytes, maxWaitMs);
    Success(GroupFetch(who, generation, partition, offset, maxBytes, maxWaitMs))
  }

  function DecodeCreateTopic(b: bytes): Result<Request, ProtocolError> {
    var (topic, b1) :- GetString(b);
    var (partitions, b2) :- GetU32(b1);
    var _ :- EnsureEmpty(b2);
    var _ :- ValidateTopic(topic);
    if partitions == 0 then Failure(InvalidPartitionCount) else Success(CreateTopic(topic, partitions))
  }

  function DecodeDescribeTopic(b: bytes): Result<Request, ProtocolError> {
    var (topic, b1) :- GetString(b);
    var _ :- EnsureEmpty(b1);
    var _ :- ValidateTopic(topic);
    Success(DescribeTopic(topic))
  }

  function DecodePromoteLeader(b: bytes): Result<Request, ProtocolError> {
    var (topic, b1) :- GetString(b);
    var (partition, b2) :- GetU32(b1);
    var (leader, b3) :- GetU32(b2);
    var _ :- EnsureEmpty(b3);
    Success(PromoteLeader(topic, partition, leader))
  }

  function DecodeApplyLeadership(b: bytes): Result<Request, ProtocolError> {
    var (topic, b1) :- GetString(b);
    var (partition, b2) :- GetU32(b1);
    var (leader, b3) :- GetU32(b2);
    var (epoch, b4) :- GetU64(b3);
    var (highWatermark, b5) :- GetU64(b4);
    var _ :- EnsureEmpty(b5);
    Success(ApplyLeadership(topic, partition, leader, epoch, highWatermark))
  }

  function DecodePartitionStatus(b: bytes): Result<Request, ProtocolError> {
    var (topic, b1) :- GetString(b);
    var (partition, b2) :- GetU32(b1);
    var _ :- EnsureEmpty(b2);
    Success(PartitionStatus(topic, partition))
  }

  function DecodeRequest(zstd: Compressor, frame: bytes): Result<Request, ProtocolError> {
    var (opcode, b) :- GetU8(frame);
    DecoderOf(zstd, opcode)(b)
  }

  function DecodeJoinGroup(b: bytes): Result<Request, ProtocolError> {
    var (who, rest) :- GetMember(b);
    var _ :- EnsureEmpty(rest);
    Success(JoinGroup(who))
  }

  /** A request without fields; anything after its opcode makes the opcode unknown. */
  function DecodeBare(opcode: u8, r: Request, b: bytes): Result<Request, ProtocolError> {
    if b == [] then Success(r) else Failure(UnknownOpcode(opcode))
  }

  /** The decoder of the fields after an opcode. */
  function DecoderOf(zstd: Compressor, opcode: u8): bytes -> Result<Request, ProtocolError> {
    if opcode == PRODUCE then DecodeProduce
    else if opcode == PRODUCE_BATCH then b => DecodeBatch(zstd, b)
    else if opcode == FETCH then DecodeFetch
    else if opcode == JOIN_GROUP then DecodeJoinGroup
    else if opcode == HEARTBEAT then DecodeHeartbeat
    else if opcode == LEAVE_GROUP then DecodeLeaveGroup
    else if opcode == COMMIT_OFFSET then DecodeCommitOffset
    else if opcode == FETCH_COMMITTED_OFFSET then DecodeFetchCommitted
    else if opcode == GROUP_FETCH then DecodeGroupFetch
    else if opcode == CREATE_TOPIC then DecodeCreateTopic
    else if opcode == LIST_TOPICS then b => DecodeBare(opcode, ListTopics, b)
    else if opcode == DESCRIBE_TOPIC then DecodeDescribeTopic
    else if opcode == CLUSTER_METADATA then b => DecodeBare(opcode, ClusterMetadata, b)
    else if opcode == PROMOTE_LEADER then DecodePromoteLeader
    else if opcode == APPLY_LEADERSHIP then DecodeApplyLeadership
    else if opcode == PARTITION_STATUS then DecodePartitionStatus
    else b => Failure(UnknownOpcode(opcode))
  }

  // ---------------------------------------------------------------- round trips

  lemma OpcodeReadBack(zstd: Compressor, opcode: u8, fields: bytes)
    ensures DecodeRequest(zstd, U8(opcode) + fields) == DecoderOf(zstd, opcode)(fields)
  {
    ByteReadBack(opcode, fields);
  }

  lemma TopicReadBack(topic: bytes, rest: bytes)
    requires GoodTopic(topic)
    ensures GetTopic(U16(|topic|) + (topic + rest)) == Success((topic, rest))
  {
    LengthReadBack(|topic|, topic + rest);
    SplitAppend(topic, rest);
  }

  lemma ProducerReadBack(producer: Option<Producer>, rest: bytes)
    requires producer.Some? ==> ValidProducerId(producer.value.id)
    ensures GetProducer(ProducerFields(producer, rest)) == Success((producer, rest))
  {
    FieldsReadBack();
    if producer.Some? {
      AsciiIsUtf8(producer.value.id);
    }
  }

  lemma ProduceRoundTrip(r: Request)
    requires r.Produce? && WellFormed(r)
    ensures DecodeProduce(ProduceFields(r)) == Success(r)
  {
    var message := BatchRecord(r.key, r.payload);
    var options := U8(AckCode(r.ackMode)) + ProducerFields(r.producer, OptionU32(r.target));
    TopicReadBack(r.topic, BatchRecordFields(message) + options);
    BatchRecordReadBack(message, options);
    OptionsReadBack(r.ackMode, r.producer, r.target);
  }

  lemma OptionsReadBack(ackMode: AckMode, producer: Option<Producer>, target: Option<u32>)
    requires producer.Some? ==> ValidProducerId(producer.value.id)
    ensures DecodeProduceOptions(U8(AckCode(ackMode)) + ProducerFields(producer, OptionU32(target)))
            == Success((ackMode, producer, target))
  {
    ByteReadBack(AckCode(ackMode), ProducerFields(producer, OptionU32(target)));
    ProducerReadBack(producer, OptionU32(target));
    OptionReadBack(target, []);
    assert OptionU32(target) + [] == OptionU32(target);
  }

  lemma ByteReadBack(n: u8, rest: bytes)
    ensures GetU8(U8(n) + rest) == Success((n, rest))
  {
    FieldsReadBack();
  }

  lemma {:induction false} CheckedRecords(records: seq<BatchRecord>, size: nat)
    requires CheckRecords(records, size).Success?
    ensures forall r :: r in records ==> |r.key| <= MAX_KEY_SIZE && |r.payload| <= MAX_MESSAGE_SIZE
    ensures size + |PutAll(records, BatchRecordFields)| <= MAX_UNCOMPRESSED_BATCH_SIZE
  {
    if records != [] {
      CheckedRecords(records[1..], size + 2 + |records[0].key| + 4 + |records[0].payload|);
      assert |BatchRecordFields(records[0])| == 2 + |records[0].key| + 4 + |records[0].payload|;
    }
  }

  lemma BatchRecordReadBack(r: BatchRecord, more: bytes)
    requires |r.key| <= MAX_KEY_SIZE && |r.payload| <= MAX_MESSAGE_SIZE
    ensures GetBatchRecord(BatchRecordFields(r) + more) == Success((r, more))
  {
    var b3 := U32(|r.payload|) + (r.payload + more);
    assert BatchRecordFields(r) + more == U16(|r.key|) + (r.key + b3);
    LengthReadBack(|r.key|, r.key + b3);
    SplitAppend(r.key, b3);
    CountReadBack(|r.payload|, r.payload + more);
    SplitAppend(r.payload, more);
  }

  lemma BatchRecordsRoundTrip(records: seq<BatchRecord>)
    requires 0 < |records| <= MAX_BATCH_MESSAGES && CheckRecords(records, 4).Success?
    ensures forall r :: r in records ==> |r.key| <= MAX_KEY_SIZE && |r.payload| <= MAX_MESSAGE_SIZE
    ensures DecodeBatchRecords(BatchRecords(records)) == Success(records)
    ensures |BatchRecords(records)| <= MAX_UNCOMPRESSED_BATCH_SIZE
  {
    CheckedRecords(records, 4);
    forall r, more: bytes | r in records
      ensures GetBatchRecord(BatchRecordFields(r) + more) == Success((r, more))
    {
      BatchRecordReadBack(r, more);
    }
    var all := PutAll(records, BatchRecordFields);
    AllReadBack(records, BatchRecordFields, GetBatchRecord, []);
    assert all + [] == all;
    FieldsReadBack();
  }

  lemma BatchRoundTrip(zstd: Compressor, r: Request)
    requires r.ProduceBatch? && WellFormed(r) && Invertible(zstd) && EncodeBatch(zstd, r).Success?
    ensures DecodeRequest(zstd, EncodeBatch(zstd, r).value) == Success(r)
  {
    CheckedRecords(r.records, 4);
    BatchRecordsRoundTrip(r.records);
    var records := BatchRecords(r.records);
    var encoded := if r.compression.Plain? then records else zstd.compress(records).value;
    assert Decompressed(zstd, r.compression, encoded) == Success(records);
    BatchFieldsRoundTrip(zstd, r, records, encoded);
    OpcodeReadBack(zstd, PRODUCE_BATCH, BatchFields(r, |records|, encoded));
  }

  lemma HeaderReadBack(ackMode: AckMode, compression: Compression, uncompressed: u32, rest: bytes)
    requires uncompressed <= MAX_UNCOMPRESSED_BATCH_SIZE && |rest| >= 4
    ensures GetBatchHeader(BatchHeader(ackMode, compression, uncompressed, rest))
            == Success(((ackMode, compression, uncompressed), rest))
  {
    FieldsReadBack();
  }

  lemma BatchFieldsRoundTrip(zstd: Compressor, r: Request, records: bytes, encoded: bytes)
    requires r.ProduceBatch? && WellFormed(r) && |encoded| < 0x1_0000_0000 && |records| <= MAX_UNCOMPRESSED_BATCH_SIZE
    requires Decompressed(zstd, r.compression, encoded) == Success(records) && DecodeBatchRecords(records) == Success(r.records)
    ensures DecodeBatch(zstd, BatchFields(r, |records|, encoded)) == Success(r)
  {
    var b4 := OptionU32(r.target);
    var b2 := U32(|encoded|) + (encoded + b4);
    TopicReadBack(r.topic, BatchHeader(r.ackMode, r.compression, |records|, b2));
    HeaderReadBack(r.ackMode, r.compression, |records|, b2);
    CountReadBack(|encoded|, encoded + b4);
    SplitAppend(encoded, b4);
    OptionReadBack(r.target, []);
    assert b4 + [] == b4;
  }

  lemma MemberReadBack(who: Member, rest: bytes)
    requires TextMember(who) && MemberFields(who, rest).Success?
    ensures GetMember(MemberFields(who, rest).value) == Success((who, rest))
  {
    StringReadBack(who.group, Str(who.topic) + (Str(who.member) + rest));
    StringReadBack(who.topic, Str(who.member) + rest);
    StringReadBack(who.member, rest);
  }

  predicate GoodTopic(topic: bytes) {
    ValidUtf8(topic) && ValidateTopic(topic).Success?
  }

  type FieldsDecoder = bytes -> Result<Request, ProtocolError>

  lemma Framed(zstd: Compressor, opcode: u8, fields: bytes, r: Request)
    requires DecoderOf(zstd, opcode)(fields) == Success(r)
    ensures DecodeRequest(zstd, U8(opcode) + fields) == Success(r)
  {
    OpcodeReadBack(zstd, opcode, fields);
  }

  lemma CreateTopicFields(r: Request, decode: FieldsDecoder, fields: bytes)
    requires decode == DecodeCreateTopic && r.CreateTopic? && GoodTopic(r.topic) && r.partitions > 0
    requires fields == Str(r.topic) + U32(r.partitions)
    ensures decode(fields) == Success(r)
  {
    FieldsReadBack();
    StringReadBack(r.topic, U32(r.partitions));
  }

  lemma PartitionStatusFields(r: Request, decode: FieldsDecoder, fields: bytes)
    requires decode == DecodePartitionStatus && r.PartitionStatus? && GoodTopic(r.topic)
    requires fields == Str(r.topic) + U32(r.partition)
    ensures decode(fields) == Success(r)
  {
    FieldsReadBack();
    StringReadBack(r.topic, U32(r.partition));
  }

  lemma PromoteLeaderFields(r: Request, decode: FieldsDecoder, fields: bytes)
    requires decode == DecodePromoteLeader && r.PromoteLeader? && GoodTopic(r.topic)
    requires fields == Str(r.topic) + (U32(r.partition) + U32(r.leader))
    ensures decode(fields) == Success(r)
  {
    FieldsReadBack();
    StringReadBack(r.topic, (U32(r.partition) + U32(r.leader)));
  }

  lemma ApplyLeadershipFields(r: Request, decode: FieldsDecoder, fields: bytes)
    requires decode == DecodeApplyLeadership && r.ApplyLeadership? && GoodTopic(r.topic)
    requires fields == Str(r.topic) + (U32(r.partition) + (U32(r.leader) + (U64(r.epoch) + U64(r.highWatermark))))
    ensures decode(fields) == Success(r)
  {
    FieldsReadBack();
    StringReadBack(r.topic, (U32(r.partition) + (U32(r.leader) + (U64(r.epoch) + U64(r.highWatermark)))));
  }

  lemma DescribeTopicFields(r: Request, decode: FieldsDecoder, fields: bytes)
    requires decode == DecodeDescribeTopic && r.DescribeTopic? && GoodTopic(r.topic)
    requires fields == Str(r.topic)
    ensures decode(fields) == Success(r)
  {
    StringReadBack(r.topic, []);
    assert Str(r.topic) + [] == Str(r.topic);
  }

  lemma FetchFields(r: Request, decode: FieldsDecoder, fields: bytes)
    requires decode == DecodeFetch && r.Fetch? && ValidUtf8(r.topic) && CheckFetch(r.topic, r.maxBytes, r.maxWaitMs).Success?
    requires fields == U16(|r.topic|) + (r.topic + Window(r.partition, r.offset, r.maxBytes, r.maxWaitMs))
    ensures decode(fields) == Success(r)
  {
    FieldsReadBack();
    TopicReadBack(r.topic, Window(r.partition, r.offset, r.maxBytes, r.maxWaitMs));
  }

  lemma FetchCommittedFields(r: Request, decode: FieldsDecoder, fields: bytes)
    requires decode == DecodeFetchCommitted && r.FetchCommittedOffset? && ValidUtf8(r.group) && ValidUtf8(r.topic)
    requires |r.group| < 0x1_0000 && |r.topic| < 0x1_0000 && fields == Str(r.group) + (Str(r.topic) + U32(r.partition))
    ensures decode(fields) == Success(r)
  {
    FieldsReadBack();
    StringReadBack(r.group, Str(r.topic) + U32(r.partition));
    StringReadBack(r.topic, U32(r.partition));
  }

  lemma JoinGroupFields(r: Request, decode: FieldsDecoder, fields: bytes)
    requires decode == DecodeJoinGroup && r.JoinGroup? && TextMember(r.who)
    requires MemberFields(r.who, []) == Success(fields)
    ensures decode(fields) == Success(r)
  {
    FieldsReadBack();
    MemberReadBack(r.who, []);
  }

  lemma CommitOffsetFields(r: Request, decode: FieldsDecoder, fields: bytes)
    requires decode == DecodeCommitOffset && r.CommitOffset? && TextMember(r.who)
    requires MemberFields(r.who, U64(r.generation) + (U32(r.partition) + U64(r.offset))) == Success(fields)
    ensures decode(fields) == Success(r)
  {
    FieldsReadBack();
    MemberReadBack(r.who, U64(r.generation) + (U32(r.partition) + U64(r.offset)));
  }

  lemma GroupFetchFields(r: Request, decode: FieldsDecoder, fields: bytes)
    requires decode == DecodeGroupFetch && r.GroupFetch? && TextMember(r.who)
             && CheckFetch(r.who.topic, r.maxBytes, r.maxWaitMs).Success?
    requires MemberFields(r.who, U64(r.generation) + Window(r.partition, r.offset, r.maxBytes, r.maxWaitMs))
             == Success(fields)
    ensures decode(fields) == Success(r)
  {
    FieldsReadBack();
    MemberReadBack(r.who, U64(r.generation) + Window(r.partition, r.offset, r.maxBytes, r.maxWaitMs));
  }

  lemma HeartbeatFields(r: Request, decode: FieldsDecoder, fields: bytes)
    requires decode == DecodeHeartbeat && r.Heartbeat? && TextMember(r.who)
    requires MemberFields(r.who, U64(r.generation)) == Success(fields)
    ensures decode(fields) == Success(r)
  {
    FieldsReadBack();
    MemberReadBack(r.who, U64(r.generation));
  }

  lemma LeaveGroupFields(r: Request, decode: FieldsDecoder, fields: bytes)
    requires decode == DecodeLeaveGroup && r.LeaveGroup? && TextMember(r.who)
    requires MemberFields(r.who, U64(r.generation)) == Success(fields)
    ensures decode(fields) == Success(r)
  {
    FieldsReadBack();
    MemberReadBack(r.who, U64(r.generation));
  }

  predicate FromMember(r: Request) {
    r.JoinGroup? || r.Heartbeat? || r.LeaveGroup? || r.CommitOffset? || r.GroupFetch?
  }

  predicate AboutTopic(r: Request) {
    r.CreateTopic? || r.DescribeTopic? || r.PartitionStatus? || r.PromoteLeader? || r.ApplyLeadership?
  }

  lemma MemberRoundTrip(zstd: Compressor, r: Request)
    requires FromMember(r) && WellFormed(r) && EncodeRequest(zstd, r).Success?
    ensures DecodeRequest(zstd, EncodeRequest(zstd, r).value) == Success(r)
  {
    match r
    case JoinGroup(who) =>
      var fields := MemberFields(who, []).value;
      JoinGroupFields(r, DecoderOf(zstd, JOIN_GROUP), fields);
      Framed(zstd, JOIN_GROUP, fields, r);
    case Heartbeat(who, generation) =>
      var fields := MemberFields(who, U64(generation)).value;
      HeartbeatFields(r, DecoderOf(zstd, HEARTBEAT), fields);
      Framed(zstd, HEARTBEAT, fields, r);
    case LeaveGroup(who, generation) =>
      var fields := MemberFields(who, U64(generation)).value;
      LeaveGroupFields(r, DecoderOf(zstd, LEAVE_GROUP), fields);
      Framed(zstd, LEAVE_GROUP, fields, r);
    case CommitOffset(who, generation, partition, offset) =>
      var fields := MemberFields(who, U64(generation) + (U32(partition) + U64(offset))).value;
      CommitOffsetFields(r, DecoderOf(zstd, COMMIT_OFFSET), fields);
      Framed(zstd, COMMIT_OFFSET, fields, r);
    case GroupFetch(who, generation, partition, offset, maxBytes, maxWaitMs) =>
      var fields := MemberFields(who, U64(generation) + Window(partition, offset, maxBytes, maxWaitMs)).value;
      GroupFetchFields(r, DecoderOf(zstd, GROUP_FETCH), fields);
      Framed(zstd, GROUP_FETCH, fields, r);
  }

  lemma TopicRoundTrip(zstd: Compressor, r: Request)
    requires AboutTopic(r) && WellFormed(r) && EncodeRequest(zstd, r).Success?
    ensures DecodeRequest(zstd, EncodeRequest(zstd, r).value) == Success(r)
  {
    match r
    case CreateTopic(topic, partitions) =>
      var fields := Str(topic) + U32(partitions);
      CreateTopicFields(r, DecoderOf(zstd, CREATE_TOPIC), fields);
      Framed(zstd, CREATE_TOPIC, fields, r);
    case DescribeTopic(topic) =>
      DescribeTopicFields(r, DecoderOf(zstd, DESCRIBE_TOPIC), Str(topic));
      Framed(zstd, DESCRIBE_TOPIC, Str(topic), r);
    case PartitionStatus(topic, partition) =>
      var fields := Str(topic) + U32(partition);
      PartitionStatusFields(r, DecoderOf(zstd, PARTITION_STATUS), fields);
      Framed(zstd, PARTITION_STATUS, fields, r);
    case PromoteLeader(topic, partition, leader) =>
      var fields := Str(topic) + (U32(partition) + U32(leader));
      PromoteLeaderFields(r, DecoderOf(zstd, PROMOTE_LEADER), fields);
      Framed(zstd, PROMOTE_LEADER, fields, r);
    case ApplyLeadership(topic, partition, leader, epoch, highWatermark) =>
      var fields := Str(topic) + (U32(partition) + (U32(leader) + (U64(epoch) + U64(highWatermark))));
      ApplyLeadershipFields(r, DecoderOf(zstd, APPLY_LEADERSHIP), fields);
      Framed(zstd, APPLY_LEADERSHIP, fields, r);
  }

  lemma FetchRoundTrip(zstd: Compressor, r: Request)
    requires (r.Fetch? || r.FetchCommittedOffset?) && WellFormed(r) && EncodeRequest(zstd, r).Success?
    ensures DecodeRequest(zstd, EncodeRequest(zstd, r).value) == Success(r)
  {
    match r
    case Fetch(topic, partition, offset, maxBytes, maxWaitMs) =>
      var fields := U16(|topic|) + (topic + Window(partition, offset, maxBytes, maxWaitMs));
      FetchFields(r, DecoderOf(zstd, FETCH), fields);
      Framed(zstd, FETCH, fields, r);
    case FetchCommittedOffset(group, topic, partition) =>
      var fields := Str(group) + (Str(topic) + U32(partition));
      FetchCommittedFields(r, DecoderOf(zstd, FETCH_COMMITTED_OFFSET), fields);
      Framed(zstd, FETCH_COMMITTED_OFFSET, fields, r);
  }

  lemma ProduceFrame(zstd: Compressor, r: Request)
    requires r.Produce? && WellFormed(r)
    ensures DecodeRequest(zstd, U8(PRODUCE) + ProduceFields(r)) == Success(r)
  {
    ProduceRoundTrip(r);
    Framed(zstd, PRODUCE, ProduceFields(r), r);
  }

  /** Every request that encodes decodes to itself. */
  lemma RequestRoundTrip(zstd: Compressor, r: Request)
    requires Invertible(zstd) && WellFormed(r) && EncodeRequest(zstd, r).Success?
    ensures DecodeRequest(zstd, EncodeRequest(zstd, r).value) == Success(r)
  {
    if r.Produce? {
      ProduceFrame(zstd, r);
    } else if r.ProduceBatch? {
      BatchRoundTrip(zstd, r);
    } else if r.Fetch? || r.FetchCommittedOffset? {
      FetchRoundTrip(zstd, r);
    } else if FromMember(r) {
      MemberRoundTrip(zstd, r);
    } else if AboutTopic(r) {
      TopicRoundTrip(zstd, r);
    } else if r.ListTopics? {
      Framed(zstd, LIST_TOPICS, [], r);
    } else {
      Framed(zstd, CLUSTER_METADATA, [], r);
    }
  }
}
