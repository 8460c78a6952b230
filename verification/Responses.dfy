/** Response frames. */
module Responses {
  import opened Wrappers
  import opened Bytes
  import opened Utf8
  import opened Frames
  import opened Fields

  const MAX_BATCH_MESSAGES := 1000
  const MAX_CLUSTER_NODES := 1024

  const PRODUCE_ACK: u8 := 0x02
  const PRODUCE_BATCH_ACK: u8 := 0x04
  const FETCH_RESPONSE: u8 := 0x11
  const JOIN_GROUP_RESPONSE: u8 := 0x21
  const GROUP_ACK: u8 := 0x26
  const COMMITTED_OFFSET_RESPONSE: u8 := 0x27
  const TOPICS_RESPONSE: u8 := 0x33
  const CLUSTER_METADATA_RESPONSE: u8 := 0x41
  const LEADERSHIP_CHANGED: u8 := 0x44
  const PARTITION_STATUS_RESPONSE: u8 := 0x46
  const ERROR_RESPONSE: u8 := 0x7F

  datatype Ack = Ack(partition: u32, offset: u64)

  datatype Fetched = Fetched(offset: u64, timestamp: u64, key: Option<bytes>, value: bytes)

  datatype TopicMetadata =
    TopicMetadata(topic: bytes, partitions: u32, leaders: seq<u32>, epochs: seq<u64>, highWatermarks: seq<u64>)

  datatype Node = Node(id: u32, host: bytes, port: u16, adminPort: u16, replicationPort: u16)

  datatype Leadership = Leadership(partition: u32, leader: u32, epoch: u64, highWatermark: u64)

  datatype Response =
    | ProduceAck(ack: Ack)
    | ProduceBatchAck(acks: seq<Ack>)
    | FetchResponse(records: seq<Fetched>)
    | JoinGroupResponse(generation: u64, partitions: seq<u32>)
    | GroupAck
    | CommittedOffset(offset: Option<u64>)
    | Topics(topics: seq<TopicMetadata>)
    | ClusterNodes(responder: u32, nodes: seq<Node>)
    | LeadershipChanged(leadership: Leadership)
    | PartitionStatus(nextOffset: u64)
    | Error(message: bytes)

  /** Strings are UTF-8. */
  predicate WellFormed(r: Response) {
    match r
    case Topics(topics) => forall t :: t in topics ==> ValidUtf8(t.topic)
    case ClusterNodes(_, nodes) => forall n :: n in nodes ==> ValidUtf8(n.host)
    case Error(message) => ValidUtf8(message)
    case _ => true
  }

  // ---------------------------------------------------------------- groups of fields

  function PutAck(a: Ack): bytes {
    U32(a.partition) + U64(a.offset)
  }

  function GetAck(b: bytes): Parsed<Ack> {
    var (partition, b1) :- GetU32(b);
    var (offset, b2) :- GetU64(b1);
    Success((Ack(partition, offset), b2))
  }

  function PutNumber(n: u32): bytes { U32(n) }

  function PutLong(n: u64): bytes { U64(n) }

  predicate SizedFetched(f: Fetched) {
    (f.key.Some? ==> |f.key.value| < 0x8000_0000) && |f.value| < 0x1_0000_0000
  }

  function PutFetched(f: Fetched): bytes
    requires SizedFetched(f)
  {
    U64(f.offset) + (U64(f.timestamp) + (I32(if f.key.Some? then |f.key.value| else -1)
    + (U32(|f.value|) + (f.key.UnwrapOr([]) + f.value))))
  }

  function GetKey(length: int, b: bytes): Parsed<Option<bytes>> {
    if length == -1 then Success((None, b))
    else if length >= 0 then
      var (key, rest) :- GetBytes(b, length);
      Success((Some(key), rest))
    else Failure(InvalidFrame)
  }

  function GetFetched(b: bytes): Parsed<Fetched> {
    var (offset, b1) :- GetU64(b);
    var (timestamp, b2) :- GetU64(b1);
    var (keyLength, b3) :- GetI32(b2);
    var (valueLength, b4) :- GetU32(b3);
    var (key, b5) :- GetKey(keyLength, b4);
    var (value, b6) :- GetBytes(b5, valueLength);
    Success((Fetched(offset, timestamp, key, value), b6))
  }

  predicate SizedTopic(t: TopicMetadata) {
    && t.partitions > 0
    && (t.leaders == [] || |t.leaders| == t.partitions)
    && |t.epochs| == |t.leaders| && |t.highWatermarks| == |t.leaders|
  }

  function PutTopic(t: TopicMetadata): bytes
    requires SizedTopic(t) && |t.topic| < 0x1_0000
  {
    Str(t.topic) + (U32(t.partitions) + (U32(|t.leaders|) + TopicLists(t)))
  }

  function TopicLists(t: TopicMetadata): bytes {
    PutAll(t.leaders, PutNumber) + (PutAll(t.epochs, PutLong) + PutAll(t.highWatermarks, PutLong))
  }

  function GetTopic(b: bytes): Parsed<TopicMetadata> {
    var (topic, b1) :- GetString(b);
    var (partitions, b2) :- GetU32(b1);
    var (count, b3) :- GetU32(b2);
    if partitions == 0 || (count != 0 && count != partitions) then Failure(InvalidPartitionCount)
    else GetTopicLists(topic, partitions, count, b3)
  }

  function GetTopicLists(topic: bytes, partitions: u32, count: nat, b: bytes): Parsed<TopicMetadata> {
    var (leaders, b1) :- GetAll(count, b, GetU32);
    var (epochs, b2) :- GetAll(count, b1, GetU64);
    var (highWatermarks, b3) :- GetAll(count, b2, GetU64);
    Success((TopicMetadata(topic, partitions, leaders, epochs, highWatermarks), b3))
  }

  function PutNode(n: Node): bytes
    requires |n.host| < 0x1_0000
  {
    U32(n.id) + (Str(n.host) + (U16(n.port) + (U16(n.adminPort) + U16(n.replicationPort))))
  }

  function GetNode(b: bytes): Parsed<Node> {
    var (id, b1) :- GetU32(b);
    var (host, b2) :- GetString(b1);
    var (port, b3) :- GetU16(b2);
    var (adminPort, b4) :- GetU16(b3);
    var (replicationPort, b5) :- GetU16(b4);
    Success((Node(id, host, port, adminPort, replicationPort), b5))
  }

  // ---------------------------------------------------------------- encoding

  /** The first error of the topics in order, as their encoder meets them. */
  function CheckTopics(topics: seq<TopicMetadata>): Result<Unit, ProtocolError> {
    if topics == [] then Success(Done)
    else if !SizedTopic(topics[0]) then Failure(InvalidPartitionCount)
    else if |topics[0].topic| >= 0x1_0000 then Failure(InvalidFrame)
    else CheckTopics(topics[1..])
  }

  lemma {:induction false} CheckedTopics(topics: seq<TopicMetadata>)
    requires CheckTopics(topics).Success?
    ensures forall t :: t in topics ==> SizedTopic(t) && |t.topic| < 0x1_0000
  {
    if topics != [] {
      CheckedTopics(topics[1..]);
    }
  }

  /** The body of the frame of a response: its opcode and fields. */
  function EncodeResponse(r: Response): Result<bytes, ProtocolError> {
    match r
    case ProduceAck(ack) => Success(U8(PRODUCE_ACK) + PutAck(ack))
    case ProduceBatchAck(acks) =>
      if |acks| >= 0x1_0000_0000 then Failure(InvalidBatchCount)
      else Success(U8(PRODUCE_BATCH_ACK) + (U32(|acks|) + PutAll(acks, PutAck)))
    case FetchResponse(records) => EncodeFetchResponse(records)
    case JoinGroupResponse(generation, partitions) =>
      if |partitions| >= 0x1_0000_0000 then Failure(FrameTooLarge)
      else Success(U8(JOIN_GROUP_RESPONSE) + (U64(generation) + (U32(|partitions|) + PutAll(partitions, PutNumber))))
    case GroupAck => Success(U8(GROUP_ACK) + [])
    case CommittedOffset(offset) =>
      Success(U8(COMMITTED_OFFSET_RESPONSE) + (U8(if offset.Some? then 1 else 0) + U64(offset.UnwrapOr(0))))
    case Topics(topics) => EncodeTopics(topics)
    case ClusterNodes(responder, nodes) => EncodeClusterNodes(responder, nodes)
    case LeadershipChanged(l) =>
      Success(U8(LEADERSHIP_CHANGED) + (U32(l.partition) + (U32(l.leader) + (U64(l.epoch) + U64(l.highWatermark)))))
    case PartitionStatus(nextOffset) => Success(U8(PARTITION_STATUS_RESPONSE) + U64(nextOffset))
    case Error(message) =>
      var text :- PutString(message);
      Success(U8(ERROR_RESPONSE) + text)
  }

  function EncodeFetchResponse(records: seq<Fetched>): Result<bytes, ProtocolError> {
    if |records| >= 0x1_0000_0000 then Failure(FrameTooLarge)
    else
      var _ :- CheckFetched(records);
      CheckedFetched(records);
      var body := U8(FETCH_RESPONSE) + (U32(|records|) + PutAll(records, PutFetched));
      if |body| > MAX_FRAME_SIZE then Failure(FrameTooLarge) else Success(body)
  }

  function CheckFetched(records: seq<Fetched>): Result<Unit, ProtocolError> {
    if records == [] then Success(Done)
    else if records[0].key.Some? && |records[0].key.value| >= 0x8000_0000 then Failure(KeyTooLarge)
    else if |records[0].value| >= 0x1_0000_0000 then Failure(MessageTooLarge)
    else CheckFetched(records[1..])
  }

  lemma {:induction false} CheckedFetched(records: seq<Fetched>)
    requires CheckFetched(records).Success?
    ensures forall f :: f in records ==> SizedFetched(f)
  {
    if records != [] {
      CheckedFetched(records[1..]);
    }
  }

  function EncodeTopics(topics: seq<TopicMetadata>): Result<bytes, ProtocolError> {
    if |topics| >= 0x1_0000_0000 then Failure(FrameTooLarge)
    else
      var _ :- CheckTopics(topics);
      CheckedTopics(topics);
      Success(U8(TOPICS_RESPONSE) + (U32(|topics|) + PutAll(topics, PutTopic)))
  }

  function EncodeClusterNodes(responder: u32, nodes: seq<Node>): Result<bytes, ProtocolError> {
    if nodes == [] || |nodes| > MAX_CLUSTER_NODES then Failure(InvalidClusterMetadata)
    else if exists n :: n in nodes && |n.host| >= 0x1_0000 then Failure(InvalidFrame)
    else Success(U8(CLUSTER_METADATA_RESPONSE) + (U32(responder) + (U32(|nodes|) + PutAll(nodes, PutNode))))
  }

  /** The first byte of a response. */
  lemma ResponseOpcode(r: Response)
    requires EncodeResponse(r).Success?
    ensures |EncodeResponse(r).value| > 0
    ensures EncodeResponse(r).value[0] ==
            match r
            case ProduceAck(_) => 2
            case ProduceBatchAck(_) => 4
            case FetchResponse(_) => 17
            case JoinGroupResponse(_, _) => 33
            case GroupAck => 38
            case CommittedOffset(_) => 39
            case Topics(_) => 51
            case ClusterNodes(_, _) => 65
            case LeadershipChanged(_) => 68
            case PartitionStatus(_) => 70
            case Error(_) => 127
  {
  }

  // ---------------------------------------------------------------- decoding

  function DecodeProduceAck(b: bytes): Result<Response, ProtocolError> {
    var (ack, b1) :- GetAck(b);
    var _ :- EnsureEmpty(b1);
    Success(ProduceAck(ack))
  }

  function DecodeProduceBatchAck(b: bytes): Result<Response, ProtocolError> {
    var (count, b1) :- GetU32(b);
    if count == 0 || count > MAX_BATCH_MESSAGES then Failure(InvalidBatchCount)
    else
      var (acks, b2) :- GetAll(count, b1, GetAck);
      var _ :- EnsureEmpty(b2);
      Success(ProduceBatchAck(acks))
  }

  function DecodeFetchResponse(b: bytes): Result<Response, ProtocolError> {
    var (count, b1) :- GetU32(b);
    var (records, b2) :- GetAll(count, b1, GetFetched);
    var _ :- EnsureEmpty(b2);
    Success(FetchResponse(records))
  }

  function DecodeJoinGroupResponse(b: bytes): Result<Response, ProtocolError> {
    var (generation, b1) :- GetU64(b);
    var (count, b2) :- GetU32(b1);
    var (partitions, b3) :- GetAll(count, b2, GetU32);
    var _ :- EnsureEmpty(b3);
    Success(JoinGroupResponse(generation, partitions))
  }

  function DecodeCommittedOffset(b: bytes): Result<Response, ProtocolError> {
    var (found, b1) :- GetU8(b);
    var (offset, b2) :- GetU64(b1);
    if b2 != [] || found > 1 then Failure(InvalidFrame)
    else Success(CommittedOffset(if found == 1 then Some(offset) else None))
  }

  function DecodeTopics(b: bytes): Result<Response, ProtocolError> {
    var (count, b1) :- GetU32(b);
    var (topics, b2) :- GetAll(count, b1, GetTopic);
    var _ :- EnsureEmpty(b2);
    Success(Topics(topics))
  }

  function DecodeClusterNodes(b: bytes): Result<Response, ProtocolError> {
    var (responder, b1) :- GetU32(b);
    var (count, b2) :- GetU32(b1);
    if count == 0 || count > MAX_CLUSTER_NODES then Failure(InvalidClusterMetadata)
    else
      var (nodes, b3) :- GetAll(count, b2, GetNode);
      var _ :- EnsureEmpty(b3);
      Success(ClusterNodes(responder, nodes))
  }

  function DecodeLeadershipChanged(b: bytes): Result<Response, ProtocolError> {
    if |b| != 24 then Failure(UnknownOpcode(LEADERSHIP_CHANGED))
    else
      var (partition, b1) :- GetU32(b);
      var (leader, b2) :- GetU32(b1);
      var (epoch, b3) :- GetU64(b2);
      var (highWatermark, _) :- GetU64(b3);
      Success(LeadershipChanged(Leadership(partition, leader, epoch, highWatermark)))
  }

  function DecodePartitionStatus(b: bytes): Result<Response, ProtocolError> {
    if |b| != 8 then Failure(UnknownOpcode(PARTITION_STATUS_RESPONSE))
    else
      var (nextOffset, _) :- GetU64(b);
      Success(PartitionStatus(nextOffset))
  }

  function DecodeError(b: bytes): Result<Response, ProtocolError> {
    var (message, b1) :- GetString(b);
    var _ :- EnsureEmpty(b1);
    Success(Error(message))
  }

  function DecodeGroupAck(b: bytes): Result<Response, ProtocolError> {
    if b == [] then Success(GroupAck) else Failure(UnknownOpcode(GROUP_ACK))
  }

  type FieldsDecoder = bytes -> Result<Response, ProtocolError>

  /** The decoder of the fields after an opcode. */
  function DecoderOf(opcode: u8): FieldsDecoder {
    if opcode == PRODUCE_ACK then DecodeProduceAck
    else if opcode == PRODUCE_BATCH_ACK then DecodeProduceBatchAck
    else if opcode == FETCH_RESPONSE then DecodeFetchResponse
    else if opcode == JOIN_GROUP_RESPONSE then DecodeJoinGroupResponse
    else if opcode == GROUP_ACK then DecodeGroupAck
    else if opcode == COMMITTED_OFFSET_RESPONSE then DecodeCommittedOffset
    else if opcode == TOPICS_RESPONSE then DecodeTopics
    else if opcode == CLUSTER_METADATA_RESPONSE then DecodeClusterNodes
    else if opcode == LEADERSHIP_CHANGED then DecodeLeadershipChanged
    else if opcode == PARTITION_STATUS_RESPONSE then DecodePartitionStatus
    else if opcode == ERROR_RESPONSE then DecodeError
    else b => Failure(UnknownOpcode(opcode))
  }

  function DecodeResponse(frame: bytes): Result<Response, ProtocolError> {
    var (opcode, b) :- GetU8(frame);
    DecoderOf(opcode)(b)
  }

  // ---------------------------------------------------------------- round trips

  /** What is lost on the wire: a batch acknowledgement that is empty or too long is encoded but not accepted. */
  predicate Acceptable(r: Response) {
    r.ProduceBatchAck? ==> 0 < |r.acks| <= MAX_BATCH_MESSAGES
  }

  lemma Framed(opcode: u8, fields: bytes, r: Result<Response, ProtocolError>)
    requires DecoderOf(opcode)(fields) == r
    ensures DecodeResponse(U8(opcode) + fields) == r
  {
    FieldsReadBack();
    assert GetU8(U8(opcode) + fields) == Success((opcode, fields));
  }

  lemma AckReadBack(a: Ack, more: bytes)
    ensures GetAck(PutAck(a) + more) == Success((a, more))
  {
    FieldsReadBack();
    Regroup(U32(a.partition), U64(a.offset), more);
  }

  lemma AckFields(r: Response, decode: FieldsDecoder)
    requires decode == DecodeProduceAck && r.ProduceAck?
    ensures decode(PutAck(r.ack)) == Success(r)
  {
    AckReadBack(r.ack, []);
    assert PutAck(r.ack) + [] == PutAck(r.ack);
  }

  lemma BatchAckFields(r: Response, decode: FieldsDecoder, fields: bytes)
    requires decode == DecodeProduceBatchAck && r.ProduceBatchAck? && |r.acks| < 0x1_0000_0000
    requires fields == U32(|r.acks|) + PutAll(r.acks, PutAck)
    ensures decode(fields) == if Acceptable(r) then Success(r) else Failure(InvalidBatchCount)
  {
    var all := PutAll(r.acks, PutAck);
    CountReadBack(|r.acks|, all);
    forall a, more: bytes | a in r.acks
      ensures GetAck(PutAck(a) + more) == Success((a, more))
    {
      AckReadBack(a, more);
    }
    AllReadBack(r.acks, PutAck, GetAck, []);
    assert all + [] == all;
  }

  lemma FetchedParts(f: Fetched, more: bytes, tail: bytes)
    requires SizedFetched(f)
    requires var key := f.key.UnwrapOr([]);
             tail == I32(if f.key.Some? then |key| else -1) + (U32(|f.value|) + (key + (f.value + more)))
    ensures PutFetched(f) + more == U64(f.offset) + (U64(f.timestamp) + tail)
  {
  }

  lemma FetchedReadBack(f: Fetched, more: bytes)
    requires SizedFetched(f)
    ensures GetFetched(PutFetched(f) + more) == Success((f, more))
  {
    var key := f.key.UnwrapOr([]);
    var b5 := f.value + more;
    var b4 := key + b5;
    var b3 := U32(|f.value|) + b4;
    var b2 := I32(if f.key.Some? then |key| else -1) + b3;
    FetchedParts(f, more, b2);
    KeyReadBack(f.key, b5);
    SplitAppend(f.value, more);
    FieldsReadBack();
  }

  lemma KeyReadBack(key: Option<bytes>, rest: bytes)
    ensures GetKey(if key.Some? then |key.value| else -1, key.UnwrapOr([]) + rest) == Success((key, rest))
  {
    SplitAppend(key.UnwrapOr([]), rest);
    assert [] + rest == rest;
  }

  lemma FetchFields(r: Response, decode: FieldsDecoder, fields: bytes)
    requires decode == DecodeFetchResponse && r.FetchResponse? && |r.records| < 0x1_0000_0000
    requires (forall f :: f in r.records ==> SizedFetched(f)) && fields == U32(|r.records|) + PutAll(r.records, PutFetched)
    ensures decode(fields) == Success(r)
  {
    var all := PutAll(r.records, PutFetched);
    CountReadBack(|r.records|, all);
    forall f, more: bytes | f in r.records
      ensures GetFetched(PutFetched(f) + more) == Success((f, more))
    {
      FetchedReadBack(f, more);
    }
    AllReadBack(r.records, PutFetched, GetFetched, []);
    assert all + [] == all;
  }

  lemma NumbersReadBack(numbers: seq<u32>, rest: bytes)
    ensures GetAll(|numbers|, PutAll(numbers, PutNumber) + rest, GetU32) == Success((numbers, rest))
  {
    FieldsReadBack();
    AllReadBack(numbers, PutNumber, GetU32, rest);
  }

  lemma LongsReadBack(numbers: seq<u64>, rest: bytes)
    ensures GetAll(|numbers|, PutAll(numbers, PutLong) + rest, GetU64) == Success((numbers, rest))
  {
    FieldsReadBack();
    AllReadBack(numbers, PutLong, GetU64, rest);
  }

  lemma JoinGroupFields(r: Response, decode: FieldsDecoder, fields: bytes)
    requires decode == DecodeJoinGroupResponse && r.JoinGroupResponse? && |r.partitions| < 0x1_0000_0000
    requires fields == U64(r.generation) + (U32(|r.partitions|) + PutAll(r.partitions, PutNumber))
    ensures decode(fields) == Success(r)
  {
    var all := PutAll(r.partitions, PutNumber);
    NumbersReadBack(r.partitions, []);
    assert all + [] == all;
    FieldsReadBack();
  }

  lemma CommittedOffsetFields(r: Response, decode: FieldsDecoder, fields: bytes)
    requires decode == DecodeCommittedOffset && r.CommittedOffset?
    requires fields == U8(if r.offset.Some? then 1 else 0) + U64(r.offset.UnwrapOr(0))
    ensures decode(fields) == Success(r)
  {
    FieldsReadBack();
  }

  lemma TopicListsReadBack(t: TopicMetadata, more: bytes)
    requires SizedTopic(t)
    ensures GetTopicLists(t.topic, t.partitions, |t.leaders|, TopicLists(t) + more) == Success((t, more))
  {
    var b2 := PutAll(t.highWatermarks, PutLong) + more;
    var b1 := PutAll(t.epochs, PutLong) + b2;
    assert TopicLists(t) + more == PutAll(t.leaders, PutNumber) + b1;
    NumbersReadBack(t.leaders, b1);
    LongsReadBack(t.epochs, b2);
    LongsReadBack(t.highWatermarks, more);
  }

  lemma TopicParts(t: TopicMetadata, more: bytes)
    requires SizedTopic(t) && |t.topic| < 0x1_0000
    ensures PutTopic(t) + more == Str(t.topic) + (U32(t.partitions) + (U32(|t.leaders|) + (TopicLists(t) + more)))
  {
  }

  lemma TopicReadBack(t: TopicMetadata, more: bytes)
    requires SizedTopic(t) && |t.topic| < 0x1_0000 && ValidUtf8(t.topic)
    ensures GetTopic(PutTopic(t) + more) == Success((t, more))
  {
    var lists := TopicLists(t) + more;
    TopicParts(t, more);
    StringReadBack(t.topic, U32(t.partitions) + (U32(|t.leaders|) + lists));
    CountReadBack(t.partitions, U32(|t.leaders|) + lists);
    CountReadBack(|t.leaders|, lists);
    TopicListsReadBack(t, more);
  }

  lemma TopicsFields(r: Response, decode: FieldsDecoder, fields: bytes)
    requires decode == DecodeTopics && r.Topics? && WellFormed(r) && |r.topics| < 0x1_0000_0000
    requires forall t :: t in r.topics ==> SizedTopic(t) && |t.topic| < 0x1_0000
    requires fields == U32(|r.topics|) + PutAll(r.topics, PutTopic)
    ensures decode(fields) == Success(r)
  {
    var all := PutAll(r.topics, PutTopic);
    CountReadBack(|r.topics|, all);
    forall t, more: bytes | t in r.topics
      ensures GetTopic(PutTopic(t) + more) == Success((t, more))
    {
      TopicReadBack(t, more);
    }
    AllReadBack(r.topics, PutTopic, GetTopic, []);
    assert all + [] == all;
  }

  lemma NodeReadBack(n: Node, more: bytes)
    requires |n.host| < 0x1_0000 && ValidUtf8(n.host)
    ensures GetNode(PutNode(n) + more) == Success((n, more))
  {
    var ports := U16(n.port) + (U16(n.adminPort) + (U16(n.replicationPort) + more));
    assert PutNode(n) + more == U32(n.id) + (Str(n.host) + ports);
    StringReadBack(n.host, ports);
    FieldsReadBack();
  }

  lemma ClusterFields(r: Response, decode: FieldsDecoder, fields: bytes)
    requires decode == DecodeClusterNodes && r.ClusterNodes? && WellFormed(r) && 0 < |r.nodes| <= MAX_CLUSTER_NODES
    requires forall n :: n in r.nodes ==> |n.host| < 0x1_0000
    requires fields == U32(r.responder) + (U32(|r.nodes|) + PutAll(r.nodes, PutNode))
    ensures decode(fields) == Success(r)
  {
    var all := PutAll(r.nodes, PutNode);
    CountReadBack(r.responder, U32(|r.nodes|) + all);
    CountReadBack(|r.nodes|, all);
    forall n, more: bytes | n in r.nodes
      ensures GetNode(PutNode(n) + more) == Success((n, more))
    {
      NodeReadBack(n, more);
    }
    AllReadBack(r.nodes, PutNode, GetNode, []);
    assert all + [] == all;
  }

  lemma LeadershipFields(r: Response, decode: FieldsDecoder, fields: bytes)
    requires decode == DecodeLeadershipChanged && r.LeadershipChanged?
    requires var l := r.leadership; fields == U32(l.partition) + (U32(l.leader) + (U64(l.epoch) + U64(l.highWatermark)))
    ensures decode(fields) == Success(r)
  {
    FieldsReadBack();
  }

  lemma StatusFields(r: Response, decode: FieldsDecoder)
    requires decode == DecodePartitionStatus && r.PartitionStatus?
    ensures decode(U64(r.nextOffset)) == Success(r)
  {
    FieldsReadBack();
  }

  lemma ErrorFields(r: Response, decode: FieldsDecoder)
    requires decode == DecodeError && r.Error? && ValidUtf8(r.message) && |r.message| < 0x1_0000
    ensures decode(Str(r.message)) == Success(r)
  {
    StringReadBack(r.message, []);
    assert Str(r.message) + [] == Str(r.message);
  }

  /** Fixed-size responses. */
  lemma SmallRoundTrip(r: Response)
    requires r.ProduceAck? || r.GroupAck? || r.CommittedOffset? || r.LeadershipChanged? || r.PartitionStatus?
    ensures EncodeResponse(r).Success? && DecodeResponse(EncodeResponse(r).value) == Success(r)
  {
    match r
    case ProduceAck(ack) =>
      AckFields(r, DecoderOf(PRODUCE_ACK));
      Framed(PRODUCE_ACK, PutAck(ack), Success(r));
    case GroupAck => Framed(GROUP_ACK, [], Success(r));
    case CommittedOffset(offset) =>
      var fields := U8(if offset.Some? then 1 else 0) + U64(offset.UnwrapOr(0));
      CommittedOffsetFields(r, DecoderOf(COMMITTED_OFFSET_RESPONSE), fields);
      Framed(COMMITTED_OFFSET_RESPONSE, fields, Success(r));
    case LeadershipChanged(l) =>
      var fields := U32(l.partition) + (U32(l.leader) + (U64(l.epoch) + U64(l.highWatermark)));
      LeadershipFields(r, DecoderOf(LEADERSHIP_CHANGED), fields);
      Framed(LEADERSHIP_CHANGED, fields, Success(r));
    case PartitionStatus(nextOffset) =>
      StatusFields(r, DecoderOf(PARTITION_STATUS_RESPONSE));
      Framed(PARTITION_STATUS_RESPONSE, U64(nextOffset), Success(r));
  }

  /** Responses that list something, and errors. */
  lemma ListRoundTrip(r: Response)
    requires r.FetchResponse? || r.JoinGroupResponse? || r.Topics? || r.ClusterNodes? || r.Error?
    requires WellFormed(r) && EncodeResponse(r).Success?
    ensures DecodeResponse(EncodeResponse(r).value) == Success(r)
  {
    match r
    case FetchResponse(records) =>
      CheckedFetched(records);
      var fields := U32(|records|) + PutAll(records, PutFetched);
      FetchFields(r, DecoderOf(FETCH_RESPONSE), fields);
      Framed(FETCH_RESPONSE, fields, Success(r));
    case JoinGroupResponse(generation, partitions) =>
      var fields := U64(generation) + (U32(|partitions|) + PutAll(partitions, PutNumber));
      JoinGroupFields(r, DecoderOf(JOIN_GROUP_RESPONSE), fields);
      Framed(JOIN_GROUP_RESPONSE, fields, Success(r));
    case Topics(topics) =>
      CheckedTopics(topics);
      var fields := U32(|topics|) + PutAll(topics, PutTopic);
      TopicsFields(r, DecoderOf(TOPICS_RESPONSE), fields);
      Framed(TOPICS_RESPONSE, fields, Success(r));
    case ClusterNodes(responder, nodes) =>
      var fields := U32(responder) + (U32(|nodes|) + PutAll(nodes, PutNode));
      ClusterFields(r, DecoderOf(CLUSTER_METADATA_RESPONSE), fields);
      Framed(CLUSTER_METADATA_RESPONSE, fields, Success(r));
    case Error(message) =>
      ErrorFields(r, DecoderOf(ERROR_RESPONSE));
      Framed(ERROR_RESPONSE, Str(message), Success(r));
  }

  /** A response that encodes decodes to itself, unless it is a batch acknowledgement of no or too many records. */
  lemma ResponseRoundTrip(r: Response)
    requires WellFormed(r) && EncodeResponse(r).Success?
    ensures DecodeResponse(EncodeResponse(r).value) == if Acceptable(r) then Success(r) else Failure(InvalidBatchCount)
  {
    if r.ProduceBatchAck? {
      var fields := U32(|r.acks|) + PutAll(r.acks, PutAck);
      BatchAckFields(r, DecoderOf(PRODUCE_BATCH_ACK), fields);
      Framed(PRODUCE_BATCH_ACK, fields, if Acceptable(r) then Success(r) else Failure(InvalidBatchCount));
    } else if r.FetchResponse? || r.JoinGroupResponse? || r.Topics? || r.ClusterNodes? || r.Error? {
      ListRoundTrip(r);
    } else {
      SmallRoundTrip(r);
    }
  }
}
