/**
 The other half of the request codec: whatever decodes is a well-formed request, and stood on the wire as its encoder writes
 it, but for numbers that stand in place of an absent producer or partition and are not used.
 */
module RequestForms {
  import opened Wrappers
  import opened Bytes
  import opened Utf8
  import RecordCodec
  import opened Frames
  import opened Fields
  import opened Requests

  /** Everything but a produce request, whose absent fields leave numbers on the wire, and a batch, which may be compressed. */
  predicate Plainly(r: Request) {
    !r.Produce? && !r.ProduceBatch?
  }

  // ---------------------------------------------------------------- groups of fields

  lemma TopicForm(b: bytes)
    requires GetTopic(b).Success?
    ensures var (topic, rest) := GetTopic(b).value;
            |topic| <= MAX_TOPIC_NAME && ValidUtf8(topic) && b == U16(|topic|) + (topic + rest)
  {
    FieldsBackwards();
  }

  lemma MemberForm(b: bytes)
    requires GetMember(b).Success?
    ensures var (who, rest) := GetMember(b).value; TextMember(who) && MemberFields(who, rest) == Success(b)
  {
    StringBackwards(b);
    var b1 := GetString(b).value.1;
    StringBackwards(b1);
    StringBackwards(GetString(b1).value.1);
  }

  lemma BatchRecordForm(b: bytes)
    requires GetBatchRecord(b).Success?
    ensures var (r, rest) := GetBatchRecord(b).value;
            |r.key| <= MAX_KEY_SIZE && |r.payload| <= MAX_MESSAGE_SIZE && b == BatchRecordFields(r) + rest
  {
    FieldsBackwards();
    var (r, rest) := GetBatchRecord(b).value;
    RecordAssoc(r, rest);
  }

  lemma RecordAssoc(r: BatchRecord, rest: bytes)
    requires |r.key| <= MAX_KEY_SIZE && |r.payload| <= MAX_MESSAGE_SIZE
    ensures BatchRecordFields(r) + rest == U16(|r.key|) + (r.key + (U32(|r.payload|) + (r.payload + rest)))
  {
  }

  /** The producer of a produce request; without one a sequence that is not used. */
  function ProducerForm(producer: Option<RecordCodec.Producer>, unused: u64, rest: bytes): bytes
    requires producer.Some? ==> |producer.value.id| < 0x1_0000
  {
    match producer
    case None => U16(0) + (U64(unused) + rest)
    case Some(p) => U16(|p.id|) + (p.id + (U64(p.sequence) + rest))
  }

  lemma ProducerBackwards(b: bytes) returns (unused: u64)
    requires GetProducer(b).Success?
    ensures var (producer, rest) := GetProducer(b).value;
            (producer.Some? ==> 0 < |producer.value.id| < 0x1_0000) && b == ProducerForm(producer, unused, rest)
  {
    FieldsBackwards();
    unused := 0;
    if GetU16(b).value.0 == 0 {
      unused := GetU64(GetU16(b).value.1).value.0;
    }
  }

  // ---------------------------------------------------------------- each kind

  lemma FetchForm(decode: FieldsDecoder, b: bytes, r: Request)
    requires decode == DecodeFetch && decode(b) == Success(r)
    ensures r.Fetch? && WellFormed(r) && |r.topic| < 0x1_0000
    ensures b == U16(|r.topic|) + (r.topic + Window(r.partition, r.offset, r.maxBytes, r.maxWaitMs))
  {
    TopicForm(b);
    WindowForm(GetTopic(b).value.1);
  }

  lemma JoinForm(decode: FieldsDecoder, b: bytes, r: Request)
    requires decode == DecodeJoinGroup && decode(b) == Success(r)
    ensures r.JoinGroup? && WellFormed(r) && MemberFields(r.who, []) == Success(b)
  {
    MemberForm(b);
  }

  lemma HeartbeatForm(decode: FieldsDecoder, b: bytes, r: Request)
    requires decode == DecodeHeartbeat && decode(b) == Success(r)
    ensures r.Heartbeat? && WellFormed(r) && MemberFields(r.who, U64(r.generation)) == Success(b)
  {
    MemberForm(b);
    LastLong(GetMember(b).value.1);
  }

  lemma LeaveForm(decode: FieldsDecoder, b: bytes, r: Request)
    requires decode == DecodeLeaveGroup && decode(b) == Success(r)
    ensures r.LeaveGroup? && WellFormed(r) && MemberFields(r.who, U64(r.generation)) == Success(b)
  {
    MemberForm(b);
    LastLong(GetMember(b).value.1);
  }

  lemma LastLong(b: bytes)
    requires GetU64(b).Success? && GetU64(b).value.1 == []
    ensures b == U64(GetU64(b).value.0)
  {
    GotLong(b);
    NothingBehind(U64(GetU64(b).value.0));
  }

  lemma LastWord(b: bytes)
    requires GetU32(b).Success? && GetU32(b).value.1 == []
    ensures b == U32(GetU32(b).value.0)
  {
    GotWord(b);
    NothingBehind(U32(GetU32(b).value.0));
  }

  lemma CommitForm(decode: FieldsDecoder, b: bytes, r: Request)
    requires decode == DecodeCommitOffset && decode(b) == Success(r)
    ensures r.CommitOffset? && WellFormed(r)
    ensures MemberFields(r.who, U64(r.generation) + (U32(r.partition) + U64(r.offset))) == Success(b)
  {
    MemberForm(b);
    var b1 := GetMember(b).value.1;
    var b2 := GetU64(b1).value.1;
    var b3 := GetU32(b2).value.1;
    GotLong(b1);
    GotWord(b2);
    LastLong(b3);
  }

  lemma FetchCommittedForm(decode: FieldsDecoder, b: bytes, r: Request)
    requires decode == DecodeFetchCommitted && decode(b) == Success(r)
    ensures r.FetchCommittedOffset? && WellFormed(r) && |r.group| < 0x1_0000 && |r.topic| < 0x1_0000
    ensures b == Str(r.group) + (Str(r.topic) + U32(r.partition))
  {
    StringBackwards(b);
    var b1 := GetString(b).value.1;
    StringBackwards(b1);
    LastWord(GetString(b1).value.1);
  }

  lemma GroupFetchForm(decode: FieldsDecoder, b: bytes, r: Request)
    requires decode == DecodeGroupFetch && decode(b) == Success(r)
    ensures r.GroupFetch? && WellFormed(r) && CheckFetch(r.who.topic, r.maxBytes, r.maxWaitMs).Success?
    ensures MemberFields(r.who, U64(r.generation) + Window(r.partition, r.offset, r.maxBytes, r.maxWaitMs)) == Success(b)
  {
    MemberForm(b);
    var b1 := GetMember(b).value.1;
    GotLong(b1);
    WindowForm(GetU64(b1).value.1);
  }

  /** What a fetch asks for, at the end of a frame. */
  lemma WindowForm(b: bytes)
    requires GetU32(b).Success?
    requires var b1 := GetU32(b).value.1;
             GetU64(b1).Success?
             && var b2 := GetU64(b1).value.1;
                GetU32(b2).Success? && GetU32(GetU32(b2).value.1).Success? && GetU32(GetU32(b2).value.1).value.1 == []
    ensures var b1 := GetU32(b).value.1;
            var b2 := GetU64(b1).value.1;
            b == Window(GetU32(b).value.0, GetU64(b1).value.0, GetU32(b2).value.0, GetU32(GetU32(b2).value.1).value.0)
  {
    var b1 := GetU32(b).value.1;
    var b2 := GetU64(b1).value.1;
    GotWord(b);
    GotLong(b1);
    GotWord(b2);
    LastWord(GetU32(b2).value.1);
  }

  lemma CreateTopicForm(decode: FieldsDecoder, b: bytes, r: Request)
    requires decode == DecodeCreateTopic && decode(b) == Success(r)
    ensures r.CreateTopic? && GoodTopic(r.topic) && r.partitions > 0 && b == Str(r.topic) + U32(r.partitions)
  {
    StringBackwards(b);
    LastWord(GetString(b).value.1);
  }

  lemma DescribeTopicForm(decode: FieldsDecoder, b: bytes, r: Request)
    requires decode == DecodeDescribeTopic && decode(b) == Success(r)
    ensures r.DescribeTopic? && GoodTopic(r.topic) && b == Str(r.topic)
  {
    StringBackwards(b);
    NothingBehind(Str(r.topic));
  }

  lemma PromoteLeaderForm(decode: FieldsDecoder, b: bytes, r: Request)
    requires decode == DecodePromoteLeader && decode(b) == Success(r)
    ensures r.PromoteLeader? && WellFormed(r) && |r.topic| < 0x1_0000
    ensures b == Str(r.topic) + (U32(r.partition) + U32(r.leader))
  {
    StringBackwards(b);
    var b1 := GetString(b).value.1;
    GotWord(b1);
    LastWord(GetU32(b1).value.1);
  }

  lemma ApplyLeadershipForm(decode: FieldsDecoder, b: bytes, r: Request)
    requires decode == DecodeApplyLeadership && decode(b) == Success(r)
    ensures r.ApplyLeadership? && WellFormed(r) && |r.topic| < 0x1_0000
    ensures b == Str(r.topic) + (U32(r.partition) + (U32(r.leader) + (U64(r.epoch) + U64(r.highWatermark))))
  {
    StringBackwards(b);
    var b1 := GetString(b).value.1;
    GotWord(b1);
    var b2 := GetU32(b1).value.1;
    GotWord(b2);
    var b3 := GetU32(b2).value.1;
    GotLong(b3);
    LastLong(GetU64(b3).value.1);
  }

  lemma PartitionStatusForm(decode: FieldsDecoder, b: bytes, r: Request)
    requires decode == DecodePartitionStatus && decode(b) == Success(r)
    ensures r.PartitionStatus? && WellFormed(r) && |r.topic| < 0x1_0000 && b == Str(r.topic) + U32(r.partition)
  {
    StringBackwards(b);
    LastWord(GetString(b).value.1);
  }

  // ---------------------------------------------------------------- produce requests

  /** The fields of a produce request, with the numbers that stand for an absent producer and an absent partition. */
  function ProduceForm(r: Request, sequence: u64, partition: u32): bytes
    requires r.Produce? && WellFormed(r)
  {
    U16(|r.topic|) + (r.topic + (BatchRecordFields(BatchRecord(r.key, r.payload))
    + (U8(AckCode(r.ackMode)) + ProducerForm(r.producer, sequence, TargetForm(r.target, partition)))))
  }

  function TargetForm(target: Option<u32>, unused: u32): bytes {
    U8(if target.Some? then 1 else 0) + U32(target.UnwrapOr(unused))
  }

  lemma OptionsForm(b: bytes) returns (sequence: u64, partition: u32)
    requires DecodeProduceOptions(b).Success?
    ensures var (ackMode, producer, target) := DecodeProduceOptions(b).value;
            && (producer.Some? ==> |producer.value.id| < 0x1_0000)
            && b == U8(AckCode(ackMode)) + ProducerForm(producer, sequence, TargetForm(target, partition))
  {
    ByteIsPut(b);
    var b1 := GetU8(b).value.1;
    sequence := ProducerBackwards(b1);
    partition := OptionBackwards(GetProducer(b1).value.1);
    NothingBehind(U32(partition));
    AckCodeBack(GetU8(b).value.0);
  }

  lemma AckCodeBack(code: u8)
    requires AckFrom(code).Success?
    ensures AckCode(AckFrom(code).value) == code
  {
  }

  lemma ProduceForms(b: bytes, r: Request) returns (sequence: u64, partition: u32)
    requires DecodeProduce(b) == Success(r)
    ensures r.Produce? && WellFormed(r) && b == ProduceForm(r, sequence, partition)
  {
    TopicForm(b);
    var (topic, b1) := GetTopic(b).value;
    BatchRecordForm(b1);
    var (message, b2) := GetBatchRecord(b1).value;
    sequence, partition := OptionsForm(b2);
  }

  /** The fields of a batch, with the records as they stand on the wire. */
  function BatchForm(r: Request, uncompressed: u32, encoded: bytes, unused: u32): bytes
    requires r.ProduceBatch? && |r.topic| < 0x1_0000 && |encoded| < 0x1_0000_0000
  {
    U16(|r.topic|) + (r.topic + BatchHeader(r.ackMode, r.compression, uncompressed,
    U32(|encoded|) + (encoded + TargetForm(r.target, unused))))
  }

  lemma HeaderForm(b: bytes)
    requires GetBatchHeader(b).Success?
    ensures var ((ackMode, compression, length), rest) := GetBatchHeader(b).value;
            length <= MAX_UNCOMPRESSED_BATCH_SIZE && b == BatchHeader(ackMode, compression, length, rest)
  {
    FieldsBackwards();
  }

  lemma RecordsForm(b: bytes)
    requires DecodeBatchRecords(b).Success?
    ensures var records := DecodeBatchRecords(b).value;
            && 0 < |records| <= MAX_BATCH_MESSAGES
            && (forall r :: r in records ==> |r.key| <= MAX_KEY_SIZE && |r.payload| <= MAX_MESSAGE_SIZE)
            && b == BatchRecords(records)
  {
    FieldsBackwards();
    var (count, b1) := GetU32(b).value;
    forall x: bytes | GetBatchRecord(x).Success?
      ensures BatchRecordFields.requires(GetBatchRecord(x).value.0)
      ensures x == BatchRecordFields(GetBatchRecord(x).value.0) + GetBatchRecord(x).value.1
    {
      BatchRecordForm(x);
    }
    AllBackwards(count, b1, GetBatchRecord, BatchRecordFields);
    var records := DecodeBatchRecords(b).value;
    assert forall r :: r in records ==> BatchRecordFields.requires(r);
    assert PutAll(records, BatchRecordFields) + [] == PutAll(records, BatchRecordFields);
  }

  lemma BatchForms(zstd: Compressor, b: bytes, r: Request) returns (encoded: bytes, unused: u32)
    requires DecodeBatch(zstd, b) == Success(r)
    ensures r.ProduceBatch? && WellFormed(r) && |encoded| < 0x1_0000_0000
    ensures forall m :: m in r.records ==> |m.key| <= MAX_KEY_SIZE && |m.payload| <= MAX_MESSAGE_SIZE
    ensures var records := BatchRecords(r.records);
            && |records| < 0x1_0000_0000 && Decompressed(zstd, r.compression, encoded) == Success(records)
            && b == BatchForm(r, |records|, encoded, unused)
  {
    TopicForm(b);
    var b1 := GetTopic(b).value.1;
    HeaderForm(b1);
    var header, b2 := GetBatchHeader(b1).value.0, GetBatchHeader(b1).value.1;
    encoded, unused := PayloadForm(b2);
    RecordsForm(Decompressed(zstd, header.1, encoded).value);
    assert r.topic == GetTopic(b).value.0 && r.ackMode == header.0 && r.compression == header.1;
  }

  /** The records as they stand on the wire, and the partition, at the end of a batch. */
  lemma PayloadForm(b: bytes) returns (encoded: bytes, unused: u32)
    requires GetU32(b).Success?
    requires var (length, b1) := GetU32(b).value;
             GetBytes(b1, length).Success? && GetOptionU32(GetBytes(b1, length).value.1).Success?
             && GetOptionU32(GetBytes(b1, length).value.1).value.1 == []
    ensures var (length, b1) := GetU32(b).value;
            && encoded == GetBytes(b1, length).value.0 && |encoded| == length
            && b == U32(|encoded|) + (encoded + TargetForm(GetOptionU32(GetBytes(b1, length).value.1).value.0, unused))
  {
    GotWord(b);
    var (length, b1) := GetU32(b).value;
    var b2;
    encoded, b2 := GetBytes(b1, length).value.0, GetBytes(b1, length).value.1;
    unused := OptionBackwards(b2);
    NothingBehind(U32(unused));
  }

  // ---------------------------------------------------------------- all requests

  /** A topic name that the encoder does not accept, in a request whose decoder does not check it. */
  predicate Unchecked(r: Request) {
    (r.PromoteLeader? || r.ApplyLeadership? || r.PartitionStatus?) && ValidateTopic(r.topic).Failure?
  }

  lemma OpcodeForm(zstd: Compressor, frame: bytes, r: Request) returns (opcode: u8, b: bytes)
    requires DecodeRequest(zstd, frame) == Success(r)
    ensures frame == U8(opcode) + b && DecoderOf(zstd, opcode)(b) == Success(r)
  {
    FieldsBackwards();
    opcode, b := GetU8(frame).value.0, GetU8(frame).value.1;
  }

  /**
   Whatever decodes is a well-formed request. A frame that is neither a produce request nor a batch is exactly its encoding,
   unless it names a topic that only the encoder refuses.
   */
  lemma DecodesOnlyRequests(zstd: Compressor, frame: bytes, r: Request)
    requires DecodeRequest(zstd, frame) == Success(r)
    ensures WellFormed(r)
    ensures Plainly(r) && !Unchecked(r) ==> EncodeRequest(zstd, r) == Success(frame)
  {
    var opcode, b := OpcodeForm(zstd, frame, r);
    if opcode in {PRODUCE, PRODUCE_BATCH} {
      ProducingForm(zstd, opcode, b, r);
    } else if opcode in {JOIN_GROUP, HEARTBEAT, LEAVE_GROUP, COMMIT_OFFSET, GROUP_FETCH} {
      MembersForm(zstd, opcode, b, r);
    } else if opcode in {FETCH, FETCH_COMMITTED_OFFSET, LIST_TOPICS, CLUSTER_METADATA} {
      OthersForm(zstd, opcode, b, r);
    } else {
      TopicsForm(zstd, opcode, b, r);
    }
  }

  lemma ProducingForm(zstd: Compressor, opcode: u8, b: bytes, r: Request)
    requires opcode == PRODUCE || opcode == PRODUCE_BATCH
    requires DecoderOf(zstd, opcode)(b) == Success(r)
    ensures WellFormed(r) && !Plainly(r)
  {
    if opcode == PRODUCE {
      var sequence, partition := ProduceForms(b, r);
    } else {
      var encoded, unused := BatchForms(zstd, b, r);
    }
  }

  lemma MembersForm(zstd: Compressor, opcode: u8, b: bytes, r: Request)
    requires opcode in {JOIN_GROUP, HEARTBEAT, LEAVE_GROUP, COMMIT_OFFSET, GROUP_FETCH}
    requires DecoderOf(zstd, opcode)(b) == Success(r)
    ensures WellFormed(r) && EncodeRequest(zstd, r) == Success(U8(opcode) + b)
  {
    var decode := DecoderOf(zstd, opcode);
    if opcode == JOIN_GROUP {
      JoinForm(decode, b, r);
    } else if opcode == HEARTBEAT {
      HeartbeatForm(decode, b, r);
    } else if opcode == LEAVE_GROUP {
      LeaveForm(decode, b, r);
    } else if opcode == COMMIT_OFFSET {
      CommitForm(decode, b, r);
    } else {
      GroupFetchForm(decode, b, r);
    }
  }

  lemma OthersForm(zstd: Compressor, opcode: u8, b: bytes, r: Request)
    requires opcode in {FETCH, FETCH_COMMITTED_OFFSET, LIST_TOPICS, CLUSTER_METADATA}
    requires DecoderOf(zstd, opcode)(b) == Success(r)
    ensures WellFormed(r) && EncodeRequest(zstd, r) == Success(U8(opcode) + b)
  {
    var decode := DecoderOf(zstd, opcode);
    if opcode == FETCH {
      FetchForm(decode, b, r);
    } else if opcode == FETCH_COMMITTED_OFFSET {
      FetchCommittedForm(decode, b, r);
    }
  }

  lemma TopicsForm(zstd: Compressor, opcode: u8, b: bytes, r: Request)
    requires opcode !in {PRODUCE, PRODUCE_BATCH, JOIN_GROUP, HEARTBEAT, LEAVE_GROUP, COMMIT_OFFSET, GROUP_FETCH, FETCH,
                         FETCH_COMMITTED_OFFSET, LIST_TOPICS, CLUSTER_METADATA}
    requires DecoderOf(zstd, opcode)(b) == Success(r)
    ensures WellFormed(r) && Plainly(r)
    ensures !Unchecked(r) ==> EncodeRequest(zstd, r) == Success(U8(opcode) + b)
  {
    var decode := DecoderOf(zstd, opcode);
    if opcode == CREATE_TOPIC {
      CreateTopicForm(decode, b, r);
    } else if opcode == DESCRIBE_TOPIC {
      DescribeTopicForm(decode, b, r);
    } else if opcode == PROMOTE_LEADER {
      PromoteLeaderForm(decode, b, r);
    } else if opcode == APPLY_LEADERSHIP {
      ApplyLeadershipForm(decode, b, r);
    } else {
      assert opcode == PARTITION_STATUS;
      PartitionStatusForm(decode, b, r);
    }
  }
}
