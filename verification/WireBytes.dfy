/**
 What each message is on the wire, byte by byte: the order, width and byte order of its fields, for numbers below 256 and names
 of up to 249 bytes.
 */
module WireBytes {
  import opened Wrappers
  import opened Bytes
  import opened Frames
  import opened Fields
  import R = Requests
  import S = Responses
  import C = ReplicationCodec
  import RecordCodec
  import Utf8

  lemma SmallNumbers()
    ensures forall n: byte {:trigger U16(n)} :: U16(n) == [0, n]
    ensures forall n: byte {:trigger U32(n)} :: U32(n) == [0, 0, 0, n]
    ensures forall n: byte {:trigger U64(n)} :: U64(n) == [0, 0, 0, 0, 0, 0, 0, n]
  {
    forall n: byte
      ensures U16(n) == [0, n] && U32(n) == [0, 0, 0, n] && U64(n) == [0, 0, 0, 0, 0, 0, 0, n]
    {
      PutSmall(n);
    }
  }

  lemma PutSmall(n: byte)
    ensures Put(n, 2) == [0, n] && Put(n, 4) == [0, 0, 0, n] && Put(n, 8) == [0, 0, 0, 0, 0, 0, 0, n]
  {
    assert Put(0, 0) == [];
    assert Put(0, 1) == [0];
    assert Put(0, 2) == [0, 0];
    assert Put(0, 3) == [0, 0, 0];
    assert Put(0, 4) == [0, 0, 0, 0];
    assert Put(0, 5) == [0, 0, 0, 0, 0];
    assert Put(0, 6) == [0, 0, 0, 0, 0, 0];
    assert Put(0, 7) == [0, 0, 0, 0, 0, 0, 0];
  }

  ghost predicate Is(r: Result<bytes, ProtocolError>, b: bytes) {
    r.Success? && r.value == b
  }

  /** A text of up to 249 bytes. */
  function Text(s: bytes): bytes
    requires |s| <= 249
  {
    [0, |s|] + s
  }

  function Word(n: byte): bytes { [0, 0, 0, n] }

  function Long(n: byte): bytes { [0, 0, 0, 0, 0, 0, 0, n] }

  lemma TextIsStr(s: bytes)
    requires |s| <= 249
    ensures Str(s) == Text(s)
  {
    SmallNumbers();
  }

  lemma Join3(a: bytes, b: bytes, c: bytes)
    ensures a + (b + c) == a + b + c
  {
  }

  lemma Join4(a: bytes, b: bytes, c: bytes, d: bytes)
    ensures a + (b + (c + d)) == a + b + c + d
  {
  }

  lemma Join5(a: bytes, b: bytes, c: bytes, d: bytes, e: bytes)
    ensures a + (b + (c + (d + e))) == a + b + c + d + e
  {
  }

  lemma Push(a: bytes, b: bytes, c: bytes, d: bytes, e: bytes, f: bytes, g: bytes)
    ensures a + (b + c + d + e + f + g) == a + b + c + d + e + f + g
  {
  }

  lemma Join6(a: bytes, b: bytes, c: bytes, d: bytes, e: bytes, f: bytes)
    ensures a + (b + (c + (d + (e + f)))) == a + b + c + d + e + f
  {
  }

  // ---------------------------------------------------------------- requests

  function Members(w: R.Member): bytes
    requires |w.group| <= 249 && |w.topic| <= 249 && |w.member| <= 249
  {
    Text(w.group) + Text(w.topic) + Text(w.member)
  }

  lemma MembersAre(w: R.Member, rest: bytes)
    requires |w.group| <= 249 && |w.topic| <= 249 && |w.member| <= 249
    ensures Is(R.MemberFields(w, rest), Members(w) + rest)
  {
    TextIsStr(w.group);
    TextIsStr(w.topic);
    TextIsStr(w.member);
    Join4(Text(w.group), Text(w.topic), Text(w.member), rest);
  }

  lemma ProduceBytes(zstd: R.Compressor, topic: bytes, key: bytes, payload: bytes, id: bytes, sequence: byte, partition: byte)
    requires |key| < 256 && |payload| < 256
    requires R.WellFormed(R.Produce(topic, key, payload, R.Durable, Some(RecordCodec.Producer(id, sequence)), Some(partition)))
    ensures |topic| <= 249 && |id| <= 249
    ensures Is(R.EncodeRequest(zstd, R.Produce(topic, key, payload, R.Durable, Some(RecordCodec.Producer(id, sequence)), Some(partition))),
               [1] + Text(topic) + (([0, |key|] + key) + (Word(|payload|) + payload))
               + ([2] + Text(id) + Long(sequence) + [1] + Word(partition)))
  {
    MessageBytes(key, payload);
    OptionsBytes(id, sequence, partition);
    SmallNumbers();
    ProduceJoins(Text(topic), topic, ([0, |key|] + key) + (Word(|payload|) + payload),
                 [2] + Text(id) + Long(sequence) + [1] + Word(partition));
  }

  lemma MessageBytes(key: bytes, payload: bytes)
    requires |key| < 256 && |payload| < 256
    ensures R.BatchRecordFields(R.BatchRecord(key, payload)) == ([0, |key|] + key) + (Word(|payload|) + payload)
  {
    SmallNumbers();
  }

  lemma OptionsBytes(id: bytes, sequence: byte, partition: byte)
    requires |id| <= 249
    ensures U8(R.AckCode(R.Durable))
            + R.ProducerFields(Some(RecordCodec.Producer(id, sequence)), OptionU32(Some(partition)))
            == [2] + Text(id) + Long(sequence) + [1] + Word(partition)
  {
    SmallNumbers();
  }

  lemma ProduceJoins(text: bytes, topic: bytes, message: bytes, options: bytes)
    requires |topic| <= 249 && text == Text(topic)
    ensures [1] + ([0, |topic|] + (topic + (message + options))) == [1] + text + message + options
  {
  }

  lemma FetchBytes(zstd: R.Compressor, topic: bytes, partition: byte, offset: byte, maxBytes: byte, maxWaitMs: byte)
    requires R.WellFormed(R.Fetch(topic, partition, offset, maxBytes, maxWaitMs))
    ensures |topic| <= 249
    ensures Is(R.EncodeRequest(zstd, R.Fetch(topic, partition, offset, maxBytes, maxWaitMs)),
               [16] + Text(topic) + Word(partition) + Long(offset) + Word(maxBytes) + Word(maxWaitMs))
  {
    SmallNumbers();
    TextIsStr(topic);
    Join3(U16(|topic|), topic, R.Window(partition, offset, maxBytes, maxWaitMs));
    Join6([16], Text(topic), Word(partition), Long(offset), Word(maxBytes), Word(maxWaitMs));
  }

  lemma GroupBytes(zstd: R.Compressor, w: R.Member, generation: byte, partition: byte, offset: byte)
    requires R.TextMember(w) && |w.group| <= 249 && |w.topic| <= 249 && |w.member| <= 249
    ensures Is(R.EncodeRequest(zstd, R.JoinGroup(w)), [32] + Members(w))
    ensures Is(R.EncodeRequest(zstd, R.Heartbeat(w, generation)), [34] + Members(w) + Long(generation))
    ensures Is(R.EncodeRequest(zstd, R.LeaveGroup(w, generation)), [35] + Members(w) + Long(generation))
    ensures Is(R.EncodeRequest(zstd, R.CommitOffset(w, generation, partition, offset)),
               [36] + Members(w) + Long(generation) + Word(partition) + Long(offset))
  {
    SmallNumbers();
    MembersAre(w, []);
    NothingBehind(Members(w));
    MembersAre(w, U64(generation));
    Join3([34], Members(w), Long(generation));
    Join3([35], Members(w), Long(generation));
    MembersAre(w, U64(generation) + (U32(partition) + U64(offset)));
    Join5([36], Members(w), Long(generation), Word(partition), Long(offset));
  }

  lemma GroupFetchBytes(zstd: R.Compressor, w: R.Member, generation: byte, partition: byte, offset: byte, maxBytes: byte,
                        maxWaitMs: byte)
    requires R.TextMember(w) && |w.group| <= 249 && |w.topic| <= 249 && |w.member| <= 249
    requires R.CheckFetch(w.topic, maxBytes, maxWaitMs).Success?
    ensures Is(R.EncodeRequest(zstd, R.GroupFetch(w, generation, partition, offset, maxBytes, maxWaitMs)),
               [40] + Members(w) + Long(generation) + Word(partition) + Long(offset) + Word(maxBytes) + Word(maxWaitMs))
  {
    SmallNumbers();
    MembersAre(w, U64(generation) + R.Window(partition, offset, maxBytes, maxWaitMs));
    Join6(Members(w), Long(generation), Word(partition), Long(offset), Word(maxBytes), Word(maxWaitMs));
    Push([40], Members(w), Long(generation), Word(partition), Long(offset), Word(maxBytes), Word(maxWaitMs));
  }

  lemma TopicBytes(zstd: R.Compressor, topic: bytes, partition: byte)
    requires R.GoodTopic(topic) && partition > 0
    ensures |topic| <= 249
    ensures Is(R.EncodeRequest(zstd, R.CreateTopic(topic, partition)), [48] + Text(topic) + Word(partition))
    ensures Is(R.EncodeRequest(zstd, R.DescribeTopic(topic)), [50] + Text(topic))
    ensures Is(R.EncodeRequest(zstd, R.PartitionStatus(topic, partition)), [69] + Text(topic) + Word(partition))
    ensures Is(R.EncodeRequest(zstd, R.ListTopics), [49])
    ensures Is(R.EncodeRequest(zstd, R.ClusterMetadata), [64])
  {
    SmallNumbers();
    TextIsStr(topic);
    Join3([48], Text(topic), Word(partition));
    Join3([69], Text(topic), Word(partition));
    NothingBehind([49]);
    NothingBehind([64]);
  }

  lemma LeaderBytes(zstd: R.Compressor, topic: bytes, partition: byte, leader: byte, epoch: byte, highWatermark: byte)
    requires R.GoodTopic(topic)
    ensures |topic| <= 249
    ensures Is(R.EncodeRequest(zstd, R.PromoteLeader(topic, partition, leader)),
               [66] + Text(topic) + Word(partition) + Word(leader))
    ensures Is(R.EncodeRequest(zstd, R.ApplyLeadership(topic, partition, leader, epoch, highWatermark)),
               [67] + Text(topic) + Word(partition) + Word(leader) + Long(epoch) + Long(highWatermark))
  {
    SmallNumbers();
    TextIsStr(topic);
    Join4([66], Text(topic), Word(partition), Word(leader));
    Join6([67], Text(topic), Word(partition), Word(leader), Long(epoch), Long(highWatermark));
  }

  lemma FetchCommittedBytes(zstd: R.Compressor, group: bytes, topic: bytes, partition: byte)
    requires Utf8.ValidUtf8(group) && Utf8.ValidUtf8(topic) && |group| <= 249 && |topic| <= 249
    ensures Is(R.EncodeRequest(zstd, R.FetchCommittedOffset(group, topic, partition)),
               [37] + Text(group) + Text(topic) + Word(partition))
  {
    SmallNumbers();
    TextIsStr(group);
    TextIsStr(topic);
    Join4([37], Text(group), Text(topic), Word(partition));
  }

  // ---------------------------------------------------------------- responses

  lemma SmallResponseBytes(partition: byte, offset: byte, generation: byte, message: bytes)
    requires |message| <= 249
    ensures Is(S.EncodeResponse(S.ProduceAck(S.Ack(partition, offset))), [2] + Word(partition) + Long(offset))
    ensures Is(S.EncodeResponse(S.ProduceBatchAck([S.Ack(partition, offset)])),
               [4] + Word(1) + Word(partition) + Long(offset))
    ensures Is(S.EncodeResponse(S.JoinGroupResponse(generation, [partition])),
               [33] + Long(generation) + Word(1) + Word(partition))
    ensures Is(S.EncodeResponse(S.GroupAck), [38])
    ensures Is(S.EncodeResponse(S.CommittedOffset(Some(offset))), [39, 1] + Long(offset))
    ensures Is(S.EncodeResponse(S.CommittedOffset(None)), [39, 0] + Long(0))
    ensures Is(S.EncodeResponse(S.PartitionStatus(offset)), [70] + Long(offset))
    ensures Is(S.EncodeResponse(S.Error(message)), [127] + Text(message))
  {
    SmallNumbers();
    TextIsStr(message);
    assert PutAll([S.Ack(partition, offset)], S.PutAck) == S.PutAck(S.Ack(partition, offset)) + [];
    assert PutAll([partition as u32], S.PutNumber) == S.PutNumber(partition) + [];
  }

  lemma LeadershipBytes(partition: byte, leader: byte, epoch: byte, highWatermark: byte)
    ensures Is(S.EncodeResponse(S.LeadershipChanged(S.Leadership(partition, leader, epoch, highWatermark))),
               [68] + Word(partition) + Word(leader) + Long(epoch) + Long(highWatermark))
  {
    SmallNumbers();
  }

  lemma FetchedBytes(offset: byte, timestamp: byte, key: bytes, value: bytes)
    requires |key| < 256 && |value| < 256
    ensures S.PutFetched(S.Fetched(offset, timestamp, Some(key), value))
            == Long(offset) + Long(timestamp) + Word(|key|) + Word(|value|) + key + value
    ensures S.PutFetched(S.Fetched(offset, timestamp, None, value))
            == Long(offset) + Long(timestamp) + [255, 255, 255, 255] + Word(|value|) + value
  {
    SmallNumbers();
    assert [] + value == value;
    MinusOne();
  }

  lemma MinusOne()
    ensures I32(-1) == [255, 255, 255, 255]
  {
    var n: u32 := 0xFFFF_FFFF;
    assert Put(0xFF, 1) == Put(0, 0) + [255] == [255];
    assert Put(0xFFFF, 2) == [255, 255];
    assert Put(0xFF_FFFF, 3) == [255, 255, 255];
    assert Put(0xFFFF_FFFF, 4) == [255, 255, 255, 255];
  }

  lemma TopicMetadataBytes(topic: bytes, leader: byte, epoch: byte, highWatermark: byte)
    requires |topic| <= 249
    ensures S.PutTopic(S.TopicMetadata(topic, 1, [leader], [epoch], [highWatermark]))
            == Text(topic) + Word(1) + Word(1) + Word(leader) + Long(epoch) + Long(highWatermark)
  {
    SmallNumbers();
    TextIsStr(topic);
    assert PutAll([leader as u32], S.PutNumber) == S.PutNumber(leader) + [];
    assert PutAll([epoch as u64], S.PutLong) == S.PutLong(epoch) + [];
    assert PutAll([highWatermark as u64], S.PutLong) == S.PutLong(highWatermark) + [];
  }

  lemma NodeBytes(id: byte, host: bytes, port: byte, adminPort: byte, replicationPort: byte)
    requires |host| <= 249
    ensures S.PutNode(S.Node(id, host, port, adminPort, replicationPort))
            == Word(id) + Text(host) + [0, port, 0, adminPort, 0, replicationPort]
  {
    SmallNumbers();
    TextIsStr(host);
  }

  // ---------------------------------------------------------------- replication

  lemma ReplicationBytes(r: C.ReplicateRecord, key: bytes)
    requires C.EncodeRecord(r).Success? && r.key == Some(key) && |key| < 256 && |r.value| < 256
    requires r.partition < 256 && r.offset < 256 && r.timestamp < 256 && r.leader < 256 && r.epoch < 256
    ensures |r.topic| <= 249
    ensures Is(C.EncodeRecord(r), [80] + Text(r.topic) + Word(r.partition) + Long(r.offset) + Long(r.timestamp)
               + [if r.durable then 1 else 0] + Word(r.leader) + Long(r.epoch) + ([0, |key|] + key + Word(|r.value|) + r.value))
  {
    SmallNumbers();
    TextIsStr(r.topic);
    var content := C.Content(key, r.value);
    assert content == [0, |key|] + key + Word(|r.value|) + r.value;
    PositionBytes(r, content);
    ReplicationJoins([80], Text(r.topic), Word(r.partition), Long(r.offset), Long(r.timestamp), [if r.durable then 1 else 0],
                     Word(r.leader), Long(r.epoch), content);
  }

  lemma PositionBytes(r: C.ReplicateRecord, content: bytes)
    requires r.partition < 256 && r.offset < 256 && r.timestamp < 256 && r.leader < 256 && r.epoch < 256
    ensures C.Position(r, content)
            == Word(r.partition) + (Long(r.offset) + (Long(r.timestamp) + ([if r.durable then 1 else 0]
               + (Word(r.leader) + (Long(r.epoch) + content)))))
  {
    SmallNumbers();
  }

  lemma ReplicationJoins(a: bytes, b: bytes, c: bytes, d: bytes, e: bytes, f: bytes, g: bytes, h: bytes, content: bytes)
    ensures a + (b + (c + (d + (e + (f + (g + (h + content))))))) == a + b + c + d + e + f + g + h + content
  {
  }

  lemma ReplicationAckBytes(partition: byte, nextOffset: byte)
    ensures C.EncodeAck(C.ReplicateAck(partition, nextOffset)) == [81] + Word(partition) + Long(nextOffset)
  {
    SmallNumbers();
  }
}
