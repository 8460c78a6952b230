/**
 The other half of the response and replication codecs: whatever decodes stood on the wire as its encoder writes it, but for
 the number that stands in place of an absent committed offset and is not used.
 */
module ResponseForms {
  import opened Wrappers
  import opened Bytes
  import opened Utf8
  import opened Frames
  import opened Fields
  import opened Responses

  lemma LastLong(b: bytes)
    requires GetU64(b).Success? && GetU64(b).value.1 == []
    ensures b == U64(GetU64(b).value.0)
  {
    GotLong(b);
    NothingBehind(U64(GetU64(b).value.0));
  }

  // ---------------------------------------------------------------- groups of fields

  lemma AckForm(b: bytes)
    requires GetAck(b).Success?
    ensures b == PutAck(GetAck(b).value.0) + GetAck(b).value.1
  {
    GotWord(b);
    GotLong(GetU32(b).value.1);
    Regroup(U32(GetAck(b).value.0.partition), U64(GetAck(b).value.0.offset), GetAck(b).value.1);
  }

  lemma FetchedForm(b: bytes)
    requires GetFetched(b).Success?
    ensures SizedFetched(GetFetched(b).value.0) && b == PutFetched(GetFetched(b).value.0) + GetFetched(b).value.1
  {
    var (f, rest) := GetFetched(b).value;
    GotLong(b);
    var b1 := GetU64(b).value.1;
    GotLong(b1);
    var b2 := GetU64(b1).value.1;
    WordIsPut(b2);
    var (keyLength, b3) := GetI32(b2).value;
    GotWord(b3);
    var (valueLength, b4) := GetU32(b3).value;
    KeyForm(keyLength, b4);
    FetchedParts(f, rest, I32(keyLength) + (U32(valueLength) + (f.key.UnwrapOr([]) + (f.value + rest))));
  }

  lemma KeyForm(length: int, b: bytes)
    requires GetKey(length, b).Success?
    ensures var (key, rest) := GetKey(length, b).value;
            b == key.UnwrapOr([]) + rest && length == if key.Some? then |key.value| else -1
  {
    if length == -1 {
      assert [] + b == b;
    }
  }

  lemma NumberForm(b: bytes)
    requires GetU32(b).Success?
    ensures b == PutNumber(GetU32(b).value.0) + GetU32(b).value.1
  {
    GotWord(b);
  }

  lemma LongForm(b: bytes)
    requires GetU64(b).Success?
    ensures b == PutLong(GetU64(b).value.0) + GetU64(b).value.1
  {
    GotLong(b);
  }

  lemma NumbersForm(count: nat, b: bytes)
    requires GetAll(count, b, GetU32).Success?
    ensures var (items, rest) := GetAll(count, b, GetU32).value; |items| == count && b == PutAll(items, PutNumber) + rest
  {
    forall x: bytes | GetU32(x).Success?
      ensures x == PutNumber(GetU32(x).value.0) + GetU32(x).value.1
    {
      NumberForm(x);
    }
    AllBackwards(count, b, GetU32, PutNumber);
  }

  lemma LongsForm(count: nat, b: bytes)
    requires GetAll(count, b, GetU64).Success?
    ensures var (items, rest) := GetAll(count, b, GetU64).value; |items| == count && b == PutAll(items, PutLong) + rest
  {
    forall x: bytes | GetU64(x).Success?
      ensures x == PutLong(GetU64(x).value.0) + GetU64(x).value.1
    {
      LongForm(x);
    }
    AllBackwards(count, b, GetU64, PutLong);
  }

  lemma ListsForm(topic: bytes, partitions: u32, count: nat, b: bytes)
    requires GetTopicLists(topic, partitions, count, b).Success?
    ensures var (t, rest) := GetTopicLists(topic, partitions, count, b).value;
            && t.topic == topic && t.partitions == partitions
            && |t.leaders| == |t.epochs| == |t.highWatermarks| == count
            && b == TopicLists(t) + rest
  {
    NumbersForm(count, b);
    var b1 := GetAll(count, b, GetU32).value.1;
    LongsForm(count, b1);
    var b2 := GetAll(count, b1, GetU64).value.1;
    LongsForm(count, b2);
    var (t, rest) := GetTopicLists(topic, partitions, count, b).value;
    Regroup(PutAll(t.epochs, PutLong), PutAll(t.highWatermarks, PutLong), rest);
    Regroup(PutAll(t.leaders, PutNumber), PutAll(t.epochs, PutLong) + PutAll(t.highWatermarks, PutLong), rest);
  }

  lemma TopicForm(b: bytes)
    requires GetTopic(b).Success?
    ensures var (t, rest) := GetTopic(b).value;
            SizedTopic(t) && |t.topic| < 0x1_0000 && ValidUtf8(t.topic) && b == PutTopic(t) + rest
  {
    StringBackwards(b);
    var (topic, b1) := GetString(b).value;
    GotWord(b1);
    var (partitions, b2) := GetU32(b1).value;
    GotWord(b2);
    var (count, b3) := GetU32(b2).value;
    ListsForm(topic, partitions, count, b3);
    var (t, rest) := GetTopic(b).value;
    TopicParts(t, rest);
  }

  lemma NodeForm(b: bytes)
    requires GetNode(b).Success?
    ensures var (n, rest) := GetNode(b).value; |n.host| < 0x1_0000 && ValidUtf8(n.host) && b == PutNode(n) + rest
  {
    GotWord(b);
    var b1 := GetU32(b).value.1;
    StringBackwards(b1);
    var b2 := GetString(b1).value.1;
    var (n, rest) := GetNode(b).value;
    PortsForm(b2);
    NodeParts(n, rest);
  }

  lemma PortsForm(b: bytes)
    requires GetU16(b).Success? && GetU16(GetU16(b).value.1).Success? && GetU16(GetU16(GetU16(b).value.1).value.1).Success?
    ensures var b1 := GetU16(b).value.1;
            var b2 := GetU16(b1).value.1;
            b == U16(GetU16(b).value.0) + (U16(GetU16(b1).value.0) + (U16(GetU16(b2).value.0) + GetU16(b2).value.1))
  {
    ShortIsPut(b);
    var b1 := GetU16(b).value.1;
    ShortIsPut(b1);
    ShortIsPut(GetU16(b1).value.1);
  }

  lemma NodeParts(n: Node, rest: bytes)
    requires |n.host| < 0x1_0000
    ensures PutNode(n) + rest
            == U32(n.id) + (Str(n.host) + (U16(n.port) + (U16(n.adminPort) + (U16(n.replicationPort) + rest))))
  {
  }

  // ---------------------------------------------------------------- each kind

  lemma BatchAckForm(decode: FieldsDecoder, b: bytes, r: Response)
    requires decode == DecodeProduceBatchAck && decode(b) == Success(r)
    ensures r.ProduceBatchAck? && 0 < |r.acks| <= MAX_BATCH_MESSAGES && b == U32(|r.acks|) + PutAll(r.acks, PutAck)
  {
    GotWord(b);
    var (count, b1) := GetU32(b).value;
    forall x: bytes | GetAck(x).Success?
      ensures x == PutAck(GetAck(x).value.0) + GetAck(x).value.1
    {
      AckForm(x);
    }
    AllBackwards(count, b1, GetAck, PutAck);
    NothingBehind(PutAll(r.acks, PutAck));
  }

  lemma FetchForm(decode: FieldsDecoder, b: bytes, r: Response)
    requires decode == DecodeFetchResponse && decode(b) == Success(r)
    ensures r.FetchResponse? && |r.records| < 0x1_0000_0000 && (forall f :: f in r.records ==> SizedFetched(f))
    ensures b == U32(|r.records|) + PutAll(r.records, PutFetched)
  {
    GotWord(b);
    var (count, b1) := GetU32(b).value;
    forall x: bytes | GetFetched(x).Success?
      ensures PutFetched.requires(GetFetched(x).value.0) && x == PutFetched(GetFetched(x).value.0) + GetFetched(x).value.1
    {
      FetchedForm(x);
    }
    AllBackwards(count, b1, GetFetched, PutFetched);
    assert forall f :: f in r.records ==> PutFetched.requires(f);
    NothingBehind(PutAll(r.records, PutFetched));
  }

  lemma JoinForm(decode: FieldsDecoder, b: bytes, r: Response)
    requires decode == DecodeJoinGroupResponse && decode(b) == Success(r)
    ensures r.JoinGroupResponse? && |r.partitions| < 0x1_0000_0000
    ensures b == U64(r.generation) + (U32(|r.partitions|) + PutAll(r.partitions, PutNumber))
  {
    GotLong(b);
    var b1 := GetU64(b).value.1;
    GotWord(b1);
    NumbersForm(GetU32(b1).value.0, GetU32(b1).value.1);
    NothingBehind(PutAll(r.partitions, PutNumber));
  }

  lemma CommittedForm(decode: FieldsDecoder, b: bytes, r: Response) returns (unused: u64)
    requires decode == DecodeCommittedOffset && decode(b) == Success(r)
    ensures r.CommittedOffset? && b == U8(if r.offset.Some? then 1 else 0) + U64(r.offset.UnwrapOr(unused))
  {
    ByteIsPut(b);
    var b1 := GetU8(b).value.1;
    LastLong(b1);
    unused := GetU64(b1).value.0;
  }

  lemma TopicsForm(decode: FieldsDecoder, b: bytes, r: Response)
    requires decode == DecodeTopics && decode(b) == Success(r)
    ensures r.Topics? && WellFormed(r) && |r.topics| < 0x1_0000_0000
    ensures forall t :: t in r.topics ==> SizedTopic(t) && |t.topic| < 0x1_0000
    ensures b == U32(|r.topics|) + PutAll(r.topics, PutTopic)
  {
    GotWord(b);
    var (count, b1) := GetU32(b).value;
    forall x: bytes | GetTopic(x).Success?
      ensures ValidUtf8(GetTopic(x).value.0.topic)
      ensures PutTopic.requires(GetTopic(x).value.0) && x == PutTopic(GetTopic(x).value.0) + GetTopic(x).value.1
    {
      TopicForm(x);
    }
    AllBackwards(count, b1, GetTopic, PutTopic);
    assert forall t :: t in r.topics ==> PutTopic.requires(t);
    AllHave(count, b1, GetTopic, (t: TopicMetadata) => ValidUtf8(t.topic));
    NothingBehind(PutAll(r.topics, PutTopic));
  }

  lemma NodesForm(decode: FieldsDecoder, b: bytes, r: Response)
    requires decode == DecodeClusterNodes && decode(b) == Success(r)
    ensures r.ClusterNodes? && WellFormed(r) && 0 < |r.nodes| <= MAX_CLUSTER_NODES
    ensures forall n :: n in r.nodes ==> |n.host| < 0x1_0000
    ensures b == U32(r.responder) + (U32(|r.nodes|) + PutAll(r.nodes, PutNode))
  {
    GotWord(b);
    var b1 := GetU32(b).value.1;
    GotWord(b1);
    var (count, b2) := GetU32(b1).value;
    forall x: bytes | GetNode(x).Success?
      ensures ValidUtf8(GetNode(x).value.0.host)
      ensures PutNode.requires(GetNode(x).value.0) && x == PutNode(GetNode(x).value.0) + GetNode(x).value.1
    {
      NodeForm(x);
    }
    AllBackwards(count, b2, GetNode, PutNode);
    assert forall n :: n in r.nodes ==> PutNode.requires(n);
    AllHave(count, b2, GetNode, (n: Node) => ValidUtf8(n.host));
    NothingBehind(PutAll(r.nodes, PutNode));
  }

  lemma LeadershipForm(decode: FieldsDecoder, b: bytes, r: Response)
    requires decode == DecodeLeadershipChanged && decode(b) == Success(r)
    ensures r.LeadershipChanged?
    ensures var l := r.leadership; b == U32(l.partition) + (U32(l.leader) + (U64(l.epoch) + U64(l.highWatermark)))
  {
    GotWord(b);
    var b1 := GetU32(b).value.1;
    GotWord(b1);
    var b2 := GetU32(b1).value.1;
    GotLong(b2);
    LastLong(GetU64(b2).value.1);
  }

  // ---------------------------------------------------------------- all responses

  lemma {:induction false} TopicsPass(topics: seq<TopicMetadata>)
    requires forall t :: t in topics ==> SizedTopic(t) && |t.topic| < 0x1_0000
    ensures CheckTopics(topics).Success?
  {
    if topics != [] {
      TopicsPass(topics[1..]);
    }
  }

  lemma {:induction false} FetchedPass(records: seq<Fetched>)
    requires forall f :: f in records ==> SizedFetched(f)
    ensures CheckFetched(records).Success?
  {
    if records != [] {
      assert SizedFetched(records[0]);
      FetchedPass(records[1..]);
    }
  }

  lemma OpcodeForm(frame: bytes, r: Response) returns (opcode: u8, b: bytes)
    requires DecodeResponse(frame) == Success(r)
    ensures frame == U8(opcode) + b && DecoderOf(opcode)(b) == Success(r)
  {
    ByteIsPut(frame);
    opcode, b := GetU8(frame).value.0, GetU8(frame).value.1;
  }

  /**
   Whatever decodes is a response of valid text with a proper number of acknowledgements, and its frame is exactly its
   encoding: any frame within the limit, but an absent offset may come with a number.
   */
  lemma DecodesOnlyResponses(frame: bytes, r: Response)
    requires |frame| <= MAX_FRAME_SIZE && DecodeResponse(frame) == Success(r)
    ensures WellFormed(r) && Acceptable(r)
    ensures r != CommittedOffset(None) ==> EncodeResponse(r) == Success(frame)
    ensures r == CommittedOffset(None) ==> |frame| == 10 && frame[..2] == [COMMITTED_OFFSET_RESPONSE, 0]
  {
    var opcode, b := OpcodeForm(frame, r);
    if opcode in {FETCH_RESPONSE, TOPICS_RESPONSE, CLUSTER_METADATA_RESPONSE} {
      ListsOf(opcode, b, r);
    } else if opcode in {PRODUCE_BATCH_ACK, JOIN_GROUP_RESPONSE, LEADERSHIP_CHANGED} {
      NumbersOf(opcode, b, r);
    } else {
      SmallOf(opcode, b, r);
    }
  }

  lemma ListsOf(opcode: u8, b: bytes, r: Response)
    requires opcode in {FETCH_RESPONSE, TOPICS_RESPONSE, CLUSTER_METADATA_RESPONSE}
    requires |b| < MAX_FRAME_SIZE && DecoderOf(opcode)(b) == Success(r)
    ensures WellFormed(r) && Acceptable(r) && !r.CommittedOffset? && EncodeResponse(r) == Success(U8(opcode) + b)
  {
    var decode := DecoderOf(opcode);
    if opcode == FETCH_RESPONSE {
      FetchForm(decode, b, r);
      FetchedPass(r.records);
    } else if opcode == TOPICS_RESPONSE {
      TopicsForm(decode, b, r);
      TopicsPass(r.topics);
    } else {
      NodesForm(decode, b, r);
    }
  }

  lemma NumbersOf(opcode: u8, b: bytes, r: Response)
    requires opcode in {PRODUCE_BATCH_ACK, JOIN_GROUP_RESPONSE, LEADERSHIP_CHANGED}
    requires DecoderOf(opcode)(b) == Success(r)
    ensures WellFormed(r) && Acceptable(r) && !r.CommittedOffset? && EncodeResponse(r) == Success(U8(opcode) + b)
  {
    var decode := DecoderOf(opcode);
    if opcode == PRODUCE_BATCH_ACK {
      BatchAckForm(decode, b, r);
    } else if opcode == JOIN_GROUP_RESPONSE {
      JoinForm(decode, b, r);
    } else {
      LeadershipForm(decode, b, r);
    }
  }

  lemma SmallOf(opcode: u8, b: bytes, r: Response)
    requires opcode !in {FETCH_RESPONSE, TOPICS_RESPONSE, CLUSTER_METADATA_RESPONSE, PRODUCE_BATCH_ACK, JOIN_GROUP_RESPONSE,
                         LEADERSHIP_CHANGED}
    requires DecoderOf(opcode)(b) == Success(r)
    ensures WellFormed(r) && Acceptable(r)
    ensures r != CommittedOffset(None) ==> EncodeResponse(r) == Success(U8(opcode) + b)
    ensures r == CommittedOffset(None) ==> |b| == 9 && opcode == COMMITTED_OFFSET_RESPONSE && b[0] == 0
  {
    if opcode == PRODUCE_ACK {
      AckForm(b);
      NothingBehind(PutAck(r.ack));
    } else if opcode == COMMITTED_OFFSET_RESPONSE {
      var unused := CommittedForm(DecoderOf(opcode), b, r);
    } else if opcode == PARTITION_STATUS_RESPONSE {
      LastLong(b);
    } else if opcode == ERROR_RESPONSE {
      StringBackwards(b);
      NothingBehind(Str(r.message));
    }
  }
}
