/** Retrying failed messages: envelopes that carry the original, and where a failure is published. */
module Retry {
  import opened Wrappers
  import opened Bytes
  import opened Utf8
  import opened RecordCodec
  import opened Frames
  import opened Fields
  import opened Requests
  import opened Responses
  import opened LeadershipText

  const MAGIC: bytes := [0x53, 0x56, 0x52, 0x31]
  const MAX_ERROR_BYTES := 4 * 1024
  const HEADER_SIZE := 48

  datatype RetryError =
    | InvalidRetryEnvelope
    | RetryEnvelopeTooLarge
    | AttemptOverflow
    | NotStored
    | Rejected(cause: ProtocolError)

  /** A message under retry: where it came from, how often it failed, and what it is. */
  datatype Context = Context(topic: bytes, partition: u32, offset: u64, timestamp: u64, attempt: u32, availableAt: u64,
                             key: bytes, payload: bytes)

  // ---------------------------------------------------------------- envelopes

  function Reported(error: bytes): (e: bytes)
    ensures |e| <= MAX_ERROR_BYTES
  {
    if |error| > MAX_ERROR_BYTES then error[..MAX_ERROR_BYTES] else error
  }

  function EnvelopeSize(c: Context, error: bytes): nat {
    HEADER_SIZE + |c.topic| + |Reported(error)| + |c.key| + |c.payload|
  }

  /** The lengths fit their fields. */
  predicate Measurable(c: Context) {
    |c.topic| < 0x1_0000 && |c.key| < 0x1_0000_0000 && |c.payload| < 0x1_0000_0000
  }

  predicate Encodable(c: Context, error: bytes) {
    Measurable(c) && EnvelopeSize(c, error) <= MAX_MESSAGE_SIZE
  }

  function Lengths(c: Context, error: bytes, rest: bytes): (b: bytes)
    requires Measurable(c)
    ensures |b| == 12 + |rest|
  {
    U16(|c.topic|) + (U16(|Reported(error)|) + (U32(|c.key|) + (U32(|c.payload|) + rest)))
  }

  function Content(c: Context, error: bytes): bytes {
    c.topic + (Reported(error) + (c.key + c.payload))
  }

  function Envelope(c: Context, attempt: u32, availableAt: u64, error: bytes): (b: bytes)
    requires Measurable(c)
    ensures |b| == EnvelopeSize(c, error)
  {
    MAGIC + (U32(attempt) + (U64(availableAt) + (U32(c.partition) + (U64(c.offset) + (U64(c.timestamp)
    + Lengths(c, error, Content(c, error)))))))
  }

  method PutField(buffer: Buffer, field: bytes, ghost rest: bytes)
    modifies buffer
    ensures buffer.data + rest == old(buffer.data) + (field + rest)
  {
    buffer.Put(field);
  }

  /** The fixed fields of an envelope. */
  method PutOrigin(buffer: Buffer, c: Context, attempt: u32, availableAt: u64, ghost rest: bytes)
    modifies buffer
    ensures buffer.data + rest
            == old(buffer.data) + (U32(attempt) + (U64(availableAt) + (U32(c.partition) + (U64(c.offset) + (U64(c.timestamp) + rest)))))
  {
    PutField(buffer, U32(attempt), U64(availableAt) + (U32(c.partition) + (U64(c.offset) + (U64(c.timestamp) + rest))));
    PutField(buffer, U64(availableAt), U32(c.partition) + (U64(c.offset) + (U64(c.timestamp) + rest)));
    PutField(buffer, U32(c.partition), U64(c.offset) + (U64(c.timestamp) + rest));
    PutField(buffer, U64(c.offset), U64(c.timestamp) + rest);
    PutField(buffer, U64(c.timestamp), rest);
  }

  /** The lengths and what they measure. */
  method PutContent(buffer: Buffer, c: Context, error: bytes)
    requires Measurable(c)
    modifies buffer
    ensures buffer.data == old(buffer.data) + Lengths(c, error, Content(c, error))
  {
    var reported := Reported(error);
    ghost var content := Content(c, error);
    PutField(buffer, U16(|c.topic|), U16(|reported|) + (U32(|c.key|) + (U32(|c.payload|) + content)));
    PutField(buffer, U16(|reported|), U32(|c.key|) + (U32(|c.payload|) + content));
    PutField(buffer, U32(|c.key|), U32(|c.payload|) + content);
    PutField(buffer, U32(|c.payload|), content);
    PutField(buffer, c.topic, reported + (c.key + c.payload));
    PutField(buffer, reported, c.key + c.payload);
    PutField(buffer, c.key, c.payload);
    buffer.Put(c.payload);
  }

  /** Fill a buffer with the envelope, field by field. */
  method EncodeEnvelope(c: Context, attempt: u32, availableAt: u64, error: bytes) returns (r: Result<bytes, RetryError>)
    ensures r == if Encodable(c, error) then Success(Envelope(c, attempt, availableAt, error))
                 else Failure(RetryEnvelopeTooLarge)
  {
    if !Measurable(c) {
      return Failure(RetryEnvelopeTooLarge);
    }
    var buffer := new Buffer();
    buffer.Put(MAGIC);
    PutOrigin(buffer, c, attempt, availableAt, Lengths(c, error, Content(c, error)));
    PutContent(buffer, c, error);
    assert buffer.data == Envelope(c, attempt, availableAt, error);
    if |buffer.data| > MAX_MESSAGE_SIZE {
      return Failure(RetryEnvelopeTooLarge);
    }
    return Success(buffer.data);
  }

  datatype Sizes = Sizes(topic: nat, error: nat, key: nat, payload: nat)

  function GetSizes(b: bytes): (r: Parsed<Sizes>)
    ensures r.Success? ==> |r.value.1| < |b|
  {
    var (topic, b1) :- GetU16(b);
    var (error, b2) :- GetU16(b1);
    var (key, b3) :- GetU32(b2);
    var (payload, b4) :- GetU32(b3);
    Success((Sizes(topic, error, key, payload), b4))
  }

  /** Topic, key and payload behind the header; the error text in between is skipped. */
  function GetContent(n: Sizes, b: bytes): (r: Parsed<(bytes, bytes, bytes)>)
    ensures r.Success? ==> |r.value.0.2| <= |b|
  {
    if |b| != n.topic + n.error + n.key + n.payload then Failure(InvalidFrame)
    else
      var (topic, b1) :- GetBytes(b, n.topic);
      var (_, b2) :- GetBytes(b1, n.error);
      var (key, b3) :- GetBytes(b2, n.key);
      var (payload, b4) :- GetBytes(b3, n.payload);
      if !ValidUtf8(topic) then Failure(InvalidFrame) else Success(((topic, key, payload), b4))
  }

  function GetContext(value: bytes): Parsed<Context> {
    var (_, b0) :- GetBytes(value, |MAGIC|);
    var (attempt, b1) :- GetU32(b0);
    var (availableAt, b2) :- GetU64(b1);
    var (partition, b3) :- GetU32(b2);
    var (offset, b4) :- GetU64(b3);
    var (timestamp, b5) :- GetU64(b4);
    var (sizes, b6) :- GetSizes(b5);
    var ((topic, key, payload), b7) :- GetContent(sizes, b6);
    Success((Context(topic, partition, offset, timestamp, attempt, availableAt, key, payload), b7))
  }

  function DecodeEnvelope(value: bytes): Result<Context, RetryError> {
    match GetContext(value)
    case Success((c, _)) => Success(c)
    case Failure(_) => Failure(InvalidRetryEnvelope)
  }

  /** The message as its first consumer sees it. */
  function Original(topic: bytes, partition: u32, record: Fetched): Context {
    Context(topic, partition, record.offset, record.timestamp, 0, 0, record.key.UnwrapOr([]), record.value)
  }

  /** The message behind a consumed record: the one in the envelope, or the record itself. */
  function ContextOf(topic: bytes, partition: u32, record: Fetched): Result<Context, RetryError> {
    if MAGIC <= record.value then DecodeEnvelope(record.value) else Success(Original(topic, partition, record))
  }

  lemma SizesReadBack(c: Context, error: bytes, rest: bytes)
    requires Encodable(c, error)
    ensures GetSizes(Lengths(c, error, rest)) == Success((Sizes(|c.topic|, |Reported(error)|, |c.key|, |c.payload|), rest))
  {
    FieldsReadBack();
  }

  lemma ContentReadBack(c: Context, error: bytes)
    requires ValidUtf8(c.topic)
    ensures GetContent(Sizes(|c.topic|, |Reported(error)|, |c.key|, |c.payload|), Content(c, error))
            == Success(((c.topic, c.key, c.payload), []))
  {
    FieldsReadBack();
  }

  /** What is reported of an error is its front of up to 4,096 bytes. */
  lemma ReportedIsFront(error: bytes)
    ensures Reported(error) <= error
    ensures |Reported(error)| == |error| || (|Reported(error)| == 4096 && |error| > 4096)
  {
  }

  /** The layout of an envelope: the magic, a header of fixed fields, and then topic, reported error, key and payload. */
  lemma EnvelopeLayout(c: Context, attempt: u32, availableAt: u64, error: bytes)
    requires Encodable(c, error)
    ensures var b := Envelope(c, attempt, availableAt, error);
            && |b| == 48 + |c.topic| + |Reported(error)| + |c.key| + |c.payload|
            && b[..4] == [0x53, 0x56, 0x52, 0x31]
            && HeaderLayout(b[4..48], c, attempt, availableAt, |Reported(error)|)
            && ContentLayout(b[48..], c, Reported(error))
  {
    var b, header := Envelope(c, attempt, availableAt, error), Header(c, attempt, availableAt, |Reported(error)|);
    EnvelopeParts(c, attempt, availableAt, error);
    MagicAndHeader(b, header, Content(c, error));
    HeaderFields(header, c, attempt, availableAt, |Reported(error)|);
    ContentParts(c, Reported(error), Content(c, error));
  }

  lemma MagicAndHeader(b: bytes, header: bytes, content: bytes)
    requires |header| == 44 && b == MAGIC + (header + content)
    ensures b[..4] == MAGIC && b[4..48] == header && b[48..] == content
  {
  }

  function Header(c: Context, attempt: u32, availableAt: u64, errorLength: u16): (b: bytes)
    requires Measurable(c)
    ensures |b| == 44
  {
    U32(attempt) + U64(availableAt) + U32(c.partition) + U64(c.offset) + U64(c.timestamp)
    + (U16(|c.topic|) + U16(errorLength) + U32(|c.key|) + U32(|c.payload|))
  }

  lemma EnvelopeParts(c: Context, attempt: u32, availableAt: u64, error: bytes)
    requires Encodable(c, error)
    ensures Envelope(c, attempt, availableAt, error)
            == MAGIC + (Header(c, attempt, availableAt, |Reported(error)|) + Content(c, error))
  {
    var content := Content(c, error);
    Assoc4(U16(|c.topic|), U16(|Reported(error)|), U32(|c.key|), U32(|c.payload|), content);
    Assoc6(U32(attempt), U64(availableAt), U32(c.partition), U64(c.offset), U64(c.timestamp),
           U16(|c.topic|) + U16(|Reported(error)|) + U32(|c.key|) + U32(|c.payload|), content);
  }

  lemma Assoc4(a: bytes, b: bytes, c: bytes, d: bytes, rest: bytes)
    ensures a + (b + (c + (d + rest))) == (a + b + c + d) + rest
  {
  }

  lemma Assoc6(a: bytes, b: bytes, c: bytes, d: bytes, e: bytes, f: bytes, rest: bytes)
    ensures a + (b + (c + (d + (e + (f + rest))))) == (a + b + c + d + e + f) + rest
  {
  }

  /** Topic, reported error, key and payload, one behind the other. */
  ghost predicate ContentLayout(b: bytes, c: Context, reported: bytes) {
    var t, e, k := |c.topic|, |c.topic| + |reported|, |c.topic| + |reported| + |c.key|;
    |b| == k + |c.payload| && b[..t] == c.topic && b[t..e] == reported && b[e..k] == c.key && b[k..] == c.payload
  }

  lemma ContentParts(c: Context, reported: bytes, b: bytes)
    requires b == c.topic + (reported + (c.key + c.payload))
    ensures ContentLayout(b, c, reported)
  {
  }

  lemma HeaderFields(h: bytes, c: Context, attempt: u32, availableAt: u64, errorLength: u16)
    requires Measurable(c) && h == Header(c, attempt, availableAt, errorLength)
    ensures HeaderLayout(h, c, attempt, availableAt, errorLength)
  {
    var origin := U32(attempt) + U64(availableAt) + U32(c.partition) + U64(c.offset) + U64(c.timestamp);
    var lengths := U16(|c.topic|) + U16(errorLength) + U32(|c.key|) + U32(|c.payload|);
    assert h == origin + lengths && h[..32] == origin && h[32..] == lengths;
    OriginFields(origin, attempt, availableAt, c.partition, c.offset, c.timestamp);
    LengthFields(lengths, |c.topic|, errorLength, |c.key|, |c.payload|);
  }

  lemma OriginFields(h: bytes, attempt: u32, availableAt: u64, partition: u32, offset: u64, timestamp: u64)
    requires h == U32(attempt) + U64(availableAt) + U32(partition) + U64(offset) + U64(timestamp)
    ensures Get(h[..4]) == attempt && Get(h[4..12]) == availableAt && Get(h[12..16]) == partition
    ensures Get(h[16..24]) == offset && Get(h[24..]) == timestamp
  {
    GetOfPut();
    assert h[..4] == U32(attempt) && h[4..12] == U64(availableAt) && h[12..16] == U32(partition);
    assert h[16..24] == U64(offset) && h[24..] == U64(timestamp);
  }

  lemma LengthFields(h: bytes, topic: u16, error: u16, key: u32, payload: u32)
    requires h == U16(topic) + U16(error) + U32(key) + U32(payload)
    ensures Get(h[..2]) == topic && Get(h[2..4]) == error && Get(h[4..8]) == key && Get(h[8..]) == payload
  {
    GetOfPut();
    assert h[..2] == U16(topic) && h[2..4] == U16(error) && h[4..8] == U32(key) && h[8..] == U32(payload);
  }

  /** The fixed fields of an envelope, at their places. */
  ghost predicate HeaderLayout(h: bytes, c: Context, attempt: u32, availableAt: u64, errorLength: nat) {
    && |h| == 44
    && (var origin := h[..32];
        && Get(origin[..4]) == attempt && Get(origin[4..12]) == availableAt && Get(origin[12..16]) == c.partition
        && Get(origin[16..24]) == c.offset && Get(origin[24..]) == c.timestamp)
    && (var lengths := h[32..];
        && Get(lengths[..2]) == |c.topic| && Get(lengths[2..4]) == errorLength && Get(lengths[4..8]) == |c.key|
        && Get(lengths[8..]) == |c.payload|)
  }

  /** An envelope gives back the message, with the attempt and the time it was sealed with. */
  lemma EnvelopeRoundTrip(c: Context, attempt: u32, availableAt: u64, error: bytes, decode: bytes -> Parsed<Context>)
    requires Encodable(c, error) && ValidUtf8(c.topic) && decode == GetContext
    ensures decode(Envelope(c, attempt, availableAt, error))
            == Success((c.(attempt := attempt, availableAt := availableAt), []))
  {
    SizesReadBack(c, error, Content(c, error));
    ContentReadBack(c, error);
    FieldsReadBack();
  }

  lemma SealedContext(c: Context, attempt: u32, availableAt: u64, error: bytes, topic: bytes, partition: u32,
                      record: Fetched)
    requires Encodable(c, error) && ValidUtf8(c.topic) && record.value == Envelope(c, attempt, availableAt, error)
    ensures ContextOf(topic, partition, record) == Success(c.(attempt := attempt, availableAt := availableAt))
  {
    EnvelopeRoundTrip(c, attempt, availableAt, error, GetContext);
    assert MAGIC <= record.value;
  }

  lemma SizesForm(b: bytes)
    requires GetSizes(b).Success?
    ensures var (n, rest) := GetSizes(b).value;
            && n.topic < 0x1_0000 && n.error < 0x1_0000 && n.key < 0x1_0000_0000 && n.payload < 0x1_0000_0000
            && b == U16(n.topic) + (U16(n.error) + (U32(n.key) + (U32(n.payload) + rest)))
  {
    ShortIsPut(b);
    var b1 := GetU16(b).value.1;
    ShortIsPut(b1);
    var b2 := GetU16(b1).value.1;
    GotWord(b2);
    GotWord(GetU32(b2).value.1);
  }

  lemma ContentForm(n: Sizes, b: bytes) returns (error: bytes)
    requires GetContent(n, b).Success?
    ensures var ((topic, key, payload), rest) := GetContent(n, b).value;
            && rest == [] && ValidUtf8(topic) && |error| == n.error
            && |topic| == n.topic && |key| == n.key && |payload| == n.payload
            && b == topic + (error + (key + payload))
  {
    error := GetBytes(GetBytes(b, n.topic).value.1, n.error).value.0;
    var payload := GetContent(n, b).value.0.2;
    NothingBehind(payload);
  }

  /**
   Whatever opens as an envelope has its layout: the magic, the header of the message it opens to with the lengths of all four
   parts, and the parts themselves, with no byte more.
   */
  lemma OpensOnlyEnvelopes(value: bytes, c: Context) returns (error: bytes)
    requires MAGIC <= value && DecodeEnvelope(value) == Success(c)
    ensures Measurable(c) && ValidUtf8(c.topic) && |error| < 0x1_0000
    ensures value == MAGIC + (Header(c, c.attempt, c.availableAt, |error|) + (c.topic + (error + (c.key + c.payload))))
  {
    var b0 := GetBytes(value, 4).value.1;
    var b5 := OriginForm(b0);
    SizesForm(b5);
    var (n, b6) := GetSizes(b5).value;
    error := ContentForm(n, b6);
    Assoc4(U16(n.topic), U16(n.error), U32(n.key), U32(n.payload), b6);
    Assoc6(U32(c.attempt), U64(c.availableAt), U32(c.partition), U64(c.offset), U64(c.timestamp),
           U16(n.topic) + U16(n.error) + U32(n.key) + U32(n.payload), b6);
  }

  /** The fixed fields in front of the lengths. */
  lemma OriginForm(b: bytes) returns (rest: bytes)
    requires GetU32(b).Success? && GetU64(GetU32(b).value.1).Success?
    requires GetU32(GetU64(GetU32(b).value.1).value.1).Success?
    requires var b3 := GetU32(GetU64(GetU32(b).value.1).value.1).value.1;
             GetU64(b3).Success? && GetU64(GetU64(b3).value.1).Success?
    ensures var b1 := GetU32(b).value.1;
            var b2 := GetU64(b1).value.1;
            var b3 := GetU32(b2).value.1;
            var b4 := GetU64(b3).value.1;
            && rest == GetU64(b4).value.1
            && b == U32(GetU32(b).value.0) + (U64(GetU64(b1).value.0) + (U32(GetU32(b2).value.0) + (U64(GetU64(b3).value.0)
                    + (U64(GetU64(b4).value.0) + rest))))
  {
    GotWord(b);
    var b1 := GetU32(b).value.1;
    GotLong(b1);
    var b2 := GetU64(b1).value.1;
    GotWord(b2);
    var b3 := GetU32(b2).value.1;
    GotLong(b3);
    var b4 := GetU64(b3).value.1;
    GotLong(b4);
    rest := GetU64(b4).value.1;
  }

  /** A record that is taken for itself is a message not yet retried: its place, its key, if it has one, and its value. */
  lemma TakenForItself(topic: bytes, partition: u32, record: Fetched)
    requires !(MAGIC <= record.value)
    ensures ContextOf(topic, partition, record).Success?
    ensures var c := ContextOf(topic, partition, record).value;
            && c.topic == topic && c.partition == partition && c.offset == record.offset && c.timestamp == record.timestamp
            && c.attempt == 0 && c.availableAt == 0 && c.payload == record.value
            && c.key == if record.key.Some? then record.key.value else []
  {
  }

  /** A record is taken for itself exactly when its value does not start with the magic. */
  lemma OriginalIffNoMagic(topic: bytes, partition: u32, record: Fetched)
    ensures ContextOf(topic, partition, record) == Success(Original(topic, partition, record)) <==> !(MAGIC <= record.value)
  {
    if MAGIC <= record.value && GetContext(record.value).Success? {
      PayloadIsShorter(record.value);
    }
  }

  lemma PayloadIsShorter(value: bytes)
    requires GetContext(value).Success?
    ensures |GetContext(value).value.0.payload| < |value|
  {
  }

  // ---------------------------------------------------------------- topics

  function Code(c: char): byte
    requires c as int < 128
  {
    c as int
  }

  function Ascii(s: string): (b: bytes)
    requires forall c :: c in s ==> c as int < 128
    ensures |b| == |s|
  {
    seq(|s|, i requires 0 <= i < |s| => assert s[i] in s; Code(s[i]))
  }

  /** Whole seconds as seconds, everything else in milliseconds. */
  function FormatDelay(delay: u64): (s: string)
    ensures forall c :: c in s ==> c as int < 128
  {
    if delay % 1000 == 0 then Decimal(delay / 1000) + "s" else Decimal(delay) + "ms"
  }

  function RetryTopic(topic: bytes, delay: u64): bytes {
    topic + Ascii(".retry.") + Ascii(FormatDelay(delay))
  }

  function DeadLetterTopic(topic: bytes): bytes {
    topic + Ascii(".DLQ")
  }

  lemma DecimalIsInjective(a: nat, b: nat)
    requires Decimal(a) == Decimal(b)
    ensures a == b
  {
    DigitsOfDecimal(a);
    DigitsOfDecimal(b);
  }

  /** A delay of whole seconds is written as their number and "s", any other one as its milliseconds and "ms". */
  lemma FormatDelayText(delay: u64)
    ensures var s := FormatDelay(delay);
            if delay - delay / 1000 * 1000 == 0
            then |s| > 1 && s[|s| - 1] == 's' && (forall c :: c in s[..|s| - 1] ==> IsDigit(c))
                 && DigitsValue(s[..|s| - 1]) * 1000 == delay
            else |s| > 2 && s[|s| - 2] == 'm' && s[|s| - 1] == 's' && (forall c :: c in s[..|s| - 2] ==> IsDigit(c))
                 && DigitsValue(s[..|s| - 2]) == delay
  {
    var s, n := FormatDelay(delay), if delay % 1000 == 0 then delay / 1000 else delay;
    DigitsOfDecimal(n);
    assert s[..|Decimal(n)|] == Decimal(n);
  }

  /** The names of the retry and dead-letter topics, byte by byte. */
  lemma TopicNames(topic: bytes, delay: u64)
    ensures var name := RetryTopic(topic, delay);
            && |name| == |topic| + 7 + |FormatDelay(delay)| && topic <= name
            && name[|topic|..|topic| + 7] == [0x2E, 0x72, 0x65, 0x74, 0x72, 0x79, 0x2E]
            && forall i :: 0 <= i < |FormatDelay(delay)| ==> name[|topic| + 7 + i] == FormatDelay(delay)[i] as int
    ensures DeadLetterTopic(topic) == topic + [0x2E, 0x44, 0x4C, 0x51]
  {
    var name := RetryTopic(topic, delay);
    assert name[|topic|..|topic| + 7] == Ascii(".retry.");
    assert Ascii(".retry.") == [0x2E, 0x72, 0x65, 0x74, 0x72, 0x79, 0x2E];
    assert Ascii(".DLQ") == [0x2E, 0x44, 0x4C, 0x51];
  }

  lemma FormatDelayIsInjective(a: u64, b: u64)
    requires FormatDelay(a) == FormatDelay(b)
    ensures a == b
  {
    var s, t := FormatDelay(a), FormatDelay(b);
    var x, y := Decimal(if a % 1000 == 0 then a / 1000 else a), Decimal(if b % 1000 == 0 then b / 1000 else b);
    assert x[|x| - 1] in x && y[|y| - 1] in y;
    assert s[|s| - 1] == t[|t| - 1] == 's';
    assert s[|s| - 2] == if a % 1000 == 0 then x[|x| - 1] else 'm';
    assert t[|t| - 2] == if b % 1000 == 0 then y[|y| - 1] else 'm';
    assert a % 1000 == 0 <==> b % 1000 == 0;
    assert s[..|x|] == x && t[..|y|] == y;
    if a % 1000 == 0 {
      DecimalIsInjective(a / 1000, b / 1000);
    } else {
      DecimalIsInjective(a, b);
    }
  }

  lemma {:induction false} AsciiIsInjective(s: string, t: string)
    requires (forall c :: c in s ==> c as int < 128) && (forall c :: c in t ==> c as int < 128)
    requires Ascii(s) == Ascii(t)
    ensures s == t
  {
    forall i | 0 <= i < |s|
      ensures s[i] == t[i]
    {
      assert Ascii(s)[i] == Ascii(t)[i];
    }
  }

  /** Different delays have different retry topics, and none of them is the dead-letter topic. */
  lemma TopicsAreDistinct(topic: bytes, a: u64, b: u64)
    ensures RetryTopic(topic, a) == RetryTopic(topic, b) <==> a == b
    ensures RetryTopic(topic, a) != DeadLetterTopic(topic)
  {
    var n := |topic| + 7;
    if RetryTopic(topic, a) == RetryTopic(topic, b) {
      assert RetryTopic(topic, a)[n..] == Ascii(FormatDelay(a)) && RetryTopic(topic, b)[n..] == Ascii(FormatDelay(b));
      AsciiIsInjective(FormatDelay(a), FormatDelay(b));
      FormatDelayIsInjective(a, b);
    }
    assert RetryTopic(topic, a)[|topic| + 1] == 'r' as int;
    assert DeadLetterTopic(topic)[|topic| + 1] == 'D' as int;
  }

  // ---------------------------------------------------------------- publishing a failure

  datatype Destination = Destination(topic: bytes, attempt: u32, availableAt: u64)

  /** `delay` after `now`, as far as time goes. */
  function After(now: u64, delay: u64): u64 {
    if now + delay > Bytes.U64_MAX then Bytes.U64_MAX else now + delay
  }

  /** The next retry topic while there is one, then the dead-letter topic. */
  function Route(c: Context, delays: seq<u64>, now: u64): Result<Destination, RetryError> {
    if c.attempt < |delays| then
      if c.attempt == U32_MAX then Failure(AttemptOverflow)
      else
        Success(Destination(RetryTopic(c.topic, delays[c.attempt]), c.attempt + 1, After(now, delays[c.attempt])))
    else Success(Destination(DeadLetterTopic(c.topic), c.attempt, now))
  }

  /**
   Where a failure goes: with a delay left, to the retry topic of that delay, counted, and available when the delay has
   passed, which saturates at the end of time; otherwise to the dead-letter topic, as it is and at once. The attempt counter
   overflowing is the only failure.
   */
  lemma RoutesTo(c: Context, delays: seq<u64>, now: u64)
    ensures Route(c, delays, now).Failure? <==> c.attempt < |delays| && c.attempt == 0xFFFF_FFFF
    ensures Route(c, delays, now).Success? ==>
              var to := Route(c, delays, now).value;
              if c.attempt < |delays| then
                && to.topic == RetryTopic(c.topic, delays[c.attempt]) && to.attempt == c.attempt + 1
                && (if now + delays[c.attempt] < 0x1_0000_0000_0000_0000 then to.availableAt == now + delays[c.attempt]
                    else to.availableAt == 0xFFFF_FFFF_FFFF_FFFF)
              else to == Destination(DeadLetterTopic(c.topic), c.attempt, now)
  {
  }

  function HexDigit(d: nat): (c: char)
    requires d < 16
  {
    "0123456789abcdef"[d]
  }

  function Hex(n: nat, width: nat): (s: string)
    ensures forall c :: c in s ==> c in "0123456789abcdef"
  {
    if width == 0 then "" else Hex(n / 16, width - 1) + [HexDigit(n % 16)]
  }

  function ProducerName(crc: u32, attempt: u32): (s: string)
    ensures forall c :: c in s ==> IsDigit(c) || 'a' <= c <= 'z' || c == '-'
  {
    "retry-" + Hex(crc, 8) + "-" + Decimal(attempt)
  }

  /** The producer of a retried message: one per group, message, attempt and destination. */
  function ProducerIdOf(crc: Checksum, group: bytes, c: Context, attempt: u32, destination: bytes): bytes {
    Ascii(ProducerName(crc(group + c.topic + U32(c.partition) + U64(c.offset) + U32(attempt) + destination), attempt))
  }

  /** A produce request for the envelope. */
  datatype Publication = Publication(to: Destination, key: bytes, value: bytes, producer: Producer)

  function PublishFailure(crc: Checksum, group: bytes, c: Context, error: bytes, delays: seq<u64>, now: u64)
    : Result<Publication, RetryError>
  {
    var to :- Route(c, delays, now);
    if !Encodable(c, error) then Failure(RetryEnvelopeTooLarge)
    else
      var value := Envelope(c, to.attempt, to.availableAt, error);
      var producer := Producer(ProducerIdOf(crc, group, c, to.attempt, to.topic), 0);
      var key := if c.key == [] then producer.id else c.key;
      match CheckProduce(to.topic, key, value, Some(producer))
      case Failure(cause) => Failure(Rejected(cause))
      case Success(_) => Success(Publication(to, key, value, producer))
  }

  lemma {:induction false} DecimalIsShort(n: nat, digits: nat, limit: nat)
    requires n < limit && digits > 0 && limit <= 10 * PowerOfTen(digits - 1)
    ensures |Decimal(n)| <= digits
    decreases digits
  {
    if n >= 10 {
      DecimalIsShort(n / 10, digits - 1, PowerOfTen(digits - 1));
    }
  }

  function PowerOfTen(k: nat): nat {
    if k == 0 then 1 else 10 * PowerOfTen(k - 1)
  }

  lemma {:induction false} HexLength(n: nat, width: nat)
    ensures |Hex(n, width)| == width
  {
    if width > 0 {
      HexLength(n / 16, width - 1);
    }
  }

  /** The generated producer id is always a valid one. */
  lemma ProducerIdIsValid(crc: Checksum, group: bytes, c: Context, attempt: u32, destination: bytes)
    ensures ValidProducerId(ProducerIdOf(crc, group, c, attempt, destination))
  {
    var n := crc(group + c.topic + U32(c.partition) + U64(c.offset) + U32(attempt) + destination);
    HexLength(n, 8);
    assert PowerOfTen(9) == 1_000_000_000 by {
      assert PowerOfTen(3) == 1000;
      assert PowerOfTen(6) == 1_000_000;
    }
    DecimalIsShort(attempt, 10, 0x1_0000_0000);
    var name := ProducerName(n, attempt);
    forall b | b in Ascii(name)
      ensures 0x30 <= b <= 0x39 || 0x61 <= b <= 0x7A || b == 0x2D
    {
      var i :| 0 <= i < |name| && Ascii(name)[i] == b;
      assert name[i] in name;
    }
  }

  /** What the broker must accept: the destination's name and the routing key. */
  predicate Producible(c: Context, to: Destination) {
    ValidateTopic(to.topic).Success? && |c.key| <= MAX_KEY_SIZE
  }

  /** A failure is published exactly when its envelope fits and the broker accepts topic and key. */
  lemma PublishesIff(crc: Checksum, group: bytes, c: Context, error: bytes, delays: seq<u64>, now: u64)
    ensures PublishFailure(crc, group, c, error, delays, now).Success?
            <==> Route(c, delays, now).Success? && Encodable(c, error) && Producible(c, Route(c, delays, now).value)
  {
    if Route(c, delays, now).Success? {
      var to := Route(c, delays, now).value;
      ProducerIdIsValid(crc, group, c, to.attempt, to.topic);
    }
  }

  lemma HexDigitIsInjective(a: nat, b: nat, c: char)
    requires a < 16 && b < 16 && HexDigit(a) == c && HexDigit(b) == c
    ensures a == b
  {
  }

  lemma {:induction false} HexIsInjective(a: nat, b: nat, width: nat)
    requires Hex(a, width) == Hex(b, width) && a < Power16(width) && b < Power16(width)
    ensures a == b
  {
    if width > 0 {
      var x, y := Hex(a, width), Hex(b, width);
      HexLength(a / 16, width - 1);
      HexLength(b / 16, width - 1);
      assert x[..width - 1] == Hex(a / 16, width - 1) && y[..width - 1] == Hex(b / 16, width - 1);
      HexDigitIsInjective(a % 16, b % 16, x[width - 1]);
      HexIsInjective(a / 16, b / 16, width - 1);
    }
  }

  function Power16(k: nat): nat {
    if k == 0 then 1 else 16 * Power16(k - 1)
  }

  function HexValue(s: string): nat {
    if s == "" then 0
    else 16 * HexValue(s[..|s| - 1]) + (var c := s[|s| - 1]; if IsDigit(c) then c as int - 48 else if c >= 'a' then c as int - 87 else 0)
  }

  lemma {:induction false} HexIsValue(n: nat, width: nat)
    requires n < Power16(width)
    ensures |Hex(n, width)| == width && HexValue(Hex(n, width)) == n
  {
    if width > 0 {
      HexIsValue(n / 16, width - 1);
      assert Hex(n, width)[..width - 1] == Hex(n / 16, width - 1);
      HexDigitValue(n % 16);
    }
  }

  lemma HexDigitValue(d: nat)
    requires d < 16
    ensures var c := HexDigit(d); (if IsDigit(c) then c as int - 48 else if c >= 'a' then c as int - 87 else 0) == d
  {
  }

  /** The generated name: "retry-", the checksum as eight hexadecimal digits, a hyphen, and the attempt as a decimal number. */
  lemma NameText(crc: u32, attempt: u32)
    ensures var s := ProducerName(crc, attempt);
            && |s| > 15 && s[..6] == "retry-" && s[14] == '-'
            && HexValue(s[6..14]) == crc
            && (forall c :: c in s[15..] ==> IsDigit(c)) && DigitsValue(s[15..]) == attempt
  {
    var s := ProducerName(crc, attempt);
    assert Power16(8) == 0x1_0000_0000 by {
      assert Power16(4) == 0x1_0000;
      assert Power16(6) == 0x100_0000;
    }
    HexIsValue(crc, 8);
    DigitsOfDecimal(attempt);
    assert s[6..14] == Hex(crc, 8) && s[15..] == Decimal(attempt);
  }

  /** Two generated names are the same exactly if checksum and attempt are. */
  lemma SameNameIff(crc1: u32, attempt1: u32, crc2: u32, attempt2: u32)
    ensures ProducerName(crc1, attempt1) == ProducerName(crc2, attempt2) <==> crc1 == crc2 && attempt1 == attempt2
  {
    var x, y := ProducerName(crc1, attempt1), ProducerName(crc2, attempt2);
    HexLength(crc1, 8);
    HexLength(crc2, 8);
    assert x[6..14] == Hex(crc1, 8) && y[6..14] == Hex(crc2, 8);
    assert x[15..] == Decimal(attempt1) && y[15..] == Decimal(attempt2);
    if x == y {
      assert Power16(8) == 0x1_0000_0000 by {
        assert Power16(4) == 0x1_0000;
        assert Power16(6) == 0x100_0000;
      }
      HexIsInjective(crc1, crc2, 8);
      DecimalIsInjective(attempt1, attempt2);
    }
  }
}
