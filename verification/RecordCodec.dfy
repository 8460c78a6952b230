/** The record format of a segment file: length, checksum, and a body in version 1 or 2. */
module RecordCodec {
  import opened Wrappers
  import opened Bytes
  import opened Utf8

  const MAX_RECORD_SIZE := 16 * 1024 * 1024
  const RECORD_VERSION_V1 := 1
  const RECORD_VERSION := 2
  const BODY_FIXED_SIZE := 37
  const MIN_RECORD_SIZE := 29

  datatype Producer = Producer(id: bytes, sequence: u64)

  datatype Record = Record(key: Option<bytes>, value: bytes, timestamp: u64, producer: Option<Producer>)

  datatype Stored = Stored(offset: u64, record: Record)

  datatype StorageError =
    | InvalidRecord
    | RecordTooLarge
    | ChecksumMismatch
    | UnsupportedVersion(version: nat)
    | InvalidProducerId
    | UnexpectedProducerSequence(expected: nat, actual: nat)
    | OffsetOverflow
    | UnexpectedOffset(expected: nat, actual: nat)
    | ReplicaDiverged(offset: nat)
    | InvalidSegmentLimit
    | InvalidIndexInterval
    | InvalidReadLimit
    | UnexpectedSegmentBase(expected: nat, actual: nat)
    | IncompleteClosedSegment(base: nat)
    | FileExists

  /** CRC-32, of which nothing is assumed. */
  type Checksum = bytes -> u32

  /** `None` inside `Success` asks for more bytes and leaves the buffer alone. */
  type Decoded = Result<Option<(Stored, bytes)>, StorageError>

  predicate ValidProducerId(id: bytes) {
    && 0 < |id| <= 249
    && forall b :: b in id ==> 0x30 <= b <= 0x39 || 0x41 <= b <= 0x5A || 0x61 <= b <= 0x7A || b in {0x2E, 0x5F, 0x2D}
  }

  /** A producer id has 1 to 249 bytes: letters and digits of ASCII, hyphens, dots and underscores. */
  lemma ProducerIdIsValidIff(id: bytes)
    ensures ValidProducerId(id) <==>
            1 <= |id| < 250
            && forall i :: 0 <= i < |id| ==>
                 || 48 <= id[i] <= 57 || 65 <= id[i] <= 90 || 97 <= id[i] <= 122 || id[i] == 45 || id[i] == 46 || id[i] == 95
  {
    assert forall i :: 0 <= i < |id| ==> id[i] in id;
  }

  function EncodedSize(r: Record): nat {
    8 + BODY_FIXED_SIZE + (if r.producer.Some? then |r.producer.value.id| else 0)
    + (if r.key.Some? then |r.key.value| else 0) + |r.value|
  }

  predicate FitsLimit(r: Record) {
    EncodedSize(r) - 4 <= MAX_RECORD_SIZE
  }

  /** The limit counts everything but the length field: 41 bytes, and producer id, key and value. */
  lemma FitsIff(r: Record)
    ensures FitsLimit(r) <==>
            41 + (if r.producer.Some? then |r.producer.value.id| else 0) + (if r.key.Some? then |r.key.value| else 0) + |r.value|
            <= 16_777_216
  {
  }

  function Body(r: Record, offset: u64): (b: bytes)
    requires FitsLimit(r)
    ensures |b| == EncodedSize(r) - 8
  {
    U8(RECORD_VERSION) + (U64(offset) + (U64(r.timestamp) + ProducerHeader(r.producer, Fields(r))))
  }

  function ProducerHeader(producer: Option<Producer>, rest: bytes): (b: bytes)
    requires producer.Some? ==> |producer.value.id| < 0x8000_0000
    ensures |b| == 12 + |rest|
  {
    match producer
    case None => I32(-1) + (U64(0) + rest)
    case Some(p) => I32(|p.id|) + (U64(p.sequence) + rest)
  }

  function Fields(r: Record): (b: bytes)
    requires FitsLimit(r)
    ensures |b| == EncodedSize(r) - 8 - 29
  {
    I32(if r.key.Some? then |r.key.value| else -1) + (U32(|r.value|)
    + ((if r.producer.Some? then r.producer.value.id else []) + (r.key.UnwrapOr([]) + (r.value + []))))
  }

  function EncodeRecord(hash: Checksum, r: Record, offset: u64): Result<bytes, StorageError> {
    if !FitsLimit(r) then Failure(RecordTooLarge)
    else if r.producer.Some? && !ValidProducerId(r.producer.value.id) then Failure(InvalidProducerId)
    else
      var body := Body(r, offset);
      Success(U32(4 + |body|) + (U32(hash(body)) + body))
  }

  function DecodeRecord(hash: Checksum, buffer: bytes): Decoded {
    match ReadU32(buffer)
    case None => Success(None)
    case Some((length, rest)) =>
      if length < MIN_RECORD_SIZE then Failure(InvalidRecord)
      else if length > MAX_RECORD_SIZE then Failure(RecordTooLarge)
      else
        match Split(rest, length)
        case None => Success(None)
        case Some((encoded, tail)) =>
          var stored :- DecodeBody(hash, encoded);
          Success(Some((stored, tail)))
  }

  function DecodeBody(hash: Checksum, encoded: bytes): Result<Stored, StorageError>
    requires |encoded| >= MIN_RECORD_SIZE
  {
    var (crc, body) := ReadU32(encoded).value;
    if hash(body) != crc then Failure(ChecksumMismatch)
    else
      var (version, b1) := ReadU8(body).value;
      if version != RECORD_VERSION_V1 && version != RECORD_VERSION then Failure(UnsupportedVersion(version))
      else
        var (offset, b2) := ReadU64(b1).value;
        var (timestamp, b3) := ReadU64(b2).value;
        var (producer, b4) :- DecodeProducerHeader(version, b3);
        var (r, rest) :- DecodeFields(producer, timestamp, b4);
        if rest != [] then Failure(InvalidRecord) else Success(Stored(offset, r))
  }

  /** Length of the producer id and the sequence; version 1 has neither. */
  function DecodeProducerHeader(version: u8, b: bytes): Result<(Option<(nat, u64)>, bytes), StorageError> {
    if version != RECORD_VERSION then Success((None, b))
    else if |b| < 12 then Failure(InvalidRecord)
    else
      var (length, b1) := ReadI32(b).value;
      var (sequence, b2) := ReadU64(b1).value;
      if length == -1 then Success((None, b2))
      else if length >= 0 then Success((Some((length, sequence)), b2))
      else Failure(InvalidRecord)
  }

  function DecodeFields(producer: Option<(nat, u64)>, timestamp: u64, b: bytes): Result<(Record, bytes), StorageError> {
    if |b| < 8 then Failure(InvalidRecord)
    else
      var (keyLength, b1) := ReadI32(b).value;
      var (valueLength, b2) := ReadU32(b1).value;
      var (identity, b3) :- DecodeProducer(producer, b2);
      var (key, b4) :- DecodeKey(keyLength, b3);
      var (value, b5) :- Take(b4, valueLength);
      Success((Record(key, value, timestamp, identity), b5))
  }

  function DecodeProducer(producer: Option<(nat, u64)>, b: bytes): Result<(Option<Producer>, bytes), StorageError> {
    match producer
    case None => Success((None, b))
    case Some((length, sequence)) =>
      var (id, rest) :- Take(b, length);
      if !ValidUtf8(id) then Failure(InvalidProducerId) else Success((Some(Producer(id, sequence)), rest))
  }

  function DecodeKey(length: int, b: bytes): Result<(Option<bytes>, bytes), StorageError> {
    if length == -1 then Success((None, b))
    else if length >= 0 then
      var (key, rest) :- Take(b, length);
      Success((Some(key), rest))
    else Failure(InvalidRecord)
  }

  function Take(b: bytes, n: nat): Result<(bytes, bytes), StorageError> {
    match Split(b, n)
    case Some(r) => Success(r)
    case None => Failure(InvalidRecord)
  }

  /** Every record that encodes decodes to itself, whatever follows it in the buffer. */
  lemma RoundTrip(hash: Checksum, r: Record, offset: u64, rest: bytes)
    requires EncodeRecord(hash, r, offset).Success?
    ensures |EncodeRecord(hash, r, offset).value| == EncodedSize(r)
    ensures DecodeRecord(hash, EncodeRecord(hash, r, offset).value + rest) == Success(Some((Stored(offset, r), rest)))
  {
    ReadBack();
    var body := Body(r, offset);
    var encoded := U32(hash(body)) + body;
    assert EncodeRecord(hash, r, offset).value + rest == U32(4 + |body|) + (encoded + rest);
    BodyRoundTrip(hash, r, offset);
  }

  lemma BodyRoundTrip(hash: Checksum, r: Record, offset: u64)
    requires EncodeRecord(hash, r, offset).Success?
    ensures var body := Body(r, offset);
            DecodeBody(hash, U32(hash(body)) + body) == Success(Stored(offset, r))
  {
    ReadBack();
    var producer := if r.producer.Some? then Some((|r.producer.value.id|, r.producer.value.sequence)) else None;
    assert DecodeProducerHeader(RECORD_VERSION, ProducerHeader(r.producer, Fields(r))) == Success((producer, Fields(r)));
    FieldsRoundTrip(hash, r, offset);
  }

  lemma FieldsRoundTrip(hash: Checksum, r: Record, offset: u64)
    requires EncodeRecord(hash, r, offset).Success?
    ensures var producer := if r.producer.Some? then Some((|r.producer.value.id|, r.producer.value.sequence)) else None;
            DecodeFields(producer, r.timestamp, Fields(r)) == Success((r, []))
  {
    var producer := if r.producer.Some? then Some((|r.producer.value.id|, r.producer.value.sequence)) else None;
    var id := if r.producer.Some? then r.producer.value.id else [];
    var b3 := r.key.UnwrapOr([]) + (r.value + []);
    ProducerBack(r.producer, b3);
    KeyBack(r.key, r.value + []);
    TakeBack(r.value, []);
    LengthsBack(if r.key.Some? then |r.key.value| else -1, |r.value|, id + b3);
  }

  lemma LengthsBack(keyLength: int, valueLength: u32, rest: bytes)
    requires -0x8000_0000 <= keyLength < 0x8000_0000
    ensures ReadI32(I32(keyLength) + (U32(valueLength) + rest)) == Some((keyLength, U32(valueLength) + rest))
    ensures ReadU32(U32(valueLength) + rest) == Some((valueLength, rest))
  {
    ReadBack();
  }

  lemma ProducerBack(producer: Option<Producer>, rest: bytes)
    requires producer.Some? ==> ValidProducerId(producer.value.id)
    ensures DecodeProducer(if producer.Some? then Some((|producer.value.id|, producer.value.sequence)) else None,
                           (if producer.Some? then producer.value.id else []) + rest)
            == Success((producer, rest))
  {
    if producer.Some? {
      AsciiIsUtf8(producer.value.id);
      TakeBack(producer.value.id, rest);
    } else {
      assert [] + rest == rest;
    }
  }

  lemma KeyBack(key: Option<bytes>, rest: bytes)
    ensures DecodeKey(if key.Some? then |key.value| else -1, key.UnwrapOr([]) + rest) == Success((key, rest))
  {
    if key.Some? {
      TakeBack(key.value, rest);
    } else {
      assert [] + rest == rest;
    }
  }

  lemma TakeBack(a: bytes, rest: bytes)
    ensures Take(a + rest, |a|) == Success((a, rest))
  {
    SplitAppend(a, rest);
  }

  // ---------------------------------------------------------------- what decodes is a record

  /** The lengths fit their fields. */
  predicate Small(r: Record) {
    && (r.key.Some? ==> |r.key.value| < 0x8000_0000) && |r.value| < 0x1_0000_0000
    && (r.producer.Some? ==> |r.producer.value.id| < 0x8000_0000)
  }

  /** The body of a record: in version 2 a producer header, whose sequence is `unused` without a producer, in version 1 none. */
  function BodyOf(version: u8, unused: u64, r: Record, offset: u64): bytes
    requires Small(r)
  {
    U8(version) + (U64(offset) + (U64(r.timestamp) + HeaderOf(version, unused, r.producer, FieldsOf(r))))
  }

  function HeaderOf(version: u8, unused: u64, producer: Option<Producer>, rest: bytes): bytes
    requires producer.Some? ==> |producer.value.id| < 0x8000_0000
  {
    if version == RECORD_VERSION_V1 then rest
    else
      match producer
      case None => I32(-1) + (U64(unused) + rest)
      case Some(p) => I32(|p.id|) + (U64(p.sequence) + rest)
  }

  function FieldsOf(r: Record): bytes
    requires Small(r)
  {
    I32(if r.key.Some? then |r.key.value| else -1) + (U32(|r.value|)
    + ((if r.producer.Some? then r.producer.value.id else []) + (r.key.UnwrapOr([]) + r.value)))
  }

  /** What is encoded is of version 2, and nothing stands in place of a producer's sequence. */
  lemma EncodesVersion2(r: Record, offset: u64)
    requires FitsLimit(r)
    ensures Body(r, offset) == BodyOf(2, 0, r, offset)
  {
    assert r.value + [] == r.value;
    assert Fields(r) == FieldsOf(r);
  }

  /** An `i32` by its bytes: two's complement. */
  ghost predicate Signed(b: bytes, n: int) {
    |b| == 4 && Get(b) == if n < 0 then n + 0x1_0000_0000 else n
  }

  /** The layout of the body of an encoded record: fixed fields, big-endian, and then producer id, key and value. */
  lemma BodyLayout(r: Record, offset: u64)
    requires FitsLimit(r)
    ensures var b := Body(r, offset);
            && |b| >= 37 && b[0] == 2 && Get(b[1..9]) == offset && Get(b[9..17]) == r.timestamp
            && Signed(b[17..21], if r.producer.Some? then |r.producer.value.id| else -1)
            && Get(b[21..29]) == (if r.producer.Some? then r.producer.value.sequence else 0)
            && Signed(b[29..33], if r.key.Some? then |r.key.value| else -1) && Get(b[33..37]) == |r.value|
            && b[37..] == (if r.producer.Some? then r.producer.value.id else []) + r.key.UnwrapOr([]) + r.value
  {
    var id, sequence := if r.producer.Some? then |r.producer.value.id| else -1, if r.producer.Some? then r.producer.value.sequence else 0;
    var keyLength := if r.key.Some? then |r.key.value| else -1;
    var tail := (if r.producer.Some? then r.producer.value.id else []) + r.key.UnwrapOr([]) + r.value;
    BodyParts(r, offset, id, sequence, keyLength, tail);
    BodyFields(Body(r, offset), offset, r.timestamp, id, sequence, keyLength, |r.value|, tail);
  }

  lemma BodyParts(r: Record, offset: u64, id: int, sequence: u64, keyLength: int, tail: bytes)
    requires FitsLimit(r) && id == (if r.producer.Some? then |r.producer.value.id| else -1)
    requires sequence == (if r.producer.Some? then r.producer.value.sequence else 0)
    requires keyLength == (if r.key.Some? then |r.key.value| else -1)
    requires tail == (if r.producer.Some? then r.producer.value.id else []) + r.key.UnwrapOr([]) + r.value
    ensures Body(r, offset)
            == U8(2) + (U64(offset) + (U64(r.timestamp) + (I32(id) + (U64(sequence) + (I32(keyLength) + (U32(|r.value|) + tail))))))
  {
    EncodesVersion2(r, offset);
    FieldsParts(r, keyLength, tail);
    HeaderParts(r.producer, id, sequence, FieldsOf(r));
  }

  lemma FieldsParts(r: Record, keyLength: int, tail: bytes)
    requires Small(r) && keyLength == (if r.key.Some? then |r.key.value| else -1)
    requires tail == (if r.producer.Some? then r.producer.value.id else []) + r.key.UnwrapOr([]) + r.value
    ensures FieldsOf(r) == I32(keyLength) + (U32(|r.value|) + tail)
  {
    assert tail == (if r.producer.Some? then r.producer.value.id else []) + (r.key.UnwrapOr([]) + r.value);
  }

  lemma HeaderParts(producer: Option<Producer>, id: int, sequence: u64, rest: bytes)
    requires producer.Some? ==> |producer.value.id| < 0x8000_0000
    requires id == (if producer.Some? then |producer.value.id| else -1)
    requires sequence == (if producer.Some? then producer.value.sequence else 0)
    ensures HeaderOf(2, 0, producer, rest) == I32(id) + (U64(sequence) + rest)
  {
  }

  lemma BodyFields(b: bytes, offset: u64, timestamp: u64, id: int, sequence: u64, keyLength: int, valueLength: u32, tail: bytes)
    requires -1 <= id < 0x8000_0000 && -1 <= keyLength < 0x8000_0000
    requires b == U8(2) + (U64(offset) + (U64(timestamp) + (I32(id) + (U64(sequence) + (I32(keyLength) + (U32(valueLength) + tail))))))
    ensures |b| >= 37 && b[0] == 2 && Get(b[1..9]) == offset && Get(b[9..17]) == timestamp && Signed(b[17..21], id)
    ensures Get(b[21..29]) == sequence && Signed(b[29..33], keyLength) && Get(b[33..37]) == valueLength && b[37..] == tail
  {
    GetOfPut();
    assert b[1..9] == U64(offset) && b[9..17] == U64(timestamp) && b[17..21] == I32(id) && b[21..29] == U64(sequence);
    assert b[29..33] == I32(keyLength) && b[33..37] == U32(valueLength);
  }

  /** A record of version 1 has no producer, and a producer's id is UTF-8. */
  predicate Readable(version: u8, r: Record) {
    && (version == RECORD_VERSION_V1 || version == RECORD_VERSION)
    && (r.producer.Some? ==> version == RECORD_VERSION && ValidUtf8(r.producer.value.id))
  }

  lemma TakeBackwards(b: bytes, n: nat)
    requires Take(b, n).Success?
    ensures |Take(b, n).value.0| == n && b == Take(b, n).value.0 + Take(b, n).value.1
  {
  }

  lemma FieldsBackwards(producer: Option<(nat, u64)>, timestamp: u64, b: bytes)
    requires DecodeFields(producer, timestamp, b).Success? && DecodeFields(producer, timestamp, b).value.1 == []
    requires producer.Some? ==> producer.value.0 < 0x8000_0000
    ensures var r := DecodeFields(producer, timestamp, b).value.0;
            && Small(r) && r.timestamp == timestamp && b == FieldsOf(r)
            && (r.producer.Some? <==> producer.Some?)
            && (producer.Some? ==>
                  |r.producer.value.id| == producer.value.0 && r.producer.value.sequence == producer.value.1
                  && ValidUtf8(r.producer.value.id))
  {
    ReadBackwards();
    var (keyLength, b1) := ReadI32(b).value;
    var (valueLength, b2) := ReadU32(b1).value;
    var (identity, b3) := DecodeProducer(producer, b2).value;
    if producer.Some? {
      TakeBackwards(b2, producer.value.0);
    }
    var (key, b4) := DecodeKey(keyLength, b3).value;
    if keyLength >= 0 {
      TakeBackwards(b3, keyLength);
    }
    TakeBackwards(b4, valueLength);
    var r := DecodeFields(producer, timestamp, b).value.0;
    assert r == Record(key, Take(b4, valueLength).value.0, timestamp, identity);
    assert b4 == r.value + [] && r.value + [] == r.value;
    assert b3 == key.UnwrapOr([]) + b4;
    assert b2 == (if identity.Some? then identity.value.id else []) + b3;
  }

  lemma HeaderBackwards(version: u8, b: bytes) returns (unused: u64)
    requires version == RECORD_VERSION_V1 || version == RECORD_VERSION
    requires DecodeProducerHeader(version, b).Success?
    ensures var (producer, rest) := DecodeProducerHeader(version, b).value;
            && (producer.Some? ==> version == RECORD_VERSION && producer.value.0 < 0x8000_0000)
            && (version == RECORD_VERSION_V1 ==> b == rest)
            && (version == RECORD_VERSION ==>
                  b == if producer.Some? then I32(producer.value.0) + (U64(producer.value.1) + rest)
                       else I32(-1) + (U64(unused) + rest))
  {
    ReadBackwards();
    unused := 0;
    if version == RECORD_VERSION {
      unused := ReadU64(ReadI32(b).value.1).value.0;
    }
  }

  lemma BodyBackwards(hash: Checksum, encoded: bytes) returns (version: u8, unused: u64)
    requires |encoded| >= MIN_RECORD_SIZE && DecodeBody(hash, encoded).Success?
    ensures var stored := DecodeBody(hash, encoded).value;
            && Small(stored.record) && Readable(version, stored.record)
            && var body := BodyOf(version, unused, stored.record, stored.offset);
               encoded == U32(hash(body)) + body
  {
    ReadBackwards();
    var (crc, body) := ReadU32(encoded).value;
    var b1;
    version, b1 := ReadU8(body).value.0, ReadU8(body).value.1;
    var (offset, b2) := ReadU64(b1).value;
    var (timestamp, b3) := ReadU64(b2).value;
    unused := HeaderBackwards(version, b3);
    var (producer, b4) := DecodeProducerHeader(version, b3).value;
    FieldsBackwards(producer, timestamp, b4);
    var r := DecodeFields(producer, timestamp, b4).value.0;
    assert b3 == HeaderOf(version, unused, r.producer, FieldsOf(r));
  }

  /**
   Whatever decodes is a record in one of the two versions: its length within the limits, the checksum of its body, and the
   fields of the record it decodes to, nothing more and nothing less. So no bit of a record can change unseen but those that
   the checksum misses and, without a producer, the sequence that is not used.
   */
  lemma DecodesOnlyRecords(hash: Checksum, buffer: bytes, stored: Stored, rest: bytes) returns (version: u8, unused: u64)
    requires DecodeRecord(hash, buffer) == Success(Some((stored, rest)))
    ensures Small(stored.record) && Readable(version, stored.record)
    ensures var body := BodyOf(version, unused, stored.record, stored.offset);
            && 29 <= 4 + |body| <= 16_777_216
            && buffer == U32(4 + |body|) + (U32(hash(body)) + body) + rest
  {
    ReadBackwards();
    var (length, b) := ReadU32(buffer).value;
    var (encoded, tail) := Split(b, length).value;
    version, unused := BodyBackwards(hash, encoded);
    assert U32(length) + (encoded + rest) == U32(length) + encoded + rest;
  }

  /** More bytes are asked for exactly while the length field or what it measures is incomplete. */
  lemma AsksForMoreIff(hash: Checksum, buffer: bytes)
    ensures DecodeRecord(hash, buffer) == Success(None)
            <==> |buffer| < 4 || (29 <= Get(buffer[..4]) <= 16_777_216 && |buffer| < 4 + Get(buffer[..4]))
  {
  }

  /** A decoder that succeeds does not look past the record it returns. */
  lemma DecodeIsLocal(hash: Checksum, frame: bytes, stored: Stored, rest: bytes)
    requires DecodeRecord(hash, frame) == Success(Some((stored, [])))
    ensures DecodeRecord(hash, frame + rest) == Success(Some((stored, rest)))
    ensures |frame| > 4
  {
    var (length, tail) := ReadU32(frame).value;
    ReadU32Local(frame, rest);
    var (encoded, empty) := Split(tail, length).value;
    assert encoded == tail;
    SplitAppend(tail, rest);
  }

  /** No proper prefix of a record decodes to anything: encodings are prefix-free. */
  lemma ProperPrefixIsIncomplete(hash: Checksum, frame: bytes, stored: Stored, k: nat)
    requires DecodeRecord(hash, frame) == Success(Some((stored, [])))
    requires k < |frame|
    ensures DecodeRecord(hash, frame[..k]) == Success(None)
  {
    if k >= 4 {
      assert frame[..k][..4] == frame[..4];
    }
  }

  /** A decoded record is a non-empty front part of the buffer. */
  lemma DecodeConsumes(hash: Checksum, buffer: bytes)
    requires DecodeRecord(hash, buffer).Success? && DecodeRecord(hash, buffer).value.Some?
    ensures var (stored, rest) := DecodeRecord(hash, buffer).value.value;
            && |rest| < |buffer|
            && buffer[|buffer| - |rest|..] == rest
            && DecodeRecord(hash, buffer[..|buffer| - |rest|]) == Success(Some((stored, [])))
  {
    var (stored, rest) := DecodeRecord(hash, buffer).value.value;
    var (length, tail) := ReadU32(buffer).value;
    var frame := buffer[..|buffer| - |rest|];
    var (encoded, _) := Split(tail, length).value;
    assert tail == buffer[4..] && encoded == tail[..length] && rest == tail[length..];
    assert |frame| == 4 + length;
    assert frame[..4] == buffer[..4];
    assert frame[4..] == encoded;
    assert ReadU32(frame) == Some((length, encoded));
    assert encoded[..length] == encoded && encoded[length..] == [];
  }

  // ---------------------------------------------------------------- what the log needs of its record format

  type Decoder = bytes -> Decoded

  ghost predicate Decodes(decode: Decoder, buffer: bytes, stored: Stored, rest: bytes) {
    decode(buffer) == Success(Some((stored, rest)))
  }

  /** Records are found one after the other, without a look at what follows, and never in a part of another. */
  ghost predicate SelfDelimiting(decode: Decoder) {
    && decode([]) == Success(None)
    && (forall frame, stored, rest {:trigger Decodes(decode, frame, stored, []), Decodes(decode, frame + rest, stored, rest)} ::
          Decodes(decode, frame, stored, []) ==> Decodes(decode, frame + rest, stored, rest))
    && (forall frame, stored, k: nat {:trigger Decodes(decode, frame, stored, []), frame[..k]} ::
          Decodes(decode, frame, stored, []) && k < |frame| ==> decode(frame[..k]) == Success(None))
    && (forall buffer, stored, rest {:trigger Decodes(decode, buffer, stored, rest)} ::
          Decodes(decode, buffer, stored, rest) ==>
            && |rest| < |buffer|
            && (rest != [] ==>
                  && buffer[|buffer| - |rest|..] == rest
                  && Decodes(decode, buffer[..|buffer| - |rest|], stored, [])))
  }

  /** How a log writes and reads its records. */
  datatype Format = Format(encode: (Record, u64) -> Result<bytes, StorageError>, decode: Decoder)

  ghost predicate Lawful(format: Format) {
    && SelfDelimiting(format.decode)
    && (forall r, offset {:trigger format.encode(r, offset)} ::
          if !FitsLimit(r) then format.encode(r, offset) == Failure(RecordTooLarge)
          else if r.producer.Some? && !ValidProducerId(r.producer.value.id) then
            format.encode(r, offset) == Failure(InvalidProducerId)
          else
            && format.encode(r, offset).Success?
            && |format.encode(r, offset).value| == EncodedSize(r)
            && Decodes(format.decode, format.encode(r, offset).value, Stored(offset, r), []))
  }

  /** The record format of this broker, for any checksum. */
  function RecordFormat(hash: Checksum): Format {
    Format((r: Record, offset: u64) => EncodeRecord(hash, r, offset), DecoderOf(hash))
  }

  lemma RecordFormatIsLawful(hash: Checksum)
    ensures Lawful(RecordFormat(hash))
  {
    RecordsAreSelfDelimiting(hash);
    var format := RecordFormat(hash);
    forall r, offset | EncodeRecord(hash, r, offset).Success?
      ensures |format.encode(r, offset).value| == EncodedSize(r)
      ensures Decodes(format.decode, format.encode(r, offset).value, Stored(offset, r), [])
    {
      RoundTrip(hash, r, offset, []);
      assert EncodeRecord(hash, r, offset).value + [] == EncodeRecord(hash, r, offset).value;
    }
  }

  function DecoderOf(hash: Checksum): Decoder {
    (buffer: bytes) => DecodeRecord(hash, buffer)
  }

  lemma RecordsAreSelfDelimiting(hash: Checksum)
    ensures SelfDelimiting(DecoderOf(hash))
  {
    var decode := DecoderOf(hash);
    forall frame, stored, rest | Decodes(decode, frame, stored, [])
      ensures Decodes(decode, frame + rest, stored, rest)
    {
      DecodeIsLocal(hash, frame, stored, rest);
    }
    forall frame, stored, k: nat | Decodes(decode, frame, stored, []) && k < |frame|
      ensures decode(frame[..k]) == Success(None)
    {
      ProperPrefixIsIncomplete(hash, frame, stored, k);
    }
    forall buffer, stored, rest | Decodes(decode, buffer, stored, rest)
      ensures |rest| < |buffer| && buffer[|buffer| - |rest|..] == rest
      ensures Decodes(decode, buffer[..|buffer| - |rest|], stored, [])
    {
      DecodeConsumes(hash, buffer);
    }
  }
}
