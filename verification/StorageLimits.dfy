/** Logs on which the storage engine falls short: two that arise from its own operations or from its older format. */
module StorageLimits {
  import opened Wrappers
  import opened Bytes
  import opened RecordCodec
  import opened LogModel
  import opened Recovery
  import opened SegmentFiles
  import opened LogState
  import opened PartitionLogs

  // ---------------------------------------------------------------- records of version 1

  /** What a record takes beside the version, offset and timestamp, the value and key lengths and the producer header. */
  function ContentSize(r: Record): nat {
    |r.key.UnwrapOr([])| + |r.value|
  }

  predicate FitsV1(r: Record) {
    r.producer.None? && MIN_RECORD_SIZE + ContentSize(r) <= MAX_RECORD_SIZE
  }

  /** The body of a record as version 1 wrote it: the version 2 layout without a producer header. */
  function BodyV1(r: Record, offset: u64): (b: bytes)
    requires FitsV1(r)
    ensures |b| == 25 + ContentSize(r)
  {
    BodyOf(RECORD_VERSION_V1, 0, r, offset)
  }

  function FrameV1(hash: Checksum, r: Record, offset: u64): (b: bytes)
    requires FitsV1(r)
    ensures |b| == 8 + 25 + ContentSize(r)
  {
    var body := BodyV1(r, offset);
    U32(4 + |body|) + (U32(hash(body)) + body)
  }

  lemma FieldsV1ReadBack(r: Record)
    requires FitsV1(r)
    ensures DecodeFields(None, r.timestamp, FieldsOf(r)) == Success((r, []))
  {
    var content := r.key.UnwrapOr([]) + r.value;
    assert r.value + [] == r.value && [] + content == content;
    KeyBack(r.key, r.value + []);
    TakeBack(r.value, []);
    LengthsBack(if r.key.Some? then |r.key.value| else -1, |r.value|, content);
  }

  lemma BodyV1ReadBack(hash: Checksum, r: Record, offset: u64)
    requires FitsV1(r)
    ensures DecodeBody(hash, U32(hash(BodyV1(r, offset))) + BodyV1(r, offset)) == Success(Stored(offset, r))
  {
    ReadBack();
    FieldsV1ReadBack(r);
  }

  /** Every record of version 1 within the size limit is still read, but it can be written again only if it is 12 bytes below it. */
  lemma V1IsReadButNotRewritten(hash: Checksum, r: Record, offset: u64)
    requires FitsV1(r)
    ensures DecodeRecord(hash, FrameV1(hash, r, offset)) == Success(Some((Stored(offset, r), [])))
    ensures FitsLimit(r) <==> MIN_RECORD_SIZE + ContentSize(r) + 12 <= MAX_RECORD_SIZE
  {
    ReadBack();
    BodyV1ReadBack(hash, r, offset);
    var body := BodyV1(r, offset);
    var encoded := U32(hash(body)) + body;
    assert encoded[..|encoded|] == encoded && encoded[|encoded|..] == [];
  }

  function Oversized(): (r: Record)
    ensures FitsV1(r) && !FitsLimit(r)
  {
    Record(None, seq(16_777_187, _ => 0), 0, None)
  }

  /** The directory of a log whose only record is `frame`. */
  function OneRecord(frame: bytes): (seq<Segment>, Files) {
    ([Segment(0, |frame|, [IndexEntry(0, 0)])], map[0 := frame])
  }

  lemma OneRecordIsLog(decode: Decoder, interval: nat, frame: bytes, r: Record)
    requires SelfDelimiting(decode) && Decodes(decode, frame, Stored(0, r), []) && r.producer.None?
    ensures LogOk(decode, [frame]) && Records(decode, [frame]) == [r]
    ensures Layout([frame], interval, OneRecord(frame).0, OneRecord(frame).1)
  {
    var st := FirstAppended(decode, interval, frame, r);
  }

  lemma OneWritten(frame: bytes, interval: nat)
    ensures State(0, map[], [Segment(0, 0, [])], map[0 := []]).Written(frame, interval).segments == OneRecord(frame).0
    ensures State(0, map[], [Segment(0, 0, [])], map[0 := []]).Written(frame, interval).files == OneRecord(frame).1
  {
    assert [] + frame == frame;
    assert AddEntry([], 0, 0, interval) == [IndexEntry(0, 0)];
    assert [Segment(0, 0, [])][..0] + [Segment(0, |frame|, [IndexEntry(0, 0)])] == OneRecord(frame).0;
  }

  lemma OneFrame(st: State, decode: Decoder, interval: nat, frames: seq<bytes>, frame: bytes)
    requires st.Holds(decode, interval, frames) && st.next == 1 && st.segments == OneRecord(frame).0 && st.files == OneRecord(frame).1
    ensures frames == [frame]
  {
    assert SegmentOk(frames, interval, st.segments, st.files, 0);
    assert Part(frames, st.segments, 0) == frames;
    assert frames == [frames[0]];
    assert Flatten(frames) == frames[0];
  }

  /** The log of one record of version 1 at the size limit opens. */
  method OpenOld(hash: Checksum) returns (log: PartitionLog)
    ensures fresh(log) && log.Valid() && log.History() == [Oversized()] && log.nextOffset == 1 && log.LowWatermark() == 0
  {
    var r, format := Oversized(), RecordFormat(hash);
    var frame := FrameV1(hash, r, 0);
    RecordFormatIsLawful(hash);
    V1IsReadButNotRewritten(hash, r, 0);
    OneRecordIsLog(format.decode, 4096, frame, r);
    LaidDirectoryOpens(format.decode, 4096, [frame], OneRecord(frame).0, OneRecord(frame).1);
    var opening := PartitionLog.Open(format, 0x4000_0000, 4096, OneRecord(frame).1);
    log := opening.value;
    OneFrame(log.Abstract(), format.decode, 4096, log.frames, frame);
  }

  /**
   Any record of version 1 that is too large to be encoded anew, followed by any record that is not: a log from offset 0
   whose front before offset 1 is what `TruncateTo` cannot write.
   */
  lemma OldRecordLog(hash: Checksum, large: Record, second: Record, interval: nat) returns (st: State, frames: seq<bytes>)
    requires FitsV1(large) && !FitsLimit(large) && FitsLimit(second) && second.producer.None?
    ensures st.Holds(DecoderOf(hash), interval, frames) && st.segments != [] && st.segments[0].base == 0
    ensures Records(DecoderOf(hash), frames) == [large, second]
    ensures st.next == 2 && !AllFit(Records(DecoderOf(hash), frames)[..1])
  {
    var decode, format := DecoderOf(hash), RecordFormat(hash);
    var first, next := FrameV1(hash, large, 0), format.encode(second, 1).value;
    RecordFormatIsLawful(hash);
    V1IsReadButNotRewritten(hash, large, 0);
    var st1 := FirstAppended(decode, interval, first, large);
    st := SecondAppended(st1, decode, interval, first, large, next, second);
    frames := [first, next];
    assert large in [large] && Records(decode, frames)[..1] == [large];
  }

  /** A new log after its first record. */
  lemma FirstAppended(decode: Decoder, interval: nat, frame: bytes, r: Record) returns (st: State)
    requires SelfDelimiting(decode) && Decodes(decode, frame, Stored(0, r), []) && r.producer.None?
    ensures st.Holds(decode, interval, [frame]) && Records(decode, [frame]) == [r] && st.next == 1
    ensures st.segments == OneRecord(frame).0 && st.files == OneRecord(frame).1
  {
    EmptyHolds(decode, interval);
    var st0 := State(0, map[], [Segment(0, 0, [])], map[0 := []]);
    AppendedHolds(st0, decode, interval, [], frame, r);
    OneWritten(frame, interval);
    assert [] + [frame] == [frame];
    st := st0.Written(frame, interval).Counted(r);
  }

  lemma SecondAppended(st1: State, decode: Decoder, interval: nat, first: bytes, r: Record, next: bytes, second: Record)
    returns (st: State)
    requires st1.Holds(decode, interval, [first]) && st1.next == 1 && Records(decode, [first]) == [r]
    requires Decodes(decode, next, Stored(1, second), []) && second.producer.None?
    ensures st1.segments != [] && st1.Active().base in st1.files
    ensures st == st1.Written(next, interval).Counted(second)
    ensures st.Holds(decode, interval, [first, next]) && Records(decode, [first, next]) == [r, second] && st.next == 2
    ensures st.segments != [] && st.segments[0].base == st1.segments[0].base
  {
    AppendedHolds(st1, decode, interval, [first], next, second);
    assert [first] + [next] == [first, next];
    st := st1.Written(next, interval).Counted(second);
    assert Records(decode, [first])[0] == RecordOf(decode, first);
  }

  /** A log of one such record takes appends, but it cannot be truncated behind that record. */
  method OldRecordStopsTruncation(hash: Checksum) returns (truncated: Result<Unit, StorageError>)
    ensures truncated.Failure?
  {
    var log := OpenOld(hash);
    var small := Record(None, [], 0, None);
    var appended := log.Append(small);
    TwoRecords(log.History(), Oversized(), small);
    truncated := log.TruncateTo(1);
  }

  lemma TwoRecords(history: seq<Record>, first: Record, second: Record)
    requires history == [first] + [second] && !FitsLimit(first)
    ensures |history| == 2 && !AllFit(history[..1])
  {
    assert history[..1] == [first] && first in [first];
  }

  // ---------------------------------------------------------------- retention

  /** Whatever retention leaves of a log of several segments no longer opens. */
  lemma RetainedDoesNotOpen(st: State, decode: Decoder, interval: nat, frames: seq<bytes>)
    requires SelfDelimiting(decode) && st.Holds(decode, interval, frames) && |st.segments| > 1
    ensures st.WithoutFirst().segments[0].base > 0 && OpenFiles(decode, interval, st.WithoutFirst().files).Failure?
  {
    WithoutFirstHolds(st, decode, interval, frames);
    OpensIffLowWatermarkZero(st.WithoutFirst(), decode, interval, frames);
  }

  /**
   A record of any kind in each of two segments, and what a retention to no bytes leaves of them: the log still holds both
   records' offsets, starts at offset 1, and its directory does not open.
   */
  lemma RetainedLog(format: Format, r: Record, interval: nat) returns (st: State, frames: seq<bytes>)
    requires Lawful(format) && FitsLimit(r) && r.producer.None?
    ensures st.Holds(format.decode, interval, frames) && |frames| == 2 && |st.segments| == 2
    ensures Expires(st.segments, Some(0), {}) && !Expires(st.segments[1..], Some(0), {})
    ensures var after := st.WithoutFirst();
            && after.segments == st.segments[1..] && after.Holds(format.decode, interval, frames)
            && after.segments[0].base == 1 && OpenFiles(format.decode, interval, after.files).Failure?
  {
    var decode := format.decode;
    var first, next := format.encode(r, 0).value, format.encode(r, 1).value;
    assert format.encode(r, 0).Success? && format.encode(r, 1).Success?;
    var st1 := FirstAppended(decode, interval, first, r);
    RotatedHolds(st1, decode, interval, [first]);
    st := SecondAppended(st1.Rotated(), decode, interval, first, r, next, r);
    frames := [first, next];
    WithoutFirstHolds(st, decode, interval, frames);
    RetainedDoesNotOpen(st, decode, interval, frames);
    assert TotalLength(st.segments) == |first| + TotalLength(st.segments[1..]);
  }

  /**
   Two records in two segments, and a retention that removes the first: the log then starts behind offset 0, its directory
   does not open, and truncating it to offset 1 does not leave it there.
   */
  method RetentionStopsReopening(format: Format)
    returns (low: nat, reopened: Result<PartitionLog, StorageError>, truncated: Result<Unit, StorageError>, next: nat)
    requires Lawful(format)
    ensures low > 0 && reopened.Failure? && !(truncated == Success(Done) && next == 1)
  {
    var log := Retained(format);
    low := log.LowWatermark();
    HasActive(log.Abstract(), format.decode, 4096, log.frames);
    OpensIffLowWatermarkZero(log.Abstract(), format.decode, 4096, log.frames);
    reopened := PartitionLog.Open(format, 1, 4096, log.files);
    truncated := log.TruncateTo(1);
    next := log.nextOffset;
  }

  method Retained(format: Format) returns (log: PartitionLog)
    requires Lawful(format)
    ensures fresh(log) && log.Valid() && log.format == format && log.indexIntervalBytes == 4096
    ensures log.nextOffset == 2 && log.LowWatermark() > 0
  {
    log := TwoSegments(format, Record(None, [], 0, None));
    ghost var segments := log.segments;
    FirstHasBytes(log.Abstract(), format.decode, 4096, log.frames);
    HasActive(log.Abstract(), format.decode, 4096, log.frames);
    var removed := log.ApplyRetention(Some(0), {});
    assert segments[0..] == segments && segments[1].base == Bases(segments)[1];
    assert removed == 1 && log.segments[0] == segments[1];
  }

  lemma FirstHasBytes(st: State, decode: Decoder, interval: nat, frames: seq<bytes>)
    requires SelfDelimiting(decode) && st.Holds(decode, interval, frames)
    requires |st.segments| == 2 && Bases(st.segments) == [0, 1] && st.next == 2
    ensures TotalLength(st.segments) > 0
  {
    assert st.segments[0].base == Bases(st.segments)[0] && st.segments[1].base == Bases(st.segments)[1];
    assert SegmentOk(frames, interval, st.segments, st.files, 0);
    assert Part(frames, st.segments, 0) == [frames[0]];
    assert Flatten([frames[0]]) == frames[0];
    assert Framed(decode, frames[0], 0);
    assert st.segments[0].length == |frames[0]|;
  }

  method OpenEmpty(format: Format) returns (log: PartitionLog)
    requires Lawful(format)
    ensures fresh(log) && log.Valid() && log.format == format && log.maxSegmentBytes == 1 && log.indexIntervalBytes == 4096
    ensures log.Abstract() == State(0, map[], [Segment(0, 0, [])], map[0 := []])
  {
    EmptyLog(format.decode);
    EmptyHolds(format.decode, 4096);
    LaidDirectoryOpens(format.decode, 4096, [], [Segment(0, 0, [])], map[0 := []]);
    var opening := PartitionLog.Open(format, 1, 4096, map[0 := []]);
    log := opening.value;
  }

  /** A log with a segment for each of two records. */
  method TwoSegments(format: Format, record: Record) returns (log: PartitionLog)
    requires Lawful(format) && record.producer.None? && FitsLimit(record)
    ensures fresh(log) && log.Valid() && log.format == format && log.maxSegmentBytes == 1 && log.indexIntervalBytes == 4096
    ensures log.nextOffset == 2 && Bases(log.segments) == [0, 1] && |log.segments| == 2
  {
    log := OpenEmpty(format);
    var first := log.Append(record);
    FirstIsFull(log.Abstract(), format.decode, 4096, log.frames);
    var second := log.Append(record);
    assert |log.segments| == |Bases(log.segments)|;
  }

  lemma FirstIsFull(st: State, decode: Decoder, interval: nat, frames: seq<bytes>)
    requires SelfDelimiting(decode) && st.Holds(decode, interval, frames) && st.next == 1 && Bases(st.segments) == [0]
    ensures |st.segments| == 1 && st.Active().length > 0
  {
    assert |st.segments| == |Bases(st.segments)| && st.segments[0].base == Bases(st.segments)[0];
    assert SegmentOk(frames, interval, st.segments, st.files, 0);
    assert Part(frames, st.segments, 0) == [frames[0]];
    assert Flatten([frames[0]]) == frames[0];
    assert Framed(decode, frames[0], 0);
  }
}
