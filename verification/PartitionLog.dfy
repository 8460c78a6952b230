/** The partition log: segment files, sparse indexes and the producer table, updated in place. */
module PartitionLogs {
  import opened Wrappers
  import opened Bytes
  import opened RecordCodec
  import opened LogModel
  import opened Recovery
  import opened SegmentFiles
  import opened FlatRead
  import opened LogState
  import Replica

  /**
   Decode the records of a buffer that holds records `k` to `end` of the log, drop those before `offset`, and take the
   rest until one would go past the byte limit.
   */
  method TakeRecords(decode: Decoder, buffer: bytes, offset: nat, maxBytes: nat, records: seq<Stored>, used: nat,
                     ghost frames: seq<bytes>, ghost start: nat, ghost k: nat, ghost end: nat, ghost left: nat -> bytes)
    returns (records': seq<Stored>, used': nat, full: bool)
    requires k <= end <= |frames| <= U64_MAX && buffer == left(k)
    requires forall i :: k <= i <= end ==> DecodesAt(decode, frames, left, i, end)
    requires start <= offset || start <= k
    requires offset <= start || start == |frames|
    requires Reading(decode, frames, start, Max(k, start), maxBytes, records, used)
    ensures if full then records' == StoredRange(decode, frames, start, RunEnd(frames, start, start, 0, maxBytes))
            else Reading(decode, frames, start, Max(end, start), maxBytes, records', used')
  {
    var rest := buffer;
    ghost var next := k;
    records', used', full := records, used, false;
    while rest != []
      invariant k <= next <= end && rest == left(next)
      invariant Reading(decode, frames, start, Max(next, start), maxBytes, records', used')
      decreases |rest|
    {
      assert DecodesAt(decode, frames, left, next, end);
      match decode(rest) {
        case Success(Some((record, tail))) =>
          var size := |rest| - |tail|;
          rest, next := tail, next + 1;
          ReadingOne(decode, frames, start, next - 1, offset, maxBytes, records', used');
          if record.offset < offset {
            continue;
          }
          if records' != [] && SaturatingAdd(used', size) > maxBytes {
            full := true;
            return;
          }
          used', records' := SaturatingAdd(used', size), records' + [record];
        case _ =>
          assert false;
      }
    }
    assert DecodesAt(decode, frames, left, next, end);
  }

  /** Read a segment file record by record: what is complete at its front, the index over it, and the producers so far. */
  method RecoverSegment(decode: Decoder, contents: bytes, nextOffset: nat, interval: nat, producers: ProducerTable)
    returns (r: Result<Recovered, StorageError>)
    requires SelfDelimiting(decode)
    ensures r == RecoverFrom(decode, interval, contents, 0, nextOffset, [], producers)
  {
    var buffer, next: nat, index, table := contents, nextOffset, [], producers;
    while true
      invariant |buffer| <= |contents|
      invariant RecoverFrom(decode, interval, buffer, |contents| - |buffer|, next, index, table)
                == RecoverFrom(decode, interval, contents, 0, nextOffset, [], producers)
      decreases |buffer|
    {
      var position := |contents| - |buffer|;
      match decode(buffer) {
        case Failure(error) =>
          return Failure(error);
        case Success(None) =>
          return Success(Recovered(next, position, index, table));
        case Success(Some((stored, rest))) =>
          assert Decodes(decode, buffer, stored, rest);
          buffer := rest;
          if stored.offset != next {
            return Failure(UnexpectedOffset(next, stored.offset));
          }
          var checked := CheckProducer(table, stored.record);
          if checked.Failure? {
            return Failure(checked.error);
          }
          table := Noted(table, stored.record, next);
          if index == [] || Since(position, index[|index| - 1].position) >= interval {
            index := index + [IndexEntry(next, position)];
          }
          if next >= U64_MAX {
            return Failure(OffsetOverflow);
          }
          next := next + 1;
      }
    }
  }

  /** `Iterator::find` by offset. */
  method FindOffset(records: seq<Stored>, offset: nat) returns (r: Option<Stored>)
    ensures r.Some? ==> r.value in records && r.value.offset == offset
    ensures r.None? ==> forall s :: s in records ==> s.offset != offset
  {
    for i := 0 to |records|
      invariant forall j :: 0 <= j < i ==> records[j].offset != offset
    {
      if records[i].offset == offset {
        return Some(records[i]);
      }
    }
    return None;
  }

  /** The records before an offset, in order. */
  method KeepBefore(records: seq<Stored>, offset: nat) returns (kept: seq<Stored>)
    requires forall i, j :: 0 <= i < j < |records| ==> records[i].offset < records[j].offset
    ensures kept <= records
    ensures forall s :: s in kept ==> s.offset < offset
    ensures |kept| < |records| ==> records[|kept|].offset >= offset
  {
    kept := [];
    for i := 0 to |records|
      invariant |kept| <= i && kept == records[..|kept|]
      invariant forall s :: s in kept ==> s.offset < offset
      invariant |kept| < i ==> records[|kept|].offset >= offset
    {
      if records[i].offset < offset {
        kept := kept + [records[i]];
      }
    }
  }

  predicate SamePayload(a: Record, b: Record) {
    a.timestamp == b.timestamp && a.key == b.key && a.value == b.value
  }

  /** What replication sees of a log. */
  function PayloadOf(r: Record): Replica.Payload {
    Replica.Payload(r.timestamp, r.key, r.value)
  }

  function Payloads(records: seq<Record>): (log: Replica.Log)
    ensures |log| == |records|
  {
    seq(|records|, i requires 0 <= i < |records| => PayloadOf(records[i]))
  }

  /** A log that still starts at offset 0 does with a replicated record what the replication protocol is proved for. */
  lemma StoresLikeReplica(history: seq<Record>, offset: nat, record: Record)
    ensures Replica.AppendReplica(Payloads(history), offset, PayloadOf(record))
            == if offset > |history| then Failure(Replica.UnexpectedOffset(|history|, offset))
               else if offset == |history| then Success(Payloads(history + [record]))
               else if SamePayload(history[offset], record) then Success(Payloads(history))
               else Failure(Replica.ReplicaDiverged(offset))
  {
    if offset == |history| {
      assert Payloads(history + [record]) == Payloads(history) + [PayloadOf(record)];
    }
  }

  /** Truncation commutes with the view. */
  lemma TruncatesLikeReplica(history: seq<Record>, length: nat)
    requires length <= |history|
    ensures Payloads(history[..length]) == Replica.Truncated(Payloads(history), length)
  {
  }

  ghost predicate AllFit(records: seq<Record>) {
    forall r :: r in records ==> FitsLimit(r)
  }

  /** Of everything a log reads, the front before `offset` is the history from its low watermark up to there. */
  lemma KeptOfAll(decode: Decoder, frames: seq<bytes>, low: nat, offset: nat, all: seq<Stored>, retained: seq<Stored>)
    requires low <= |frames| <= U64_MAX && offset <= |frames| && all == ReadSpec(decode, frames, low, 0, U64_MAX)
    requires retained <= all && (forall s :: s in retained ==> s.offset < offset)
    requires |retained| < |all| ==> all[|retained|].offset >= offset
    ensures |retained| == if offset <= low then 0 else offset - low
    ensures forall i :: 0 <= i < |retained| ==> retained[i].record == Records(decode, frames)[low + i]
  {
    NoLimitReadsAll(frames, low, low, 0);
    KeptRecords(decode, frames, low, offset, retained);
  }

  method KeepOfAll(all: seq<Stored>, offset: nat, ghost decode: Decoder, ghost frames: seq<bytes>, ghost low: nat)
    returns (retained: seq<Stored>)
    requires low <= |frames| <= U64_MAX && offset <= |frames| && all == ReadSpec(decode, frames, low, 0, U64_MAX)
    ensures |retained| == if offset <= low then 0 else offset - low
    ensures forall i :: 0 <= i < |retained| ==> retained[i].record == Records(decode, frames)[low + i]
  {
    retained := KeepBefore(all, offset);
    KeptOfAll(decode, frames, low, offset, all, retained);
  }

  /** A record of the history is accepted again behind those before it, if it fits. */
  lemma ReplayStep(history: seq<Record>, i: nat, n: nat)
    requires Chained(history) && i < n <= |history| <= U64_MAX
    ensures Judge(Table(history[..i]), history[i]) == if FitsLimit(history[i]) then Accepted else Refused(RecordTooLarge)
    ensures history[..i + 1] == history[..i] + [history[i]] && history[i] in history[..n]
    ensures AllFit(history[..i]) && FitsLimit(history[i]) ==> AllFit(history[..i + 1])
  {
    AcceptedAgain(history, i);
    OneMoreInFront(history, i, n);
    FitsOneMore(history[..i], history[i]);
  }

  lemma OneMoreInFront(history: seq<Record>, i: nat, n: nat)
    requires i < n <= |history|
    ensures history[..i + 1] == history[..i] + [history[i]] && history[i] in history[..n]
  {
    assert history[..n][i] == history[i];
  }

  lemma FitsOneMore(front: seq<Record>, r: Record)
    ensures AllFit(front) && FitsLimit(r) ==> AllFit(front + [r])
  {
  }

  function TotalLength(segments: seq<Segment>): nat {
    if segments == [] then 0 else segments[0].length + TotalLength(segments[1..])
  }

  /** Whether retention removes the first of `segments`; `aged` names the files that are too old. */
  predicate Expires(segments: seq<Segment>, maxBytes: Option<nat>, aged: set<nat>) {
    && |segments| > 1
    && ((maxBytes.Some? && TotalLength(segments) > maxBytes.value) || segments[0].base in aged)
  }

  /** Retention removes the first `n` of `segments` one after the other. */
  ghost predicate Expire(segments: seq<Segment>, n: nat, maxBytes: Option<nat>, aged: set<nat>) {
    n <= |segments| && forall i :: 0 <= i < n ==> Expires(segments[i..], maxBytes, aged)
  }

  lemma OneMoreExpires(segments: seq<Segment>, n: nat, maxBytes: Option<nat>, aged: set<nat>)
    requires Expire(segments, n, maxBytes, aged) && n < |segments| && Expires(segments[n..], maxBytes, aged)
    ensures Expire(segments, n + 1, maxBytes, aged) && segments[n..][1..] == segments[n + 1..]
    ensures TotalLength(segments[n..]) == segments[n].length + TotalLength(segments[n + 1..])
  {
  }

  /** What retention measures is the size of the log that is still stored, from the first of the segments on. */
  lemma {:induction false} TotalIsSize(frames: seq<bytes>, interval: nat, segments: seq<Segment>, files: Files, n: nat)
    requires Layout(frames, interval, segments, files) && n < |segments|
    ensures segments[n].base <= |frames|
    ensures TotalLength(segments[n..]) == |Flatten(frames[segments[n].base..])|
    decreases |segments| - n
  {
    assert SegmentOk(frames, interval, segments, files, n);
    assert segments[n..][1..] == segments[n + 1..];
    if n + 1 < |segments| {
      TotalIsSize(frames, interval, segments, files, n + 1);
      SizeJoins(frames, segments[n].base, segments[n + 1].base);
    } else {
      assert Part(frames, segments, n) == frames[segments[n].base..];
    }
  }

  lemma SizeJoins(frames: seq<bytes>, from: nat, mid: nat)
    requires from <= mid <= |frames|
    ensures |Flatten(frames[from..])| == |Flatten(frames[from..mid])| + |Flatten(frames[mid..])|
  {
    assert frames[from..] == frames[from..mid] + frames[mid..];
    FlattenConcat(frames[from..mid], frames[mid..]);
  }

  /** The size of what is stored from a segment on. */
  ghost predicate TooLarge(frames: seq<bytes>, base: nat, maxBytes: Option<nat>) {
    maxBytes.Some? && base <= |frames| && |Flatten(frames[base..])| > maxBytes.value
  }

  lemma ExpiresIff(frames: seq<bytes>, interval: nat, segments: seq<Segment>, files: Files, n: nat, maxBytes: Option<nat>,
                   aged: set<nat>)
    requires Layout(frames, interval, segments, files) && n < |segments|
    ensures Expires(segments[n..], maxBytes, aged)
            <==> n + 1 < |segments| && (TooLarge(frames, segments[n].base, maxBytes) || segments[n].base in aged)
  {
    TotalIsSize(frames, interval, segments, files, n);
  }

  /** What is behind the first records of a segment's file. */
  lemma RestOfPart(frames: seq<bytes>, base: nat, end: nat, skip: nat)
    requires base <= end <= |frames| && skip <= end - base
    ensures var part := frames[base..end]; var position := |Flatten(part[..skip])|;
            position <= |Flatten(part)| && Flatten(part)[position..] == Flatten(frames[base + skip..end])
  {
    var part := frames[base..end];
    assert part == part[..skip] + part[skip..];
    FlattenConcat(part[..skip], part[skip..]);
    assert part[skip..] == frames[base + skip..end];
  }

  /** Where a read of segment `i` starts to decode, and what is left of the file from there. */
  lemma LookupIn(frames: seq<bytes>, interval: nat, segments: seq<Segment>, files: Files, i: nat, offset: nat, position: nat)
    returns (k: nat)
    requires Layout(frames, interval, segments, files) && i < |segments|
    requires position == var point := PartitionPoint(segments[i].index, offset);
                         if point == 0 then 0 else segments[i].index[point - 1].position
    ensures segments[i].base <= k <= End(segments, |frames|, i) <= |frames|
    ensures k > segments[i].base ==> k <= offset
    ensures segments[i].base in files && position <= |files[segments[i].base]|
    ensures files[segments[i].base][position..] == Flatten(frames[k..End(segments, |frames|, i)])
  {
    assert SegmentOk(frames, interval, segments, files, i);
    var skip := LookupPoint(Part(frames, segments, i), segments[i].base, interval, offset);
    k := segments[i].base + skip;
    RestOfPart(frames, segments[i].base, End(segments, |frames|, i), skip);
  }

  class PartitionLog {
    const format: Format
    const maxSegmentBytes: nat
    const indexIntervalBytes: nat
    var nextOffset: nat
    var segments: seq<Segment>
    var files: Files
    var producers: ProducerTable
    /** Every frame appended since offset 0, those that retention removed included. */
    ghost var frames: seq<bytes>

    ghost function Abstract(): State
      reads this
    {
      State(nextOffset, producers, segments, files)
    }

    ghost predicate Valid()
      reads this
    {
      && Lawful(format)
      && maxSegmentBytes > 0 && indexIntervalBytes > 0
      && Abstract().Holds(format.decode, indexIntervalBytes, frames)
    }

    ghost function History(): seq<Record>
      reads this
    {
      Records(format.decode, frames)
    }

    function LowWatermark(): nat
      reads this
    {
      if segments == [] then nextOffset else segments[0].base
    }

    constructor (format: Format, maxSegmentBytes: nat, indexIntervalBytes: nat, found: Opened, ghost frames: seq<bytes>)
      ensures this.format == format
      ensures this.maxSegmentBytes == maxSegmentBytes && this.indexIntervalBytes == indexIntervalBytes
      ensures Abstract() == State(found.next, found.table, found.segments, found.files) && this.frames == frames
    {
      this.format, this.maxSegmentBytes, this.indexIntervalBytes := format, maxSegmentBytes, indexIntervalBytes;
      nextOffset, segments, files, producers := found.next, found.segments, found.files, found.table;
      this.frames := frames;
    }

    /**
     Open a directory: recover its segments in order of their bases, each where the one before it ended, and cut an
     incomplete record off the last one. Whatever opens is a log.
     */
    static method Open(format: Format, maxSegmentBytes: nat, indexIntervalBytes: nat, files: Files)
      returns (r: Result<PartitionLog, StorageError>)
      requires Lawful(format)
      ensures maxSegmentBytes == 0 ==> r == Failure(InvalidSegmentLimit)
      ensures maxSegmentBytes > 0 && indexIntervalBytes == 0 ==> r == Failure(InvalidIndexInterval)
      ensures maxSegmentBytes > 0 && indexIntervalBytes > 0 ==>
                match OpenFiles(format.decode, indexIntervalBytes, files)
                case Failure(error) => r == Failure(error)
                case Success(found) =>
                  && r.Success? && fresh(r.value) && r.value.Valid() && r.value.Abstract() == StateOf(found)
                  && r.value.format == format && r.value.maxSegmentBytes == maxSegmentBytes
                  && r.value.indexIntervalBytes == indexIntervalBytes
    {
      if maxSegmentBytes == 0 {
        return Failure(InvalidSegmentLimit);
      }
      if indexIntervalBytes == 0 {
        return Failure(InvalidIndexInterval);
      }
      var decode, found := format.decode, Discovered(files);
      var bases := SortedNames(found.Keys);
      var reached := Opened(0, map[], [], found);
      ghost var result := OpenSegments(decode, indexIntervalBytes, bases, 0, reached);
      var i := 0;
      while i < |bases|
        invariant i <= |bases| && reached.files.Keys == found.Keys
        invariant OpenSegments(decode, indexIntervalBytes, bases, i, reached) == result
      {
        assert bases[i] in reached.files;
        var next := OpenNext(decode, bases[i], i == |bases| - 1, indexIntervalBytes, reached);
        if next.Failure? {
          return Failure(next.error);
        }
        reached, i := next.value, i + 1;
      }
      ghost var frames := OpenedHolds(decode, indexIntervalBytes, files);
      var log := new PartitionLog(format, maxSegmentBytes, indexIntervalBytes, reached, frames);
      return Success(log);
    }

    static method OpenNext(decode: Decoder, base: nat, active: bool, indexIntervalBytes: nat, reached: Opened)
      returns (r: Result<Opened, StorageError>)
      requires SelfDelimiting(decode) && base in reached.files
      ensures r == OpenSegment(decode, indexIntervalBytes, base, active, reached)
    {
      if base != reached.next {
        return Failure(UnexpectedSegmentBase(reached.next, base));
      }
      var contents := reached.files[base];
      var recovered := RecoverSegment(decode, contents, reached.next, indexIntervalBytes, reached.table);
      if recovered.Failure? {
        return Failure(recovered.error);
      }
      var (next, validLength, index, table) :=
        (recovered.value.next, recovered.value.validLength, recovered.value.index, recovered.value.table);
      if validLength < |contents| {
        if !active {
          return Failure(IncompleteClosedSegment(base));
        }
        contents := contents[..validLength];
      }
      return Success(Opened(next, table, reached.segments + [Segment(base, validLength, index)],
                            reached.files[base := contents]));
    }

    /** A new empty file; `create_new` refuses an existing one. */
    method CreateSegment(base: nat) returns (r: Result<Segment, StorageError>)
      modifies this`files
      ensures base in old(files) ==> r == Failure(FileExists) && files == old(files)
      ensures base !in old(files) ==> r == Success(Segment(base, 0, [])) && files == old(files)[base := []]
    {
      if base in files {
        return Failure(FileExists);
      }
      files := files[base := []];
      return Success(Segment(base, 0, []));
    }

    method Rotate() returns (r: Result<Unit, StorageError>)
      requires Valid() && Abstract().Active().base < nextOffset
      modifies this`files, this`segments
      ensures Valid() && r == Success(Done) && Abstract() == old(Abstract()).Rotated()
    {
      RotatedHolds(Abstract(), format.decode, indexIntervalBytes, frames);
      var created := CreateSegment(nextOffset);
      match created {
        case Failure(error) =>
          r := Failure(error);
        case Success(segment) =>
          segments := segments + [segment];
          r := Success(Done);
      }
    }

    /** Start a new segment unless the active one is empty or has room. */
    method RotateFor(size: nat) returns (r: Result<Unit, StorageError>)
      requires Valid()
      modifies this`files, this`segments
      ensures Valid() && r == Success(Done)
      ensures old(segments) != [] && Abstract() == Placed(old(Abstract()), size, maxSegmentBytes)
      ensures Bases(segments) == BasesFor(old(Abstract()), size, maxSegmentBytes)
    {
      HasActive(Abstract(), format.decode, indexIntervalBytes, frames);
      RotatedBases(Abstract());
      if NeedsRotation(segments[|segments| - 1], size, maxSegmentBytes) {
        r := Rotate();
      } else {
        r := Success(Done);
      }
    }

    /** Append an encoded record to the active files, with an index entry when one is due. */
    method Write(encoded: bytes)
      requires segments != [] && Abstract().Active().base in files
      modifies this`files, this`segments
      ensures Abstract() == old(Abstract()).Written(encoded, indexIntervalBytes)
    {
      var active := segments[|segments| - 1];
      var shouldIndex := active.index == []
                         || Since(active.length, active.index[|active.index| - 1].position) >= indexIntervalBytes;
      files := files[active.base := files[active.base] + encoded];
      active := active.(length := active.length + |encoded|,
                        index := if shouldIndex then active.index + [IndexEntry(nextOffset, active.length)] else active.index);
      segments := segments[..|segments| - 1] + [active];
    }

    /** Append one record, or answer a retry of a producer's latest record with its offset. */
    method Append(record: Record) returns (r: Result<nat, StorageError>)
      requires Valid()
      modifies this
      ensures Judge(old(producers), record).Duplicate? ==>
                r == Success(Judge(old(producers), record).offset) && Abstract() == old(Abstract()) && frames == old(frames)
      ensures Judge(old(producers), record).Refused? ==>
                r == Failure(Judge(old(producers), record).error) && Abstract() == old(Abstract()) && frames == old(frames)
      ensures Judge(old(producers), record).Accepted? && old(nextOffset) < U64_MAX ==>
                && r == Success(old(nextOffset))
                && frames == old(frames) + [format.encode(record, old(nextOffset)).value]
                && History() == old(History()) + [record]
                && Bases(segments) == BasesFor(old(Abstract()), EncodedSize(record), maxSegmentBytes)
      ensures Judge(old(producers), record).Accepted? && old(nextOffset) == U64_MAX ==>
                && r == Failure(OffsetOverflow) && frames == old(frames)
                && var encoded := format.encode(record, old(nextOffset)).value;
                   WrittenOnly(old(Abstract()), Abstract(), encoded, maxSegmentBytes, indexIntervalBytes)
      ensures r != Failure(OffsetOverflow) ==> Valid() && LowWatermark() == old(LowWatermark())
    {
      if record.producer.Some? {
        var p := record.producer.value;
        if !ValidProducerId(p.id) {
          return Failure(InvalidProducerId);
        }
        if p.id in producers {
          var (sequence, offset) := producers[p.id];
          if sequence == p.sequence {
            return Success(offset);
          }
          if p.sequence != SaturatingNext(sequence) {
            return Failure(UnexpectedProducerSequence(SaturatingNext(sequence), p.sequence));
          }
        } else if p.sequence != 0 {
          return Failure(UnexpectedProducerSequence(0, p.sequence));
        }
      }
      var offset := nextOffset;
      var encoded :- format.encode(record, offset);
      assert Decodes(format.decode, encoded, Stored(offset, record), []) && |encoded| == EncodedSize(record);
      assert CheckProducer(producers, record).Success?;
      r := AppendEncoded(record, encoded);
    }

    static lemma FirstBase(before: State, after: State, size: nat, maxSegmentBytes: nat)
      requires before.segments != [] && Bases(after.segments) == BasesFor(before, size, maxSegmentBytes)
      ensures after.segments != [] && after.segments[0].base == before.segments[0].base
    {
      assert Bases(after.segments)[0] == Bases(before.segments)[0];
    }

    method AppendEncoded(record: Record, encoded: bytes) returns (r: Result<nat, StorageError>)
      requires Valid()
      requires Decodes(format.decode, encoded, Stored(nextOffset, record), []) && CheckProducer(producers, record).Success?
      modifies this
      ensures old(nextOffset) == U64_MAX ==>
                && r == Failure(OffsetOverflow) && frames == old(frames)
                && WrittenOnly(old(Abstract()), Abstract(), encoded, maxSegmentBytes, indexIntervalBytes)
      ensures old(nextOffset) < U64_MAX ==>
                && Valid() && r == Success(old(nextOffset)) && frames == old(frames) + [encoded]
                && Bases(segments) == BasesFor(old(Abstract()), |encoded|, maxSegmentBytes)
                && LowWatermark() == old(LowWatermark())
    {
      var rotated := RotateFor(|encoded|);
      match rotated {
        case Failure(error) => return Failure(error);
        case Success(_) =>
      }
      ghost var before := Abstract();
      HasActive(before, format.decode, indexIntervalBytes, frames);
      WrittenBases(before, encoded, indexIntervalBytes);
      r := Store(record, encoded);
      if old(nextOffset) < U64_MAX {
        FirstBase(old(Abstract()), Abstract(), |encoded|, maxSegmentBytes);
      }
    }

    /** Write a record into the active segment and count it. */
    method Store(record: Record, encoded: bytes) returns (r: Result<nat, StorageError>)
      requires Valid() && segments != [] && Abstract().Active().base in files
      requires Decodes(format.decode, encoded, Stored(nextOffset, record), []) && CheckProducer(producers, record).Success?
      modifies this
      ensures old(nextOffset) == U64_MAX ==>
                && r == Failure(OffsetOverflow) && frames == old(frames)
                && Abstract() == old(Abstract()).Written(encoded, indexIntervalBytes)
      ensures old(nextOffset) < U64_MAX ==>
                && Valid() && r == Success(old(nextOffset)) && frames == old(frames) + [encoded]
                && Abstract() == old(Abstract()).Written(encoded, indexIntervalBytes).Counted(record)
    {
      var offset := nextOffset;
      ghost var before := Abstract();
      Write(encoded);
      if nextOffset == U64_MAX {
        return Failure(OffsetOverflow);
      }
      AppendedHolds(before, format.decode, indexIntervalBytes, frames, encoded, record);
      nextOffset := nextOffset + 1;
      if record.producer.Some? {
        producers := producers[record.producer.value.id := (record.producer.value.sequence, offset)];
      }
      frames := frames + [encoded];
      assert Abstract() == before.Written(encoded, indexIntervalBytes).Counted(record);
      return Success(offset);
    }

    /**
     The records from `offset` on, up to a byte limit: whole segments before the offset are skipped, the sparse index
     gives the place to start in the first one read, and records are decoded from there.
     */
    method Read(offset: nat, maxBytes: nat) returns (r: Result<seq<Stored>, StorageError>)
      requires Valid() && maxBytes <= U64_MAX
      ensures maxBytes == 0 ==> r == Failure(InvalidReadLimit)
      ensures maxBytes > 0 ==> r == Success(ReadSpec(format.decode, frames, LowWatermark(), offset, maxBytes))
    {
      if maxBytes == 0 {
        return Failure(InvalidReadLimit);
      }
      HasActive(Abstract(), format.decode, indexIntervalBytes, frames);
      var records, used, full := [], 0, false;
      ghost var start := Start(segments[0].base, nextOffset, offset);
      ghost var end := RunEnd(frames, start, start, 0, maxBytes);
      var i := 0;
      while i < |segments|
        invariant i <= |segments|
        invariant var cur := Max(if i < |segments| then segments[i].base else nextOffset, start);
                  Reading(format.decode, frames, start, cur, maxBytes, records, used)
      {
        if i + 1 < |segments| && offset >= segments[i + 1].base {
        } else {
          var more;
          more, used, full := ReadSegment(i, offset, maxBytes, records, used);
          records := more;
          if full {
            return Success(records);
          }
        }
        i := i + 1;
      }
      return Success(records);
    }

    /** The part of a read that one segment contributes, and whether the limit was reached there. */
    method ReadSegment(i: nat, offset: nat, maxBytes: nat, records: seq<Stored>, used: nat)
      returns (records': seq<Stored>, used': nat, full: bool)
      requires Valid() && 0 < maxBytes <= U64_MAX && i < |segments|
      requires i + 1 < |segments| ==> offset < segments[i + 1].base
      requires var start := Start(segments[0].base, nextOffset, offset);
               Reading(format.decode, frames, start, Max(segments[i].base, start), maxBytes, records, used)
      ensures var start := Start(segments[0].base, nextOffset, offset);
              if full then
                records' == StoredRange(format.decode, frames, start, RunEnd(frames, start, start, 0, maxBytes))
              else
                Reading(format.decode, frames, start, Max(End(segments, nextOffset, i), start), maxBytes, records', used')
    {
      var segment := segments[i];
      ghost var start, end := Start(segments[0].base, nextOffset, offset), End(segments, nextOffset, i);
      var point := PartitionPoint(segment.index, offset);
      var position := if point == 0 then 0 else segment.index[point - 1].position;
      ghost var k := LookupStart(i, offset, position);
      var buffer := files[segment.base][position..];
      forall j | k <= j <= end
        ensures DecodesAt(format.decode, frames, Left(frames, end), j, end)
      {
        AtEveryFrame(format.decode, frames, j, end);
      }
      records', used', full := TakeRecords(format.decode, buffer, offset, maxBytes, records, used,
                                           frames, start, k, end, Left(frames, end));
    }

    lemma LookupStart(i: nat, offset: nat, position: nat) returns (k: nat)
      requires Valid() && i < |segments|
      requires position == var point := PartitionPoint(segments[i].index, offset);
                           if point == 0 then 0 else segments[i].index[point - 1].position
      ensures segments[i].base <= k <= End(segments, nextOffset, i)
      ensures k > segments[i].base ==> k <= offset
      ensures segments[i].base in files && position <= |files[segments[i].base]|
      ensures files[segments[i].base][position..] == Flatten(frames[k..End(segments, nextOffset, i)])
    {
      k := LookupIn(frames, indexIntervalBytes, segments, files, i, offset, position);
    }

    /** Store a replicated record, or confirm that the same record is already at its offset. */
    method AppendReplica(offset: nat, record: Record) returns (r: Result<nat, StorageError>)
      requires Valid()
      modifies this
      ensures offset != old(nextOffset) ==> Abstract() == old(Abstract()) && frames == old(frames)
      ensures offset > old(nextOffset) ==> r == Failure(UnexpectedOffset(old(nextOffset), offset))
      ensures offset < old(nextOffset) ==>
                r == if old(LowWatermark()) <= offset && SamePayload(old(History())[offset], record)
                     then Success(offset)
                     else Failure(ReplicaDiverged(offset))
      ensures offset == old(nextOffset) && Judge(old(producers), record).Accepted? && offset < U64_MAX ==>
                r == Success(offset) && History() == old(History()) + [record]
      ensures offset == old(nextOffset) && Judge(old(producers), record).Duplicate? ==>
                r == Success(Judge(old(producers), record).offset) && Abstract() == old(Abstract()) && frames == old(frames)
      ensures offset == old(nextOffset) && Judge(old(producers), record).Refused? ==>
                r == Failure(Judge(old(producers), record).error) && Abstract() == old(Abstract()) && frames == old(frames)
      ensures old(LowWatermark()) == 0 && record.producer.None? && FitsLimit(record) && old(nextOffset) < U64_MAX ==>
                match Replica.AppendReplica(Payloads(old(History())), offset, PayloadOf(record))
                case Success(log) => r == Success(offset) && Payloads(History()) == log
                case Failure(_) => r.Failure? && History() == old(History())
      ensures r != Failure(OffsetOverflow) ==> Valid()
    {
      StoresLikeReplica(History(), offset, record);
      if offset < nextOffset {
        var found := Read(offset, MAX_RECORD_SIZE);
        HasActive(Abstract(), format.decode, indexIntervalBytes, frames);
        FirstIsStart(frames, Start(segments[0].base, nextOffset, offset), MAX_RECORD_SIZE);
        match found {
          case Failure(error) => return Failure(error);
          case Success(records) =>
            assert LowWatermark() <= offset ==> |records| > 0 && records[0] in records && records[0].offset == offset;
            var existing := FindOffset(records, offset);
            if existing.None? {
              return Failure(ReplicaDiverged(offset));
            }
            if SamePayload(existing.value.record, record) {
              return Success(offset);
            }
            return Failure(ReplicaDiverged(offset));
        }
      }
      if offset != nextOffset {
        return Failure(UnexpectedOffset(nextOffset, offset));
      }
      r := Append(record);
    }

    method RemoveFirst()
      requires Valid() && |segments| > 1
      modifies this`segments, this`files
      ensures Valid() && segments == old(segments)[1..]
    {
      WithoutFirstHolds(Abstract(), format.decode, indexIntervalBytes, frames);
      files := files - {segments[0].base};
      segments := segments[1..];
    }

    /** Remove the oldest segments while the log is over its size limit or they are too old; the active one always stays. */
    method ApplyRetention(maxBytes: Option<nat>, aged: set<nat>) returns (removed: nat)
      requires Valid()
      modifies this`segments, this`files
      ensures Valid()
      ensures removed < |old(segments)| && segments == old(segments)[removed..]
      ensures Expire(old(segments), removed, maxBytes, aged)
      ensures !Expires(segments, maxBytes, aged)
      ensures forall i :: 0 <= i < removed ==>
                TooLarge(frames, old(segments)[i].base, maxBytes) || old(segments)[i].base in aged
      ensures |segments| == 1 || (!TooLarge(frames, LowWatermark(), maxBytes) && LowWatermark() !in aged)
    {
      forall i | 0 <= i < |segments|
        ensures Expires(segments[i..], maxBytes, aged)
                <==> i + 1 < |segments| && (TooLarge(frames, segments[i].base, maxBytes) || segments[i].base in aged)
      {
        ExpiresIff(frames, indexIntervalBytes, segments, files, i, maxBytes, aged);
      }
      removed := 0;
      ghost var all := segments;
      var totalBytes := TotalLength(segments);
      while |segments| > 1
        invariant Valid() && removed < |all| && segments == all[removed..]
        invariant totalBytes == TotalLength(segments)
        invariant Expire(all, removed, maxBytes, aged)
        decreases |segments|
      {
        var segment := segments[0];
        var overSize := maxBytes.Some? && totalBytes > maxBytes.value;
        var expired := segment.base in aged;
        if !overSize && !expired {
          break;
        }
        OneMoreExpires(all, removed, maxBytes, aged);
        RemoveFirst();
        totalBytes := Since(totalBytes, segment.length);
        removed := removed + 1;
      }
    }

    /** Remove every segment file. */
    method RemoveFiles()
      requires files.Keys == BaseSet(segments)
      modifies this`files
      ensures files == map[]
    {
      ghost var all := files;
      var i := 0;
      while i < |segments|
        invariant i <= |segments|
        invariant files.Keys == BaseSet(segments) - BaseSet(segments[..i])
      {
        assert segments[..i + 1] == segments[..i] + [segments[i]];
        BaseSetJoins(segments[..i], [segments[i]]);
        files := files - {segments[i].base};
        i := i + 1;
      }
      assert segments[..i] == segments;
      assert files.Keys == {};
    }

    /**
     Keep the records before `offset`: read everything, delete the files, and append what is kept again. This yields
     that prefix exactly when the log starts at 0 and every kept record still fits the record limit.
     */
    method TruncateTo(offset: nat) returns (r: Result<Unit, StorageError>)
      requires Valid()
      modifies this
      ensures Valid()
      ensures offset > old(nextOffset) ==>
                r == Failure(UnexpectedOffset(old(nextOffset), offset)) && Abstract() == old(Abstract()) && frames == old(frames)
      ensures offset == old(nextOffset) ==> r == Success(Done) && Abstract() == old(Abstract()) && frames == old(frames)
      ensures offset <= old(nextOffset) && old(LowWatermark()) == 0 && AllFit(old(History())[..offset]) ==>
                r == Success(Done) && History() == old(History())[..offset] && LowWatermark() == 0
      ensures offset < old(nextOffset) && old(LowWatermark()) == 0 && !AllFit(old(History())[..offset]) ==> r.Failure?
      ensures offset < old(nextOffset) ==>
                (r == Success(Done) && nextOffset == offset
                 <==> offset == 0 || (old(LowWatermark()) == 0 && AllFit(old(History())[..offset])))
    {
      if offset > nextOffset {
        return Failure(UnexpectedOffset(nextOffset, offset));
      }
      if offset == nextOffset {
        return Success(Done);
      }
      var read := ReadBefore(offset);
      match read {
        case Failure(error) => return Failure(error);
        case Success(retained) =>
          ghost var low, before := LowWatermark(), History();
          var cleared := Clear();
          match cleared {
            case Failure(error) => return Failure(error);
            case Success(_) => r := Replay(retained, before, low);
          }
      }
    }

    /** The stored records before `offset`. */
    method ReadBefore(offset: nat) returns (r: Result<seq<Stored>, StorageError>)
      requires Valid() && offset < nextOffset
      ensures r.Success? && |r.value| == (if offset <= LowWatermark() then 0 else offset - LowWatermark())
      ensures LowWatermark() + |r.value| <= |History()| == nextOffset <= U64_MAX && Chained(History())
      ensures forall i :: 0 <= i < |r.value| ==> r.value[i].record == History()[LowWatermark() + i]
    {
      HasActive(Abstract(), format.decode, indexIntervalBytes, frames);
      var read := Read(0, U64_MAX);
      match read {
        case Failure(error) => return Failure(error);
        case Success(all) =>
          var retained := KeepOfAll(all, offset, format.decode, frames, LowWatermark());
          return Success(retained);
      }
    }

    /** Delete all files and start again with one empty segment at offset 0. */
    method Clear() returns (r: Result<Unit, StorageError>)
      requires Valid()
      modifies this
      ensures Valid() && r == Success(Done) && frames == [] && LowWatermark() == 0
    {
      RemoveFiles();
      var created := CreateSegment(0);
      match created {
        case Failure(error) => return Failure(error);
        case Success(segment) =>
          segments, nextOffset, producers, frames := [segment], 0, map[], [];
          EmptyHolds(format.decode, indexIntervalBytes);
          assert Abstract() == State(0, map[], [Segment(0, 0, [])], map[0 := []]);
          return Success(Done);
      }
    }

    /** Append records to the emptied log one after the other, until one fails. */
    method Replay(retained: seq<Stored>, ghost history: seq<Record>, ghost low: nat) returns (r: Result<Unit, StorageError>)
      requires Valid() && frames == [] && LowWatermark() == 0
      requires Chained(history) && low + |retained| <= |history| <= U64_MAX
      requires forall i :: 0 <= i < |retained| ==> retained[i].record == history[low + i]
      modifies this
      ensures Valid()
      ensures r.Success? ==> nextOffset <= |retained|
      ensures retained == [] ==> r == Success(Done)
      ensures low == 0 ==>
                if AllFit(history[..|retained|])
                then r == Success(Done) && History() == history[..|retained|] && LowWatermark() == 0
                else r.Failure?
    {
      var i := 0;
      while i < |retained|
        invariant i <= |retained| && Valid() && nextOffset <= i && LowWatermark() == 0
        invariant low == 0 ==> History() == history[..i] && AllFit(history[..i])
      {
        if low == 0 {
          ReplayStep(history, i, |retained|);
        }
        var appended := Append(retained[i].record);
        match appended {
          case Failure(error) => return Failure(error);
          case Success(_) =>
        }
        i := i + 1;
      }
      return Success(Done);
    }
  }
}
