/**
 The abstract partition log. A log is a sequence of frames, the encodings of its records: the frame at position `i`
 decodes to the record with offset `i`. Frames rather than records are the state because a segment may hold version 1
 and version 2 encodings, and because file positions are sums of frame lengths.
 */
module LogModel {
  import opened Wrappers
  import opened Bytes
  import opened RecordCodec

  datatype IndexEntry = IndexEntry(offset: nat, position: nat)

  /** Per producer id: the latest sequence and the offset of its record. */
  type ProducerTable = map<bytes, (u64, nat)>

  /** `frame` is the whole encoding of one record, with offset `offset`. */
  ghost predicate Framed(decode: Decoder, frame: bytes, offset: nat) {
    match decode(frame)
    case Success(Some((stored, rest))) => rest == [] && stored.offset == offset
    case _ => false
  }

  ghost function RecordOf(decode: Decoder, frame: bytes): Record {
    match decode(frame)
    case Success(Some((stored, _))) => stored.record
    case _ => Record(None, [], 0, None)
  }

  ghost function Records(decode: Decoder, frames: seq<bytes>): (r: seq<Record>)
    ensures |r| == |frames|
  {
    seq(|frames|, i requires 0 <= i < |frames| => RecordOf(decode, frames[i]))
  }

  function Flatten(frames: seq<bytes>): bytes {
    if frames == [] then [] else Flatten(frames[..|frames| - 1]) + frames[|frames| - 1]
  }

  lemma {:induction false} FlattenConcat(a: seq<bytes>, b: seq<bytes>)
    ensures Flatten(a + b) == Flatten(a) + Flatten(b)
  {
    if b == [] {
      assert a + b == a;
    } else {
      var init := b[..|b| - 1];
      assert (a + b)[..|a + b| - 1] == a + init;
      FlattenConcat(a, init);
    }
  }

  lemma FlattenFront(frames: seq<bytes>)
    requires frames != []
    ensures Flatten(frames) == frames[0] + Flatten(frames[1..])
  {
    assert frames == [frames[0]] + frames[1..];
    FlattenConcat([frames[0]], frames[1..]);
    assert Flatten([frames[0]]) == frames[0];
  }

  // ---------------------------------------------------------------- sparse index

  function AddEntry(index: seq<IndexEntry>, offset: nat, position: nat, interval: nat): seq<IndexEntry> {
    if index == [] || Since(position, index[|index| - 1].position) >= interval
    then index + [IndexEntry(offset, position)]
    else index
  }

  /** Saturating subtraction. */
  function Since(position: nat, start: nat): nat {
    if position >= start then position - start else 0
  }

  /** The index of a segment with base offset `base` and these frames. */
  function SparseIndex(frames: seq<bytes>, base: nat, interval: nat): seq<IndexEntry> {
    if frames == [] then []
    else
      var init := frames[..|frames| - 1];
      AddEntry(SparseIndex(init, base, interval), base + |init|, |Flatten(init)|, interval)
  }

  /** Entry `e` points at the start of a frame of the segment. */
  ghost predicate PointsInto(e: IndexEntry, frames: seq<bytes>, base: nat) {
    && base <= e.offset < base + |frames|
    && e.position == |Flatten(frames[..e.offset - base])|
  }

  lemma {:induction false} SparseIndexShape(frames: seq<bytes>, base: nat, interval: nat)
    ensures var index := SparseIndex(frames, base, interval);
            && (forall e :: e in index ==> PointsInto(e, frames, base))
            && (forall i, j :: 0 <= i < j < |index| ==> index[i].offset < index[j].offset)
            && (frames != [] ==> index != [] && index[0] == IndexEntry(base, 0))
  {
    if frames != [] {
      var init := frames[..|frames| - 1];
      SparseIndexShape(init, base, interval);
      var before := SparseIndex(init, base, interval);
      forall i | 0 <= i < |before|
        ensures PointsInto(before[i], frames, base) && before[i].offset < base + |init|
      {
        assert before[i] in before && PointsInto(before[i], init, base);
        assert frames[..before[i].offset - base] == init[..before[i].offset - base];
      }
      assert frames[..|init|] == init;
    }
  }

  /** The index is sparse: any two entries are at least the interval apart. */
  lemma {:induction false} SparseIndexIsSparse(frames: seq<bytes>, base: nat, interval: nat)
    requires interval > 0
    ensures Sparse(SparseIndex(frames, base, interval), interval)
  {
    if frames != [] {
      var init := frames[..|frames| - 1];
      SparseIndexIsSparse(init, base, interval);
      AddedIsFar(SparseIndex(init, base, interval), base + |init|, |Flatten(init)|, interval);
    }
  }

  predicate Sparse(index: seq<IndexEntry>, interval: nat) {
    forall i, j :: 0 <= i < j < |index| ==> index[i].position + interval <= index[j].position
  }

  lemma AddedIsFar(before: seq<IndexEntry>, offset: nat, position: nat, interval: nat)
    requires interval > 0 && Sparse(before, interval)
    ensures Sparse(AddEntry(before, offset, position, interval), interval)
  {
    var index := AddEntry(before, offset, position, interval);
    forall i, j | 0 <= i < j < |index|
      ensures index[i].position + interval <= index[j].position
    {
      if j == |before| && i < |before| - 1 {
        assert before[i].position + interval <= before[|before| - 1].position;
      }
    }
  }

  /** `k` splits the index at `offset`, as `partition_point` does. */
  ghost predicate Splits(index: seq<IndexEntry>, offset: nat, k: nat) {
    && k <= |index|
    && (forall i :: 0 <= i < k ==> index[i].offset <= offset)
    && (forall i :: k <= i < |index| ==> index[i].offset > offset)
  }

  /** Fewer than `interval` bytes lie between the entry a lookup picks and the record it looks for. */
  lemma {:induction false} SparseIndexBound(frames: seq<bytes>, base: nat, interval: nat, offset: nat, k: nat)
    requires interval > 0 && base <= offset < base + |frames|
    requires Splits(SparseIndex(frames, base, interval), offset, k)
    ensures 0 < k
    ensures var e := SparseIndex(frames, base, interval)[k - 1];
            e.position <= |Flatten(frames[..offset - base])| < e.position + interval
  {
    var init := frames[..|frames| - 1];
    var index, before := SparseIndex(frames, base, interval), SparseIndex(init, base, interval);
    if offset < base + |init| {
      EarlierSplit(frames, base, interval, offset, k);
      SparseIndexBound(init, base, interval, offset, k);
      assert init[..offset - base] == frames[..offset - base];
    } else {
      assert frames[..offset - base] == init;
      LastLookup(frames, base, interval, k);
    }
  }

  /** An entry for the last record is beyond every earlier offset, so it does not change where the index splits. */
  lemma EarlierSplit(frames: seq<bytes>, base: nat, interval: nat, offset: nat, k: nat)
    requires frames != [] && offset < base + |frames| - 1
    requires Splits(SparseIndex(frames, base, interval), offset, k)
    ensures var before := SparseIndex(frames[..|frames| - 1], base, interval);
            Splits(before, offset, k) && (k > 0 ==> before[k - 1] == SparseIndex(frames, base, interval)[k - 1])
  {
    var init := frames[..|frames| - 1];
    var index, before := SparseIndex(frames, base, interval), SparseIndex(init, base, interval);
    assert index == before || index == before + [IndexEntry(base + |init|, |Flatten(init)|)];
    assert |index| > |before| ==> index[|before|].offset == base + |init| > offset;
    assert forall i :: 0 <= i < |before| ==> before[i] == index[i];
  }

  lemma LastEntryIsNear(frames: seq<bytes>, base: nat, interval: nat)
    requires interval > 0 && frames != []
    ensures var index := SparseIndex(frames, base, interval);
            index != [] && |Flatten(frames[..|frames| - 1])| < index[|index| - 1].position + interval
  {
  }

  lemma LastLookup(frames: seq<bytes>, base: nat, interval: nat, k: nat)
    requires interval > 0 && frames != []
    requires Splits(SparseIndex(frames, base, interval), base + |frames| - 1, k)
    ensures k == |SparseIndex(frames, base, interval)| > 0
    ensures var init := frames[..|frames| - 1];
            var e := SparseIndex(frames, base, interval)[k - 1];
            e.position <= |Flatten(init)| < e.position + interval
  {
    var index := SparseIndex(frames, base, interval);
    SparseIndexShape(frames, base, interval);
    LastEntryIsNear(frames, base, interval);
    forall i | 0 <= i < |index|
      ensures PointsInto(index[i], frames, base)
    {
      assert index[i] in index;
    }
    PositionsIncrease(frames, index[k - 1].offset - base, |frames| - 1);
  }

  lemma PositionsIncrease(frames: seq<bytes>, i: nat, j: nat)
    requires i <= j <= |frames|
    ensures |Flatten(frames[..i])| <= |Flatten(frames[..j])|
  {
    assert frames[..j] == frames[..i] + frames[i..j];
    FlattenConcat(frames[..i], frames[i..j]);
  }

  // ---------------------------------------------------------------- idempotent producers

  function SaturatingNext(sequence: u64): u64 {
    if sequence == U64_MAX then U64_MAX else sequence + 1
  }

  /** The sequence the table asks of the next record from `id`. */
  function Expected(table: ProducerTable, id: bytes): u64 {
    if id in table then SaturatingNext(table[id].0) else 0
  }

  function Noted(table: ProducerTable, r: Record, offset: nat): ProducerTable {
    match r.producer
    case None => table
    case Some(p) => table[p.id := (p.sequence, offset)]
  }

  function Table(records: seq<Record>): ProducerTable {
    if records == [] then map[]
    else Noted(Table(records[..|records| - 1]), records[|records| - 1], |records| - 1)
  }

  /** Recovery's check of one record against the table. */
  function CheckProducer(table: ProducerTable, r: Record): Result<Unit, StorageError> {
    match r.producer
    case None => Success(Done)
    case Some(p) =>
      if !ValidProducerId(p.id) then Failure(InvalidProducerId)
      else if p.sequence != Expected(table, p.id) then
        Failure(UnexpectedProducerSequence(Expected(table, p.id), p.sequence))
      else Success(Done)
  }

  /** Every record passes recovery's check at its place. */
  ghost predicate Chained(records: seq<Record>) {
    records != [] ==>
      && Chained(records[..|records| - 1])
      && CheckProducer(Table(records[..|records| - 1]), records[|records| - 1]).Success?
  }

  /** What `append` does with a record, before any file is touched. */
  datatype Verdict = Duplicate(offset: nat) | Refused(error: StorageError) | Accepted

  function Judge(table: ProducerTable, r: Record): Verdict {
    if r.producer.Some? then
      var p := r.producer.value;
      if !ValidProducerId(p.id) then Refused(InvalidProducerId)
      else if p.id in table && table[p.id].0 == p.sequence then Duplicate(table[p.id].1)
      else if p.sequence != Expected(table, p.id) then
        Refused(UnexpectedProducerSequence(Expected(table, p.id), p.sequence))
      else if !FitsLimit(r) then Refused(RecordTooLarge)
      else Accepted
    else if !FitsLimit(r) then Refused(RecordTooLarge)
    else Accepted
  }

  function CountOf(records: seq<Record>, id: bytes): nat {
    if records == [] then 0
    else
      CountOf(records[..|records| - 1], id)
      + (if records[|records| - 1].producer.Some? && records[|records| - 1].producer.value.id == id then 1 else 0)
  }

  /** The records of each producer carry sequences 0, 1, 2, ... in offset order, none missing and none twice. */
  ghost predicate ExactlyOnce(records: seq<Record>) {
    forall i :: 0 <= i < |records| && records[i].producer.Some?
                ==> records[i].producer.value.sequence == CountOf(records[..i], records[i].producer.value.id)
  }

  lemma ExactlyOnceSnoc(init: seq<Record>, last: Record)
    ensures ExactlyOnce(init + [last]) <==>
            && ExactlyOnce(init)
            && (last.producer.Some? ==> last.producer.value.sequence == CountOf(init, last.producer.value.id))
  {
    var records := init + [last];
    assert forall i :: 0 <= i <= |init| ==> records[..i] == init[..i];
    assert init[..|init|] == init;
    assert records[|init|] == last;
    assert forall i :: 0 <= i < |init| ==> records[i] == init[i];
  }

  /** The table holds, for each producer with records, the last sequence used and where it is stored. */
  lemma {:induction false} TableIsLatest(records: seq<Record>, id: bytes)
    requires ExactlyOnce(records)
    ensures id in Table(records) <==> CountOf(records, id) > 0
    ensures id in Table(records) ==>
              && Table(records)[id].0 == CountOf(records, id) - 1
              && Table(records)[id].1 < |records|
              && records[Table(records)[id].1].producer == Some(Producer(id, Table(records)[id].0))
  {
    if records != [] {
      var init, last := records[..|records| - 1], records[|records| - 1];
      assert records == init + [last];
      ExactlyOnceSnoc(init, last);
      TableIsLatest(init, id);
      if last.producer.Some? && last.producer.value.id == id {
        assert Table(records)[id] == (last.producer.value.sequence, |init|);
      } else {
        assert id in Table(records) <==> id in Table(init);
        assert id in Table(init) ==> Table(records)[id] == Table(init)[id];
      }
    }
  }

  lemma {:induction false} CountGrows(records: seq<Record>, id: bytes, i: nat, j: nat)
    requires i <= j <= |records|
    ensures CountOf(records[..i], id) <= CountOf(records[..j], id)
    decreases j
  {
    if i < j {
      CountGrows(records, id, i, j - 1);
      assert records[..j][..j - 1] == records[..j - 1];
    }
  }

  /** No producer uses a sequence for two records. */
  lemma SequencesAreDistinct(records: seq<Record>, i: nat, j: nat)
    requires ExactlyOnce(records) && i < j < |records|
    requires records[i].producer.Some? && records[j].producer.Some?
    requires records[i].producer.value.id == records[j].producer.value.id
    ensures records[i].producer.value.sequence < records[j].producer.value.sequence
  {
    var id := records[i].producer.value.id;
    CountGrows(records, id, i + 1, j);
    assert records[..i + 1][..i] == records[..i];
  }

  lemma SequenceIsCount(records: seq<Record>, i: nat, p: Producer)
    requires ExactlyOnce(records) && i < |records| && records[i].producer == Some(p)
    ensures p.sequence + 1 == CountOf(records[..i + 1], p.id) <= CountOf(records, p.id)
  {
    CountGrows(records, p.id, i + 1, |records|);
    assert records[..|records|] == records;
    assert records[..i + 1][..i] == records[..i];
  }

  /** Where the table finds a stored record of a producer: at its own offset if it is the latest, with a later sequence else. */
  lemma TableFinds(records: seq<Record>, i: nat, p: Producer)
    requires ExactlyOnce(records) && i < |records| && records[i].producer == Some(p)
    ensures p.id in Table(records)
    ensures if CountOf(records, p.id) == CountOf(records[..i + 1], p.id) then Table(records)[p.id] == (p.sequence, i)
            else Table(records)[p.id].0 > p.sequence
  {
    TableIsLatest(records, p.id);
    SequenceIsCount(records, i, p);
    var at := Table(records)[p.id].1;
    if at < i {
      SequencesAreDistinct(records, at, i);
    } else if at > i {
      SequencesAreDistinct(records, i, at);
    }
  }

  /** A retry of a producer's latest record is answered with the offset of that record, whatever else it carries. */
  lemma RetryFindsOriginal(records: seq<Record>, i: nat, retry: Record)
    requires ExactlyOnce(records) && i < |records|
    requires retry.producer.Some? && records[i].producer == retry.producer && ValidProducerId(retry.producer.value.id)
    ensures var p := retry.producer.value;
            Judge(Table(records), retry)
            == if CountOf(records, p.id) == CountOf(records[..i + 1], p.id) then Duplicate(i)
               else Refused(UnexpectedProducerSequence(Expected(Table(records), p.id), p.sequence))
  {
    TableFinds(records, i, retry.producer.value);
  }

  lemma {:induction false} CountBound(records: seq<Record>, id: bytes)
    ensures CountOf(records, id) <= |records|
  {
    if records != [] {
      CountBound(records[..|records| - 1], id);
    }
  }

  /**
   What `append` decides, on a log in which each producer's records have sequences 0, 1, 2, and so on: a producer's next
   sequence is accepted if the record fits, its latest one is answered with the offset of that record, and any other one is
   refused, with the number of its records as the expected sequence.
   */
  lemma JudgesByCount(records: seq<Record>, r: Record)
    requires ExactlyOnce(records) && |records| < U64_MAX
    ensures var v := Judge(Table(records), r);
            match r.producer
            case None => v == if FitsLimit(r) then Accepted else Refused(RecordTooLarge)
            case Some(p) =>
              var count := CountOf(records, p.id);
              if !ValidProducerId(p.id) then v == Refused(InvalidProducerId)
              else if p.sequence == count then v == if FitsLimit(r) then Accepted else Refused(RecordTooLarge)
              else if p.sequence + 1 == count then v.Duplicate? && v.offset < |records| && records[v.offset].producer == Some(p)
              else v == Refused(UnexpectedProducerSequence(count, p.sequence))
  {
    if r.producer.Some? {
      TableIsLatest(records, r.producer.value.id);
      ExpectedIsCount(records, r.producer.value.id);
    }
  }

  /** Recovery's check of a whole log says exactly that every producer's records appear once and in sequence. */
  lemma {:induction false} ChainedIsExactlyOnce(records: seq<Record>)
    requires |records| <= U64_MAX
    requires forall i :: 0 <= i < |records| && records[i].producer.Some? ==> ValidProducerId(records[i].producer.value.id)
    ensures Chained(records) <==> ExactlyOnce(records)
  {
    if records != [] {
      var init, last := records[..|records| - 1], records[|records| - 1];
      assert records == init + [last];
      ExactlyOnceSnoc(init, last);
      ChainedIsExactlyOnce(init);
      assert last.producer.Some? ==> ValidProducerId(records[|init|].producer.value.id);
      if ExactlyOnce(init) {
        CheckIsCount(init, last);
      }
    }
  }

  lemma CheckIsCount(init: seq<Record>, last: Record)
    requires ExactlyOnce(init) && |init| < U64_MAX
    requires last.producer.Some? ==> ValidProducerId(last.producer.value.id)
    ensures CheckProducer(Table(init), last).Success?
            <==> (last.producer.Some? ==> last.producer.value.sequence == CountOf(init, last.producer.value.id))
  {
    if last.producer.Some? {
      ExpectedIsCount(init, last.producer.value.id);
    }
  }

  lemma ExpectedIsCount(records: seq<Record>, id: bytes)
    requires ExactlyOnce(records) && |records| < U64_MAX
    ensures Expected(Table(records), id) == CountOf(records, id)
  {
    TableIsLatest(records, id);
    CountBound(records, id);
  }

  /** A record of a well-formed log is accepted again at its place, unless it no longer fits the record limit. */
  lemma AcceptedAgain(records: seq<Record>, j: nat)
    requires Chained(records) && j < |records| <= U64_MAX
    ensures Judge(Table(records[..j]), records[j]) == if FitsLimit(records[j]) then Accepted else Refused(RecordTooLarge)
    decreases |records|
  {
    var init, last := records[..|records| - 1], records[|records| - 1];
    if j < |init| {
      AcceptedAgain(init, j);
      assert records[..j] == init[..j];
    } else if last.producer.Some? {
      ChainedHasValidIds(init);
      ChainedIsExactlyOnce(init);
      ExpectedIsCount(init, last.producer.value.id);
      TableIsLatest(init, last.producer.value.id);
    }
  }

  lemma {:induction false} ChainedHasValidIds(records: seq<Record>)
    requires Chained(records)
    ensures forall i :: 0 <= i < |records| && records[i].producer.Some? ==> ValidProducerId(records[i].producer.value.id)
  {
    if records != [] {
      ChainedHasValidIds(records[..|records| - 1]);
    }
  }
}
