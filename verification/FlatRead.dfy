/** What a read returns, said on the flat log: the longest run of records within a byte limit. */
module FlatRead {
  import opened Wrappers
  import opened Bytes
  import opened RecordCodec
  import opened LogModel

  /** `usize::saturating_add` and `u64::saturating_add`. */
  function SaturatingAdd(a: nat, b: nat): nat {
    if a + b > U64_MAX then U64_MAX else a + b
  }

  /** Where a read of the records from `start` on stops, after `used` bytes and with `cur` next. */
  function RunEnd(frames: seq<bytes>, start: nat, cur: nat, used: nat, maxBytes: nat): (end: nat)
    requires start <= cur <= |frames|
    ensures cur <= end <= |frames|
    decreases |frames| - cur
  {
    if cur == |frames| then cur
    else if cur > start && SaturatingAdd(used, |frames[cur]|) > maxBytes then cur
    else RunEnd(frames, start, cur + 1, SaturatingAdd(used, |frames[cur]|), maxBytes)
  }

  function Start(low: nat, next: nat, offset: nat): nat {
    if offset <= low then low else if offset <= next then offset else next
  }

  ghost function StoredRange(decode: Decoder, frames: seq<bytes>, from: nat, to: nat): (r: seq<Stored>)
    requires from <= to <= |frames| <= U64_MAX
    ensures |r| == to - from
  {
    seq(to - from, i requires 0 <= i < to - from => Stored(from + i, RecordOf(decode, frames[from + i])))
  }

  /** The flat specification of `read`. */
  ghost function ReadSpec(decode: Decoder, frames: seq<bytes>, low: nat, offset: nat, maxBytes: nat): seq<Stored>
    requires low <= |frames| <= U64_MAX
  {
    var start := Start(low, |frames|, offset);
    StoredRange(decode, frames, start, RunEnd(frames, start, start, 0, maxBytes))
  }

  /**
   What a read returns are consecutive records with their own offsets, from the first one that is still stored at or behind
   the requested offset on; it returns none exactly if there is no such record.
   */
  lemma ReadReturns(decode: Decoder, frames: seq<bytes>, low: nat, offset: nat, maxBytes: nat)
    requires low <= |frames| <= U64_MAX && maxBytes <= U64_MAX
    ensures var r, first := ReadSpec(decode, frames, low, offset, maxBytes), if offset < low then low else offset;
            && (r == [] <==> first >= |frames|)
            && (forall i :: 0 <= i < |r| ==>
                  first + i < |frames| && r[i].offset == first + i && r[i].record == RecordOf(decode, frames[first + i]))
            && (r != [] ==> |r| == RunEnd(frames, first, first, 0, maxBytes) - first)
  {
    var start := Start(low, |frames|, offset);
    RunIsLongest(frames, start, maxBytes);
  }

  /** A run of total size within the limit; the limit `usize::MAX` admits every size, sums saturate at it. */
  predicate Within(frames: seq<bytes>, from: nat, to: nat, maxBytes: nat)
    requires from <= to <= |frames|
  {
    maxBytes == U64_MAX || |Flatten(frames[from..to])| <= maxBytes
  }

  /**
   The run a read returns is the longest one from its start that stays within the limit, or the first record alone when
   that record is already larger.
   */
  lemma RunIsLongest(frames: seq<bytes>, start: nat, maxBytes: nat)
    requires start <= |frames| && maxBytes <= U64_MAX
    ensures var end := RunEnd(frames, start, start, 0, maxBytes);
            && (start < |frames| ==> end > start)
            && (Within(frames, start, end, maxBytes) || end == start + 1)
            && (forall longer :: end < longer <= |frames| ==> !Within(frames, start, longer, maxBytes))
  {
    assert frames[start..start] == [];
    RunFrom(frames, start, start, maxBytes);
    var end := RunEnd(frames, start, start, 0, maxBytes);
    forall longer | end < longer <= |frames|
      ensures !Within(frames, start, longer, maxBytes)
    {
      assert frames[start..longer] == frames[start..end + 1] + frames[end + 1..longer];
      FlattenConcat(frames[start..end + 1], frames[end + 1..longer]);
    }
  }

  lemma {:induction false} RunFrom(frames: seq<bytes>, start: nat, cur: nat, maxBytes: nat)
    requires start <= cur <= |frames| && maxBytes <= U64_MAX
    requires cur <= start + 1 || Within(frames, start, cur, maxBytes)
    ensures var end := RunEnd(frames, start, cur, SaturatingAdd(|Flatten(frames[start..cur])|, 0), maxBytes);
            && (end == cur || end == start + 1 || Within(frames, start, end, maxBytes))
            && (cur == start < |frames| ==> end > start)
            && (end < |frames| ==> !Within(frames, start, end + 1, maxBytes))
    decreases |frames| - cur
  {
    if cur < |frames| {
      assert frames[start..cur + 1] == frames[start..cur] + [frames[cur]];
      FlattenConcat(frames[start..cur], [frames[cur]]);
      assert Flatten([frames[cur]]) == frames[cur];
      var used := SaturatingAdd(|Flatten(frames[start..cur])|, 0);
      var used' := SaturatingAdd(used, |frames[cur]|);
      assert used' == SaturatingAdd(|Flatten(frames[start..cur + 1])|, 0);
      if !(cur > start && used' > maxBytes) {
        RunFrom(frames, start, cur + 1, maxBytes);
      }
    }
  }

  function Max(a: nat, b: nat): nat {
    if a >= b then a else b
  }

  /** A read in progress: `records` is the run so far, `cur` the next record, and the run will end where the whole one does. */
  ghost predicate Reading(decode: Decoder, frames: seq<bytes>, start: nat, cur: nat, maxBytes: nat, records: seq<Stored>, used: nat) {
    && start <= cur <= |frames| <= U64_MAX
    && records == StoredRange(decode, frames, start, cur)
    && RunEnd(frames, start, cur, used, maxBytes) == RunEnd(frames, start, start, 0, maxBytes)
  }

  /** The rest of a segment decodes to its next record and the rest after that. */
  lemma DecodesNext(decode: Decoder, frames: seq<bytes>, k: nat, end: nat)
    requires SelfDelimiting(decode) && k < end <= |frames| && Framed(decode, frames[k], k) && k <= U64_MAX
    ensures decode(Flatten(frames[k..end])) == Success(Some((Stored(k, RecordOf(decode, frames[k])), Flatten(frames[k + 1..end]))))
    ensures |Flatten(frames[k..end])| - |Flatten(frames[k + 1..end])| == |frames[k]|
  {
    FlattenFront(frames[k..end]);
    assert frames[k..end][1..] == frames[k + 1..end];
    var stored := decode(frames[k]).value.value.0;
    assert Decodes(decode, frames[k], stored, []);
    assert Decodes(decode, frames[k] + Flatten(frames[k + 1..end]), stored, Flatten(frames[k + 1..end]));
  }

  /** What is left of a segment's file at each record. */
  ghost function Left(frames: seq<bytes>, end: nat): nat -> bytes {
    (i: nat) => if i <= end <= |frames| then Flatten(frames[i..end]) else []
  }

  /** What is left at record `k` is empty, or decodes to that record and what is left after it. */
  ghost predicate DecodesAt(decode: Decoder, frames: seq<bytes>, left: nat -> bytes, k: nat, end: nat)
    requires k <= end <= |frames| <= U64_MAX
  {
    if k == end then left(k) == []
    else
      && decode(left(k)) == Success(Some((Stored(k, RecordOf(decode, frames[k])), left(k + 1))))
      && |left(k)| == |frames[k]| + |left(k + 1)| && |left(k + 1)| < |left(k)|
  }

  lemma AtEveryFrame(decode: Decoder, frames: seq<bytes>, k: nat, end: nat)
    requires SelfDelimiting(decode) && k <= end <= |frames| <= U64_MAX
    requires k < end ==> Framed(decode, frames[k], k)
    ensures DecodesAt(decode, frames, Left(frames, end), k, end)
  {
    if k < end {
      DecodesNext(decode, frames, k, end);
      assert Decodes(decode, frames[k], decode(frames[k]).value.value.0, []);
    }
  }

  /** One record more, or the end of the run. */
  lemma ReadingStep(decode: Decoder, frames: seq<bytes>, start: nat, cur: nat, maxBytes: nat, records: seq<Stored>, used: nat)
    requires Reading(decode, frames, start, cur, maxBytes, records, used) && cur < |frames|
    ensures if records != [] && SaturatingAdd(used, |frames[cur]|) > maxBytes then
              RunEnd(frames, start, start, 0, maxBytes) == cur
            else
              Reading(decode, frames, start, cur + 1, maxBytes, records + [Stored(cur, RecordOf(decode, frames[cur]))],
                      SaturatingAdd(used, |frames[cur]|))
  {
  }

  /** What a read does with record `k`: pass over it, stop before it, or take it. */
  lemma ReadingOne(decode: Decoder, frames: seq<bytes>, start: nat, k: nat, offset: nat, maxBytes: nat, records: seq<Stored>, used: nat)
    requires Reading(decode, frames, start, Max(k, start), maxBytes, records, used)
    requires k < |frames| && (start <= offset || start <= k) && (offset <= start || start == |frames|)
    ensures k < offset ==> Reading(decode, frames, start, Max(k + 1, start), maxBytes, records, used)
    ensures offset <= k && records != [] && SaturatingAdd(used, |frames[k]|) > maxBytes ==>
              records == StoredRange(decode, frames, start, RunEnd(frames, start, start, 0, maxBytes))
    ensures offset <= k && !(records != [] && SaturatingAdd(used, |frames[k]|) > maxBytes) ==>
              Reading(decode, frames, start, Max(k + 1, start), maxBytes, records + [Stored(k, RecordOf(decode, frames[k]))],
                      SaturatingAdd(used, |frames[k]|))
  {
    if k < offset {
      assert Max(k + 1, start) == Max(k, start) == start;
    } else {
      ReadingStep(decode, frames, start, k, maxBytes, records, used);
    }
  }

  // ---------------------------------------------------------------- the index lookup

  /** `slice::partition_point`: how many entries at the front have an offset of at most `offset`. */
  function PartitionPoint(index: seq<IndexEntry>, offset: nat): (k: nat)
    ensures k <= |index|
    ensures forall i :: 0 <= i < k ==> index[i].offset <= offset
    ensures k < |index| ==> index[k].offset > offset
    decreases |index|
  {
    if index == [] || index[0].offset > offset then 0
    else
      var k := PartitionPoint(index[1..], offset);
      assert forall i :: 1 <= i < k + 1 ==> index[i] == index[1..][i - 1];
      k + 1
  }

  /** Where a lookup starts decoding: at a record of the segment, at most at the one looked for. */
  lemma LookupPoint(frames: seq<bytes>, base: nat, interval: nat, offset: nat) returns (k: nat)
    ensures var index := SparseIndex(frames, base, interval);
            var point := PartitionPoint(index, offset);
            && k <= |frames|
            && |Flatten(frames[..k])| == (if point == 0 then 0 else index[point - 1].position)
            && (k > 0 ==> base + k <= offset)
  {
    var index := SparseIndex(frames, base, interval);
    var point := PartitionPoint(index, offset);
    SparseIndexShape(frames, base, interval);
    if point == 0 {
      k := 0;
    } else {
      var e := index[point - 1];
      assert e in index && PointsInto(e, frames, base);
      k := e.offset - base;
    }
  }

  /** A read decodes fewer than `interval` bytes before the record it looks for. */
  lemma LookupIsNear(frames: seq<bytes>, base: nat, interval: nat, offset: nat)
    requires interval > 0 && base <= offset < base + |frames|
    ensures var index := SparseIndex(frames, base, interval);
            var point := PartitionPoint(index, offset);
            && point > 0
            && index[point - 1].position <= |Flatten(frames[..offset - base])| < index[point - 1].position + interval
  {
    var index := SparseIndex(frames, base, interval);
    SparseIndexShape(frames, base, interval);
    SparseIndexBound(frames, base, interval, offset, PartitionPoint(index, offset));
  }

  // ---------------------------------------------------------------- reads the log does for itself

  lemma FirstIsStart(frames: seq<bytes>, start: nat, maxBytes: nat)
    requires start <= |frames|
    ensures start < |frames| ==> RunEnd(frames, start, start, 0, maxBytes) > start
  {
  }

  /** Without a limit a read returns everything. */
  lemma {:induction false} NoLimitReadsAll(frames: seq<bytes>, start: nat, cur: nat, used: nat)
    requires start <= cur <= |frames|
    ensures RunEnd(frames, start, cur, used, U64_MAX) == |frames|
    decreases |frames| - cur
  {
    if cur < |frames| {
      NoLimitReadsAll(frames, start, cur + 1, SaturatingAdd(used, |frames[cur]|));
    }
  }

  /** Of a log's records from `low` on, those before `offset` are its first ones. */
  lemma KeptRecords(decode: Decoder, frames: seq<bytes>, low: nat, offset: nat, kept: seq<Stored>)
    requires low <= |frames| <= U64_MAX && offset <= |frames|
    requires var all := StoredRange(decode, frames, low, |frames|);
             && kept <= all && (forall s :: s in kept ==> s.offset < offset)
             && (|kept| < |all| ==> all[|kept|].offset >= offset)
    ensures |kept| == if offset <= low then 0 else offset - low
    ensures forall i :: 0 <= i < |kept| ==> kept[i].record == Records(decode, frames)[low + i]
  {
    var all := StoredRange(decode, frames, low, |frames|);
    assert forall i :: 0 <= i < |kept| ==> kept[i] == all[i];
    if |kept| > 0 {
      assert kept[|kept| - 1] in kept && kept[|kept| - 1].offset == low + |kept| - 1;
    }
  }
}
