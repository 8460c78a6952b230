/** Segment files, what recovery makes of them, and the crash-recovery theorem. */
module Recovery {
  import opened Wrappers
  import opened Bytes
  import opened RecordCodec
  import opened LogModel

  datatype Segment = Segment(base: nat, length: nat, index: seq<IndexEntry>)

  /** The state `recover_segment` hands back for one segment. */
  datatype Recovered = Recovered(next: nat, validLength: nat, index: seq<IndexEntry>, table: ProducerTable)

  function RecoverFrom(decode: Decoder, interval: nat, buffer: bytes, position: nat, next: nat,
                       index: seq<IndexEntry>, table: ProducerTable): Result<Recovered, StorageError>
    requires SelfDelimiting(decode)
    decreases |buffer|
  {
    match decode(buffer)
    case Failure(error) => Failure(error)
    case Success(None) => Success(Recovered(next, position, index, table))
    case Success(Some((stored, rest))) =>
      assert Decodes(decode, buffer, stored, rest);
      if stored.offset != next then Failure(UnexpectedOffset(next, stored.offset))
      else
        var _ :- CheckProducer(table, stored.record);
        if next >= U64_MAX then Failure(OffsetOverflow)
        else
          RecoverFrom(decode, interval, rest, position + (|buffer| - |rest|), next + 1,
                      AddEntry(index, next, position, interval), Noted(table, stored.record, next))
  }

  // ---------------------------------------------------------------- one segment

  /** Frames numbered from 0, each producer's records in sequence. */
  ghost predicate LogOk(decode: Decoder, frames: seq<bytes>) {
    && |frames| <= U64_MAX
    && (forall i :: 0 <= i < |frames| ==> Framed(decode, frames[i], i))
    && Chained(Records(decode, frames))
  }

  ghost function TableOf(decode: Decoder, frames: seq<bytes>): ProducerTable {
    Table(Records(decode, frames))
  }

  /** Recovery of a segment whose frames `done[lo..]` have been read and whose buffer is `buffer`. */
  ghost function Resume(decode: Decoder, interval: nat, done: seq<bytes>, lo: nat, buffer: bytes): Result<Recovered, StorageError>
    requires SelfDelimiting(decode) && lo <= |done|
  {
    RecoverFrom(decode, interval, buffer, |Flatten(done[lo..])|, |done|, SparseIndex(done[lo..], lo, interval),
                TableOf(decode, done))
  }

  /** What recovery answers when the segment's frames are exactly `frames[lo..]`. */
  ghost function Complete(decode: Decoder, interval: nat, frames: seq<bytes>, lo: nat): Recovered
    requires lo <= |frames|
  {
    Recovered(|frames|, |Flatten(frames[lo..])|, SparseIndex(frames[lo..], lo, interval), TableOf(decode, frames))
  }

  /** A frame at the end of a segment: the file, the index and the producer table grow by it. */
  lemma SegmentGrows(done: seq<bytes>, lo: nat, frame: bytes, interval: nat)
    requires lo <= |done|
    ensures Flatten((done + [frame])[lo..]) == Flatten(done[lo..]) + frame
    ensures SparseIndex((done + [frame])[lo..], lo, interval)
            == AddEntry(SparseIndex(done[lo..], lo, interval), |done|, |Flatten(done[lo..])|, interval)
  {
    var more := (done + [frame])[lo..];
    assert more == done[lo..] + [frame];
    assert more[..|more| - 1] == done[lo..];
  }

  lemma TableGrows(decode: Decoder, done: seq<bytes>, frame: bytes)
    ensures TableOf(decode, done + [frame]) == Noted(TableOf(decode, done), RecordOf(decode, frame), |done|)
  {
    var records := Records(decode, done + [frame]);
    assert records[..|done|] == Records(decode, done);
  }

  lemma RecoverUnfold(decode: Decoder, interval: nat, buffer: bytes, stored: Stored, rest: bytes, position: nat, next: nat,
                      index: seq<IndexEntry>, table: ProducerTable)
    requires SelfDelimiting(decode) && next < U64_MAX
    requires Decodes(decode, buffer, stored, rest) && stored.offset == next && CheckProducer(table, stored.record).Success?
    ensures |rest| < |buffer|
    ensures RecoverFrom(decode, interval, buffer, position, next, index, table)
            == RecoverFrom(decode, interval, rest, position + (|buffer| - |rest|), next + 1,
                           AddEntry(index, next, position, interval), Noted(table, stored.record, next))
  {
  }

  lemma RecoverOne(decode: Decoder, interval: nat, frame: bytes, rest: bytes, position: nat, next: nat,
                   index: seq<IndexEntry>, table: ProducerTable)
    requires SelfDelimiting(decode) && next < U64_MAX && Framed(decode, frame, next)
    requires CheckProducer(table, RecordOf(decode, frame)).Success?
    ensures RecoverFrom(decode, interval, frame + rest, position, next, index, table)
            == RecoverFrom(decode, interval, rest, position + |frame|, next + 1,
                           AddEntry(index, next, position, interval), Noted(table, RecordOf(decode, frame), next))
  {
    var stored := decode(frame).value.value.0;
    assert Decodes(decode, frame, stored, []);
    assert Decodes(decode, frame + rest, stored, rest);
    RecoverUnfold(decode, interval, frame + rest, stored, rest, position, next, index, table);
  }

  /** One more frame. */
  lemma ResumeStep(decode: Decoder, interval: nat, done: seq<bytes>, lo: nat, frame: bytes, rest: bytes)
    requires SelfDelimiting(decode) && lo <= |done| < U64_MAX && Framed(decode, frame, |done|)
    requires CheckProducer(TableOf(decode, done), RecordOf(decode, frame)).Success?
    ensures Resume(decode, interval, done, lo, frame + rest) == Resume(decode, interval, done + [frame], lo, rest)
  {
    SegmentGrows(done, lo, frame, interval);
    TableGrows(decode, done, frame);
    RecoverOne(decode, interval, frame, rest, |Flatten(done[lo..])|, |done|, SparseIndex(done[lo..], lo, interval),
               TableOf(decode, done));
  }

  lemma LogOkPrefix(decode: Decoder, frames: seq<bytes>, k: nat)
    requires LogOk(decode, frames) && k <= |frames|
    ensures LogOk(decode, frames[..k])
    decreases |frames|
  {
    if k < |frames| {
      var init := frames[..|frames| - 1];
      assert Records(decode, frames)[..|frames| - 1] == Records(decode, init);
      LogOkPrefix(decode, init, k);
      assert init[..k] == frames[..k];
    } else {
      assert frames[..k] == frames;
    }
  }

  lemma LogOkStep(decode: Decoder, frames: seq<bytes>, frame: bytes)
    requires LogOk(decode, frames) && |frames| < U64_MAX && Framed(decode, frame, |frames|)
    ensures LogOk(decode, frames + [frame]) <==> CheckProducer(TableOf(decode, frames), RecordOf(decode, frame)).Success?
  {
    var more := frames + [frame];
    assert Records(decode, more)[..|frames|] == Records(decode, frames);
  }

  lemma NextIsChecked(decode: Decoder, frames: seq<bytes>, k: nat)
    requires LogOk(decode, frames) && k < |frames|
    ensures frames[..k + 1] == frames[..k] + [frames[k]]
    ensures CheckProducer(TableOf(decode, frames[..k]), RecordOf(decode, frames[k])).Success?
  {
    LogOkPrefix(decode, frames, k);
    LogOkPrefix(decode, frames, k + 1);
    assert frames[..k + 1] == frames[..k] + [frames[k]];
    LogOkStep(decode, frames[..k], frames[k]);
  }

  /** Recovery reads all frames of a well-formed log and stops where no further record is complete. */
  lemma {:induction false} RecoversAllFrames(decode: Decoder, interval: nat, frames: seq<bytes>, lo: nat, k: nat, tail: bytes)
    requires SelfDelimiting(decode) && LogOk(decode, frames) && lo <= k <= |frames|
    requires decode(tail) == Success(None)
    ensures Resume(decode, interval, frames[..k], lo, Flatten(frames[k..]) + tail)
            == Success(Complete(decode, interval, frames, lo))
    decreases |frames| - k
  {
    if k == |frames| {
      assert frames[..k] == frames;
      assert Flatten(frames[k..]) + tail == tail;
    } else {
      var rest := Flatten(frames[k + 1..]) + tail;
      FrontFrame(frames, k, frames[k], rest, tail);
      NextIsChecked(decode, frames, k);
      ResumeStep(decode, interval, frames[..k], lo, frames[k], rest);
      RecoversAllFrames(decode, interval, frames, lo, k + 1, tail);
    }
  }

  /** Whatever recovery accepts, of any bytes, is a well-formed continuation of the log followed by an incomplete rest. */
  lemma {:induction false} RecoversOnlyFrames(decode: Decoder, interval: nat, done: seq<bytes>, lo: nat, buffer: bytes)
    returns (frames: seq<bytes>, tail: bytes)
    requires SelfDelimiting(decode) && LogOk(decode, done) && lo <= |done|
    requires Resume(decode, interval, done, lo, buffer).Success?
    ensures done <= frames && LogOk(decode, frames)
    ensures buffer == Flatten(frames[|done|..]) + tail && decode(tail) == Success(None)
    ensures Resume(decode, interval, done, lo, buffer) == Success(Complete(decode, interval, frames, lo))
    decreases |buffer|
  {
    if decode(buffer) == Success(None) {
      frames, tail := done, buffer;
      assert Flatten(frames[|done|..]) + tail == buffer;
    } else {
      var frame, rest := AcceptedFrame(decode, interval, buffer, |Flatten(done[lo..])|, |done|,
                                       SparseIndex(done[lo..], lo, interval), TableOf(decode, done));
      LogOkStep(decode, done, frame);
      ResumeStep(decode, interval, done, lo, frame, rest);
      frames, tail := RecoversOnlyFrames(decode, interval, done + [frame], lo, rest);
      FrontFrame(frames, |done|, frame, rest, tail);
    }
  }

  lemma FrontFrame(frames: seq<bytes>, k: nat, frame: bytes, rest: bytes, tail: bytes)
    requires k < |frames| && frames[k] == frame && rest == Flatten(frames[k + 1..]) + tail
    ensures frame + rest == Flatten(frames[k..]) + tail
  {
    FlattenFront(frames[k..]);
    assert frames[k..][1..] == frames[k + 1..];
  }

  /** If recovery does not stop at `buffer` but succeeds, a frame of the next record is at its front. */
  lemma AcceptedFrame(decode: Decoder, interval: nat, buffer: bytes, position: nat, next: nat,
                      index: seq<IndexEntry>, table: ProducerTable)
    returns (frame: bytes, rest: bytes)
    requires SelfDelimiting(decode) && decode(buffer) != Success(None)
    requires RecoverFrom(decode, interval, buffer, position, next, index, table).Success?
    ensures buffer == frame + rest && |rest| < |buffer| && next < U64_MAX && Framed(decode, frame, next)
    ensures CheckProducer(table, RecordOf(decode, frame)).Success?
  {
    var stored, tail := decode(buffer).value.value.0, decode(buffer).value.value.1;
    assert Decodes(decode, buffer, stored, tail);
    frame, rest := buffer[..|buffer| - |tail|], tail;
    assert tail == [] ==> frame == buffer;
    assert Decodes(decode, frame, stored, []);
  }

  /** Exactly `n` records of a segment end at or before byte `cut` of its file. */
  ghost predicate EndBy(frames: seq<bytes>, cut: nat, n: nat) {
    && n <= |frames|
    && |Flatten(frames[..n])| <= cut
    && (n < |frames| ==> cut < |Flatten(frames[..n + 1])|)
  }

  /** Any cut of a segment file leaves its whole records and an incomplete rest. */
  lemma {:induction false} CutLeavesWholeRecords(decode: Decoder, frames: seq<bytes>, base: nat, cut: nat) returns (n: nat, tail: bytes)
    requires SelfDelimiting(decode) && cut <= |Flatten(frames)|
    requires forall i :: 0 <= i < |frames| ==> Framed(decode, frames[i], base + i)
    ensures EndBy(frames, cut, n)
    ensures Flatten(frames)[..cut] == Flatten(frames[..n]) + tail && decode(tail) == Success(None)
  {
    if cut == |Flatten(frames)| {
      n, tail := |frames|, [];
      assert frames[..n] == frames;
    } else {
      var init, last := frames[..|frames| - 1], frames[|frames| - 1];
      assert Flatten(frames) == Flatten(init) + last;
      if cut <= |Flatten(init)| {
        n, tail := CutLeavesWholeRecords(decode, init, base, cut);
        CutBeforeLast(frames, cut, n);
        assert init[..n] == frames[..n];
      } else {
        n, tail := |init|, last[..cut - |Flatten(init)|];
        assert frames[..n + 1] == frames;
        assert Decodes(decode, last, decode(last).value.value.0, []);
      }
    }
  }

  lemma CutBeforeLast(frames: seq<bytes>, cut: nat, n: nat)
    requires frames != [] && cut < |Flatten(frames)| && EndBy(frames[..|frames| - 1], cut, n)
    ensures EndBy(frames, cut, n)
  {
    var init := frames[..|frames| - 1];
    assert init[..n] == frames[..n];
    if n < |init| {
      assert init[..n + 1] == frames[..n + 1];
    } else {
      assert frames[..n + 1] == frames;
    }
  }
}
