/** One partition log as a value: its invariant, and what each operation does to it. */
module LogState {
  import opened Wrappers
  import opened Bytes
  import opened RecordCodec
  import opened LogModel
  import opened Recovery
  import opened SegmentFiles
  import opened FlatRead

  datatype State = State(next: nat, table: ProducerTable, segments: seq<Segment>, files: Files) {

    /** The state holds the log `frames`, of which retention may have removed whole segments at the front. */
    ghost predicate Holds(decode: Decoder, interval: nat, frames: seq<bytes>) {
      && LogOk(decode, frames)
      && next == |frames|
      && table == TableOf(decode, frames)
      && Layout(frames, interval, segments, files)
    }

    function Active(): Segment
      requires segments != []
    {
      segments[|segments| - 1]
    }

    function Rotated(): State {
      this.(segments := segments + [Segment(next, 0, [])], files := files[next := []])
    }

    /** The active segment and its file after `encoded`, the record at `next`, was written. */
    function Written(encoded: bytes, interval: nat): State
      requires segments != [] && Active().base in files
    {
      var active := Active();
      this.(segments := segments[..|segments| - 1]
                        + [Segment(active.base, active.length + |encoded|,
                                   AddEntry(active.index, next, active.length, interval))],
            files := files[active.base := files[active.base] + encoded])
    }

    function Counted(record: Record): State {
      this.(next := next + 1, table := Noted(table, record, next))
    }

    function WithoutFirst(): State
      requires segments != []
    {
      this.(segments := segments[1..], files := files - {segments[0].base})
    }
  }

  predicate NeedsRotation(active: Segment, size: nat, maxSegmentBytes: nat) {
    active.length > 0 && SaturatingAdd(active.length, size) > maxSegmentBytes
  }

  /** The bases of the segments once a record of `size` bytes has its place. */
  function BasesFor(st: State, size: nat, maxSegmentBytes: nat): seq<nat>
    requires st.segments != []
  {
    Bases(st.segments) + if NeedsRotation(st.Active(), size, maxSegmentBytes) then [st.next] else []
  }

  /** The state in which a record of `size` bytes has its place. */
  function Placed(st: State, size: nat, maxSegmentBytes: nat): State
    requires st.segments != []
  {
    if NeedsRotation(st.Active(), size, maxSegmentBytes) then st.Rotated() else st
  }

  /** At the last offset a record is written in its place, but neither counted nor noted. */
  ghost predicate WrittenOnly(st: State, st': State, encoded: bytes, maxSegmentBytes: nat, interval: nat) {
    && st.segments != []
    && var placed := Placed(st, |encoded|, maxSegmentBytes);
       placed.segments != [] && placed.Active().base in placed.files && st' == placed.Written(encoded, interval)
  }

  /**
   When a record starts a new segment: the active one has records, and with this one it would go past the limit. The new
   segment starts at the record's offset.
   */
  lemma PlacesIff(st: State, size: nat, maxSegmentBytes: nat)
    requires st.segments != [] && maxSegmentBytes < U64_MAX
    ensures var placed, active := Placed(st, size, maxSegmentBytes), st.segments[|st.segments| - 1];
            && placed.segments
               == (if 0 < active.length && active.length + size > maxSegmentBytes
                   then st.segments + [Segment(st.next, 0, [])] else st.segments)
            && placed.next == st.next && placed.table == st.table
  {
  }

  /** So a segment goes past the limit only with a record that is too large for any segment, and then holds nothing else. */
  lemma SegmentsStayWithin(st: State, encoded: bytes, maxSegmentBytes: nat, interval: nat)
    requires st.segments != [] && maxSegmentBytes < U64_MAX && st.Active().base in st.files
    ensures var placed := Placed(st, |encoded|, maxSegmentBytes);
            && placed.segments != [] && placed.Active().base in placed.files
            && var after := placed.Written(encoded, interval);
               && after.segments != [] && after.Active().length == placed.Active().length + |encoded|
               && (after.Active().length <= maxSegmentBytes || (after.Active().length == |encoded| > maxSegmentBytes))
               && after.files[after.Active().base] == placed.files[placed.Active().base] + encoded
  {
  }

  lemma RotatedBases(st: State)
    ensures Bases(st.Rotated().segments) == Bases(st.segments) + [st.next]
  {
  }

  lemma WrittenBases(st: State, encoded: bytes, interval: nat)
    requires st.segments != [] && st.Active().base in st.files
    ensures Bases(st.Written(encoded, interval).segments) == Bases(st.segments)
  {
  }

  lemma HasActive(st: State, decode: Decoder, interval: nat, frames: seq<bytes>)
    requires st.Holds(decode, interval, frames)
    ensures st.segments != [] && st.Active().base in st.files
    ensures st.Active().length > 0 ==> st.Active().base < st.next
    ensures st.segments[0].base <= st.Active().base <= st.next
  {
    ActiveHasFile(frames, interval, st.segments, st.files);
  }

  lemma RotatedHolds(st: State, decode: Decoder, interval: nat, frames: seq<bytes>)
    requires st.Holds(decode, interval, frames) && st.Active().base < st.next
    ensures st.next !in st.files && st.Rotated().Holds(decode, interval, frames)
  {
    AddsSegment(frames, interval, st.segments, st.files);
  }

  /** Writing and counting the encoding of an acceptable record extends the log by it. */
  lemma AppendedHolds(st: State, decode: Decoder, interval: nat, frames: seq<bytes>, encoded: bytes, record: Record)
    requires st.Holds(decode, interval, frames) && st.next < U64_MAX
    requires Decodes(decode, encoded, Stored(st.next, record), [])
    requires CheckProducer(st.table, record).Success?
    ensures st.segments != [] && st.Active().base in st.files
    ensures st.Written(encoded, interval).Counted(record).Holds(decode, interval, frames + [encoded])
  {
    WrittenLayout(st, interval, frames, encoded);
    AppendedLog(st, decode, frames, encoded, record);
  }

  lemma WrittenLayout(st: State, interval: nat, frames: seq<bytes>, encoded: bytes)
    requires Layout(frames, interval, st.segments, st.files) && st.next == |frames|
    ensures st.segments != [] && st.Active().base in st.files
    ensures Layout(frames + [encoded], interval, st.Written(encoded, interval).segments, st.Written(encoded, interval).files)
  {
    ActiveHasFile(frames, interval, st.segments, st.files);
    var st' := st.Written(encoded, interval);
    AppendsToActive(frames, interval, st.segments, st.files, encoded, st'.segments, st'.files);
  }

  lemma AppendedLog(st: State, decode: Decoder, frames: seq<bytes>, encoded: bytes, record: Record)
    requires LogOk(decode, frames) && st.next == |frames| < U64_MAX && st.table == TableOf(decode, frames)
    requires Decodes(decode, encoded, Stored(st.next, record), [])
    requires CheckProducer(st.table, record).Success?
    ensures LogOk(decode, frames + [encoded])
    ensures st.Counted(record).table == TableOf(decode, frames + [encoded])
  {
    LogOkStep(decode, frames, encoded);
    TableGrows(decode, frames, encoded);
  }

  lemma WithoutFirstHolds(st: State, decode: Decoder, interval: nat, frames: seq<bytes>)
    requires st.Holds(decode, interval, frames) && |st.segments| > 1
    ensures st.WithoutFirst().Holds(decode, interval, frames)
  {
    DropsFirst(frames, interval, st.segments, st.files);
  }

  lemma EmptyLog(decode: Decoder)
    ensures LogOk(decode, []) && TableOf(decode, []) == map[]
  {
    assert Records(decode, []) == [];
  }

  lemma EmptyHolds(decode: Decoder, interval: nat)
    ensures State(0, map[], [Segment(0, 0, [])], map[0 := []]).Holds(decode, interval, [])
  {
    var segments := [Segment(0, 0, [])];
    BaseSetJoins([], segments);
    assert [] + segments == segments;
    LastShare([], interval, segments, map[0 := []]);
    EmptyLog(decode);
  }

  // ---------------------------------------------------------------- opening a directory

  lemma {:induction false} MinExists(s: set<nat>, e: nat)
    requires e in s
    ensures exists m :: m in s && forall x :: x in s ==> m <= x
    decreases e
  {
    if x :| x in s && x < e {
      MinExists(s, x);
    }
  }

  function Least(s: set<nat>): (m: nat)
    requires s != {}
    ensures m in s && forall x :: x in s ==> m <= x
  {
    assert exists e :: e in s;
    assert exists m :: m in s && forall x :: x in s ==> m <= x by {
      var e :| e in s;
      MinExists(s, e);
    }
    var m :| m in s && forall x :: x in s ==> m <= x;
    m
  }

  /** The names of the segment files, in ascending order. */
  function SortedNames(s: set<nat>): (names: seq<nat>)
    ensures forall b :: b in names <==> b in s
    ensures forall i, j :: 0 <= i < j < |names| ==> names[i] < names[j]
  {
    if s == {} then []
    else
      var rest := SortedNames(s - {Least(s)});
      assert forall i :: 0 <= i < |rest| ==> rest[i] in rest && Least(s) < rest[i];
      [Least(s)] + rest
  }

  lemma {:induction false} SortedIsUnique(a: seq<nat>, b: seq<nat>)
    requires forall x :: x in a <==> x in b
    requires forall i, j :: 0 <= i < j < |a| ==> a[i] < a[j]
    requires forall i, j :: 0 <= i < j < |b| ==> b[i] < b[j]
    ensures a == b
  {
    assert |a| > 0 ==> a[0] in a;
    assert |b| > 0 ==> b[0] in b;
    if |a| > 0 && |b| > 0 {
      assert a[0] in b && b[0] in a;
      assert a[0] == b[0];
      forall x
        ensures x in a[1..] <==> x in b[1..]
      {
        assert x in a <==> x == a[0] || x in a[1..];
        assert x in b <==> x == b[0] || x in b[1..];
      }
      SortedIsUnique(a[1..], b[1..]);
    }
  }

  /** The files `open` works on: a directory without segments gets a first, empty one. */
  function Discovered(files: Files): Files {
    if files == map[] then map[0 := []] else files
  }

  function OpenFiles(decode: Decoder, interval: nat, files: Files): Result<Opened, StorageError>
    requires SelfDelimiting(decode)
  {
    var found := Discovered(files);
    OpenSegments(decode, interval, SortedNames(found.Keys), 0, Opened(0, map[], [], found))
  }

  /** An empty directory opens as an empty log, with one empty segment at offset 0. */
  lemma EmptyDirectoryOpens(decode: Decoder, interval: nat)
    requires SelfDelimiting(decode)
    ensures OpenFiles(decode, interval, map[]) == Success(Opened(0, map[], [Segment(0, 0, [])], map[0 := []]))
  {
    EmptyHolds(decode, interval);
    EmptyLog(decode);
    LaidDirectoryOpens(decode, interval, [], [Segment(0, 0, [])], map[0 := []]);
  }

  function StateOf(o: Opened): State {
    State(o.next, o.table, o.segments, o.files)
  }

  /** Whatever opens holds a log. */
  lemma OpenedHolds(decode: Decoder, interval: nat, files: Files) returns (frames: seq<bytes>)
    requires SelfDelimiting(decode) && OpenFiles(decode, interval, files).Success?
    ensures StateOf(OpenFiles(decode, interval, files).value).Holds(decode, interval, frames)
  {
    var names, o := SortedNames(Discovered(files).Keys), Opened(0, map[], [], Discovered(files));
    assert names != [] by {
      var b :| b in Discovered(files);
      assert b in names;
    }
    frames := OpensOnlyLogs(decode, interval, names, 0, o, []);
    var found := OpenFiles(decode, interval, files).value;
    KeysAreBases(found.segments, found.files, names);
  }

  lemma KeysAreBases(segments: seq<Segment>, files: Files, names: seq<nat>)
    requires Bases(segments) == names && forall b :: b in files <==> b in names
    ensures files.Keys == BaseSet(segments)
  {
    BasesAreBaseSet(segments);
  }

  /** Whatever was appended, retried, truncated or reopened: each producer's records are stored once and in sequence. */
  lemma ExactlyOnceAlways(st: State, decode: Decoder, interval: nat, frames: seq<bytes>)
    requires st.Holds(decode, interval, frames)
    ensures ExactlyOnce(Records(decode, frames))
  {
    ChainedHasValidIds(Records(decode, frames));
    ChainedIsExactlyOnce(Records(decode, frames));
  }

  lemma NamesAreBases(frames: seq<bytes>, interval: nat, segments: seq<Segment>, files: Files)
    requires Layout(frames, interval, segments, files)
    ensures SortedNames(files.Keys) == Bases(segments) && files != map[]
  {
    BasesAreBaseSet(segments);
    SortedIsUnique(SortedNames(files.Keys), Bases(segments));
    assert segments[0].base in files;
  }

  /**
   Crash recovery of a partition: whatever byte the active file of a log is cut at, opening the directory gives the log
   of exactly the records that end at or before the cut, and opening that directory again gives the same state.
   */
  lemma OpenAfterCrash(st: State, decode: Decoder, interval: nat, frames: seq<bytes>, cut: nat) returns (m: nat)
    requires SelfDelimiting(decode) && st.Holds(decode, interval, frames)
    requires st.segments[0].base == 0 && cut <= st.Active().length
    ensures st.Active().base in st.files && st.Active().base <= m <= |frames|
    ensures EndBy(frames[st.Active().base..], cut, m - st.Active().base)
    ensures var found := OpenFiles(decode, interval, CutActive(st.segments, st.files, cut));
            && found.Success?
            && StateOf(found.value).Holds(decode, interval, frames[..m])
            && Bases(found.value.segments) == Bases(st.segments)
            && OpenFiles(decode, interval, found.value.files) == found
  {
    m := CrashedDirectoryOpens(st, decode, interval, frames, cut);
    var o := Shortened(decode, interval, frames[..m], st.segments, st.files);
    LaidDirectoryOpens(decode, interval, frames[..m], o.segments, o.files);
  }

  lemma CrashedDirectoryOpens(st: State, decode: Decoder, interval: nat, frames: seq<bytes>, cut: nat) returns (m: nat)
    requires SelfDelimiting(decode) && st.Holds(decode, interval, frames)
    requires st.segments[0].base == 0 && cut <= st.Active().length
    ensures st.Active().base in st.files && st.Active().base <= m <= |frames|
    ensures EndBy(frames[st.Active().base..], cut, m - st.Active().base)
    ensures OpenFiles(decode, interval, CutActive(st.segments, st.files, cut))
            == Success(Shortened(decode, interval, frames[..m], st.segments, st.files))
    ensures LogOk(decode, frames[..m])
    ensures Layout(frames[..m], interval, Shortened(decode, interval, frames[..m], st.segments, st.files).segments,
                   Shortened(decode, interval, frames[..m], st.segments, st.files).files)
    ensures Bases(Shortened(decode, interval, frames[..m], st.segments, st.files).segments) == Bases(st.segments)
  {
    m := CrashRecovery(decode, interval, frames, st.segments, st.files, cut);
    NamesAreBases(frames, interval, st.segments, st.files);
    CutKeepsNames(st.segments, st.files, cut);
    OpensUnderNames(decode, interval, CutActive(st.segments, st.files, cut), Bases(st.segments));
  }

  lemma CutKeepsNames(segments: seq<Segment>, files: Files, cut: nat)
    requires segments != [] && segments[|segments| - 1].base in files
    ensures CutActive(segments, files, cut).Keys == files.Keys && CutActive(segments, files, cut) != map[]
  {
    assert segments[|segments| - 1].base in CutActive(segments, files, cut);
  }

  lemma OpensUnderNames(decode: Decoder, interval: nat, files: Files, names: seq<nat>)
    requires SelfDelimiting(decode) && files != map[] && SortedNames(files.Keys) == names
    ensures forall b :: b in names ==> b in files
    ensures OpenFiles(decode, interval, files) == OpenSegments(decode, interval, names, 0, Opened(0, map[], [], files))
  {
  }

  /** The directory of a log that starts at 0 opens to that log, and no file changes. */
  lemma LaidDirectoryOpens(decode: Decoder, interval: nat, frames: seq<bytes>, segments: seq<Segment>, files: Files)
    requires SelfDelimiting(decode) && LogOk(decode, frames) && Layout(frames, interval, segments, files)
    requires segments[0].base == 0
    ensures OpenFiles(decode, interval, files) == Success(Opened(|frames|, TableOf(decode, frames), segments, files))
  {
    NamesAreBases(frames, interval, segments, files);
    ReopenChangesNothing(decode, interval, frames, segments, files);
  }

  /** A log that retention has shortened does not open any more: `open` succeeds exactly when the log starts at 0. */
  lemma OpensIffLowWatermarkZero(st: State, decode: Decoder, interval: nat, frames: seq<bytes>)
    requires SelfDelimiting(decode) && st.Holds(decode, interval, frames)
    ensures OpenFiles(decode, interval, st.files).Success? <==> st.segments[0].base == 0
    ensures st.segments[0].base == 0 ==> StateOf(OpenFiles(decode, interval, st.files).value) == st
  {
    NamesAreBases(frames, interval, st.segments, st.files);
    ReopensIffFromZero(decode, interval, frames, st.segments, st.files);
    if st.segments[0].base == 0 {
      LaidDirectoryOpens(decode, interval, frames, st.segments, st.files);
    }
  }
}
