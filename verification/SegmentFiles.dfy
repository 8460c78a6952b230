/** All segments of a partition: how they share the log, and what opening the partition makes of its files. */
module SegmentFiles {
  import opened Wrappers
  import opened Bytes
  import opened RecordCodec
  import opened LogModel
  import opened Recovery

  /** The log files of a partition directory by base offset, their name. */
  type Files = map<nat, bytes>

  datatype Opened = Opened(next: nat, table: ProducerTable, segments: seq<Segment>, files: Files)

  /** The loop of `open` over the segments from the `i`th on, given what the earlier ones left. */
  function OpenSegments(decode: Decoder, interval: nat, bases: seq<nat>, i: nat, o: Opened): Result<Opened, StorageError>
    requires SelfDelimiting(decode) && i <= |bases|
    requires forall b :: b in bases ==> b in o.files
    decreases |bases| - i
  {
    if i == |bases| then Success(o)
    else
      var next :- OpenSegment(decode, interval, bases[i], i == |bases| - 1, o);
      OpenSegments(decode, interval, bases, i + 1, next)
  }

  function OpenSegment(decode: Decoder, interval: nat, base: nat, active: bool, o: Opened): (r: Result<Opened, StorageError>)
    requires SelfDelimiting(decode) && base in o.files
    ensures r.Success? ==> r.value.files.Keys == o.files.Keys
  {
    if base != o.next then Failure(UnexpectedSegmentBase(o.next, base))
    else
      var r :- RecoverFrom(decode, interval, o.files[base], 0, o.next, [], o.table);
      if r.validLength < |o.files[base]| && !active then Failure(IncompleteClosedSegment(base))
      else
        Success(Opened(r.next, r.table, o.segments + [Segment(base, r.validLength, r.index)],
                       o.files[base := Prefix(o.files[base], r.validLength)]))
  }

  function Prefix(b: bytes, n: nat): bytes {
    if n < |b| then b[..n] else b
  }

  // ---------------------------------------------------------------- layout

  function Bases(segments: seq<Segment>): (b: seq<nat>)
    ensures |b| == |segments|
  {
    seq(|segments|, i requires 0 <= i < |segments| => segments[i].base)
  }

  function BaseSet(segments: seq<Segment>): set<nat> {
    set s | s in segments :: s.base
  }

  lemma BasesAreBaseSet(segments: seq<Segment>)
    ensures forall b :: b in Bases(segments) <==> b in BaseSet(segments)
    ensures forall i :: 0 <= i < |segments| ==> segments[i].base in BaseSet(segments)
  {
    forall b | b in BaseSet(segments)
      ensures b in Bases(segments)
    {
      var i :| 0 <= i < |segments| && segments[i].base == b;
      assert Bases(segments)[i] == b;
    }
    forall b | b in Bases(segments)
      ensures b in BaseSet(segments)
    {
      var i :| 0 <= i < |segments| && Bases(segments)[i] == b;
      assert segments[i] in segments;
    }
  }

  function End(segments: seq<Segment>, n: nat, i: nat): nat
    requires i < |segments|
  {
    if i + 1 < |segments| then segments[i + 1].base else n
  }

  ghost predicate Ordered(segments: seq<Segment>, n: nat) {
    && (forall i, j :: 0 <= i < j < |segments| ==> segments[i].base < segments[j].base)
    && (forall i :: 0 <= i < |segments| ==> segments[i].base <= n)
  }

  /** The frames of segment `i` in a log of these frames. */
  ghost function Part(frames: seq<bytes>, segments: seq<Segment>, i: nat): seq<bytes>
    requires Ordered(segments, |frames|) && i < |segments|
  {
    frames[segments[i].base..End(segments, |frames|, i)]
  }

  /** Segment `i` knows its file's length and sparse index, and its file holds its share of the log. */
  ghost predicate SegmentOk(frames: seq<bytes>, interval: nat, segments: seq<Segment>, files: Files, i: nat)
    requires Ordered(segments, |frames|) && i < |segments|
  {
    var part, base := Part(frames, segments, i), segments[i].base;
    && segments[i] == Segment(base, |Flatten(part)|, SparseIndex(part, base, interval))
    && base in files && files[base] == Flatten(part)
  }

  ghost predicate Laid(frames: seq<bytes>, interval: nat, segments: seq<Segment>, files: Files) {
    && Ordered(segments, |frames|)
    && (forall i :: 0 <= i < |segments| ==> SegmentOk(frames, interval, segments, files, i))
  }

  /** The files of a partition hold exactly the log `frames`, from its first segment's base on. */
  ghost predicate Layout(frames: seq<bytes>, interval: nat, segments: seq<Segment>, files: Files) {
    && segments != []
    && Laid(frames, interval, segments, files)
    && files.Keys == BaseSet(segments)
  }

  // ---------------------------------------------------------------- one segment of an open

  /** Opening a file that holds the next frames of the log and an incomplete rest. */
  lemma OpensSegment(decode: Decoder, interval: nat, frames: seq<bytes>, base: nat, tail: bytes, active: bool, o: Opened)
    requires SelfDelimiting(decode) && LogOk(decode, frames) && base <= |frames|
    requires decode(tail) == Success(None) && (active || tail == [])
    requires o.next == base && o.table == TableOf(decode, frames[..base])
    requires base in o.files && o.files[base] == Flatten(frames[base..]) + tail
    ensures OpenSegment(decode, interval, base, active, o)
            == Success(Opened(|frames|, TableOf(decode, frames),
                              o.segments + [Segment(base, |Flatten(frames[base..])|, SparseIndex(frames[base..], base, interval))],
                              o.files[base := Flatten(frames[base..])]))
  {
    var whole := Flatten(frames[base..]);
    RecoversAllFrames(decode, interval, frames, base, base, tail);
    assert frames[..base][base..] == [];
    assert Prefix(whole + tail, |whole|) == whole;
  }

  /** Any file that opens holds further frames of the log, and a rest only if it is the active one. */
  lemma OpenedSegment(decode: Decoder, interval: nat, done: seq<bytes>, base: nat, active: bool, o: Opened)
    returns (frames: seq<bytes>, tail: bytes)
    requires SelfDelimiting(decode) && LogOk(decode, done)
    requires o.next == |done| && o.table == TableOf(decode, done) && base in o.files
    requires OpenSegment(decode, interval, base, active, o).Success?
    ensures base == |done| && done <= frames && LogOk(decode, frames)
    ensures o.files[base] == Flatten(frames[base..]) + tail && decode(tail) == Success(None) && (active || tail == [])
    ensures frames[..base] == done
  {
    assert done[base..] == [];
    frames, tail := RecoversOnlyFrames(decode, interval, done, base, o.files[base]);
  }

  // ---------------------------------------------------------------- a crash and a reopen

  /** Every closed segment of a laid-out log opens to itself. */
  lemma {:induction false} OpensClosedSegments(decode: Decoder, interval: nat, frames: seq<bytes>, segments: seq<Segment>,
                                               files: Files, i: nat)
    requires SelfDelimiting(decode) && LogOk(decode, frames) && segments != []
    requires Ordered(segments, |frames|) && segments[0].base == 0
    requires forall j :: 0 <= j < |segments| - 1 ==> SegmentOk(frames, interval, segments, files, j)
    requires forall b :: b in Bases(segments) ==> b in files
    requires i < |segments|
    ensures OpenSegments(decode, interval, Bases(segments), 0, Opened(0, map[], [], files))
            == OpenSegments(decode, interval, Bases(segments), i,
                            Opened(segments[i].base, TableOf(decode, frames[..segments[i].base]), segments[..i], files))
  {
    if i == 0 {
      assert Records(decode, frames[..0]) == [];
    } else {
      OpensClosedSegments(decode, interval, frames, segments, files, i - 1);
      OpensClosedSegment(decode, interval, frames, segments, files, i - 1);
    }
  }

  lemma OpensClosedSegment(decode: Decoder, interval: nat, frames: seq<bytes>, segments: seq<Segment>, files: Files, i: nat)
    requires SelfDelimiting(decode) && LogOk(decode, frames) && Ordered(segments, |frames|) && i + 1 < |segments|
    requires SegmentOk(frames, interval, segments, files, i)
    ensures var lo, hi := segments[i].base, segments[i + 1].base;
            OpenSegment(decode, interval, lo, false, Opened(lo, TableOf(decode, frames[..lo]), segments[..i], files))
            == Success(Opened(hi, TableOf(decode, frames[..hi]), segments[..i + 1], files))
  {
    var lo, hi := segments[i].base, segments[i + 1].base;
    LogOkPrefix(decode, frames, hi);
    assert frames[..hi][lo..] == Part(frames, segments, i);
    assert frames[..hi][..lo] == frames[..lo];
    assert files[lo] == Flatten(frames[..hi][lo..]) + [];
    OpensSegment(decode, interval, frames[..hi], lo, [], false, Opened(lo, TableOf(decode, frames[..lo]), segments[..i], files));
    assert segments[..i + 1] == segments[..i] + [segments[i]];
    assert files[lo := files[lo]] == files;
  }

  /** What a crash leaves: the active segment's file cut at some byte. */
  function CutActive(segments: seq<Segment>, files: Files, cut: nat): Files
    requires segments != [] && segments[|segments| - 1].base in files
  {
    var base := segments[|segments| - 1].base;
    files[base := Prefix(files[base], cut)]
  }

  /** The partition after its log was cut back to its first `m` records inside the active segment. */
  ghost function Shortened(decode: Decoder, interval: nat, frames: seq<bytes>, segments: seq<Segment>, files: Files): Opened
    requires segments != [] && segments[|segments| - 1].base <= |frames|
  {
    var base := segments[|segments| - 1].base;
    var part := frames[base..];
    Opened(|frames|, TableOf(decode, frames),
           segments[..|segments| - 1] + [Segment(base, |Flatten(part)|, SparseIndex(part, base, interval))],
           files[base := Flatten(part)])
  }

  /**
   Crash recovery. Cut the active file of any log at any byte and reopen: exactly the records whose encodings end at or
   before the cut are there, with their offsets, segment lengths, sparse indexes and producer table, and the directory
   is laid out for exactly that log, so a second open finds nothing to change.
   */
  lemma CrashRecovery(decode: Decoder, interval: nat, frames: seq<bytes>, segments: seq<Segment>, files: Files, cut: nat)
    returns (m: nat)
    requires SelfDelimiting(decode) && LogOk(decode, frames) && Layout(frames, interval, segments, files)
    requires segments[0].base == 0 && cut <= segments[|segments| - 1].length
    ensures segments[|segments| - 1].base in files
    ensures segments[|segments| - 1].base <= m <= |frames|
    ensures EndBy(frames[segments[|segments| - 1].base..], cut, m - segments[|segments| - 1].base)
    ensures LogOk(decode, frames[..m])
    ensures forall b :: b in Bases(segments) ==> b in CutActive(segments, files, cut)
    ensures OpenSegments(decode, interval, Bases(segments), 0, Opened(0, map[], [], CutActive(segments, files, cut)))
            == Success(Shortened(decode, interval, frames[..m], segments, files))
    ensures Bases(Shortened(decode, interval, frames[..m], segments, files).segments) == Bases(segments)
    ensures Layout(frames[..m], interval, Shortened(decode, interval, frames[..m], segments, files).segments,
                   Shortened(decode, interval, frames[..m], segments, files).files)
  {
    var base := segments[|segments| - 1].base;
    BasesAreBaseSet(segments);
    var tail;
    m, tail := CrashCut(decode, interval, frames, segments, files, cut);
    LogOkPrefix(decode, frames, m);
    KeepsClosed(frames, interval, segments, files, m, CutActive(segments, files, cut));
    OpensCut(decode, interval, frames[..m], segments, files, cut, tail);
    ShortenedIsLaid(decode, interval, frames, segments, files, m);
  }

  lemma CrashCut(decode: Decoder, interval: nat, frames: seq<bytes>, segments: seq<Segment>, files: Files, cut: nat)
    returns (m: nat, tail: bytes)
    requires SelfDelimiting(decode) && LogOk(decode, frames) && Layout(frames, interval, segments, files)
    requires cut <= segments[|segments| - 1].length
    ensures var base := segments[|segments| - 1].base;
            && base <= m <= |frames| && EndBy(frames[base..], cut, m - base)
            && base in files && CutActive(segments, files, cut)[base] == Flatten(frames[..m][base..]) + tail
    ensures decode(tail) == Success(None)
  {
    var last := |segments| - 1;
    var base := segments[last].base;
    assert SegmentOk(frames, interval, segments, files, last);
    assert Part(frames, segments, last) == frames[base..];
    var n;
    n, tail := CutLeavesWholeRecords(decode, frames[base..], base, cut);
    m := base + n;
    assert frames[..m][base..] == frames[base..][..n];
    assert Prefix(files[base], cut) == files[base][..cut];
  }

  /** Opening the files a crash left, when `frames` are the records it left. */
  lemma OpensCut(decode: Decoder, interval: nat, frames: seq<bytes>, segments: seq<Segment>, files: Files, cut: nat, tail: bytes)
    requires SelfDelimiting(decode) && LogOk(decode, frames) && decode(tail) == Success(None)
    requires segments != [] && Ordered(segments, |frames|) && segments[0].base == 0
    requires segments[|segments| - 1].base in files
    requires var files' := CutActive(segments, files, cut);
             && (forall j :: 0 <= j < |segments| - 1 ==> SegmentOk(frames, interval, segments, files', j))
             && (forall b :: b in Bases(segments) ==> b in files')
             && var base := segments[|segments| - 1].base; files'[base] == Flatten(frames[base..]) + tail
    ensures OpenSegments(decode, interval, Bases(segments), 0, Opened(0, map[], [], CutActive(segments, files, cut)))
            == Success(Shortened(decode, interval, frames, segments, files))
  {
    var last, files' := |segments| - 1, CutActive(segments, files, cut);
    var base := segments[last].base;
    OpensClosedSegments(decode, interval, frames, segments, files', last);
    var o := Opened(base, TableOf(decode, frames[..base]), segments[..last], files');
    OpensSegment(decode, interval, frames, base, tail, true, o);
    assert files'[base := Flatten(frames[base..])] == files[base := Flatten(frames[base..])];
  }

  /** Closed segments do not depend on the records at or after the active segment's base. */
  lemma KeepsClosed(frames: seq<bytes>, interval: nat, segments: seq<Segment>, files: Files, m: nat, files': Files)
    requires segments != [] && Laid(frames, interval, segments, files) && m <= |frames|
    requires segments[|segments| - 1].base <= m
    requires forall b :: b in files && b != segments[|segments| - 1].base ==> b in files' && files'[b] == files[b]
    ensures Ordered(segments, m)
    ensures forall i :: 0 <= i < |segments| - 1 ==> SegmentOk(frames[..m], interval, segments, files', i)
  {
    forall i | 0 <= i < |segments| - 1
      ensures SegmentOk(frames[..m], interval, segments, files', i)
    {
      assert SegmentOk(frames, interval, segments, files, i);
      assert Part(frames[..m], segments, i) == Part(frames, segments, i);
    }
  }

  lemma ShortenedIsLaid(decode: Decoder, interval: nat, frames: seq<bytes>, segments: seq<Segment>, files: Files, m: nat)
    requires Layout(frames, interval, segments, files) && segments[|segments| - 1].base <= m <= |frames|
    ensures var o := Shortened(decode, interval, frames[..m], segments, files);
            Bases(o.segments) == Bases(segments) && Layout(frames[..m], interval, o.segments, o.files)
  {
    var o := Shortened(decode, interval, frames[..m], segments, files);
    KeepsClosed(frames, interval, segments, files, m, o.files);
    ReplaceLast(frames[..m], interval, segments, o.segments[|segments| - 1], o.files);
    BasesAreBaseSet(segments);
  }

  /** A log whose closed segments are in place, with a fresh description of its active one. */
  lemma ReplaceLast(frames: seq<bytes>, interval: nat, segments: seq<Segment>, active: Segment, files: Files)
    requires segments != [] && Ordered(segments, |frames|)
    requires forall i :: 0 <= i < |segments| - 1 ==> SegmentOk(frames, interval, segments, files, i)
    requires var base := segments[|segments| - 1].base;
             var part := frames[base..];
             && active == Segment(base, |Flatten(part)|, SparseIndex(part, base, interval))
             && base in files && files[base] == Flatten(part)
    ensures var segments' := segments[..|segments| - 1] + [active];
            && Bases(segments') == Bases(segments) && BaseSet(segments') == BaseSet(segments)
            && Laid(frames, interval, segments', files)
  {
    var segments' := segments[..|segments| - 1] + [active];
    assert Bases(segments') == Bases(segments);
    SameBases(segments', segments, |frames|);
    forall i | 0 <= i < |segments|
      ensures SegmentOk(frames, interval, segments', files, i)
    {
      if i < |segments| - 1 {
        SameShare(frames, interval, segments, segments', files, i);
      } else {
        LastShare(frames, interval, segments', files);
      }
    }
  }

  lemma SameShare(frames: seq<bytes>, interval: nat, segments: seq<Segment>, segments': seq<Segment>, files: Files, i: nat)
    requires Ordered(segments, |frames|) && Ordered(segments', |frames|) && |segments| == |segments'|
    requires i < |segments| && segments'[i] == segments[i] && End(segments', |frames|, i) == End(segments, |frames|, i)
    requires SegmentOk(frames, interval, segments, files, i)
    ensures SegmentOk(frames, interval, segments', files, i)
  {
  }

  lemma LastShare(frames: seq<bytes>, interval: nat, segments: seq<Segment>, files: Files)
    requires segments != [] && Ordered(segments, |frames|)
    requires var base, part := segments[|segments| - 1].base, frames[segments[|segments| - 1].base..];
             && segments[|segments| - 1] == Segment(base, |Flatten(part)|, SparseIndex(part, base, interval))
             && base in files && files[base] == Flatten(part)
    ensures SegmentOk(frames, interval, segments, files, |segments| - 1)
  {
    assert Part(frames, segments, |segments| - 1) == frames[segments[|segments| - 1].base..];
  }

  /** Order, shares and names depend on the bases only. */
  lemma SameBases(a: seq<Segment>, b: seq<Segment>, n: nat)
    requires Bases(a) == Bases(b) && Ordered(b, n)
    ensures Ordered(a, n) && BaseSet(a) == BaseSet(b)
    ensures forall i :: 0 <= i < |a| ==> a[i].base == b[i].base && End(a, n, i) == End(b, n, i)
  {
    forall i | 0 <= i < |a|
      ensures a[i].base == b[i].base
    {
      assert Bases(a)[i] == Bases(b)[i];
    }
    BasesAreBaseSet(a);
    BasesAreBaseSet(b);
  }

  /** Opening the files of a log that starts at offset 0 restores exactly that log and changes no file. */
  lemma ReopenChangesNothing(decode: Decoder, interval: nat, frames: seq<bytes>, segments: seq<Segment>, files: Files)
    requires SelfDelimiting(decode) && LogOk(decode, frames) && Layout(frames, interval, segments, files)
    requires segments[0].base == 0
    ensures forall b :: b in Bases(segments) ==> b in files
    ensures OpenSegments(decode, interval, Bases(segments), 0, Opened(0, map[], [], files))
            == Success(Opened(|frames|, TableOf(decode, frames), segments, files))
  {
    BasesAreBaseSet(segments);
    NothingToShorten(decode, interval, frames, segments, files);
    OpensCut(decode, interval, frames, segments, files, segments[|segments| - 1].length, []);
  }

  lemma NothingToShorten(decode: Decoder, interval: nat, frames: seq<bytes>, segments: seq<Segment>, files: Files)
    requires Layout(frames, interval, segments, files)
    ensures var active := segments[|segments| - 1];
            && active.base in files && files[active.base] == Flatten(frames[active.base..]) + []
            && CutActive(segments, files, active.length) == files
            && Shortened(decode, interval, frames, segments, files)
               == Opened(|frames|, TableOf(decode, frames), segments, files)
  {
    var last := |segments| - 1;
    var active := segments[last];
    assert SegmentOk(frames, interval, segments, files, last);
    assert Part(frames, segments, last) == frames[active.base..];
    assert segments[..last] + [active] == segments;
    assert files[active.base := files[active.base]] == files;
  }

  /** `open` expects the first segment to start at offset 0, so it accepts a log's own files exactly when it does. */
  lemma ReopensIffFromZero(decode: Decoder, interval: nat, frames: seq<bytes>, segments: seq<Segment>, files: Files)
    requires SelfDelimiting(decode) && LogOk(decode, frames) && Layout(frames, interval, segments, files)
    ensures forall b :: b in Bases(segments) ==> b in files
    ensures OpenSegments(decode, interval, Bases(segments), 0, Opened(0, map[], [], files)).Success?
            <==> segments[0].base == 0
  {
    BasesAreBaseSet(segments);
    if segments[0].base == 0 {
      ReopenChangesNothing(decode, interval, frames, segments, files);
    }
  }

  /** Whatever opens, from any files at all, is laid out as a well-formed log; only the active file may lose a rest. */
  lemma {:induction false} OpensOnlyLogs(decode: Decoder, interval: nat, bases: seq<nat>, i: nat, o: Opened, done: seq<bytes>)
    returns (frames: seq<bytes>)
    requires SelfDelimiting(decode) && LogOk(decode, done) && i <= |bases|
    requires forall b :: b in bases ==> b in o.files
    requires forall j, k :: 0 <= j < k < |bases| ==> bases[j] < bases[k]
    requires Bases(o.segments) == bases[..i] && Laid(done, interval, o.segments, o.files)
    requires o.next == |done| && o.table == TableOf(decode, done)
    requires OpenSegments(decode, interval, bases, i, o).Success?
    ensures done <= frames && LogOk(decode, frames)
    ensures var r := OpenSegments(decode, interval, bases, i, o).value;
            && Bases(r.segments) == bases && Laid(frames, interval, r.segments, r.files)
            && r.next == |frames| && r.table == TableOf(decode, frames) && r.files.Keys == o.files.Keys
            && (forall b :: b in o.files && (bases == [] || b != bases[|bases| - 1]) ==> r.files[b] == o.files[b])
            && (forall b :: b in o.files ==> r.files[b] <= o.files[b])
    decreases |bases| - i
  {
    if i == |bases| {
      frames := done;
      assert bases[..i] == bases;
    } else {
      var next, more := OpensOneMore(decode, interval, bases, i, o, done);
      frames := OpensOnlyLogs(decode, interval, bases, i + 1, next, more);
    }
  }

  /** If opening does not fail at segment `i`, its file holds the next part of the log. */
  lemma OpensOneMore(decode: Decoder, interval: nat, bases: seq<nat>, i: nat, o: Opened, done: seq<bytes>)
    returns (next: Opened, more: seq<bytes>)
    requires SelfDelimiting(decode) && LogOk(decode, done) && i < |bases|
    requires forall b :: b in bases ==> b in o.files
    requires forall j, k :: 0 <= j < k < |bases| ==> bases[j] < bases[k]
    requires Bases(o.segments) == bases[..i] && Laid(done, interval, o.segments, o.files)
    requires o.next == |done| && o.table == TableOf(decode, done)
    requires OpenSegments(decode, interval, bases, i, o).Success?
    ensures done <= more && LogOk(decode, more)
    ensures Bases(next.segments) == bases[..i + 1] && Laid(more, interval, next.segments, next.files)
    ensures next.next == |more| && next.table == TableOf(decode, more) && next.files.Keys == o.files.Keys
    ensures OpenSegments(decode, interval, bases, i, o) == OpenSegments(decode, interval, bases, i + 1, next)
    ensures forall b :: b in o.files && (i < |bases| - 1 || b != bases[i]) ==> next.files[b] == o.files[b]
    ensures forall b :: b in o.files ==> next.files[b] <= o.files[b]
  {
    next := OpenSegment(decode, interval, bases[i], i == |bases| - 1, o).value;
    var tail;
    more, tail := OpenedSegment(decode, interval, done, bases[i], i == |bases| - 1, o);
    OpensSegment(decode, interval, more, bases[i], tail, i == |bases| - 1, o);
    ExtendsLayout(interval, done, more, bases, i, o, next);
  }

  lemma ExtendsLayout(interval: nat, done: seq<bytes>, frames: seq<bytes>, bases: seq<nat>, i: nat, o: Opened, next: Opened)
    requires i < |bases| && bases[i] == |done| && done <= frames
    requires forall j, k :: 0 <= j < k < |bases| ==> bases[j] < bases[k]
    requires Bases(o.segments) == bases[..i] && Laid(done, interval, o.segments, o.files)
    requires var part := frames[|done|..];
             && next.segments == o.segments + [Segment(|done|, |Flatten(part)|, SparseIndex(part, |done|, interval))]
             && next.files == o.files[|done| := Flatten(part)]
    ensures Bases(next.segments) == bases[..i + 1] && Laid(frames, interval, next.segments, next.files)
  {
    var segments := next.segments;
    assert forall j :: 0 <= j < i ==> o.segments[j].base == bases[..i][j];
    assert Bases(segments) == bases[..i + 1];
    assert forall j :: 0 <= j <= i ==> segments[j].base == bases[..i + 1][j] == bases[j];
    forall j | 0 <= j <= i
      ensures SegmentOk(frames, interval, segments, next.files, j)
    {
      if j < i {
        assert SegmentOk(done, interval, o.segments, o.files, j);
        SettledShare(done, frames, o.segments, segments[i], j);
      } else {
        LastShare(frames, interval, segments, next.files);
      }
    }
  }

  /** A segment's share is settled once the next segment starts. */
  lemma SettledShare(done: seq<bytes>, frames: seq<bytes>, segments: seq<Segment>, next: Segment, j: nat)
    requires done <= frames && Ordered(segments, |done|) && j < |segments| && next.base == |done|
    requires Ordered(segments + [next], |frames|)
    ensures Part(frames, segments + [next], j) == Part(done, segments, j)
  {
    var hi := End(segments, |done|, j);
    assert hi <= |done| && frames[..hi] == done[..hi];
    assert frames[segments[j].base..hi] == frames[..hi][segments[j].base..];
    assert done[segments[j].base..hi] == done[..hi][segments[j].base..];
  }

  // ---------------------------------------------------------------- a log in use

  lemma ActiveHasFile(frames: seq<bytes>, interval: nat, segments: seq<Segment>, files: Files)
    requires Layout(frames, interval, segments, files)
    ensures segments[|segments| - 1].base in files
    ensures segments[|segments| - 1].length > 0 ==> segments[|segments| - 1].base < |frames|
    ensures segments[0].base <= segments[|segments| - 1].base <= |frames|
  {
    assert SegmentOk(frames, interval, segments, files, |segments| - 1);
  }

  /** A frame appended to the active file. */
  lemma AppendsToActive(frames: seq<bytes>, interval: nat, segments: seq<Segment>, files: Files, frame: bytes,
                        segments': seq<Segment>, files': Files)
    requires Layout(frames, interval, segments, files) && segments[|segments| - 1].base in files
    requires var active := segments[|segments| - 1];
             && segments' == segments[..|segments| - 1]
                             + [Segment(active.base, active.length + |frame|,
                                        AddEntry(active.index, |frames|, active.length, interval))]
             && files' == files[active.base := files[active.base] + frame]
    ensures Layout(frames + [frame], interval, segments', files')
  {
    var last := |segments| - 1;
    assert SegmentOk(frames, interval, segments, files, last);
    var active' := ActiveGrows(frames, interval, segments, files, frame);
    forall i | 0 <= i < last
      ensures SegmentOk(frames + [frame], interval, segments, files', i)
    {
      assert SegmentOk(frames, interval, segments, files, i);
      UntouchedShare(frames, interval, segments, files, frame, files', i);
    }
    ReplaceLast(frames + [frame], interval, segments, active', files');
    BasesAreBaseSet(segments);
  }

  lemma ActiveGrows(frames: seq<bytes>, interval: nat, segments: seq<Segment>, files: Files, frame: bytes) returns (active': Segment)
    requires segments != [] && Ordered(segments, |frames|) && SegmentOk(frames, interval, segments, files, |segments| - 1)
    ensures var active, more := segments[|segments| - 1], frames + [frame];
            var part := more[active.base..];
            && active' == Segment(active.base, active.length + |frame|,
                                  AddEntry(active.index, |frames|, active.length, interval))
            && active' == Segment(active.base, |Flatten(part)|, SparseIndex(part, active.base, interval))
            && files[active.base] + frame == Flatten(part)
  {
    var active := segments[|segments| - 1];
    assert Part(frames, segments, |segments| - 1) == frames[active.base..];
    SegmentGrows(frames, active.base, frame, interval);
    active' := Segment(active.base, active.length + |frame|, AddEntry(active.index, |frames|, active.length, interval));
  }

  lemma UntouchedShare(frames: seq<bytes>, interval: nat, segments: seq<Segment>, files: Files, frame: bytes, files': Files, i: nat)
    requires Ordered(segments, |frames|) && i + 1 < |segments| && SegmentOk(frames, interval, segments, files, i)
    requires forall b :: b in files && b != segments[|segments| - 1].base ==> b in files' && files'[b] == files[b]
    ensures SegmentOk(frames + [frame], interval, segments, files', i)
  {
    assert Part(frames + [frame], segments, i) == Part(frames, segments, i);
  }

  /** An empty segment started behind an active one that has records. */
  lemma AddsSegment(frames: seq<bytes>, interval: nat, segments: seq<Segment>, files: Files)
    requires Layout(frames, interval, segments, files) && segments[|segments| - 1].base < |frames|
    ensures |frames| !in files
    ensures Layout(frames, interval, segments + [Segment(|frames|, 0, [])], files[|frames| := []])
  {
    var segments', files' := segments + [Segment(|frames|, 0, [])], files[|frames| := []];
    BasesBelow(segments, |frames|);
    BaseSetJoins(segments, [Segment(|frames|, 0, [])]);
    forall i | 0 <= i < |segments|
      ensures SegmentOk(frames, interval, segments', files', i)
    {
      assert SegmentOk(frames, interval, segments, files, i);
      AddedShare(frames, segments, i);
    }
    LastShare(frames, interval, segments', files');
  }

  lemma AddedShare(frames: seq<bytes>, segments: seq<Segment>, i: nat)
    requires Ordered(segments, |frames|) && i < |segments|
    requires Ordered(segments + [Segment(|frames|, 0, [])], |frames|)
    ensures Part(frames, segments + [Segment(|frames|, 0, [])], i) == Part(frames, segments, i)
  {
  }

  lemma BasesBelow(segments: seq<Segment>, n: nat)
    requires segments != [] && Ordered(segments, n) && segments[|segments| - 1].base < n
    ensures n !in BaseSet(segments)
    ensures Ordered(segments + [Segment(n, 0, [])], n)
  {
    assert forall i :: 0 <= i < |segments| ==> segments[i].base <= segments[|segments| - 1].base;
  }

  lemma BaseSetJoins(a: seq<Segment>, b: seq<Segment>)
    ensures BaseSet(a + b) == BaseSet(a) + BaseSet(b)
    ensures |b| == 1 ==> BaseSet(b) == {b[0].base}
  {
    forall x | x in BaseSet(a) + BaseSet(b)
      ensures x in BaseSet(a + b)
    {
      var s :| (s in a || s in b) && s.base == x;
      assert s in a + b;
    }
  }

  /** The first of several segments removed. */
  lemma DropsFirst(frames: seq<bytes>, interval: nat, segments: seq<Segment>, files: Files)
    requires Layout(frames, interval, segments, files) && |segments| > 1
    ensures Layout(frames, interval, segments[1..], files - {segments[0].base})
  {
    var segments', files' := segments[1..], files - {segments[0].base};
    FirstBaseGone(segments, |frames|);
    forall i | 0 <= i < |segments'|
      ensures SegmentOk(frames, interval, segments', files', i)
    {
      assert SegmentOk(frames, interval, segments, files, i + 1);
      DroppedShare(frames, interval, segments, files, i);
    }
  }

  lemma FirstBaseGone(segments: seq<Segment>, n: nat)
    requires segments != [] && Ordered(segments, n)
    ensures Ordered(segments[1..], n)
    ensures BaseSet(segments[1..]) == BaseSet(segments) - {segments[0].base}
  {
    RestIsOrdered(segments, n);
    FirstBaseIsUnique(segments, n);
    FirstAndRest(segments);
  }

  lemma RestIsOrdered(segments: seq<Segment>, n: nat)
    requires segments != [] && Ordered(segments, n)
    ensures Ordered(segments[1..], n)
  {
    assert forall i :: 0 <= i < |segments[1..]| ==> segments[1..][i] == segments[i + 1];
  }

  lemma FirstAndRest(segments: seq<Segment>)
    requires segments != []
    ensures BaseSet(segments) == {segments[0].base} + BaseSet(segments[1..])
  {
    assert segments == [segments[0]] + segments[1..];
    BaseSetJoins([segments[0]], segments[1..]);
  }

  lemma FirstBaseIsUnique(segments: seq<Segment>, n: nat)
    requires segments != [] && Ordered(segments, n)
    ensures segments[0].base !in BaseSet(segments[1..])
  {
    forall s | s in segments[1..]
      ensures s.base > segments[0].base
    {
      var i :| 1 <= i < |segments| && segments[i] == s;
    }
  }

  lemma DroppedShare(frames: seq<bytes>, interval: nat, segments: seq<Segment>, files: Files, i: nat)
    requires Ordered(segments, |frames|) && i + 1 < |segments| && SegmentOk(frames, interval, segments, files, i + 1)
    ensures Ordered(segments[1..], |frames|)
    ensures SegmentOk(frames, interval, segments[1..], files - {segments[0].base}, i)
  {
    assert Part(frames, segments[1..], i) == Part(frames, segments, i + 1);
  }
}
