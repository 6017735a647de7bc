/**
 What the running ledger keeps in memory, as a mirror of its log, and how each piece of
 an append updates it.
 */
module AuditMemory {
  import opened Bytes
  import opened AuditTypes
  import opened AuditFrames
  import opened AuditLog
  import opened AuditScan
  import opened AuditAppend
  import opened AuditLimit
  import opened AuditReader

  /** The vectors and counters of `FileAuditLedger`. */
  datatype Memory = Memory(
    records: seq<View>,
    owners: seq<nat>,
    segments: seq<Segment>,
    currentSegment: nat,
    currentBytes: nat,
    head: Head,
    lastHash: Hash)

  /** A descriptor of segment i; a segment just opened by rotation has no first sequence yet. */
  predicate Describes(env: Env, log: Log, i: nat, d: Segment)
    requires i < |log|
  {
    var e := SegmentOf(env, Flat(log[..i]), log[i]);
    d == e || (i == |log| - 1 && log[i].frames == [] && d == e.(first := 0))
  }

  predicate SegmentsMirror(env: Env, log: Log, ds: seq<Segment>) {
    |ds| == |log| && forall i :: 0 <= i < |log| ==> Describes(env, log, i, ds[i])
  }

  predicate RecordsMirror(env: Env, log: Log, records: seq<View>, owners: seq<nat>) {
    && Decoded(env, Flat(log))
    && records == Views(env, Flat(log))
    && owners == Owners(log)
  }

  predicate CountersMirror(env: Env, log: Log, m: Memory)
    requires log != [] && log[0].number > 0
  {
    && m.currentSegment == log[|log| - 1].number
    && m.currentBytes == CurrentBytes(env, log)
    && m.head == HeadOf(log)
    && m.lastHash == LastHash(env, Flat(log))
  }

  predicate Mirrors(env: Env, log: Log, m: Memory) {
    && log != [] && log[0].number > 0
    && RecordsMirror(env, log, m.records, m.owners)
    && SegmentsMirror(env, log, m.segments)
    && CountersMirror(env, log, m)
  }

  /** After opening, memory mirrors the scanned log. */
  lemma {:induction false} ImageMirrors(env: Env, log: Log, cut: bool)
    requires log != [] && log[0].number > 0 && Decoded(env, Flat(log))
    ensures var i := Image(env, log[0].number - 1, log, cut);
            Mirrors(env, log,
                    Memory(i.records, i.owners, i.segments, log[|log| - 1].number, i.currentBytes, i.head, i.lastHash))
  {
    forall i | 0 <= i < |log| ensures Describes(env, log, i, Segments(env, log)[i]) {
      SegmentsAt(env, log, i);
    }
  }

  /** What a scan of these files would have to load to be this memory. */
  function LoadedAs(m: Memory, disk: Disk): (l: Loaded)
  {
    Loaded(m.records, m.owners, m.segments, m.head, m.lastHash, m.currentBytes, false, disk)
  }

  /** `scan_segments` over the files rebuilds exactly this memory, and cuts nothing off. */
  ghost predicate Rebuilds(env: Env, opts: Options, disk: Disk, m: Memory) {
    && disk != [] && m.currentSegment == disk[|disk| - 1].number
    && Loads(env, opts, true, disk, Ok(LoadedAs(m, disk)))
  }

  /** Conversely, memory that mirrors a log whose last segment holds frames is the image of that log. */
  lemma {:induction false} MirrorIsImage(env: Env, log: Log, m: Memory)
    requires Mirrors(env, log, m) && log[|log| - 1].frames != []
    ensures LoadedAs(m, Render(env, log)) == Image(env, log[0].number - 1, log, false)
  {
    forall i | 0 <= i < |log| ensures m.segments[i] == Segments(env, log)[i] {
      assert Describes(env, log, i, m.segments[i]);
      SegmentsAt(env, log, i);
    }
    assert m.segments == Segments(env, log);
  }

  /** Reopening refines memory: a scan of the files loads what the ledger holds, exactly within the scan limit. */
  lemma {:induction false} MirrorRebuilds(env: Env, opts: Options, log: Log, m: Memory)
    requires opts.Valid() && Mirrors(env, log, m) && log[|log| - 1].frames != [] && WellFormed(env, opts, log)
    ensures Rebuilds(env, opts, Render(env, log), m) <==> |m.records| <= opts.maxScan
  {
    ReadsBackExactly(env, opts, true, log);
    MirrorIsImage(env, log, m);
  }

  // ----- a frame is written -----

  /** The last descriptor after a frame. */
  function Touched(d: Segment, sequence: nat, hash: Hash, bytes: nat): (e: Segment)
  {
    Segment(d.number, if d.first == 0 then sequence else d.first, sequence, hash, bytes)
  }

  function MemoryWith(env: Env, m: Memory, f: Frame, record: Record): (m': Memory)
    requires m.segments != []
  {
    var n := |m.segments| - 1;
    var bytes := m.currentBytes + |FrameBytes(env, f)|;
    Memory(
      m.records + [View(f.sequence, record)],
      m.owners + [m.currentSegment],
      m.segments[..n] + [Touched(m.segments[n], f.sequence, Digest(env, f), bytes)],
      m.currentSegment,
      bytes,
      m.head.(sequence := f.sequence),
      Digest(env, f))
  }

  lemma {:induction false} OwnersWithFrame(log: Log, f: Frame)
    requires log != []
    ensures Owners(WithFrame(log, f)) == Owners(log) + [log[|log| - 1].number]
  {
    var m := |log| - 1;
    OwnersSnoc(log[..m], Seg(log[m].number, log[m].frames + [f]));
    assert log == log[..m] + [log[m]];
    OwnersSnoc(log[..m], log[m]);
    assert Repeat(log[m].number, |log[m].frames| + 1) == Repeat(log[m].number, |log[m].frames|) + [log[m].number];
  }

  /** The descriptor of the current segment after the frame. */
  lemma {:induction false} LastDescriptor(env: Env, log: Log, f: Frame, d: Segment)
    requires log != [] && f.sequence == NextSequence(Flat(log)) > 0
    requires Describes(env, log, |log| - 1, d)
    requires forall g :: g in log[|log| - 1].frames ==> g.sequence > 0
    ensures Describes(env, WithFrame(log, f), |log| - 1,
                      Touched(d, f.sequence, Digest(env, f), CurrentBytes(env, log) + |FrameBytes(env, f)|))
  {
    var m := |log| - 1;
    var frames := log[m].frames;
    FileBytesSnoc(env, frames, f);
    assert WithFrame(log, f)[..m] == log[..m];
    FlatLast(log);
    if frames != [] {
      assert frames[0] in frames;
      assert (frames + [f])[0] == frames[0];
    } else {
      assert Flat(log) == Flat(log[..m]);
    }
    assert Flat(log[..m]) + (frames + [f]) == (Flat(log[..m]) + frames) + [f];
  }

  lemma {:induction false} SegmentsWithFrame(env: Env, log: Log, f: Frame, ds: seq<Segment>)
    requires log != [] && f.sequence == NextSequence(Flat(log)) > 0 && SegmentsMirror(env, log, ds)
    requires forall g :: g in log[|log| - 1].frames ==> g.sequence > 0
    ensures var m := |log| - 1;
            SegmentsMirror(env, WithFrame(log, f),
              ds[..m] + [Touched(ds[m], f.sequence, Digest(env, f), CurrentBytes(env, log) + |FrameBytes(env, f)|)])
  {
    var m, l := |log| - 1, WithFrame(log, f);
    LastDescriptor(env, log, f, ds[m]);
    forall i | 0 <= i < m ensures Describes(env, l, i, ds[i]) {
      assert l[..i] == log[..i];
      assert Describes(env, log, i, ds[i]);
    }
  }

  /** Every sequence in the log is positive. */
  predicate Positive(log: Log) {
    forall i :: 0 <= i < |Flat(log)| ==> Flat(log)[i].sequence > 0
  }

  lemma {:induction false} PositiveLast(log: Log)
    requires log != [] && Positive(log)
    ensures NextSequence(Flat(log)) > 0
    ensures forall g :: g in log[|log| - 1].frames ==> g.sequence > 0
  {
    FlatLast(log);
    var a, b := Flat(log[..|log| - 1]), log[|log| - 1].frames;
    forall g | g in b ensures g.sequence > 0 {
      var i :| 0 <= i < |b| && b[i] == g;
      assert Flat(log)[|a| + i] == g;
    }
  }

  lemma {:induction false} PositiveSnoc(log: Log, f: Frame)
    requires log != [] && Positive(log) && f.sequence > 0
    ensures Positive(WithFrame(log, f))
  {
    WithFrameFlat(log, f);
  }

  lemma {:induction false} AnchoredPositive(env: Env, opts: Options, log: Log)
    requires log != [] && Chain(env, opts, log[0].number, Flat(log)) && Anchored(env, log[0].number, Flat(log))
    ensures Positive(log) && Decoded(env, Flat(log))
  {
    var fs := Flat(log);
    forall i | 0 <= i < |fs| ensures fs[i].sequence > 0 {
      FirstSequencePositive(env, opts, log);
      SequencesCount(env, fs, i);
    }
    forall i | 0 <= i < |fs| ensures env.decode(fs[i].payload).Ok? {
      assert Storable(env, opts, fs[i]);
    }
  }

  lemma {:induction false} CountersWithFrame(env: Env, log: Log, m: Memory, f: Frame, record: Record)
    requires log != [] && log[0].number > 0 && m.segments != [] && CountersMirror(env, log, m)
    ensures WithFrame(log, f)[0].number > 0
    ensures CountersMirror(env, WithFrame(log, f), MemoryWith(env, m, f, record))
  {
    WithFrameFlat(log, f);
    FileBytesSnoc(env, log[|log| - 1].frames, f);
  }

  lemma {:induction false} RecordsWithFrame(env: Env, log: Log, records: seq<View>, owners: seq<nat>, f: Frame)
    requires log != [] && RecordsMirror(env, log, records, owners) && env.decode(f.payload).Ok?
    ensures RecordsMirror(env, WithFrame(log, f), records + [View(f.sequence, RecordOf(env, f))],
                          owners + [log[|log| - 1].number])
  {
    WithFrameFlat(log, f);
    ViewsSnoc(env, Flat(log), f);
    OwnersWithFrame(log, f);
  }

  /** Appending a frame updates memory to the mirror of the longer log. */
  lemma {:induction false} FrameMirrored(env: Env, log: Log, m: Memory, f: Frame, record: Record)
    requires Mirrors(env, log, m) && Positive(log)
    requires f.sequence == NextSequence(Flat(log))
    requires env.decode(f.payload).Ok? && RecordOf(env, f) == record
    ensures Mirrors(env, WithFrame(log, f), MemoryWith(env, m, f, record))
  {
    var m' := MemoryWith(env, m, f, record);
    RecordsWithFrame(env, log, m.records, m.owners, f);
    assert SegmentsMirror(env, WithFrame(log, f), m'.segments) by {
      PositiveLast(log);
      SegmentsWithFrame(env, log, f, m.segments);
    }
    CountersWithFrame(env, log, m, f, record);
  }

  // ----- a segment is opened -----

  function MemoryRotated(m: Memory): (m': Memory)
  {
    Memory(m.records, m.owners, m.segments + [Segment(m.currentSegment + 1, 0, 0, m.lastHash, 0)],
           m.currentSegment + 1, 0, m.head, m.lastHash)
  }

  lemma {:induction false} OwnersRotated(log: Log)
    requires log != []
    ensures Owners(Rotated(log)) == Owners(log)
  {
    OwnersSnoc(log, Seg(log[|log| - 1].number + 1, []));
    assert Owners(log) + Repeat(log[|log| - 1].number + 1, 0) == Owners(log);
  }

  lemma {:induction false} SegmentsRotated(env: Env, log: Log, ds: seq<Segment>, number: nat, hash: Hash, l: Log,
                                           ds': seq<Segment>)
    requires log != [] && log[|log| - 1].frames != [] && SegmentsMirror(env, log, ds)
    requires number == log[|log| - 1].number && hash == LastHash(env, Flat(log))
    requires l == Rotated(log) && ds' == ds + [Segment(number + 1, 0, 0, hash, 0)]
    ensures SegmentsMirror(env, l, ds')
  {
    var n := |log|;
    forall i | 0 <= i < n ensures Describes(env, l, i, ds'[i]) {
      assert l[..i] == log[..i];
      assert Describes(env, log, i, ds[i]);
    }
    assert l[..n] == log;
    assert Flat(log) + [] == Flat(log);
  }

  lemma {:induction false} CountersRotated(env: Env, log: Log, m: Memory, l: Log, m': Memory)
    requires log != [] && log[0].number > 0 && CountersMirror(env, log, m)
    requires l == Rotated(log) && m' == MemoryRotated(m)
    ensures l[0].number > 0 && CountersMirror(env, l, m')
  {
    RotatedFlat(log);
  }

  lemma {:induction false} RecordsRotated(env: Env, log: Log, records: seq<View>, owners: seq<nat>, l: Log)
    requires log != [] && RecordsMirror(env, log, records, owners) && l == Rotated(log)
    ensures RecordsMirror(env, l, records, owners)
  {
    RotatedFlat(log);
    OwnersRotated(log);
  }

  /** Opening a segment updates memory to the mirror of the rotated log. */
  lemma {:induction false} RotationMirrored(env: Env, log: Log, m: Memory, l: Log, m': Memory)
    requires Mirrors(env, log, m) && log[|log| - 1].frames != []
    requires l == Rotated(log) && m' == MemoryRotated(m)
    ensures Mirrors(env, l, m')
  {
    SegmentsRotated(env, log, m.segments, m.currentSegment, m.lastHash, l, m'.segments);
    CountersRotated(env, log, m, l, m');
    RecordsRotated(env, log, m.records, m.owners, l);
    assert RecordsMirror(env, l, m'.records, m'.owners);
  }

  // ----- old segments are dropped -----

  /** `total_bytes` */
  function SumBytes(ds: seq<Segment>): (n: nat)
  {
    if ds == [] then 0 else SumBytes(ds[..|ds| - 1]) + ds[|ds| - 1].bytes
  }

  /** The descriptors' sizes add up to the sizes of the segments. */
  lemma {:induction false} SumIsTotal(env: Env, log: Log, ds: seq<Segment>, k: nat)
    requires SegmentsMirror(env, log, ds) && k <= |log|
    ensures SumBytes(ds[..k]) == TotalBytes(env, log[..k])
  {
    if k > 0 {
      SumIsTotal(env, log, ds, k - 1);
      assert ds[..k][..k - 1] == ds[..k - 1] && log[..k][..k - 1] == log[..k - 1];
      assert Describes(env, log, k - 1, ds[k - 1]);
    }
  }

  /** An owner is the number of one of the segments. */
  lemma {:induction false} OwnerIsNumber(log: Log, j: nat) returns (i: nat)
    requires j < |Owners(log)|
    ensures i < |log| && Owners(log)[j] == log[i].number
  {
    var n := |log| - 1;
    if j < |Owners(log[..n])| {
      i := OwnerIsNumber(log[..n], j);
    } else {
      i := n;
    }
  }

  /** The numbers of the first k segments own exactly the first records. */
  lemma {:induction false} OwnersSplit(log: Log, k: nat, j: nat)
    requires Packed(log) && k <= |log| && j < |Owners(log)|
    ensures |Flat(log[..k])| <= |Flat(log)|
    ensures (exists i :: 0 <= i < k && log[i].number == Owners(log)[j]) <==> j < |Flat(log[..k])|
  {
    var a, b := log[..k], log[k..];
    assert log == a + b;
    OwnersConcat(a, b);
    FlatSplit(log, k);
    if j < |Owners(a)| {
      var i := OwnerIsNumber(a, j);
      assert log[i].number == Owners(log)[j];
    } else {
      var i := OwnerIsNumber(b, j - |Owners(a)|);
      assert b[i] == log[k + i];
      PackedNumber(log, k + i);
      forall h | 0 <= h < k ensures log[h].number != Owners(log)[j] {
        PackedNumber(log, h);
      }
    }
  }

  /** Cutting whole segments off the front cuts the vectors. */
  lemma {:induction false} VectorsCut(env: Env, log: Log, k: nat)
    requires k <= |log| && Decoded(env, Flat(log))
    ensures |Flat(log[..k])| <= |Flat(log)| && Decoded(env, Flat(log[k..]))
    ensures Views(env, Flat(log[k..])) == Views(env, Flat(log))[|Flat(log[..k])|..]
    ensures Owners(log[k..]) == Owners(log)[|Flat(log[..k])|..]
  {
    FlatSplit(log, k);
    assert log == log[..k] + log[k..];
    OwnersConcat(log[..k], log[k..]);
    var n := |Flat(log[..k])|;
    forall i | 0 <= i < |Flat(log[k..])| ensures Flat(log[k..])[i] == Flat(log)[n + i] {
    }
  }

  /** A segment with frames is described by them alone. */
  lemma {:induction false} DescriptorAlone(env: Env, a: seq<Frame>, b: seq<Frame>, s: Seg)
    requires s.frames != []
    ensures SegmentOf(env, a, s) == SegmentOf(env, b, s)
  {
  }

  lemma {:induction false} SegmentsCut(env: Env, log: Log, ds: seq<Segment>, k: nat)
    requires k < |log| && SegmentsMirror(env, log, ds)
    requires forall i :: 0 <= i < |log| ==> log[i].frames != []
    ensures SegmentsMirror(env, log[k..], ds[k..])
  {
    forall i | 0 <= i < |log| - k ensures Describes(env, log[k..], i, ds[k..][i]) {
      assert Describes(env, log, k + i, ds[k + i]);
      DescriptorAlone(env, Flat(log[..k + i]), Flat(log[k..][..i]), log[k + i]);
    }
  }

  /** Memory after the first k segments are gone. */
  function MemoryCut(m: Memory, k: nat, n: nat, generation: nat): (m': Memory)
    requires k <= |m.segments| && n <= |m.records| == |m.owners|
  {
    Memory(m.records[n..], m.owners[n..], m.segments[k..],
           m.currentSegment, m.currentBytes, Head(generation, m.head.sequence), m.lastHash)
  }

  lemma {:induction false} CutMirrored(env: Env, log: Log, m: Memory, k: nat)
    requires Mirrors(env, log, m) && Packed(log) && k < |log|
    requires log[|log| - 1].frames != []
    ensures |Flat(log[..k])| <= |m.records| == |m.owners|
    ensures Mirrors(env, log[k..], MemoryCut(m, k, |Flat(log[..k])|, log[k].number - 1))
  {
    VectorsCut(env, log, k);
    SegmentsCut(env, log, m.segments, k);
    FlatSplit(log, k);
    FlatLast(log[k..]);
    PackedNumber(log, k);
  }
}
