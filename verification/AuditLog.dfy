/**
 The ledger as a list of frames per segment: what the bytes on disk stand for, and
 what the in-memory vectors are a summary of.
 */
module AuditLog {
  import opened Bytes
  import opened AuditTypes
  import opened AuditFrames

  datatype File = File(number: nat, bytes: seq<Byte>)

  type Disk = seq<File>

  datatype Segment = Segment(number: nat, first: nat, last: nat, terminalHash: Hash, bytes: nat)

  datatype Seg = Seg(number: nat, frames: seq<Frame>)

  type Log = seq<Seg>

  // ----- frames, and what a reader gets out of them -----

  function RecordOf(env: Env, f: Frame): (r: Record)
    requires env.decode(f.payload).Ok?
  {
    env.decode(f.payload).value.0
  }

  function PrunedOf(env: Env, f: Frame): (p: Option<Pruned>)
  {
    if env.decode(f.payload).Ok? then env.decode(f.payload).value.1 else None
  }

  /** A frame the scan can accept on its own: bounded payload that decodes, no sequence overflow. */
  predicate Storable(env: Env, opts: Options, f: Frame) {
    && |f.payload| <= opts.maxPayload <= MAX_PAYLOAD_BYTES
    && env.decode(f.payload).Ok?
    && f.sequence + 1 < U64_SPAN
  }

  predicate AllStorable(env: Env, opts: Options, fs: seq<Frame>) {
    forall i {:trigger Storable(env, opts, fs[i])} :: 0 <= i < |fs| ==> Storable(env, opts, fs[i])
  }

  function LastHash(env: Env, fs: seq<Frame>): (h: Hash)
  {
    if fs == [] then ZERO_HASH else Digest(env, fs[|fs| - 1])
  }

  function NextSequence(fs: seq<Frame>): (n: nat)
  {
    if fs == [] then 1 else fs[|fs| - 1].sequence + 1
  }

  function LastSequence(fs: seq<Frame>): (n: nat)
  {
    if fs == [] then 0 else fs[|fs| - 1].sequence
  }

  predicate Follows(env: Env, f: Frame, g: Frame) {
    g.previous == Digest(env, f) && g.sequence == f.sequence + 1
  }

  /** Every frame names its predecessor's hash and the next sequence. */
  predicate Linked(env: Env, fs: seq<Frame>) {
    forall i :: 0 < i < |fs| ==> FollowsAt(env, fs, i)
  }

  /** Frame i comes directly after the one before it. */
  predicate FollowsAt(env: Env, fs: seq<Frame>, i: nat)
    requires 0 < i < |fs|
  {
    Follows(env, fs[i - 1], fs[i])
  }

  /** A ledger that starts at segment 1 starts the chain. */
  predicate Rooted(first: nat, fs: seq<Frame>) {
    fs != [] && first <= 1 ==> fs[0].sequence == 1 && fs[0].previous == ZERO_HASH
  }

  predicate Chain(env: Env, opts: Options, first: nat, fs: seq<Frame>) {
    Linked(env, fs) && Rooted(first, fs) && AllStorable(env, opts, fs)
  }

  predicate Decoded(env: Env, fs: seq<Frame>) {
    forall i {:trigger fs[i].payload} :: 0 <= i < |fs| ==> env.decode(fs[i].payload).Ok?
  }

  function Views(env: Env, fs: seq<Frame>): (vs: seq<View>)
    requires Decoded(env, fs)
    ensures |vs| == |fs|
  {
    seq(|fs|, i requires 0 <= i < |fs| => View(fs[i].sequence, RecordOf(env, fs[i])))
  }

  /** The metadata of the checkpoints among the frames, in order. */
  function Checkpoints(env: Env, fs: seq<Frame>): (ps: seq<Pruned>)
  {
    if fs == [] then []
    else
      var n := |fs| - 1;
      match PrunedOf(env, fs[n])
      case None => Checkpoints(env, fs[..n])
      case Some(p) => Checkpoints(env, fs[..n]) + [p]
  }

  /** The checkpoint test at the end of the scan: it vouches for what precedes frame (sequence, previous). */
  predicate Vouches(p: Pruned, sequence: nat, previous: Hash) {
    && p.last + 1 == sequence
    && p.last + 1 < U64_SPAN
    && p.terminalHash == previous
    && p.first <= p.last
  }

  /** Some retained checkpoint vouches for the predecessor of the first retained frame. */
  predicate Anchored(env: Env, first: nat, fs: seq<Frame>) {
    first > 1 && fs != [] ==>
      exists i :: 0 <= i < |Checkpoints(env, fs)|
        && Vouches(Checkpoints(env, fs)[i], fs[0].sequence, fs[0].previous)
  }

  lemma ViewsSnoc(env: Env, fs: seq<Frame>, f: Frame)
    requires Decoded(env, fs)
    requires env.decode(f.payload).Ok?
    ensures Views(env, fs + [f]) == Views(env, fs) + [View(f.sequence, RecordOf(env, f))]
  {
  }

  lemma CheckpointsSnoc(env: Env, fs: seq<Frame>, f: Frame)
    ensures Checkpoints(env, fs + [f]) ==
            Checkpoints(env, fs) + match PrunedOf(env, f) case None => [] case Some(p) => [p]
  {
    assert (fs + [f])[..|fs|] == fs;
  }

  lemma {:induction false} CheckpointsConcat(env: Env, a: seq<Frame>, b: seq<Frame>)
    ensures Checkpoints(env, a + b) == Checkpoints(env, a) + Checkpoints(env, b)
  {
    if b == [] {
      assert a + b == a;
    } else {
      var n := |b| - 1;
      CheckpointsConcat(env, a, b[..n]);
      assert a + b == (a + b[..n]) + [b[n]];
      assert b == b[..n] + [b[n]];
      CheckpointsSnoc(env, a + b[..n], b[n]);
      CheckpointsSnoc(env, b[..n], b[n]);
    }
  }

  /** A checkpoint's metadata is on the list exactly when some frame carries it. */
  lemma {:induction false} CheckpointsMember(env: Env, fs: seq<Frame>, p: Pruned)
    ensures p in Checkpoints(env, fs) <==> exists i :: 0 <= i < |fs| && PrunedOf(env, fs[i]) == Some(p)
  {
    if fs != [] {
      var n := |fs| - 1;
      CheckpointsMember(env, fs[..n], p);
      assert fs == fs[..n] + [fs[n]];
      if PrunedOf(env, fs[n]) == Some(p) {
        assert Checkpoints(env, fs) == Checkpoints(env, fs[..n]) + [p];
      }
    }
  }

  // ----- segments -----

  function Flat(log: Log): (fs: seq<Frame>)
  {
    if log == [] then [] else Flat(log[..|log| - 1]) + log[|log| - 1].frames
  }

  function Repeat(x: nat, n: nat): (s: seq<nat>)
    ensures |s| == n && forall i :: 0 <= i < n ==> s[i] == x
  {
    seq(n, i => x)
  }

  /** The segment number of every record, in record order. */
  function Owners(log: Log): (ns: seq<nat>)
    ensures |ns| == |Flat(log)|
  {
    if log == [] then []
    else
      var last := log[|log| - 1];
      Owners(log[..|log| - 1]) + Repeat(last.number, |last.frames|)
  }

  /** The segment descriptor the scan builds for a file that follows the frames `before`. */
  function SegmentOf(env: Env, before: seq<Frame>, s: Seg): (d: Segment)
  {
    Segment(
      s.number,
      if s.frames == [] then NextSequence(before) else s.frames[0].sequence,
      LastSequence(s.frames),
      LastHash(env, before + s.frames),
      |FileBytes(env, s.frames)|)
  }

  function Segments(env: Env, log: Log): (ds: seq<Segment>)
    ensures |ds| == |log|
  {
    if log == [] then []
    else
      var n := |log| - 1;
      Segments(env, log[..n]) + [SegmentOf(env, Flat(log[..n]), log[n])]
  }

  function FileOf(env: Env, s: Seg): (f: File)
  {
    File(s.number, FileBytes(env, s.frames))
  }

  /** The segment files of a log. */
  function Render(env: Env, log: Log): (d: Disk)
    ensures |d| == |log|
  {
    seq(|log|, i requires 0 <= i < |log| => FileOf(env, log[i]))
  }

  /** The numbering `discover_segments` insists on. */
  predicate Contiguous(numbers: seq<nat>) {
    && (forall i :: 0 <= i < |numbers| ==> numbers[i] > 0)
    && (forall i :: 0 < i < |numbers| ==> numbers[i] == numbers[i - 1] + 1)
  }

  function FileNumbers(disk: Disk): (ns: seq<nat>)
    ensures |ns| == |disk|
  {
    seq(|disk|, i requires 0 <= i < |disk| => disk[i].number)
  }

  /** Segments numbered one after the other, all but the last holding frames. */
  predicate Packed(log: Log) {
    && log != []
    && log[0].number > 0
    && (forall i :: 0 < i < |log| ==> log[i].number == log[i - 1].number + 1)
    && (forall i :: 0 <= i < |log| - 1 ==> log[i].frames != [])
  }

  /** A log the scan accepts from its files. */
  predicate WellFormed(env: Env, opts: Options, log: Log) {
    && Packed(log)
    && Chain(env, opts, log[0].number, Flat(log))
    && Anchored(env, log[0].number, Flat(log))
    && (log[0].number > 1 ==> Flat(log) != [])
  }

  function HeadOf(log: Log): (h: Head)
    requires log != [] && log[0].number > 0
  {
    Head(log[0].number - 1, LastSequence(Flat(log)))
  }

  lemma {:induction false} FlatConcat(a: Log, b: Log)
    ensures Flat(a + b) == Flat(a) + Flat(b)
  {
    if b == [] {
      assert a + b == a;
    } else {
      var n := |b| - 1;
      FlatConcat(a, b[..n]);
      assert (a + b)[..|a + b| - 1] == a + b[..n];
      assert Flat(a + b) == (Flat(a) + Flat(b[..n])) + b[n].frames;
    }
  }

  lemma {:induction false} OwnersConcat(a: Log, b: Log)
    ensures Owners(a + b) == Owners(a) + Owners(b)
  {
    if b == [] {
      assert a + b == a;
    } else {
      var n := |b| - 1;
      OwnersConcat(a, b[..n]);
      assert (a + b)[..|a + b| - 1] == a + b[..n];
    }
  }

  lemma FlatSnoc(a: Log, s: Seg)
    ensures Flat(a + [s]) == Flat(a) + s.frames
  {
    assert (a + [s])[..|a|] == a;
  }

  lemma OwnersSnoc(a: Log, s: Seg)
    ensures Owners(a + [s]) == Owners(a) + Repeat(s.number, |s.frames|)
  {
    assert (a + [s])[..|a|] == a;
  }

  lemma SegmentsSnoc(env: Env, a: Log, s: Seg)
    ensures Segments(env, a + [s]) == Segments(env, a) + [SegmentOf(env, Flat(a), s)]
  {
    assert (a + [s])[..|a|] == a;
  }

  /** The descriptor of segment i depends on the frames before it only when it is empty. */
  lemma {:induction false} SegmentsAt(env: Env, log: Log, i: nat)
    requires i < |log|
    ensures Segments(env, log)[i] == SegmentOf(env, Flat(log[..i]), log[i])
  {
    var n := |log| - 1;
    if i < n {
      SegmentsAt(env, log[..n], i);
      assert log[..n][..i] == log[..i];
    }
  }

  /** A sub-run of a chain is a chain. */
  lemma ChainSuffix(env: Env, opts: Options, first: nat, fs: seq<Frame>, k: nat, later: nat)
    requires Chain(env, opts, first, fs)
    requires k <= |fs| && later > 1
    ensures Chain(env, opts, later, fs[k..])
  {
    var gs := fs[k..];
    forall i | 0 < i < |gs| ensures FollowsAt(env, gs, i) {
      assert gs[i] == fs[k + i] && gs[i - 1] == fs[k + i - 1];
      assert FollowsAt(env, fs, k + i);
    }
  }

  lemma ChainSnoc(env: Env, opts: Options, first: nat, fs: seq<Frame>, f: Frame)
    requires Chain(env, opts, first, fs)
    requires Storable(env, opts, f)
    requires f.sequence == NextSequence(fs) && f.previous == LastHash(env, fs)
    ensures Chain(env, opts, first, fs + [f])
  {
    var gs := fs + [f];
    forall i | 0 < i < |gs| ensures FollowsAt(env, gs, i) {
      if i < |fs| {
        assert FollowsAt(env, fs, i);
      }
    }
  }
}
