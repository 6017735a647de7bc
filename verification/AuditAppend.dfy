/**
 One append on the log: rotation, retention with its checkpoint, and the frame itself.
 These functions say what `append`, `prepare_storage`, `rotate_segment` and
 `retain_for` do to the frames; the lemmas show that a well-formed log stays
 well-formed, so that it can always be reopened.
 */
module AuditAppend {
  import opened Bytes
  import opened AuditTypes
  import opened AuditFrames
  import opened AuditLog

  // ----- sizes -----

  function FrameSize(payload: seq<Byte>): (n: nat)
  {
    HEADER_LEN + |payload| + HASH_LEN
  }

  function SegBytes(env: Env, s: Seg): (n: nat)
  {
    |FileBytes(env, s.frames)|
  }

  function CurrentBytes(env: Env, log: Log): (n: nat)
    requires log != []
  {
    SegBytes(env, log[|log| - 1])
  }

  function TotalBytes(env: Env, log: Log): (n: nat)
  {
    if log == [] then 0 else TotalBytes(env, log[..|log| - 1]) + SegBytes(env, log[|log| - 1])
  }

  // ----- the pieces of an append -----

  function NextOf(env: Env, log: Log, payload: seq<Byte>): (f: Frame)
  {
    Frame(NextSequence(Flat(log)), LastHash(env, Flat(log)), payload)
  }

  function WithFrame(log: Log, f: Frame): (l: Log)
    requires log != []
    ensures |l| == |log|
  {
    var m := |log| - 1;
    log[..m] + [Seg(log[m].number, log[m].frames + [f])]
  }

  function Rotated(log: Log): (l: Log)
    requires log != []
  {
    log + [Seg(log[|log| - 1].number + 1, [])]
  }

  function Digit(d: nat): (c: char)
    requires d < 10
  {
    "0123456789"[d]
  }

  function Decimal(n: nat): (s: string)
  {
    if n < 10 then [Digit(n)] else Decimal(n / 10) + [Digit(n % 10)]
  }

  /** `retention_record`: the checkpoint of the segment that is being opened. */
  function CheckpointRecord(timestamp: nat, segment: nat): (r: Record)
    ensures r.Valid() && r.kind == RetentionCheckpoint
  {
    Record(
      RetentionCheckpoint,
      Context("retention-" + Decimal(segment), "internal-" + Decimal(segment), SystemRecoveryActor, timestamp),
      RetentionCheckpointAction, AuditLedgerTarget, "ledger", None, None, Some(Succeeded), None)
  }

  /** `recovery_record`: written once after a torn tail was cut. */
  function RecoveryRecord(context: Context): (r: Record)
    ensures context.actor == SystemRecoveryActor ==> r.Valid()
  {
    Record(SystemRecovery, context, SystemTrailingRecovery, AuditLedgerTarget, "ledger",
           None, None, Some(Succeeded), None)
  }

  /** The metadata of a checkpoint that covers the first k segments. */
  function PrunedBy(env: Env, log: Log, k: nat): (p: Pruned)
    requires 0 < k <= |log|
  {
    var ds := Segments(env, log);
    Pruned(ds[0].first, ds[k - 1].last, ds[k - 1].terminalHash)
  }

  function CheckpointPayload(env: Env, log: Log, timestamp: nat, k: nat): (s: seq<Byte>)
    requires 0 < k <= |log|
  {
    env.encode(CheckpointRecord(timestamp, log[|log| - 1].number), Some(PrunedBy(env, log, k)))
  }

  /** Removing k segments, writing the checkpoint and the next frame stays within the bounds. */
  predicate FitsWithout(env: Env, opts: Options, log: Log, next: nat, timestamp: nat, k: nat)
    requires 0 < k <= |log|
  {
    && |log| - k <= opts.maxSegments
    && TotalBytes(env, log) - TotalBytes(env, log[..k]) + FrameSize(CheckpointPayload(env, log, timestamp, k)) + next
       <= opts.maxTotal
  }

  /** The removal loop of `retain_for`, from k on: the current segment is never a candidate. */
  function FindRemoval(env: Env, opts: Options, log: Log, next: nat, timestamp: nat, k: nat): (r: Option<nat>)
    requires 0 < k
    ensures r.Some? ==> k <= r.value < |log| && FitsWithout(env, opts, log, next, timestamp, r.value)
    ensures forall j :: k <= j < |log| && (r.Some? ==> j < r.value) ==> !FitsWithout(env, opts, log, next, timestamp, j)
    decreases |log| - k
  {
    if k >= |log| then None
    else if FitsWithout(env, opts, log, next, timestamp, k) then Some(k)
    else FindRemoval(env, opts, log, next, timestamp, k + 1)
  }

  /** What `prepare_storage` decides to do before a frame of `next` bytes. */
  datatype Storage = Stay | Rotate | Prune(count: nat) | Refuse

  predicate RetentionRequired(env: Env, opts: Options, log: Log, next: nat) {
    |log| > opts.maxSegments || TotalBytes(env, log) + next > opts.maxTotal
  }

  function Decide(env: Env, opts: Options, log: Log, next: nat, timestamp: nat): (s: Storage)
    requires log != []
    ensures s.Prune? ==> 0 < s.count <= |log|
  {
    var current := CurrentBytes(env, log);
    if current == 0 || current + next <= opts.maxSegmentBytes then Stay
    else if !RetentionRequired(env, opts, Rotated(log), next) then Rotate
    else
      match FindRemoval(env, opts, Rotated(log), next, timestamp, 1)
      case None => Refuse
      case Some(k) =>
        var checkpoint := FrameSize(CheckpointPayload(env, Rotated(log), timestamp, k));
        if checkpoint + next > opts.maxTotal || checkpoint > opts.maxSegmentBytes then Refuse else Prune(k)
  }

  /** The rotated log with the checkpoint for its first k segments written. */
  function Checkpointed(env: Env, log: Log, timestamp: nat, k: nat): (l: Log)
    requires log != [] && 0 < k <= |log|
    ensures |l| == |log| + 1
  {
    var rotated := Rotated(log);
    WithFrame(rotated, NextOf(env, rotated, CheckpointPayload(env, rotated, timestamp, k)))
  }

  /** The log just before the frame itself is written. */
  function Prepared(env: Env, opts: Options, log: Log, next: nat, timestamp: nat): (r: Result<Log, Code>)
    requires log != []
    ensures r.Ok? ==> r.value != []
  {
    match Decide(env, opts, log, next, timestamp)
    case Stay => Ok(log)
    case Rotate => Ok(Rotated(log))
    case Prune(k) =>
      if NextSequence(Flat(log)) >= U64_SPAN then Err(SequenceInvalid)
      else Ok(Checkpointed(env, log, timestamp, k)[k..])
    case Refuse => Err(CapacityReached)
  }

  /** The checks of `append` before anything is written. */
  function Admit(env: Env, opts: Options, record: Record): (r: Result<seq<Byte>, Code>)
  {
    if !record.Valid() then Err(RecordInvalid)
    else
      var payload := env.encode(record, None);
      if |payload| > opts.maxPayload || FrameSize(payload) > opts.maxSegmentBytes then Err(RecordTooLarge)
      else Ok(payload)
  }

  /** A whole append on a writable ledger: the new log, or the error. */
  function Append(env: Env, opts: Options, log: Log, record: Record): (r: Result<Log, Code>)
    requires log != []
    ensures r.Ok? ==> r.value != []
  {
    match Admit(env, opts, record)
    case Err(code) => Err(code)
    case Ok(payload) =>
      match Prepared(env, opts, log, FrameSize(payload), record.context.receivedAt)
      case Err(code) => Err(code)
      case Ok(prepared) =>
        if NextSequence(Flat(prepared)) >= U64_SPAN then Err(SequenceInvalid)
        else Ok(WithFrame(prepared, NextOf(env, prepared, payload)))
  }

  // ----- a well-formed log stays well-formed -----

  /** Along a chain the sequences count up by one. */
  lemma {:induction false} SequencesCount(env: Env, fs: seq<Frame>, i: nat)
    requires Linked(env, fs) && i < |fs|
    ensures fs[i].sequence == fs[0].sequence + i
  {
    if i > 0 {
      SequencesCount(env, fs, i - 1);
      assert FollowsAt(env, fs, i);
    }
  }

  lemma FlatLast(log: Log)
    requires log != []
    ensures Flat(log) == Flat(log[..|log| - 1]) + log[|log| - 1].frames
  {
  }

  lemma WithFrameFlat(log: Log, f: Frame)
    requires log != []
    ensures Flat(WithFrame(log, f)) == Flat(log) + [f]
  {
    var m := |log| - 1;
    FlatSnoc(log[..m], Seg(log[m].number, log[m].frames + [f]));
    Assoc(Flat(log[..m]), log[m].frames, [f]);
  }

  /** A checkpoint goes on vouching when frames are added. */
  lemma AnchoredSnoc(env: Env, first: nat, fs: seq<Frame>, f: Frame)
    requires Anchored(env, first, fs)
    requires first > 1 ==> fs != []
    ensures Anchored(env, first, fs + [f])
  {
    CheckpointsSnoc(env, fs, f);
    if first > 1 {
      var ps, qs := Checkpoints(env, fs), Checkpoints(env, fs + [f]);
      var i :| 0 <= i < |ps| && Vouches(ps[i], fs[0].sequence, fs[0].previous);
      assert qs[i] == ps[i];
    }
  }

  /** Writing the next frame keeps the log well-formed. */
  lemma WithFrameKeeps(env: Env, opts: Options, log: Log, f: Frame)
    requires WellFormed(env, opts, log)
    requires Storable(env, opts, f)
    requires f.sequence == NextSequence(Flat(log)) && f.previous == LastHash(env, Flat(log))
    ensures WellFormed(env, opts, WithFrame(log, f))
  {
    var first, l := log[0].number, WithFrame(log, f);
    WithFrameFlat(log, f);
    ChainSnoc(env, opts, first, Flat(log), f);
    AnchoredSnoc(env, first, Flat(log), f);
    assert l[0].number == first;
    assert Packed(l);
  }

  lemma RotatedFlat(log: Log)
    requires log != []
    ensures Flat(Rotated(log)) == Flat(log)
  {
    FlatSnoc(log, Seg(log[|log| - 1].number + 1, []));
    assert Flat(log) + [] == Flat(log);
  }

  /** Opening the next segment after a non-empty one keeps the log well-formed. */
  lemma RotatedKeeps(env: Env, opts: Options, log: Log)
    requires WellFormed(env, opts, log)
    requires log[|log| - 1].frames != []
    ensures WellFormed(env, opts, Rotated(log))
  {
    RotatedFlat(log);
    assert Packed(Rotated(log));
  }

  lemma PackedNumber(log: Log, i: nat)
    requires Packed(log) && i < |log|
    ensures log[i].number == log[0].number + i
  {
    if i > 0 {
      PackedNumber(log, i - 1);
    }
  }

  /** The frames of the first k segments, and of the rest. */
  lemma FlatSplit(log: Log, k: nat)
    requires k <= |log|
    ensures Flat(log) == Flat(log[..k]) + Flat(log[k..])
  {
    Parts(log, k);
    FlatConcat(log[..k], log[k..]);
  }

  lemma Parts<T>(s: seq<T>, k: nat)
    requires k <= |s|
    ensures s == s[..k] + s[k..]
  {
  }

  /** The first k > 0 segments of a packed log, none of them its last, end with their last segment's last frame. */
  lemma FlatPrefixLast(log: Log, k: nat)
    requires Packed(log) && 0 < k < |log|
    ensures log[k - 1].frames != []
    ensures Flat(log[..k]) != []
    ensures Flat(log[..k])[|Flat(log[..k])| - 1] == log[k - 1].frames[|log[k - 1].frames| - 1]
  {
    FlatLast(log[..k]);
  }

  lemma FlatFirst(log: Log)
    requires log != [] && log[0].frames != []
    ensures Flat(log) != [] && Flat(log)[0] == log[0].frames[0]
  {
    FlatSplit(log, 1);
    FlatLast(log[..1]);
    assert Flat(log[..1][..0]) == [];
  }

  /** A checkpoint over the first k segments names their sequence range and last hash. */
  lemma {:induction false} PrunedByMeaning(env: Env, log: Log, k: nat)
    requires Packed(log) && 0 < k < |log|
    ensures Flat(log[..k]) != [] && Flat(log[..k]) <= Flat(log)
    ensures PrunedBy(env, log, k)
         == Pruned(Flat(log)[0].sequence, LastSequence(Flat(log[..k])), LastHash(env, Flat(log[..k])))
  {
    SegmentEnds(env, log, 0);
    SegmentEnds(env, log, k - 1);
    FlatPrefixLast(log, k);
    FlatFirst(log);
    FlatPrefix(log, k);
  }

  lemma {:induction false} FlatPrefix(log: Log, k: nat)
    requires k <= |log|
    ensures Flat(log[..k]) <= Flat(log)
  {
    FlatSplit(log, k);
  }

  /** The descriptor of a segment that holds frames names its first and last frame. */
  lemma {:induction false} SegmentEnds(env: Env, log: Log, i: nat)
    requires i < |log| && log[i].frames != []
    ensures var d, fs := Segments(env, log)[i], log[i].frames;
            d.first == fs[0].sequence && d.last == fs[|fs| - 1].sequence && d.terminalHash == Digest(env, fs[|fs| - 1])
  {
    SegmentsAt(env, log, i);
  }

  /** Where a packed chain is cut between segments, the first kept frame follows the last removed one. */
  lemma BoundaryFollows(env: Env, opts: Options, log: Log, k: nat)
    requires WellFormed(env, opts, log) && 0 < k < |log| && Flat(log[k..]) != []
    ensures Flat(log[..k]) != []
    ensures Flat(log[k..])[0].sequence == LastSequence(Flat(log[..k])) + 1
    ensures Flat(log[k..])[0].previous == LastHash(env, Flat(log[..k]))
  {
    FlatPrefixLast(log, k);
    FlatSplit(log, k);
    var a, b := Flat(log[..k]), Flat(log[k..]);
    var all := Flat(log);
    assert all == a + b;
    assert FollowsAt(env, all, |a|);
  }

  /** The first sequence of an anchored log is positive. */
  lemma FirstSequencePositive(env: Env, opts: Options, log: Log)
    requires log != [] && Chain(env, opts, log[0].number, Flat(log)) && Anchored(env, log[0].number, Flat(log))
    requires Flat(log) != []
    ensures Flat(log)[0].sequence > 0
  {
    if log[0].number > 1 {
      var ps := Checkpoints(env, Flat(log));
      var i :| 0 <= i < |ps| && Vouches(ps[i], Flat(log)[0].sequence, Flat(log)[0].previous);
    }
  }

  /** A checkpoint's range is one the record decoder accepts. */
  lemma {:induction false} PrunedRange(env: Env, opts: Options, log: Log, k: nat)
    requires WellFormed(env, opts, log) && 0 < k < |log|
    ensures var p := PrunedBy(env, log, k); 0 < p.first <= p.last < U64_SPAN - 1
  {
    PrunedByMeaning(env, log, k);
    FirstSequencePositive(env, opts, log);
    var a, all := Flat(log[..k]), Flat(log);
    SequencesCount(env, all, |a| - 1);
    assert a[|a| - 1] == all[|a| - 1];
    assert Storable(env, opts, all[|a| - 1]);
  }

  /** Segment file names have sixteen digits. */
  const SEGMENT_SPAN: nat := 10_000_000_000_000_000

  predicate CheckpointFits(opts: Options, next: nat, payload: seq<Byte>) {
    |payload| <= opts.maxPayload && FrameSize(payload) + next <= opts.maxSegmentBytes
  }

  /**
   Any checkpoint the ledger can write fits the payload limit, and fits one segment
   together with `next` more bytes. The code relies on this without checking it.
   */
  ghost predicate Spacious(env: Env, opts: Options, next: nat) {
    forall timestamp: nat, segment: nat, p: Pruned ::
      timestamp < U64_SPAN && segment < SEGMENT_SPAN && p.first < U64_SPAN && p.last < U64_SPAN ==>
        CheckpointFits(opts, next, env.encode(CheckpointRecord(timestamp, segment), Some(p)))
  }

  /** So many more frames do not use up the sequence numbers or the digits of the file names. */
  predicate Countable(log: Log, frames: nat)
    requires log != []
  {
    LastSequence(Flat(log)) + frames + 1 < U64_SPAN && log[|log| - 1].number + frames < SEGMENT_SPAN
  }

  /** The frame of the checkpoint that retention writes into the freshly rotated segment. */
  function CheckpointFrame(env: Env, log: Log, timestamp: nat, k: nat): (f: Frame)
    requires log != [] && 0 < k <= |log|
  {
    NextOf(env, Rotated(log), CheckpointPayload(env, Rotated(log), timestamp, k))
  }

  /** The checkpoint decodes to the record and the range it was made from. */
  lemma {:induction false} CheckpointDecodes(env: Env, opts: Options, log: Log, timestamp: nat, k: nat)
    requires env.Lawful() && WellFormed(env, opts, log) && log[|log| - 1].frames != []
    requires 0 < k <= |log|
    ensures env.decode(CheckpointPayload(env, Rotated(log), timestamp, k))
         == Ok((CheckpointRecord(timestamp, log[|log| - 1].number + 1), Some(PrunedBy(env, Rotated(log), k))))
  {
    RotatedKeeps(env, opts, log);
    PrunedRange(env, opts, Rotated(log), k);
    var r, p := CheckpointRecord(timestamp, log[|log| - 1].number + 1), PrunedBy(env, Rotated(log), k);
    assert Encodable(r, Some(p));
  }

  /** Writing the checkpoint keeps the log well-formed. */
  lemma {:induction false} CheckpointedKeeps(env: Env, opts: Options, log: Log, timestamp: nat, k: nat)
    requires env.Lawful() && WellFormed(env, opts, log) && log[|log| - 1].frames != []
    requires 0 < k <= |log| && opts.maxPayload <= MAX_PAYLOAD_BYTES
    requires LastSequence(Flat(log)) + 2 < U64_SPAN
    requires |CheckpointPayload(env, Rotated(log), timestamp, k)| <= opts.maxPayload
    ensures WellFormed(env, opts, Checkpointed(env, log, timestamp, k))
    ensures Flat(Checkpointed(env, log, timestamp, k)) == Flat(log) + [CheckpointFrame(env, log, timestamp, k)]
  {
    CheckpointDecodes(env, opts, log, timestamp, k);
    RotatedKeeps(env, opts, log);
    RotatedFlat(log);
    FlatLast(log);
    var f := CheckpointFrame(env, log, timestamp, k);
    WithFrameKeeps(env, opts, Rotated(log), f);
    WithFrameFlat(Rotated(log), f);
  }

  /** Cutting a well-formed log before segment j leaves a well-formed log exactly when the cut is anchored. */
  lemma {:induction false} CutKeeps(env: Env, opts: Options, log: Log, j: nat)
    requires WellFormed(env, opts, log) && 0 < j < |log|
    requires Flat(log[j..]) != []
    ensures WellFormed(env, opts, log[j..]) <==> Anchored(env, log[j].number, Flat(log[j..]))
  {
    FlatSplit(log, j);
    PackedNumber(log, j);
    var a, b := Flat(log[..j]), Flat(log[j..]);
    Seam(a, b);
    ChainSuffix(env, opts, log[0].number, Flat(log), |a|, log[j].number);
    assert Packed(log[j..]);
  }

  /** Wherever the checkpointed log is cut, the checkpoint is still in it, as its last frame. */
  lemma {:induction false} CheckpointSurvives(env: Env, log: Log, timestamp: nat, k: nat, j: nat)
    requires log != [] && 0 < k <= |log| && j <= |log|
    ensures var c := Checkpointed(env, log, timestamp, k);
            && Flat(c[j..]) != []
            && Flat(c[j..])[|Flat(c[j..])| - 1] == CheckpointFrame(env, log, timestamp, k)
  {
    var c := Checkpointed(env, log, timestamp, k);
    FlatLast(c[j..]);
  }

  /** A vouching checkpoint anywhere among the frames anchors them. */
  lemma {:induction false} AnchoredBy(env: Env, first: nat, fs: seq<Frame>, i: nat, p: Pruned)
    requires i < |fs| && PrunedOf(env, fs[i]) == Some(p)
    requires Vouches(p, fs[0].sequence, fs[0].previous)
    ensures Anchored(env, first, fs)
  {
    CheckpointsMember(env, fs, p);
    var ps := Checkpoints(env, fs);
    var n :| 0 <= n < |ps| && ps[n] == p;
  }

  /** The checkpoint leaves the old segments as they were. */
  lemma {:induction false} CheckpointedPrefix(env: Env, log: Log, timestamp: nat, k: nat, j: nat)
    requires log != [] && 0 < k <= |log| && j <= |log|
    ensures Checkpointed(env, log, timestamp, k)[..j] == log[..j] == Rotated(log)[..j]
  {
  }

  /** What the checkpoint names is what precedes the first frame it leaves in place. */
  lemma {:induction false} CheckpointVouches(env: Env, opts: Options, log: Log, timestamp: nat, k: nat)
    requires WellFormed(env, opts, log) && log[|log| - 1].frames != []
    requires 0 < k <= |log|
    requires WellFormed(env, opts, Checkpointed(env, log, timestamp, k))
    ensures var fs := Flat(Checkpointed(env, log, timestamp, k)[k..]);
            && fs != []
            && Vouches(PrunedBy(env, Rotated(log), k), fs[0].sequence, fs[0].previous)
  {
    var rotated, c := Rotated(log), Checkpointed(env, log, timestamp, k);
    CheckpointSurvives(env, log, timestamp, k, k);
    RotatedKeeps(env, opts, log);
    PrunedByMeaning(env, rotated, k);
    PrunedRange(env, opts, rotated, k);
    BoundaryFollows(env, opts, c, k);
    CheckpointedPrefix(env, log, timestamp, k, k);
  }

  /** The checkpoint anchors the cut it was written for. */
  lemma {:induction false} CheckpointAnchors(env: Env, opts: Options, log: Log, timestamp: nat, k: nat)
    requires env.Lawful() && WellFormed(env, opts, log) && log[|log| - 1].frames != []
    requires 0 < k <= |log|
    requires WellFormed(env, opts, Checkpointed(env, log, timestamp, k))
    ensures var c := Checkpointed(env, log, timestamp, k);
            Anchored(env, c[k].number, Flat(c[k..]))
  {
    var c := Checkpointed(env, log, timestamp, k);
    var fs := Flat(c[k..]);
    CheckpointSurvives(env, log, timestamp, k, k);
    CheckpointVouches(env, opts, log, timestamp, k);
    CheckpointDecodes(env, opts, log, timestamp, k);
    AnchoredBy(env, c[k].number, fs, |fs| - 1, PrunedBy(env, Rotated(log), k));
  }

  /** Retention as a whole: checkpoint, then removal of the k oldest segments. */
  lemma {:induction false} PruneKeeps(env: Env, opts: Options, log: Log, timestamp: nat, k: nat)
    requires env.Lawful() && WellFormed(env, opts, log) && log[|log| - 1].frames != []
    requires 0 < k <= |log| && opts.maxPayload <= MAX_PAYLOAD_BYTES
    requires LastSequence(Flat(log)) + 2 < U64_SPAN
    requires |CheckpointPayload(env, Rotated(log), timestamp, k)| <= opts.maxPayload
    ensures var c := Checkpointed(env, log, timestamp, k);
            WellFormed(env, opts, c) && WellFormed(env, opts, c[k..])
  {
    var c := Checkpointed(env, log, timestamp, k);
    CheckpointedKeeps(env, opts, log, timestamp, k);
    CheckpointAnchors(env, opts, log, timestamp, k);
    CheckpointSurvives(env, log, timestamp, k, k);
    CutKeeps(env, opts, c, k);
  }

  /** Cutting and checkpointing commute while some old segment is left. */
  lemma {:induction false} CutCheckpointed(env: Env, log: Log, timestamp: nat, k: nat, j: nat)
    requires log != [] && 0 < k <= |log| && j < |log|
    ensures Checkpointed(env, log, timestamp, k)[j..]
         == WithFrame(Rotated(log[j..]), CheckpointFrame(env, log, timestamp, k))
  {
    assert Rotated(log)[j..] == Rotated(log[j..]);
  }

  /** Without any old segment only the one with the checkpoint is left. */
  lemma {:induction false} CutAll(env: Env, log: Log, timestamp: nat, k: nat)
    requires log != [] && 0 < k <= |log|
    ensures Flat(Checkpointed(env, log, timestamp, k)[|log|..]) == [CheckpointFrame(env, log, timestamp, k)]
  {
    var s := Seg(log[|log| - 1].number + 1, [] + [CheckpointFrame(env, log, timestamp, k)]);
    FlatSnoc([], s);
    assert [] + [s] == Checkpointed(env, log, timestamp, k)[|log|..];
  }

  /** The frames of the checkpointed log without its first j segments. */
  lemma {:induction false} CutFlat(env: Env, log: Log, timestamp: nat, k: nat, j: nat)
    requires log != [] && 0 < k <= |log| && j <= |log|
    ensures |Flat(log[..j])| <= |Flat(log)|
    ensures Flat(Checkpointed(env, log, timestamp, k)[j..])
         == Flat(log)[|Flat(log[..j])|..] + [CheckpointFrame(env, log, timestamp, k)]
  {
    var f := CheckpointFrame(env, log, timestamp, k);
    FlatSplit(log, j);
    Seam(Flat(log[..j]), Flat(log[j..]));
    if j < |log| {
      CutCheckpointed(env, log, timestamp, k, j);
      WithFrameFlat(Rotated(log[j..]), f);
      RotatedFlat(log[j..]);
    } else {
      CutAll(env, log, timestamp, k);
      assert log[j..] == [];
    }
  }

  /** An append may be made: a real record, with room left in every counter and in a segment. */
  ghost predicate Legal(env: Env, opts: Options, log: Log, record: Record)
    requires log != []
  {
    && env.Lawful() && opts.Valid()
    && record.kind != RetentionCheckpoint
    && record.context.receivedAt < U64_SPAN
    && Countable(log, 2)
    && Spacious(env, opts, FrameSize(env.encode(record, None)))
  }

  /** Retention under these conditions writes a checkpoint that fits. */
  lemma {:induction false} CheckpointHasRoom(env: Env, opts: Options, log: Log, record: Record, k: nat)
    requires WellFormed(env, opts, log) && Legal(env, opts, log, record)
    requires log[|log| - 1].frames != [] && 0 < k <= |log|
    ensures CheckpointFits(opts, FrameSize(env.encode(record, None)),
                           CheckpointPayload(env, Rotated(log), record.context.receivedAt, k))
  {
    RotatedKeeps(env, opts, log);
    PrunedRange(env, opts, Rotated(log), k);
    var segment, p := log[|log| - 1].number + 1, PrunedBy(env, Rotated(log), k);
    assert CheckpointFits(opts, FrameSize(env.encode(record, None)),
                          env.encode(CheckpointRecord(record.context.receivedAt, segment), Some(p)));
  }

  /** Preparing storage keeps the log well-formed. */
  lemma {:induction false} PreparedKeeps(env: Env, opts: Options, log: Log, record: Record)
    requires WellFormed(env, opts, log) && Legal(env, opts, log, record)
    ensures var r := Prepared(env, opts, log, FrameSize(env.encode(record, None)), record.context.receivedAt);
            r.Ok? ==> WellFormed(env, opts, r.value)
  {
    var next, timestamp := FrameSize(env.encode(record, None)), record.context.receivedAt;
    match Decide(env, opts, log, next, timestamp)
    case Stay =>
    case Refuse =>
    case Rotate =>
      RotatedKeeps(env, opts, log);
    case Prune(k) =>
      CheckpointHasRoom(env, opts, log, record, k);
      PruneKeeps(env, opts, log, timestamp, k);
  }

  // ----- what an append does to the frames -----

  /** How many of the oldest frames retention removes before this frame. */
  function PrunedFrames(env: Env, opts: Options, log: Log, next: nat, timestamp: nat): (n: nat)
    requires log != []
    ensures n <= |Flat(log)|
  {
    match Decide(env, opts, log, next, timestamp)
    case Prune(k) => FlatSplit(log, k); |Flat(log[..k])|
    case _ => 0
  }

  /** The checkpoint that retention puts before this frame, if any. */
  function Interposed(env: Env, opts: Options, log: Log, next: nat, timestamp: nat): (fs: seq<Frame>)
    requires log != []
    ensures |fs| <= 1
  {
    match Decide(env, opts, log, next, timestamp)
    case Prune(k) => [CheckpointFrame(env, log, timestamp, k)]
    case _ => []
  }

  /** Storage preparation drops some oldest frames, adds at most a checkpoint, and touches nothing else. */
  lemma {:induction false} PreparedFlat(env: Env, opts: Options, log: Log, next: nat, timestamp: nat)
    requires log != [] && Prepared(env, opts, log, next, timestamp).Ok?
    ensures Flat(Prepared(env, opts, log, next, timestamp).value)
         == Flat(log)[PrunedFrames(env, opts, log, next, timestamp)..] + Interposed(env, opts, log, next, timestamp)
  {
    match Decide(env, opts, log, next, timestamp)
    case Stay =>
      assert Flat(log)[0..] + [] == Flat(log);
    case Rotate =>
      RotatedFlat(log);
      assert Flat(log)[0..] + [] == Flat(log);
    case Prune(k) =>
      CutFlat(env, log, timestamp, k, k);
  }

  lemma {:induction false} TotalBytesSnoc(env: Env, a: Log, s: Seg)
    ensures TotalBytes(env, a + [s]) == TotalBytes(env, a) + SegBytes(env, s)
  {
    assert (a + [s])[..|a|] == a;
  }

  /** Removing everything but the fresh segment fits, with room for a checkpoint beside the frame. */
  lemma {:induction false} RemovingAllFits(env: Env, opts: Options, log: Log, record: Record)
    requires WellFormed(env, opts, log) && Legal(env, opts, log, record) && log[|log| - 1].frames != []
    ensures FitsWithout(env, opts, Rotated(log), FrameSize(env.encode(record, None)), record.context.receivedAt, |log|)
  {
    CheckpointHasRoom(env, opts, log, record, |log|);
    TotalBytesSnoc(env, log, Seg(log[|log| - 1].number + 1, []));
    assert Rotated(log)[..|log|] == log;
  }

  lemma {:induction false} RemovalFound(env: Env, opts: Options, log: Log, next: nat, timestamp: nat, j: nat)
    returns (k: nat)
    requires 0 < j < |log| && FitsWithout(env, opts, log, next, timestamp, j)
    ensures 0 < k <= j && FindRemoval(env, opts, log, next, timestamp, 1) == Some(k)
  {
    k := FindRemoval(env, opts, log, next, timestamp, 1).value;
  }

  lemma {:induction false} FoundIsTaken(env: Env, opts: Options, log: Log, next: nat, timestamp: nat, k: nat)
    requires log != [] && 0 < k <= |log| && opts.maxSegmentBytes <= opts.maxTotal
    requires FindRemoval(env, opts, Rotated(log), next, timestamp, 1) == Some(k)
    requires CheckpointFits(opts, next, CheckpointPayload(env, Rotated(log), timestamp, k))
    ensures !Decide(env, opts, log, next, timestamp).Refuse?
  {
  }

  /** With room for a checkpoint beside the frame, retention always finds segments to remove. */
  lemma {:induction false} NeverRefused(env: Env, opts: Options, log: Log, record: Record)
    requires WellFormed(env, opts, log) && Legal(env, opts, log, record)
    ensures !Decide(env, opts, log, FrameSize(env.encode(record, None)), record.context.receivedAt).Refuse?
  {
    var next, timestamp := FrameSize(env.encode(record, None)), record.context.receivedAt;
    if log[|log| - 1].frames != [] {
      RemovingAllFits(env, opts, log, record);
      var k := RemovalFound(env, opts, Rotated(log), next, timestamp, |log|);
      CheckpointHasRoom(env, opts, log, record, k);
      FoundIsTaken(env, opts, log, next, timestamp, k);
    }
  }

  /** The frame an append writes for the record itself. */
  function RecordFrame(env: Env, opts: Options, log: Log, record: Record): (f: Frame)
    requires log != []
    requires Prepared(env, opts, log, FrameSize(env.encode(record, None)), record.context.receivedAt).Ok?
  {
    NextOf(env, Prepared(env, opts, log, FrameSize(env.encode(record, None)), record.context.receivedAt).value,
           env.encode(record, None))
  }

  /**
   A legal append of an admissible record succeeds, keeps the log well-formed, and
   changes the frames in exactly three ways: retention drops some oldest ones, adds at
   most one checkpoint, and the record's own frame comes last.
   */
  lemma {:induction false} AppendKeeps(env: Env, opts: Options, log: Log, record: Record)
    requires WellFormed(env, opts, log) && Legal(env, opts, log, record)
    requires Admit(env, opts, record).Ok?
    ensures var next, timestamp := FrameSize(env.encode(record, None)), record.context.receivedAt;
            && Prepared(env, opts, log, next, timestamp).Ok?
            && Append(env, opts, log, record).Ok?
            && var log' := Append(env, opts, log, record).value;
            && var f := RecordFrame(env, opts, log, record);
            && WellFormed(env, opts, log')
            && Flat(log') == Flat(log)[PrunedFrames(env, opts, log, next, timestamp)..]
                             + Interposed(env, opts, log, next, timestamp) + [f]
            && env.decode(f.payload) == Ok((record, None))
  {
    var next, timestamp := FrameSize(env.encode(record, None)), record.context.receivedAt;
    NeverRefused(env, opts, log, record);
    PreparedKeeps(env, opts, log, record);
    PreparedFlat(env, opts, log, next, timestamp);
    PreparedSequence(env, opts, log, record);
    var prepared := Prepared(env, opts, log, next, timestamp).value;
    var f := RecordFrame(env, opts, log, record);
    assert Encodable(record, None);
    WithFrameKeeps(env, opts, prepared, f);
    WithFrameFlat(prepared, f);
  }

  /** The record's sequence is one or two past the head. */
  lemma {:induction false} PreparedSequence(env: Env, opts: Options, log: Log, record: Record)
    requires WellFormed(env, opts, log) && Legal(env, opts, log, record)
    ensures var next, timestamp := FrameSize(env.encode(record, None)), record.context.receivedAt;
            && Prepared(env, opts, log, next, timestamp).Ok?
            && NextSequence(Flat(Prepared(env, opts, log, next, timestamp).value))
               == NextSequence(Flat(log)) + |Interposed(env, opts, log, next, timestamp)|
  {
    var next, timestamp := FrameSize(env.encode(record, None)), record.context.receivedAt;
    NeverRefused(env, opts, log, record);
    PreparedFlat(env, opts, log, next, timestamp);
    match Decide(env, opts, log, next, timestamp)
    case Prune(k) =>
      RotatedFlat(log);
    case Stay =>
      assert Flat(log)[0..] + [] == Flat(log);
    case Rotate =>
      assert Flat(log)[0..] + [] == Flat(log);
  }
}
