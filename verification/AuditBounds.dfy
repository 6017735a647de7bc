/**
 Storage bounds. With room for a full complement of full segments, every acknowledged
 append keeps the segment count, every segment and the total within the limits, and
 retention removes one segment at a time.
 */
module AuditBounds {
  import opened AuditTypes
  import opened AuditFrames
  import opened AuditLog
  import opened AuditAppend
  import opened AuditCrash

  predicate SegmentsBounded(env: Env, opts: Options, log: Log) {
    forall i :: 0 <= i < |log| ==> SegBytes(env, log[i]) <= opts.maxSegmentBytes
  }

  predicate Bounded(env: Env, opts: Options, log: Log) {
    && |log| <= opts.maxSegments
    && SegmentsBounded(env, opts, log)
    && TotalBytes(env, log) <= opts.maxTotal
  }

  /** The bounds leave room for `maxSegments` full segments, as the defaults do. */
  predicate Roomy(opts: Options) {
    opts.maxSegments * opts.maxSegmentBytes <= opts.maxTotal
  }

  lemma {:induction false} TotalAtMost(env: Env, opts: Options, log: Log)
    requires SegmentsBounded(env, opts, log)
    ensures TotalBytes(env, log) <= |log| * opts.maxSegmentBytes
  {
    if log != [] {
      var n := |log| - 1;
      TotalAtMost(env, opts, log[..n]);
      MulStep(n, opts.maxSegmentBytes);
    }
  }

  lemma {:induction false} FileTakesBytes(env: Env, fs: seq<Frame>)
    ensures (HEADER_LEN + HASH_LEN) * |fs| <= |FileBytes(env, fs)|
  {
    if fs != [] {
      FileTakesBytes(env, fs[1..]);
    }
  }

  /** Every frame takes at least a header and a hash. */
  lemma {:induction false} FramesTakeBytes(env: Env, log: Log)
    ensures (HEADER_LEN + HASH_LEN) * |Flat(log)| <= TotalBytes(env, log)
  {
    if log != [] {
      var n := |log| - 1;
      FramesTakeBytes(env, log[..n]);
      FileTakesBytes(env, log[n].frames);
    }
  }

  lemma LastOff<T>(a: seq<T>, b: seq<T>)
    requires b != []
    ensures a + b == (a + b[..|b| - 1]) + [b[|b| - 1]]
    ensures b == b[..|b| - 1] + [b[|b| - 1]]
  {
  }

  lemma {:induction false} TotalBytesConcat(env: Env, a: Log, b: Log)
    ensures TotalBytes(env, a + b) == TotalBytes(env, a) + TotalBytes(env, b)
  {
    if b == [] {
      assert a + b == a;
    } else {
      var n := |b| - 1;
      TotalBytesConcat(env, a, b[..n]);
      TotalBytesSnoc(env, a + b[..n], b[n]);
      TotalBytesSnoc(env, b[..n], b[n]);
      LastOff(a, b);
    }
  }

  lemma MulMonotone(a: nat, b: nat, c: nat)
    requires a <= b
    ensures a * c <= b * c
  {
  }

  lemma MulStep(n: nat, b: nat)
    ensures (n + 1) * b == n * b + b
  {
  }

  /** Few enough bounded segments are within the total. */
  lemma {:induction false} BoundedFromSegments(env: Env, opts: Options, log: Log)
    requires Roomy(opts) && |log| <= opts.maxSegments && SegmentsBounded(env, opts, log)
    ensures Bounded(env, opts, log)
  {
    TotalAtMost(env, opts, log);
    MulMonotone(|log|, opts.maxSegments, opts.maxSegmentBytes);
  }

  lemma {:induction false} WithFrameBytes(env: Env, log: Log, f: Frame)
    requires log != []
    ensures SegBytes(env, WithFrame(log, f)[|log| - 1]) == CurrentBytes(env, log) + FrameSize(f.payload)
  {
    FileBytesSnoc(env, log[|log| - 1].frames, f);
  }

  /** With a segment to spare, rotation needs no retention. */
  lemma {:induction false} SpareSegment(env: Env, opts: Options, log: Log, next: nat)
    requires Roomy(opts) && Bounded(env, opts, log) && log != []
    requires next <= opts.maxSegmentBytes && |log| < opts.maxSegments
    ensures !RetentionRequired(env, opts, Rotated(log), next)
  {
    TotalBytesSnoc(env, log, Seg(log[|log| - 1].number + 1, []));
    TotalAtMost(env, opts, log);
    MulMonotone(|log| + 1, opts.maxSegments, opts.maxSegmentBytes);
    MulStep(|log|, opts.maxSegmentBytes);
  }

  /** What is left after one removal. */
  lemma {:induction false} TotalWithoutFirst(env: Env, opts: Options, log: Log)
    requires log != [] && SegmentsBounded(env, opts, log)
    ensures TotalBytes(env, log) - TotalBytes(env, log[..1]) <= (|log| - 1) * opts.maxSegmentBytes
  {
    TotalBytesConcat(env, log[..1], log[1..]);
    assert log == log[..1] + log[1..];
    assert SegmentsBounded(env, opts, log[1..]);
    TotalAtMost(env, opts, log[1..]);
  }

  /** From a full ledger one removal is enough. */
  lemma {:induction false} OneRemovalFits(env: Env, opts: Options, log: Log, next: nat, timestamp: nat)
    requires Roomy(opts) && Bounded(env, opts, log) && log != [] && |log| == opts.maxSegments
    requires CheckpointFits(opts, next, CheckpointPayload(env, Rotated(log), timestamp, 1))
    ensures FitsWithout(env, opts, Rotated(log), next, timestamp, 1)
  {
    TotalBytesSnoc(env, log, Seg(log[|log| - 1].number + 1, []));
    assert Rotated(log)[..1] == log[..1];
    TotalWithoutFirst(env, opts, log);
    MulStep(opts.maxSegments - 1, opts.maxSegmentBytes);
  }

  /** From a bounded ledger, retention removes exactly one segment. */
  lemma {:induction false} OneAtATime(env: Env, opts: Options, log: Log, record: Record)
    requires Roomy(opts) && Bounded(env, opts, log)
    requires WellFormed(env, opts, log) && Legal(env, opts, log, record) && Admit(env, opts, record).Ok?
    ensures Plan(env, opts, log, record).Prune? ==> Plan(env, opts, log, record).count == 1 && |log| == opts.maxSegments
    ensures Covered(env, opts, log, record)
  {
    var next, timestamp := NextSize(env, record), record.context.receivedAt;
    if Plan(env, opts, log, record).Prune? {
      CheckpointHasRoom(env, opts, log, record, 1);
      if |log| < opts.maxSegments {
        SpareSegment(env, opts, log, next);
        assert false;
      }
      OneRemovalFits(env, opts, log, next, timestamp);
    }
  }

  /** Retention from a bounded ledger leaves a bounded one, with room for the frame. */
  lemma {:induction false} PrunedBounded(env: Env, opts: Options, log: Log, next: nat, timestamp: nat)
    requires log != [] && |log| == opts.maxSegments && SegmentsBounded(env, opts, log)
    requires CheckpointFits(opts, next, CheckpointPayload(env, Rotated(log), timestamp, 1))
    ensures var p := Checkpointed(env, log, timestamp, 1)[1..];
            && |p| <= opts.maxSegments && SegmentsBounded(env, opts, p)
            && CurrentBytes(env, p) + next <= opts.maxSegmentBytes
  {
    var f := CheckpointFrame(env, log, timestamp, 1);
    WithFrameBounded(env, opts, Rotated(log), f);
    WithFrameBytes(env, Rotated(log), f);
  }

  /** The storage an append prepares is bounded, with room for the frame. */
  lemma {:induction false} PreparedBounded(env: Env, opts: Options, log: Log, record: Record)
    requires Roomy(opts) && Bounded(env, opts, log)
    requires WellFormed(env, opts, log) && Legal(env, opts, log, record) && Admit(env, opts, record).Ok?
    requires Prepared(env, opts, log, NextSize(env, record), record.context.receivedAt).Ok?
    ensures var p := Prepared(env, opts, log, NextSize(env, record), record.context.receivedAt).value;
            && |p| <= opts.maxSegments && SegmentsBounded(env, opts, p)
            && CurrentBytes(env, p) + NextSize(env, record) <= opts.maxSegmentBytes
  {
    match Plan(env, opts, log, record)
    case Stay =>
    case Rotate =>
      assert SegmentsBounded(env, opts, Rotated(log));
    case Prune(k) =>
      OneAtATime(env, opts, log, record);
      CheckpointHasRoom(env, opts, log, record, 1);
      PrunedBounded(env, opts, log, NextSize(env, record), record.context.receivedAt);
  }

  /** A frame that fits keeps every segment within its bound. */
  lemma {:induction false} WithFrameBounded(env: Env, opts: Options, log: Log, f: Frame)
    requires log != [] && SegmentsBounded(env, opts, log)
    requires CurrentBytes(env, log) + FrameSize(f.payload) <= opts.maxSegmentBytes
    ensures SegmentsBounded(env, opts, WithFrame(log, f))
  {
    WithFrameBytes(env, log, f);
  }

  /** Every acknowledged append keeps the three bounds. */
  lemma {:induction false} AppendBounded(env: Env, opts: Options, log: Log, record: Record)
    requires Roomy(opts) && Bounded(env, opts, log)
    requires WellFormed(env, opts, log) && Legal(env, opts, log, record) && Admit(env, opts, record).Ok?
    ensures Append(env, opts, log, record).Ok? && Bounded(env, opts, Append(env, opts, log, record).value)
  {
    AppendKeeps(env, opts, log, record);
    PreparedBounded(env, opts, log, record);
    var p := Prepared(env, opts, log, NextSize(env, record), record.context.receivedAt).value;
    var f := RecordFrame(env, opts, log, record);
    WithFrameBounded(env, opts, p, f);
    BoundedFromSegments(env, opts, WithFrame(p, f));
  }
}
