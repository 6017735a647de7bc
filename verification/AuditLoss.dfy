/**
 Where reopening stops. Appends alone carry a ledger past the scan limit before it is
 full, and then its files no longer open. Where the limits let it fill up first, a crash
 between publishing a segment and syncing its checkpoint leaves one segment too many:
 the next retention removes two, and a second crash between those two removals leaves
 files that never open again.
 */
module AuditLoss {
  import opened Bytes
  import opened AuditTypes
  import opened AuditFrames
  import opened AuditLog
  import opened AuditAppend
  import opened AuditCrash
  import opened AuditBounds
  import opened AuditLimit
  import opened AuditRuns

  /** No frame of the log is a checkpoint. */
  predicate Unpruned(env: Env, log: Log) {
    Checkpoints(env, Flat(log)) == []
  }

  /** In a log without checkpoints no cut is vouched for. */
  lemma {:induction false} NoCutVouched(env: Env, log: Log, j: nat)
    requires Unpruned(env, log) && 0 < j < |log|
    ensures !CutVouched(env, log, j)
  {
    FlatSplit(log, j);
    CheckpointsConcat(env, Flat(log[..j]), Flat(log[j..]));
  }

  /** A ledger with more segments than allowed, whose current segment is full, must remove two or more. */
  lemma {:induction false} OverfullRemovesTwo(env: Env, opts: Options, log: Log, record: Record)
    requires WellFormed(env, opts, log) && Legal(env, opts, log, record)
    requires |log| > opts.maxSegments
    requires CurrentBytes(env, log) > 0 && CurrentBytes(env, log) + NextSize(env, record) > opts.maxSegmentBytes
    ensures Plan(env, opts, log, record).Prune? && Plan(env, opts, log, record).count >= 2
  {
    NeverRefused(env, opts, log, record);
  }

  /** The first crash: the segment exists, its checkpoint does not. Reopening changes nothing. */
  lemma {:induction false} CrashAfterRotation(env: Env, opts: Options, log: Log, record: Record, context: Context)
    requires opts.Valid() && WellFormed(env, opts, log)
    requires CanAppend(env, opts, log, record) && Plan(env, opts, log, record).Prune?
    requires CanRecord(env, opts, context) && Countable(log, 4) && |Flat(log)| <= opts.maxScan
    ensures var st := Up(log);
            && Enabled(env, opts, st, Crash(record, SegmentCreated))
            && var st1 := After(env, opts, st, Crash(record, SegmentCreated));
            && Enabled(env, opts, st1, Reopen(context))
            && After(env, opts, st1, Reopen(context)) == Up(Rotated(log))
  {
    RotationStops(env, opts, log, record);
    RotatedFlat(log);
    RotatedReopens(env, opts, Rotated(log), context);
  }

  lemma {:induction false} RotationStops(env: Env, opts: Options, log: Log, record: Record)
    requires opts.Valid() && WellFormed(env, opts, log) && |Flat(log)| <= opts.maxScan
    requires CanAppend(env, opts, log, record) && Plan(env, opts, log, record).Prune?
    ensures Enabled(env, opts, Up(log), Crash(record, SegmentCreated))
    ensures After(env, opts, Up(log), Crash(record, SegmentCreated)) == Down(Rotated(log), [])
  {
    NeverRefused(env, opts, log, record);
    CrashRecoverable(env, opts, log, record, SegmentCreated);
  }

  lemma {:induction false} RotatedReopens(env: Env, opts: Options, l: Log, context: Context)
    requires opts.Valid() && env.Lawful() && Recoverable(env, opts, l, [])
    requires CanRecord(env, opts, context) && Countable(l, 2)
    ensures Enabled(env, opts, Down(l, []), Reopen(context))
    ensures After(env, opts, Down(l, []), Reopen(context)) == Up(l)
  {
    OpenRecovers(env, opts, context, l, []);
  }

  function TotalSize(env: Env, records: seq<Record>): (n: nat)
  {
    if records == [] then 0 else NextSize(env, records[0]) + TotalSize(env, records[1..])
  }

  /** One append that fits the current segment, without retention. */
  lemma {:induction false} FillOne(env: Env, opts: Options, log: Log, record: Record, n: nat)
    requires WellFormed(env, opts, log) && CanAppend(env, opts, log, record) && Unpruned(env, log)
    requires CurrentBytes(env, log) + NextSize(env, record) <= opts.maxSegmentBytes
    requires Countable(log, n + 2)
    ensures Append(env, opts, log, record).Ok?
    ensures var log' := Append(env, opts, log, record).value;
            && WellFormed(env, opts, log') && |log'| == |log| && Unpruned(env, log') && Countable(log', n)
            && CurrentBytes(env, log') == CurrentBytes(env, log) + NextSize(env, record)
            && |Flat(log')| == |Flat(log)| + 1
  {
    var f := NextOf(env, log, env.encode(record, None));
    AppendKeeps(env, opts, log, record);
    AppendIsWritten(env, opts, log, record);
    CrashHorizon(env, opts, log, record, RecordWritten, n);
    WithFrameFlat(log, f);
    CheckpointsSnoc(env, Flat(log), f);
    WithFrameBytes(env, log, f);
  }

  /** Appends that together fit the current segment stay in it. */
  lemma {:induction false} Fill(env: Env, opts: Options, log: Log, records: seq<Record>, n: nat)
    requires env.Lawful() && opts.Valid() && WellFormed(env, opts, log) && Unpruned(env, log)
    requires Appendable(env, opts, records) && Countable(log, 2 * |records| + n)
    requires CurrentBytes(env, log) + TotalSize(env, records) <= opts.maxSegmentBytes
    ensures AppendAll(env, opts, log, records).Ok?
    ensures var log' := AppendAll(env, opts, log, records).value;
            && WellFormed(env, opts, log') && |log'| == |log| && Unpruned(env, log') && Countable(log', n)
            && CurrentBytes(env, log') == CurrentBytes(env, log) + TotalSize(env, records)
            && |Flat(log')| == |Flat(log)| + |records|
    decreases |records|
  {
    if records != [] {
      assert CanAppend(env, opts, log, records[0]);
      FillOne(env, opts, log, records[0], 2 * |records| - 2 + n);
      Fill(env, opts, Append(env, opts, log, records[0]).value, records[1..], n);
    }
  }

  /** The files of a crash after the first removal do not open, whatever the scan limit leaves to see. */
  ghost predicate Lost(env: Env, opts: Options, log: Log, record: Record, recovery: Option<Context>)
    requires log != [] && Possible(env, opts, log, record, Removing(1))
  {
    var r := Open(env, opts, recovery, CrashDisk(env, opts, log, record, Removing(1)));
    r == Err(ChainMismatch) || (r == Err(CapacityReached) && |Flat(log)| >= opts.maxScan)
  }

  /** The second crash: between the two removals. */
  lemma {:induction false} CrashBetweenRemovals(env: Env, opts: Options, log: Log, record: Record,
                                                recovery: Option<Context>)
    requires WellFormed(env, opts, log) && Legal(env, opts, log, record) && Unpruned(env, log)
    requires |log| > opts.maxSegments
    requires CurrentBytes(env, log) > 0 && CurrentBytes(env, log) + NextSize(env, record) > opts.maxSegmentBytes
    requires recovery.Some? ==> recovery.value.actor == SystemRecoveryActor
    ensures Possible(env, opts, log, record, Removing(1)) && Lost(env, opts, log, record, recovery)
  {
    OverfullRemovesTwo(env, opts, log, record);
    NoCutVouched(env, log, 1);
    RemovalPossible(env, opts, log, record, 1);
    CutIsLost(env, opts, log, record, 1, recovery);
    if |Flat(log)| < opts.maxScan {
      UnanchoredCutIsLost(env, opts, log, record, 1, recovery);
    }
  }

  /**
   From any full, never pruned ledger within its bounds: crash while the append that
   needs retention has just published its segment, reopen, fill that segment with
   appends, and crash again after the first of the removals the next retention makes.
   Every step before that is acknowledged, and no reopening succeeds any more.
   */
  lemma {:induction false} TwoCrashesLoseTheLedger(env: Env, opts: Options, log: Log, first: Record,
                                                   fillers: seq<Record>, last: Record, context: Context,
                                                   recovery: Option<Context>)
    requires opts.Valid() && Roomy(opts) && WellFormed(env, opts, log) && Bounded(env, opts, log) && Unpruned(env, log)
    requires CanAppend(env, opts, log, first) && Plan(env, opts, log, first).Prune?
    requires Appendable(env, opts, fillers) && Appendable(env, opts, [last])
    requires fillers != []
          && TotalSize(env, fillers) <= opts.maxSegmentBytes < TotalSize(env, fillers) + NextSize(env, last)
    requires Countable(log, 2 * |fillers| + 4) && |Flat(log)| <= opts.maxScan && CanRecord(env, opts, context)
    requires recovery.Some? ==> recovery.value.actor == SystemRecoveryActor
    ensures Enabled(env, opts, Up(log), Crash(first, SegmentCreated))
    ensures var st1 := After(env, opts, Up(log), Crash(first, SegmentCreated));
            && Enabled(env, opts, st1, Reopen(context))
            && var st2 := After(env, opts, st1, Reopen(context));
            && AppendAll(env, opts, st2.log, fillers).Ok?
            && var full := AppendAll(env, opts, st2.log, fillers).value;
            && full != [] && Possible(env, opts, full, last, Removing(1)) && Lost(env, opts, full, last, recovery)
  {
    var rotated := Rotated(log);
    OneAtATime(env, opts, log, first);
    CrashAfterRotation(env, opts, log, first, context);
    NeverRefused(env, opts, log, first);
    CrashHorizon(env, opts, log, first, SegmentCreated, 2 * |fillers| + 2);
    RotatedKeeps(env, opts, log);
    RotatedFlat(log);
    Fill(env, opts, rotated, fillers, 2);
    var full := AppendAll(env, opts, rotated, fillers).value;
    assert [last][0] == last;
    assert Legal(env, opts, full, last);
    CrashBetweenRemovals(env, opts, full, last, recovery);
  }

  // ----- the ledger that is lost, from the first file on -----

  /** What `open` leaves in an empty directory. */
  const FRESH: Log := [Seg(1, [])]

  lemma {:induction false} FreshStands(env: Env, opts: Options)
    requires opts.Valid()
    ensures WellFormed(env, opts, FRESH) && Bounded(env, opts, FRESH) && Unpruned(env, FRESH)
    ensures Flat(FRESH) == [] && CurrentBytes(env, FRESH) == 0
  {
    assert FRESH[..0] == [];
  }

  function Copies(record: Record, n: nat): (rs: seq<Record>)
    ensures |rs| == n
  {
    if n == 0 then [] else [record] + Copies(record, n - 1)
  }

  lemma {:induction false} CopiesSize(env: Env, opts: Options, record: Record, n: nat)
    requires Appendable(env, opts, [record])
    ensures TotalSize(env, Copies(record, n)) == n * NextSize(env, record)
    ensures Appendable(env, opts, Copies(record, n))
  {
    assert [record][0] == record;
    if n > 0 {
      CopiesSize(env, opts, record, n - 1);
      assert Copies(record, n)[1..] == Copies(record, n - 1);
      MulStep(n - 1, NextSize(env, record));
    }
  }

  /** How many frames of this record a segment holds. */
  function PerSegment(env: Env, opts: Options, record: Record): (n: nat)
  {
    opts.maxSegmentBytes / FrameSize(env.encode(record, None))
  }

  lemma {:induction false} SegmentFilled(size: nat, max: nat)
    requires 0 < size <= max
    ensures 0 < max / size && (max / size) * size <= max < (max / size) * size + size
  {
  }

  /** The log has no room for another frame of this record in its last segment, and was never pruned. */
  ghost predicate Full(env: Env, opts: Options, log: Log, record: Record) {
    && WellFormed(env, opts, log) && Bounded(env, opts, log) && Unpruned(env, log)
    && CurrentBytes(env, log) > 0 && CurrentBytes(env, log) + NextSize(env, record) > opts.maxSegmentBytes
  }

  lemma {:induction false} AppendAllCons(env: Env, opts: Options, log: Log, record: Record, rest: seq<Record>)
    requires log != [] && Append(env, opts, log, record).Ok?
    ensures AppendAll(env, opts, log, [record] + rest)
         == AppendAll(env, opts, Append(env, opts, log, record).value, rest)
  {
    assert ([record] + rest)[1..] == rest;
  }

  lemma HeadFirst<T>(a: seq<T>, b: seq<T>)
    requires a != []
    ensures a == [a[0]] + a[1..] && a + b == [a[0]] + (a[1..] + b)
  {
  }

  lemma {:induction false} AppendAllConcat(env: Env, opts: Options, log: Log, a: seq<Record>, b: seq<Record>)
    requires log != [] && AppendAll(env, opts, log, a).Ok?
    ensures AppendAll(env, opts, log, a + b) == AppendAll(env, opts, AppendAll(env, opts, log, a).value, b)
    decreases |a|
  {
    if a == [] {
      assert a + b == b;
    } else {
      HeadFirst(a, b);
      AppendAllCons(env, opts, log, a[0], a[1..]);
      AppendAllCons(env, opts, log, a[0], a[1..] + b);
      AppendAllConcat(env, opts, Append(env, opts, log, a[0]).value, a[1..], b);
    }
  }

  /** The append that opens the next segment of a full ledger, while there is one to spare. */
  lemma {:induction false} OpensNext(env: Env, opts: Options, log: Log, record: Record, n: nat)
    requires opts.Valid() && Roomy(opts) && Full(env, opts, log, record) && |log| < opts.maxSegments
    requires CanAppend(env, opts, log, record) && Countable(log, n + 2)
    ensures Append(env, opts, log, record).Ok?
    ensures var l := Append(env, opts, log, record).value;
            && WellFormed(env, opts, l) && Unpruned(env, l) && |l| == |log| + 1 && Countable(l, n)
            && CurrentBytes(env, l) == NextSize(env, record) && |Flat(l)| == |Flat(log)| + 1
  {
    SpareSegment(env, opts, log, NextSize(env, record));
    var f := RecordOnRotated(env, opts, log, record);
    AppendIsWritten(env, opts, log, record);
    CrashHorizon(env, opts, log, record, RecordWritten, n);
    CheckpointsSnoc(env, Flat(log), f);
    WithFrameBytes(env, Rotated(log), f);
  }

  lemma {:induction false} RecordOnRotated(env: Env, opts: Options, log: Log, record: Record) returns (f: Frame)
    requires WellFormed(env, opts, log) && CanAppend(env, opts, log, record) && Plan(env, opts, log, record).Rotate?
    ensures Append(env, opts, log, record) == Ok(WithFrame(Rotated(log), f))
         && WellFormed(env, opts, WithFrame(Rotated(log), f))
    ensures Flat(WithFrame(Rotated(log), f)) == Flat(log) + [f] && f.payload == env.encode(record, None)
    ensures PrunedOf(env, f) == None
  {
    f := NextOf(env, Rotated(log), env.encode(record, None));
    AppendKeeps(env, opts, log, record);
    RotatedFlat(log);
    WithFrameFlat(Rotated(log), f);
  }

  /** Appending one record over and over fills m segments, one after the other. */
  lemma {:induction false} FillSegments(env: Env, opts: Options, record: Record, m: nat, extra: nat)
    returns (records: seq<Record>)
    requires env.Lawful() && opts.Valid() && Roomy(opts) && Appendable(env, opts, [record])
    requires 0 < m <= opts.maxSegments && Countable(FRESH, 2 * (m * PerSegment(env, opts, record)) + extra)
    ensures |records| == m * PerSegment(env, opts, record) && Appendable(env, opts, records)
    ensures AppendAll(env, opts, FRESH, records).Ok?
    ensures var log := AppendAll(env, opts, FRESH, records).value;
            && Full(env, opts, log, record) && |log| == m && Countable(log, extra)
            && |Flat(log)| == |records|
    decreases m
  {
    var n := PerSegment(env, opts, record);
    if m == 1 {
      records := FillFirst(env, opts, record, extra);
    } else {
      MulStep(m - 1, n);
      var before := FillSegments(env, opts, record, m - 1, 2 * n + extra);
      var more := FillNext(env, opts, AppendAll(env, opts, FRESH, before).value, record, extra);
      AppendAllConcat(env, opts, FRESH, before, more);
      records := before + more;
    }
    StaysBounded(env, opts, records);
  }

  lemma {:induction false} StaysBounded(env: Env, opts: Options, records: seq<Record>)
    requires env.Lawful() && opts.Valid() && Roomy(opts)
    requires Appendable(env, opts, records) && Countable(FRESH, 2 * |records|)
    ensures AppendAll(env, opts, FRESH, records).Ok? && Bounded(env, opts, AppendAll(env, opts, FRESH, records).value)
  {
    FreshStands(env, opts);
    CountableSteady(env, opts, FRESH, records);
    RunReopens(env, opts, FRESH, records, None);
  }

  /** The first segment. */
  lemma {:induction false} FillFirst(env: Env, opts: Options, record: Record, extra: nat) returns (records: seq<Record>)
    requires env.Lawful() && opts.Valid() && Appendable(env, opts, [record])
    requires Countable(FRESH, 2 * PerSegment(env, opts, record) + extra)
    ensures |records| == PerSegment(env, opts, record) && Appendable(env, opts, records)
    ensures AppendAll(env, opts, FRESH, records).Ok?
    ensures var l := AppendAll(env, opts, FRESH, records).value;
            && WellFormed(env, opts, l) && Unpruned(env, l) && |l| == 1 && Countable(l, extra)
            && |Flat(l)| == |records|
            && CurrentBytes(env, l) > 0 && CurrentBytes(env, l) + NextSize(env, record) > opts.maxSegmentBytes
  {
    var n := PerSegment(env, opts, record);
    assert [record][0] == record;
    SegmentFilled(NextSize(env, record), opts.maxSegmentBytes);
    FreshStands(env, opts);
    records := Copies(record, n);
    CopiesSize(env, opts, record, n);
    Fill(env, opts, FRESH, records, extra);
  }

  /** One more segment. */
  lemma {:induction false} FillNext(env: Env, opts: Options, log: Log, record: Record, extra: nat)
    returns (records: seq<Record>)
    requires env.Lawful() && opts.Valid() && Roomy(opts) && Appendable(env, opts, [record])
    requires Full(env, opts, log, record) && |log| < opts.maxSegments
    requires Countable(log, 2 * PerSegment(env, opts, record) + extra)
    ensures |records| == PerSegment(env, opts, record) && Appendable(env, opts, records)
    ensures AppendAll(env, opts, log, records).Ok?
    ensures var l := AppendAll(env, opts, log, records).value;
            && WellFormed(env, opts, l) && Unpruned(env, l) && |l| == |log| + 1 && Countable(l, extra)
            && |Flat(l)| == |Flat(log)| + |records|
            && CurrentBytes(env, l) > 0 && CurrentBytes(env, l) + NextSize(env, record) > opts.maxSegmentBytes
  {
    var n := PerSegment(env, opts, record);
    assert [record][0] == record;
    SegmentFilled(NextSize(env, record), opts.maxSegmentBytes);
    records := Copies(record, n);
    CopiesSize(env, opts, record, n);
    CopiesSize(env, opts, record, n - 1);
    MulStep(n - 1, NextSize(env, record));
    OpensNext(env, opts, log, record, 2 * (n - 1) + extra);
    assert records[1..] == Copies(record, n - 1);
    Fill(env, opts, Append(env, opts, log, record).value, Copies(record, n - 1), extra);
  }

  /** Filling every segment stays far below what the sequence and the file names count to. */
  lemma {:induction false} FillingCounts(env: Env, opts: Options, record: Record, m: nat)
    requires opts.Valid() && m <= opts.maxSegments + 1
    ensures m * PerSegment(env, opts, record) <= (MAX_SEGMENTS + 1) * MAX_SEGMENT_BYTES
  {
    var n := PerSegment(env, opts, record);
    assert n <= opts.maxSegmentBytes;
    MulMonotone(m, MAX_SEGMENTS + 1, n);
  }

  /**
   No append looks at the scan limit. Where full segments hold more records than it, a
   fresh ledger acknowledges appends until its files no longer open.
   */
  lemma {:induction false} ScanLimitPassed(env: Env, opts: Options, record: Record, recovery: Option<Context>)
    returns (records: seq<Record>)
    requires env.Lawful() && opts.Valid() && Roomy(opts) && Appendable(env, opts, [record])
    requires opts.maxSegments * PerSegment(env, opts, record) > opts.maxScan
    requires recovery.Some? ==> recovery.value.actor == SystemRecoveryActor
    ensures Appendable(env, opts, records) && AppendAll(env, opts, FRESH, records).Ok?
    ensures var log := AppendAll(env, opts, FRESH, records).value;
            && Sound(env, opts, Up(log)) && Bounded(env, opts, log) && Unpruned(env, log)
            && Open(env, opts, recovery, Render(env, log)) == Err(CapacityReached)
  {
    FreshStands(env, opts);
    FillingCounts(env, opts, record, opts.maxSegments);
    records := FillSegments(env, opts, record, opts.maxSegments, 0);
    ReopensExactly(env, opts, recovery, AppendAll(env, opts, FRESH, records).value);
  }

  /** With the limits the program runs with, frames of up to 1,341 bytes are enough. */
  lemma {:induction false} DefaultsPassScanLimit(env: Env, record: Record, recovery: Option<Context>)
    returns (records: seq<Record>)
    requires env.Lawful() && Appendable(env, DEFAULT_OPTIONS, [record]) && NextSize(env, record) <= 1341
    requires recovery.Some? ==> recovery.value.actor == SystemRecoveryActor
    ensures Appendable(env, DEFAULT_OPTIONS, records) && AppendAll(env, DEFAULT_OPTIONS, FRESH, records).Ok?
    ensures var log := AppendAll(env, DEFAULT_OPTIONS, FRESH, records).value;
            Open(env, DEFAULT_OPTIONS, recovery, Render(env, log)) == Err(CapacityReached)
  {
    assert [record][0] == record;
    assert PerSegment(env, DEFAULT_OPTIONS, record) >= 3126 by {
      DivisorShrinks(MAX_SEGMENT_BYTES, NextSize(env, record), 1341);
    }
    records := ScanLimitPassed(env, DEFAULT_OPTIONS, record, recovery);
  }

  lemma DivisorShrinks(x: nat, a: nat, b: nat)
    requires 0 < a <= b
    ensures x / b <= x / a
  {
    var q := x / b;
    MulMonotone(a, b, q);
    if x / a < q {
      MulMonotone(x / a + 1, q, a);
    }
  }

  /**
   The input on which two crashes lose the ledger, for every codec, hash, record and
   limits with room for one record in every place before the scan limit: a fresh
   ledger, the record appended until every segment is full, and the two crashes.
   */
  lemma {:induction false} FreshLedgerLost(env: Env, opts: Options, record: Record, context: Context,
                                           recovery: Option<Context>)
    returns (records: seq<Record>)
    requires env.Lawful() && opts.Valid() && Roomy(opts) && Appendable(env, opts, [record])
          && CanRecord(env, opts, context)
    requires opts.maxSegments * PerSegment(env, opts, record) <= opts.maxScan
    requires recovery.Some? ==> recovery.value.actor == SystemRecoveryActor
    ensures Appendable(env, opts, records) && AppendAll(env, opts, FRESH, records).Ok?
    ensures var log, refill := AppendAll(env, opts, FRESH, records).value,
              Copies(record, PerSegment(env, opts, record));
            && log != [] && Sound(env, opts, Up(log))
            && Enabled(env, opts, Up(log), Crash(record, SegmentCreated))
            && var st1 := After(env, opts, Up(log), Crash(record, SegmentCreated));
            && Enabled(env, opts, st1, Reopen(context))
            && var st2 := After(env, opts, st1, Reopen(context));
            && AppendAll(env, opts, st2.log, refill).Ok?
            && var full := AppendAll(env, opts, st2.log, refill).value;
            && full != [] && Possible(env, opts, full, record, Removing(1)) && Lost(env, opts, full, record, recovery)
  {
    var n := PerSegment(env, opts, record);
    assert [record][0] == record;
    FreshStands(env, opts);
    SegmentFilled(NextSize(env, record), opts.maxSegmentBytes);
    MulStep(opts.maxSegments, n);
    FillingCounts(env, opts, record, opts.maxSegments + 1);
    records := FillSegments(env, opts, record, opts.maxSegments, 2 * n + 4);
    var log := AppendAll(env, opts, FRESH, records).value;
    CopiesSize(env, opts, record, n);
    assert CanAppend(env, opts, log, record);
    NeverRefused(env, opts, log, record);
    TwoCrashesLoseTheLedger(env, opts, log, record, Copies(record, n), record, context, recovery);
  }
}
