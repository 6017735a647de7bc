/**
 The scan limit. Opening refuses more frames than `max_scan_records`, and no append looks
 at that number: the files of a running ledger open again exactly while it holds at most
 so many frames, and at every crash point of an append exactly while it holds fewer.
 */
module AuditLimit {
  import opened Bytes
  import opened AuditTypes
  import opened AuditFrames
  import opened AuditLog
  import opened AuditScan
  import opened AuditAppend
  import opened AuditCrash

  /** A lower limit changes an answer only into a refusal for the number of frames. */
  predicate Limited<T(==)>(low: Result<T, Code>, high: Result<T, Code>) {
    low == high || low == Err(CapacityReached)
  }

  lemma {:induction false} LookAtLimited(env: Env, opts: Options, m: nat, first: nat, fs: seq<Frame>, rest: seq<Byte>)
    requires opts.maxScan <= m
    ensures var low := LookAt(env, opts, first, fs, rest);
            low == LookAt(env, opts.(maxScan := m), first, fs, rest) || low == Bad(CapacityReached)
  {
  }

  lemma {:induction false} ScanRestLimited(env: Env, opts: Options, m: nat, first: nat, mayCut: bool, fs: seq<Frame>,
                                           rest: seq<Byte>)
    requires opts.maxScan <= m
    ensures Limited(ScanRest(env, opts, first, mayCut, fs, rest),
                    ScanRest(env, opts.(maxScan := m), first, mayCut, fs, rest))
    decreases |rest|
  {
    if rest != [] {
      LookAtLimited(env, opts, m, first, fs, rest);
      match LookAt(env, opts, first, fs, rest)
      case Next(f) => ScanRestLimited(env, opts, m, first, mayCut, fs + [f], rest[|FrameBytes(env, f)|..]);
      case _ =>
    }
  }

  lemma {:induction false} ScanFilesLimited(env: Env, opts: Options, m: nat, first: nat, allowRecovery: bool, log: Log,
                                            files: Disk)
    requires opts.maxScan <= m
    ensures Limited(ScanFiles(env, opts, first, allowRecovery, log, files),
                    ScanFiles(env, opts.(maxScan := m), first, allowRecovery, log, files))
    decreases |files|
  {
    if files != [] {
      var before, mayCut := Flat(log), allowRecovery && |files| == 1;
      ScanRestLimited(env, opts, m, first, mayCut, before, files[0].bytes);
      match ScanRest(env, opts, first, mayCut, before, files[0].bytes)
      case Err(_) =>
      case Ok((fs, _)) =>
        var log' := log + [Seg(files[0].number, fs[|before|..])];
        ScanFilesLimited(env, opts, m, first, allowRecovery, log', files[1..]);
    }
  }

  lemma {:induction false} ScanLimited(env: Env, opts: Options, m: nat, allowRecovery: bool, disk: Disk)
    requires opts.maxScan <= m && disk != []
    ensures Limited(Scan(env, opts, allowRecovery, disk), Scan(env, opts.(maxScan := m), allowRecovery, disk))
  {
    ScanFilesLimited(env, opts, m, disk[0].number, allowRecovery, [], disk);
  }

  /** The files of a well-formed log are read back exactly within the limit, and refused beyond it. */
  lemma {:induction false} ReadsBackExactly(env: Env, opts: Options, allowRecovery: bool, log: Log)
    requires opts.maxPayload <= MAX_PAYLOAD_BYTES && WellFormed(env, opts, log)
    ensures Scan(env, opts, allowRecovery, Render(env, log))
         == if |Flat(log)| <= opts.maxScan then Ok((log, false)) else Err(CapacityReached)
  {
    if |Flat(log)| <= opts.maxScan {
      ReopenReadsBack(env, opts, allowRecovery, log);
    } else {
      var wide := opts.(maxScan := |Flat(log)|);
      WellFormedWide(env, opts, log, |Flat(log)|);
      ReopenReadsBack(env, wide, allowRecovery, log);
      ScanLimited(env, opts, |Flat(log)|, allowRecovery, Render(env, log));
      if Scan(env, opts, allowRecovery, Render(env, log)).Ok? {
        var _ := ScanSound(env, opts, allowRecovery, Render(env, log));
        assert false;
      }
    }
  }

  lemma {:induction false} WellFormedWide(env: Env, opts: Options, log: Log, m: nat)
    requires WellFormed(env, opts, log)
    ensures WellFormed(env, opts.(maxScan := m), log)
  {
    var wide, fs := opts.(maxScan := m), Flat(log);
    forall i | 0 <= i < |fs| ensures Storable(env, wide, fs[i]) {
      assert Storable(env, opts, fs[i]);
    }
  }

  /** A ledger reopens if and only if it holds no more frames than the scan limit. */
  lemma {:induction false} ReopensExactly(env: Env, opts: Options, recovery: Option<Context>, log: Log)
    requires opts.Valid() && WellFormed(env, opts, log)
    requires recovery.Some? ==> recovery.value.actor == SystemRecoveryActor
    ensures Open(env, opts, recovery, Render(env, log))
         == if |Flat(log)| <= opts.maxScan then Ok(log) else Err(CapacityReached)
  {
    if |Flat(log)| <= opts.maxScan {
      OpenPlain(env, opts, recovery, log);
    } else {
      RenderContiguous(env, log, []);
      RenderTailNone(env, log);
      OpenNumbered(env, opts, recovery, Render(env, log));
      ReadsBackExactly(env, opts, recovery.Some?, log);
    }
  }

  /**
   The files of a log that break off inside a frame open if and only if the frames, and
   one more for a tail as long as an empty frame, are within the scan limit.
   */
  lemma {:induction false} TailReopensExactly(env: Env, opts: Options, context: Context, base: Log, tail: seq<Byte>)
    requires opts.Valid() && BrokenOff(env, opts, base, tail) && context.actor == SystemRecoveryActor
    ensures Open(env, opts, Some(context), RenderTail(env, base, tail))
         == if !Scannable(opts, base, tail) then Err(CapacityReached)
            else if tail == [] then Ok(base)
            else Append(env, opts, base, RecoveryRecord(context))
  {
    RecoverableExactly(env, opts, base, tail);
    if Scannable(opts, base, tail) {
      OpenRecovers(env, opts, context, base, tail);
    } else {
      RenderContiguous(env, base, tail);
      OpenNumbered(env, opts, Some(context), RenderTail(env, base, tail));
      TailRefused(env, opts, base, tail);
    }
  }

  lemma {:induction false} TailRefused(env: Env, opts: Options, base: Log, tail: seq<Byte>)
    requires opts.maxPayload <= MAX_PAYLOAD_BYTES && BrokenOff(env, opts, base, tail) && !Scannable(opts, base, tail)
    ensures Scan(env, opts, true, RenderTail(env, base, tail)) == Err(CapacityReached)
  {
    var disk, m := RenderTail(env, base, tail), |Flat(base)| + 1;
    WellFormedWide(env, opts, base, m);
    ScanComplete(env, opts.(maxScan := m), true, base, tail);
    ScanLimited(env, opts, m, true, disk);
    if Scan(env, opts, true, disk).Ok? {
      var rest := ScanSound(env, opts, true, disk);
      SameTail(env, base, tail, rest);
      RecoverableExactly(env, opts, base, tail);
      assert false;
    }
  }

  lemma {:induction false} SameTail(env: Env, log: Log, a: seq<Byte>, b: seq<Byte>)
    requires log != [] && RenderTail(env, log, a) == RenderTail(env, log, b)
    ensures a == b
  {
    var m := |log| - 1;
    var front := FileBytes(env, log[m].frames);
    assert front + a == RenderTail(env, log, a)[m].bytes;
    assert front + b == RenderTail(env, log, b)[m].bytes;
    assert a == (front + a)[|front|..];
  }

  /** A partial removal that no checkpoint vouches for never opens again, whatever the scan limit. */
  lemma {:induction false} CutIsLost(env: Env, opts: Options, log: Log, record: Record, j: nat,
                                     recovery: Option<Context>)
    requires WellFormed(env, opts, log) && Legal(env, opts, log, record)
    requires Possible(env, opts, log, record, Removing(j)) && 0 < j < Plan(env, opts, log, record).count
    requires !CutVouched(env, log, j)
    requires recovery.Some? ==> recovery.value.actor == SystemRecoveryActor
    ensures Limited(Open(env, opts, recovery, CrashDisk(env, opts, log, record, Removing(j))), Err(ChainMismatch))
  {
    UnvouchedFiles(env, opts, log, record, j);
    var c := Checkpointed(env, log, record.context.receivedAt, Plan(env, opts, log, record).count);
    UnanchoredFiles(env, opts, c, j, recovery);
  }

  lemma {:induction false} UnanchoredFiles(env: Env, opts: Options, c: Log, j: nat, recovery: Option<Context>)
    requires opts.Valid() && WellFormed(env, opts, c) && 0 < j < |c| && !Anchored(env, c[j].number, Flat(c[j..]))
    requires recovery.Some? ==> recovery.value.actor == SystemRecoveryActor
    ensures Limited(Open(env, opts, recovery, RenderTail(env, c[j..], [])), Err(ChainMismatch))
  {
    var l, m := c[j..], opts.maxScan + |Flat(c[j..])|;
    SegmentsFrom(env, opts, c, j);
    WellFormedWide(env, opts, c, m);
    SegmentsFrom(env, opts.(maxScan := m), c, j);
    ScanUnanchored(env, opts.(maxScan := m), recovery.Some?, l);
    ScanLimited(env, opts, m, recovery.Some?, RenderTail(env, l, []));
    OpenNumbered(env, opts, recovery, RenderTail(env, l, []));
  }

  /** A partial removal that no checkpoint vouches for leaves files that never open again. */
  lemma {:induction false} UnanchoredCutIsLost(env: Env, opts: Options, log: Log, record: Record, j: nat,
                                               recovery: Option<Context>)
    requires WellFormed(env, opts, log) && Legal(env, opts, log, record)
    requires Possible(env, opts, log, record, Removing(j)) && 0 < j < Plan(env, opts, log, record).count
    requires !CutVouched(env, log, j)
    requires recovery.Some? ==> recovery.value.actor == SystemRecoveryActor
    requires |Flat(log)| < opts.maxScan
    ensures Open(env, opts, recovery, CrashDisk(env, opts, log, record, Removing(j))) == Err(ChainMismatch)
  {
    UnvouchedFiles(env, opts, log, record, j);
    var c := Checkpointed(env, log, record.context.receivedAt, Plan(env, opts, log, record).count);
    UnanchoredScan(env, opts, c, j, recovery);
  }

  lemma {:induction false} UnanchoredScan(env: Env, opts: Options, c: Log, j: nat, recovery: Option<Context>)
    requires opts.Valid() && WellFormed(env, opts, c) && 0 < j < |c|
    requires !Anchored(env, c[j].number, Flat(c[j..])) && |Flat(c[j..])| <= opts.maxScan
    requires recovery.Some? ==> recovery.value.actor == SystemRecoveryActor
    ensures Open(env, opts, recovery, RenderTail(env, c[j..], [])) == Err(ChainMismatch)
  {
    SegmentsFrom(env, opts, c, j);
    ScanUnanchored(env, opts, recovery.Some?, c[j..]);
    OpenNumbered(env, opts, recovery, RenderTail(env, c[j..], []));
  }

  /** A crash point reopens exactly when it is not an unvouched removal and lies within the scan limit. */
  lemma {:induction false} CrashReopensExactly(env: Env, opts: Options, log: Log, record: Record, at: CrashPoint,
                                               context: Context)
    requires WellFormed(env, opts, log) && Legal(env, opts, log, record) && Admit(env, opts, record).Ok?
    requires Possible(env, opts, log, record, at) && Countable(log, 4) && CanRecord(env, opts, context)
    ensures Open(env, opts, Some(context), CrashDisk(env, opts, log, record, at)).Ok? <==>
              && (at.Removing? && 0 < at.j < Plan(env, opts, log, record).count ==> CutVouched(env, log, at.j))
              && Scannable(opts, CrashBase(env, opts, log, record, at), CrashTail(env, opts, log, record, at))
  {
    var base, tail := CrashBase(env, opts, log, record, at), CrashTail(env, opts, log, record, at);
    if at.Removing? && 0 < at.j < Plan(env, opts, log, record).count && !CutVouched(env, log, at.j) {
      CutIsLost(env, opts, log, record, at.j, Some(context));
    } else if Scannable(opts, base, tail) {
      CrashConsistency(env, opts, log, record, at, context);
    } else {
      CrashBreaksOff(env, opts, log, record, at);
      TailReopensExactly(env, opts, context, base, tail);
    }
  }

  /**
   All crash points of an append reopen exactly when every partial removal is vouched
   for and the log is below the scan limit.
   */
  lemma {:induction false} CrashSafeExactly(env: Env, opts: Options, log: Log, record: Record, context: Context)
    requires WellFormed(env, opts, log) && Legal(env, opts, log, record) && Admit(env, opts, record).Ok?
    requires Countable(log, 4) && CanRecord(env, opts, context)
    ensures (forall at :: Possible(env, opts, log, record, at) ==>
                            Open(env, opts, Some(context), CrashDisk(env, opts, log, record, at)).Ok?)
            <==> Covered(env, opts, log, record) && |Flat(log)| < opts.maxScan
  {
    if !Covered(env, opts, log, record) {
      var j :| 0 < j < Plan(env, opts, log, record).count && !CutVouched(env, log, j);
      RemovalPossible(env, opts, log, record, j);
      CrashReopensExactly(env, opts, log, record, Removing(j), context);
    } else if |Flat(log)| >= opts.maxScan {
      var at := FullPoint(env, opts, log, record);
      CrashReopensExactly(env, opts, log, record, at, context);
    } else {
      forall at | Possible(env, opts, log, record, at)
        ensures Open(env, opts, Some(context), CrashDisk(env, opts, log, record, at)).Ok?
      {
        CrashScannable(env, opts, log, record, at);
        CrashReopensExactly(env, opts, log, record, at, context);
      }
    }
  }

  /** The crash point with one frame more than before: the checkpoint or, without retention, the record. */
  lemma {:induction false} FullPoint(env: Env, opts: Options, log: Log, record: Record) returns (at: CrashPoint)
    requires WellFormed(env, opts, log) && Legal(env, opts, log, record)
    ensures Possible(env, opts, log, record, at)
    ensures |Flat(CrashBase(env, opts, log, record, at))| == |Flat(log)| + 1
  {
    NeverRefused(env, opts, log, record);
    at := if Plan(env, opts, log, record).Prune? then Removing(0) else RecordWritten;
    CrashFrames(env, opts, log, record, at);
    assert log[..0] == [];
  }
}
