/**
 Stopping an append at any step, and reopening what is on disk.

 File operations are taken in program order and a write may stop after any number of
 bytes: what the code has synced or renamed stays. `CrashBase` and `CrashTail` are the
 whole frames and the torn bytes on disk at each point.
 */
module AuditCrash {
  import opened Bytes
  import opened AuditTypes
  import opened AuditFrames
  import opened AuditLog
  import opened AuditScan
  import opened AuditAppend

  /** The end of `open`: the ledger starts from the scan, and records a recovery after a cut. */
  function Start(env: Env, opts: Options, recovery: Option<Context>,
                 scanned: Result<(Log, bool), Code>): (r: Result<Log, Code>)
    requires scanned.Ok? ==> scanned.value.0 != [] && (scanned.value.1 ==> recovery.Some?)
  {
    match scanned
    case Err(code) => Err(code)
    case Ok((log, cut)) => if cut then Append(env, opts, log, RecoveryRecord(recovery.value)) else Ok(log)
  }

  /** The files `open` scans: an empty directory gets its first segment. */
  function Discovered(disk: Disk): (files: Disk)
    ensures files != []
  {
    if disk == [] then [File(1, [])] else disk
  }

  /** Segments are numbered from 1. */
  predicate Unnumbered(disk: Disk) {
    exists i :: 0 <= i < |disk| && disk[i].number == 0
  }

  /** `FileAuditLedger::open`: options, segment numbering, scan, and the recovery record after a cut. */
  function Open(env: Env, opts: Options, recovery: Option<Context>, disk: Disk): (r: Result<Log, Code>)
  {
    if !opts.Valid() || (recovery.Some? && recovery.value.actor != SystemRecoveryActor) then Err(RecordInvalid)
    else
      var files := Discovered(disk);
      if Unnumbered(files) then Err(RecordInvalid)
      else if !Contiguous(FileNumbers(files)) then Err(InteriorCorruption)
      else Start(env, opts, recovery, Scan(env, opts, recovery.Some?, files))
  }

  datatype CrashPoint =
    | Untouched
    | SegmentCreated
    | CheckpointTorn(n: nat)
    | Removing(j: nat)
    | RecordTorn(n: nat)
    | RecordWritten

  function NextSize(env: Env, record: Record): (n: nat)
  {
    FrameSize(env.encode(record, None))
  }

  function Plan(env: Env, opts: Options, log: Log, record: Record): (s: Storage)
    requires log != []
    ensures s.Prune? ==> 0 < s.count <= |log|
  {
    Decide(env, opts, log, NextSize(env, record), record.context.receivedAt)
  }

  /** The points an append of this record can stop at, given what storage preparation decides. */
  predicate Possible(env: Env, opts: Options, log: Log, record: Record, at: CrashPoint)
    requires log != []
  {
    var plan := Plan(env, opts, log, record);
    && Prepared(env, opts, log, NextSize(env, record), record.context.receivedAt).Ok?
    && match at
       case Untouched => true
       case SegmentCreated => plan.Rotate? || plan.Prune?
       case CheckpointTorn(n) =>
         plan.Prune? && 0 < n < |FrameBytes(env, CheckpointFrame(env, log, record.context.receivedAt, plan.count))|
       case Removing(j) => plan.Prune? && j <= plan.count
       case RecordTorn(n) => 0 < n < |FrameBytes(env, RecordFrame(env, opts, log, record))|
       case RecordWritten => true
  }

  /** The whole frames on disk when the append stops. */
  function CrashBase(env: Env, opts: Options, log: Log, record: Record, at: CrashPoint): (l: Log)
    requires log != [] && Possible(env, opts, log, record, at)
    ensures l != []
  {
    var timestamp := record.context.receivedAt;
    match at
    case Untouched => log
    case SegmentCreated => Rotated(log)
    case CheckpointTorn(_) => Rotated(log)
    case Removing(j) => Checkpointed(env, log, timestamp, Plan(env, opts, log, record).count)[j..]
    case RecordTorn(_) => Prepared(env, opts, log, NextSize(env, record), timestamp).value
    case RecordWritten =>
      WithFrame(Prepared(env, opts, log, NextSize(env, record), timestamp).value, RecordFrame(env, opts, log, record))
  }

  /** The torn bytes after them. */
  function CrashTail(env: Env, opts: Options, log: Log, record: Record, at: CrashPoint): (s: seq<Byte>)
    requires log != [] && Possible(env, opts, log, record, at)
  {
    match at
    case CheckpointTorn(n) =>
      FrameBytes(env, CheckpointFrame(env, log, record.context.receivedAt, Plan(env, opts, log, record).count))[..n]
    case RecordTorn(n) => FrameBytes(env, RecordFrame(env, opts, log, record))[..n]
    case _ => []
  }

  function CrashDisk(env: Env, opts: Options, log: Log, record: Record, at: CrashPoint): (d: Disk)
    requires log != [] && Possible(env, opts, log, record, at)
  {
    RenderTail(env, CrashBase(env, opts, log, record, at), CrashTail(env, opts, log, record, at))
  }

  /** The frames this append sets out to write, in order. */
  function Planned(env: Env, opts: Options, log: Log, record: Record): (fs: seq<Frame>)
    requires log != [] && Prepared(env, opts, log, NextSize(env, record), record.context.receivedAt).Ok?
    ensures 1 <= |fs| <= 2
  {
    Interposed(env, opts, log, NextSize(env, record), record.context.receivedAt) + [RecordFrame(env, opts, log, record)]
  }

  /** How many of them are whole on disk. */
  function Written(env: Env, opts: Options, log: Log, record: Record, at: CrashPoint): (n: nat)
    requires log != [] && Possible(env, opts, log, record, at)
    ensures n <= |Planned(env, opts, log, record)|
  {
    match at
    case Untouched => 0
    case SegmentCreated => 0
    case CheckpointTorn(_) => 0
    case Removing(_) => 1
    case RecordTorn(_) => |Planned(env, opts, log, record)| - 1
    case RecordWritten => |Planned(env, opts, log, record)|
  }

  /** How many of the oldest frames are gone from disk. */
  function Dropped(env: Env, opts: Options, log: Log, record: Record, at: CrashPoint): (n: nat)
    requires log != [] && Possible(env, opts, log, record, at)
    ensures n <= |Flat(log)|
  {
    match at
    case Removing(j) => FlatSplit(log, j); |Flat(log[..j])|
    case RecordTorn(_) => PrunedFrames(env, opts, log, NextSize(env, record), record.context.receivedAt)
    case RecordWritten => PrunedFrames(env, opts, log, NextSize(env, record), record.context.receivedAt)
    case _ => 0
  }

  /**
   What is on disk at any crash point: the acknowledged frames without some oldest ones,
   then an initial part of the frames this append set out to write. Frames are missing
   only once the checkpoint is whole.
   */
  lemma {:induction false} CrashFrames(env: Env, opts: Options, log: Log, record: Record, at: CrashPoint)
    requires log != [] && Possible(env, opts, log, record, at)
    ensures Flat(CrashBase(env, opts, log, record, at))
         == Flat(log)[Dropped(env, opts, log, record, at)..]
            + Planned(env, opts, log, record)[..Written(env, opts, log, record, at)]
    ensures Dropped(env, opts, log, record, at) > 0 ==>
              && Plan(env, opts, log, record).Prune?
              && Written(env, opts, log, record, at) > 0
              && Planned(env, opts, log, record)[0]
                 == CheckpointFrame(env, log, record.context.receivedAt, Plan(env, opts, log, record).count)
  {
    if at.RecordTorn? || at.RecordWritten? {
      RecordFrames(env, opts, log, record, at);
    } else if at.Removing? {
      RemovalFrames(env, opts, log, record, at.j);
    } else {
      RotatedFlat(log);
      NothingWritten(Flat(log), Planned(env, opts, log, record));
    }
  }

  lemma NothingWritten<T>(a: seq<T>, b: seq<T>)
    ensures a[0..] + b[..0] == a
  {
  }

  lemma {:induction false} RemovalFrames(env: Env, opts: Options, log: Log, record: Record, j: nat)
    requires log != [] && Possible(env, opts, log, record, Removing(j))
    ensures Flat(CrashBase(env, opts, log, record, Removing(j)))
         == Flat(log)[Dropped(env, opts, log, record, Removing(j))..] + Planned(env, opts, log, record)[..1]
    ensures Planned(env, opts, log, record)[0]
         == CheckpointFrame(env, log, record.context.receivedAt, Plan(env, opts, log, record).count)
  {
    var k := Plan(env, opts, log, record).count;
    CutFlat(env, log, record.context.receivedAt, k, j);
    assert Planned(env, opts, log, record)[..1] == [CheckpointFrame(env, log, record.context.receivedAt, k)];
  }

  lemma {:induction false} RecordFrames(env: Env, opts: Options, log: Log, record: Record, at: CrashPoint)
    requires log != [] && Possible(env, opts, log, record, at) && (at.RecordTorn? || at.RecordWritten?)
    ensures Flat(CrashBase(env, opts, log, record, at))
         == Flat(log)[Dropped(env, opts, log, record, at)..]
            + Planned(env, opts, log, record)[..Written(env, opts, log, record, at)]
  {
    var next, timestamp, f := NextSize(env, record), record.context.receivedAt, RecordFrame(env, opts, log, record);
    var kept := Flat(log)[PrunedFrames(env, opts, log, next, timestamp)..];
    PreparedFlat(env, opts, log, next, timestamp);
    WithFrameFlat(Prepared(env, opts, log, next, timestamp).value, f);
    WrittenParts(kept, Interposed(env, opts, log, next, timestamp), f);
  }

  lemma WrittenParts<T>(kept: seq<T>, before: seq<T>, f: T)
    ensures (before + [f])[..|before|] == before && (before + [f])[..|before| + 1] == before + [f]
    ensures (kept + before) + [f] == kept + (before + [f])
  {
  }

  /** A log on disk, perhaps with a torn tail, that opens with a recovery context. */
  predicate Recoverable(env: Env, opts: Options, base: Log, tail: seq<Byte>) {
    && WellFormed(env, opts, base)
    && |Flat(base)| <= opts.maxScan
    && (tail == [] || TornAt(env, opts, base[0].number, Flat(base), tail))
  }

  /** A log on disk, perhaps followed by bytes that break off inside the next frame. */
  predicate BrokenOff(env: Env, opts: Options, base: Log, tail: seq<Byte>) {
    && WellFormed(env, opts, base)
    && (tail == [] || TornAt(env, opts.(maxScan := |Flat(base)| + 1), base[0].number, Flat(base), tail))
  }

  /** A scan does not refuse it for its number of frames; a tail as long as an empty frame counts as one. */
  predicate Scannable(opts: Options, base: Log, tail: seq<Byte>) {
    |Flat(base)| + (if |tail| < HEADER_LEN + HASH_LEN then 0 else 1) <= opts.maxScan
  }

  /** The scan limit is all that stands between such files and recovery. */
  lemma {:induction false} RecoverableExactly(env: Env, opts: Options, base: Log, tail: seq<Byte>)
    requires BrokenOff(env, opts, base, tail)
    ensures Recoverable(env, opts, base, tail) <==> Scannable(opts, base, tail)
  {
  }

  lemma {:induction false} RenderContiguous(env: Env, log: Log, tail: seq<Byte>)
    requires Packed(log)
    ensures Contiguous(FileNumbers(RenderTail(env, log, tail)))
  {
    forall i | 0 <= i < |log| ensures log[i].number > 0 {
      PackedNumber(log, i);
    }
  }

  lemma {:induction false} OpenNumbered(env: Env, opts: Options, recovery: Option<Context>, disk: Disk)
    requires opts.Valid() && (recovery.Some? ==> recovery.value.actor == SystemRecoveryActor)
    requires disk != [] && Contiguous(FileNumbers(disk))
    ensures Open(env, opts, recovery, disk) == Start(env, opts, recovery, Scan(env, opts, recovery.Some?, disk))
  {
    forall i | 0 <= i < |disk| ensures disk[i].number != 0 {
      assert FileNumbers(disk)[i] == disk[i].number;
    }
  }

  /** Opening such a disk gives back its frames; a recovery record follows exactly when a tail was cut. */
  lemma {:induction false} OpenRecovers(env: Env, opts: Options, context: Context, base: Log, tail: seq<Byte>)
    requires opts.Valid() && Recoverable(env, opts, base, tail)
    requires context.actor == SystemRecoveryActor
    ensures Open(env, opts, Some(context), RenderTail(env, base, tail))
         == if tail == [] then Ok(base) else Append(env, opts, base, RecoveryRecord(context))
  {
    RenderContiguous(env, base, tail);
    OpenNumbered(env, opts, Some(context), RenderTail(env, base, tail));
    ScanComplete(env, opts, true, base, tail);
  }

  /** Without a torn tail no recovery context is needed. */
  lemma {:induction false} OpenPlain(env: Env, opts: Options, recovery: Option<Context>, log: Log)
    requires opts.Valid() && WellFormed(env, opts, log) && |Flat(log)| <= opts.maxScan
    requires recovery.Some? ==> recovery.value.actor == SystemRecoveryActor
    ensures Open(env, opts, recovery, Render(env, log)) == Ok(log)
  {
    RenderContiguous(env, log, []);
    RenderTailNone(env, log);
    OpenNumbered(env, opts, recovery, Render(env, log));
    ReopenReadsBack(env, opts, recovery.Some?, log);
  }

  // ----- every crash point -----

  /** A checkpoint among the kept frames names the last of the removed ones. */
  predicate RemovalVouched(env: Env, removed: seq<Frame>, kept: seq<Frame>) {
    var ps := Checkpoints(env, kept);
    exists i :: 0 <= i < |ps| && Vouches(ps[i], LastSequence(removed) + 1, LastHash(env, removed))
  }

  /** Some checkpoint from segment j on names what lies before that segment. */
  predicate CutVouched(env: Env, log: Log, j: nat)
    requires 0 < j < |log|
  {
    RemovalVouched(env, Flat(log[..j]), Flat(log[j..]))
  }

  /**
   Every partial removal is vouched for by a checkpoint that the log held before. It can
   only fail when retention removes more than one segment: the checkpoint that retention
   writes itself vouches for the last cut, never for the ones before it.
   */
  predicate Covered(env: Env, opts: Options, log: Log, record: Record)
    requires log != []
  {
    Plan(env, opts, log, record).Prune? ==>
      forall j :: 0 < j < Plan(env, opts, log, record).count ==> CutVouched(env, log, j)
  }

  /** A later cut between segments has a later sequence before it. */
  lemma {:induction false} LaterCut(env: Env, opts: Options, log: Log, j: nat, k: nat)
    requires WellFormed(env, opts, log) && 0 < j < k < |log|
    ensures LastSequence(Flat(log[..k])) > LastSequence(Flat(log[..j]))
  {
    FlatSplit(log, k);
    FlatSplit(log[..k], j);
    assert log[..k][..j] == log[..j];
    FlatPrefixLast(log, j);
    FlatFirst(log[..k][j..]);
    var a, b := Flat(log[..j]), Flat(log[..k]);
    SequencesCount(env, Flat(log), |a| - 1);
    SequencesCount(env, Flat(log), |b| - 1);
    assert a[|a| - 1] == Flat(log)[|a| - 1] && b[|b| - 1] == Flat(log)[|b| - 1];
  }

  /** What the new checkpoint names lies after every earlier cut. */
  lemma {:induction false} NewVouchesLater(env: Env, opts: Options, log: Log, j: nat, k: nat)
    requires WellFormed(env, opts, log) && log[|log| - 1].frames != [] && 0 < j < k <= |log|
    ensures PrunedBy(env, Rotated(log), k).last > LastSequence(Flat(log[..j]))
  {
    RotatedKeeps(env, opts, log);
    PrunedByMeaning(env, Rotated(log), k);
    LaterCut(env, opts, Rotated(log), j, k);
    assert Rotated(log)[..j] == log[..j];
  }

  /** The frames after j removals: those of the segments from j on, then the new checkpoint. */
  lemma {:induction false} CutFrames(env: Env, log: Log, timestamp: nat, k: nat, j: nat)
    requires log != [] && 0 < k <= |log| && j <= |log|
    ensures Flat(Checkpointed(env, log, timestamp, k)[j..])
         == Flat(log[j..]) + [CheckpointFrame(env, log, timestamp, k)]
  {
    CutFlat(env, log, timestamp, k, j);
    FlatSplit(log, j);
    Seam(Flat(log[..j]), Flat(log[j..]));
  }

  lemma {:induction false} AnchorsBefore(ps: seq<Pruned>, p: Pruned, sequence: nat, previous: Hash)
    requires p.last + 1 != sequence
    ensures (exists i :: 0 <= i < |ps + [p]| && Vouches((ps + [p])[i], sequence, previous))
       <==> (exists i :: 0 <= i < |ps| && Vouches(ps[i], sequence, previous))
  {
    var all := ps + [p];
    if i :| 0 <= i < |all| && Vouches(all[i], sequence, previous) {
      assert all[i] == ps[i];
    }
    if i :| 0 <= i < |ps| && Vouches(ps[i], sequence, previous) {
      assert all[i] == ps[i];
    }
  }

  /** The files after j of the k removals are anchored exactly when the log vouched for that cut already. */
  lemma {:induction false} CutAnchoredExactly(env: Env, opts: Options, log: Log, timestamp: nat, k: nat, j: nat)
    requires env.Lawful() && WellFormed(env, opts, log) && log[|log| - 1].frames != [] && 0 < j < k <= |log|
    ensures var c := Checkpointed(env, log, timestamp, k);
            Anchored(env, c[j].number, Flat(c[j..])) <==> CutVouched(env, log, j)
  {
    var c, fs := Checkpointed(env, log, timestamp, k), Flat(log[j..]);
    FlatLast(log[j..]);
    BoundaryFollows(env, opts, log, j);
    CutFrames(env, log, timestamp, k, j);
    CheckpointsSnoc(env, fs, CheckpointFrame(env, log, timestamp, k));
    CheckpointDecodes(env, opts, log, timestamp, k);
    NewVouchesLater(env, opts, log, j, k);
    AnchorsBefore(Checkpoints(env, fs), PrunedBy(env, Rotated(log), k), fs[0].sequence, fs[0].previous);
    PackedNumber(log, j);
    assert c[j].number == log[j].number;
  }

  /** A torn prefix of the next frame after a well-formed log. */
  lemma {:induction false} PrefixBreaksOff(env: Env, opts: Options, base: Log, f: Frame, n: nat)
    requires WellFormed(env, opts, base) && Storable(env, opts, f)
    requires f.sequence == NextSequence(Flat(base)) && f.previous == LastHash(env, Flat(base))
    requires 0 < n < |FrameBytes(env, f)|
    ensures BrokenOff(env, opts, base, FrameBytes(env, f)[..n])
  {
    LookAtTorn(env, opts.(maxScan := |Flat(base)| + 1), base[0].number, Flat(base), f, n);
  }

  /** The four points of retention. */
  lemma {:induction false} RetentionBreaksOff(env: Env, opts: Options, log: Log, record: Record, at: CrashPoint)
    requires WellFormed(env, opts, log) && Legal(env, opts, log, record)
    requires Possible(env, opts, log, record, at) && Plan(env, opts, log, record).Prune?
    requires at.CheckpointTorn? || at.Removing?
    requires at.Removing? && 0 < at.j < Plan(env, opts, log, record).count ==> CutVouched(env, log, at.j)
    ensures BrokenOff(env, opts, CrashBase(env, opts, log, record, at), CrashTail(env, opts, log, record, at))
  {
    var timestamp, k := record.context.receivedAt, Plan(env, opts, log, record).count;
    CheckpointHasRoom(env, opts, log, record, k);
    RotatedKeeps(env, opts, log);
    RotatedFlat(log);
    match at
    case CheckpointTorn(n) =>
      CheckpointDecodes(env, opts, log, timestamp, k);
      PrefixBreaksOff(env, opts, Rotated(log), CheckpointFrame(env, log, timestamp, k), n);
    case Removing(j) =>
      PruneKeeps(env, opts, log, timestamp, k);
      CheckpointSurvives(env, log, timestamp, k, j);
      CutFlat(env, log, timestamp, k, j);
      if 0 < j < k {
        CutAnchoredExactly(env, opts, log, timestamp, k, j);
      }
      var c := Checkpointed(env, log, timestamp, k);
      if j == 0 {
        assert c[0..] == c;
      } else {
        CutKeeps(env, opts, c, j);
      }
  }

  /** Every crash point of an append leaves a well-formed log, given that partial removals are vouched for. */
  lemma {:induction false} CrashBreaksOff(env: Env, opts: Options, log: Log, record: Record, at: CrashPoint)
    requires WellFormed(env, opts, log) && Legal(env, opts, log, record) && Admit(env, opts, record).Ok?
    requires Possible(env, opts, log, record, at)
    requires at.Removing? && 0 < at.j < Plan(env, opts, log, record).count ==> CutVouched(env, log, at.j)
    ensures BrokenOff(env, opts, CrashBase(env, opts, log, record, at), CrashTail(env, opts, log, record, at))
  {
    if at.CheckpointTorn? || at.Removing? {
      RetentionBreaksOff(env, opts, log, record, at);
    } else if at.SegmentCreated? {
      SegmentCreatedBreaksOff(env, opts, log, record);
    } else if at.RecordTorn? {
      RecordTornBreaksOff(env, opts, log, record, at.n);
    } else if at.RecordWritten? {
      RecordWrittenBreaksOff(env, opts, log, record);
    }
  }

  /** It can be recovered exactly within the scan limit. */
  lemma {:induction false} CrashRecoverable(env: Env, opts: Options, log: Log, record: Record, at: CrashPoint)
    requires WellFormed(env, opts, log) && Legal(env, opts, log, record) && Admit(env, opts, record).Ok?
    requires Possible(env, opts, log, record, at)
    requires at.Removing? && 0 < at.j < Plan(env, opts, log, record).count ==> CutVouched(env, log, at.j)
    ensures var base, tail := CrashBase(env, opts, log, record, at), CrashTail(env, opts, log, record, at);
            WellFormed(env, opts, base) && (Recoverable(env, opts, base, tail) <==> Scannable(opts, base, tail))
  {
    CrashBreaksOff(env, opts, log, record, at);
    RecoverableExactly(env, opts, CrashBase(env, opts, log, record, at), CrashTail(env, opts, log, record, at));
  }

  /** Below the limit before the append, no crash point passes it. */
  lemma {:induction false} CrashScannable(env: Env, opts: Options, log: Log, record: Record, at: CrashPoint)
    requires WellFormed(env, opts, log) && Possible(env, opts, log, record, at)
    requires |Flat(log)| < opts.maxScan
    ensures Scannable(opts, CrashBase(env, opts, log, record, at), CrashTail(env, opts, log, record, at))
  {
    CrashFrames(env, opts, log, record, at);
    CrashCounts(env, opts, log, record, at);
  }

  lemma {:induction false} CrashCounts(env: Env, opts: Options, log: Log, record: Record, at: CrashPoint)
    requires WellFormed(env, opts, log) && Possible(env, opts, log, record, at)
    ensures Written(env, opts, log, record, at) <= Dropped(env, opts, log, record, at) + 1
    ensures CrashTail(env, opts, log, record, at) != [] ==>
              Written(env, opts, log, record, at) <= Dropped(env, opts, log, record, at)
  {
    PruningMakesUp(env, opts, log, NextSize(env, record), record.context.receivedAt);
  }

  /** The frames that retention removes make up for its checkpoint. */
  lemma {:induction false} PruningMakesUp(env: Env, opts: Options, log: Log, next: nat, timestamp: nat)
    requires Packed(log)
    ensures |Interposed(env, opts, log, next, timestamp)| <= PrunedFrames(env, opts, log, next, timestamp)
  {
    match Decide(env, opts, log, next, timestamp)
    case Prune(k) => FirstHolds(log, k);
    case _ =>
  }

  /** A first part of a log whose last segment holds frames holds one. */
  lemma {:induction false} FirstHolds(log: Log, k: nat)
    requires Packed(log) && log[|log| - 1].frames != [] && 0 < k <= |log|
    ensures |Flat(log[..k])| > 0
  {
    FlatSplit(log[..k], 1);
    assert log[..k][..1] == [log[0]];
  }

  lemma {:induction false} RecordWrittenBreaksOff(env: Env, opts: Options, log: Log, record: Record)
    requires WellFormed(env, opts, log) && Legal(env, opts, log, record) && Admit(env, opts, record).Ok?
    requires Possible(env, opts, log, record, RecordWritten)
    ensures BrokenOff(env, opts, CrashBase(env, opts, log, record, RecordWritten), [])
  {
    AppendIsWritten(env, opts, log, record);
    AppendKeeps(env, opts, log, record);
  }

  /** An acknowledged append is the last crash point: everything written. */
  lemma {:induction false} AppendIsWritten(env: Env, opts: Options, log: Log, record: Record)
    requires WellFormed(env, opts, log) && Legal(env, opts, log, record) && Admit(env, opts, record).Ok?
    ensures Possible(env, opts, log, record, RecordWritten)
    ensures Append(env, opts, log, record) == Ok(CrashBase(env, opts, log, record, RecordWritten))
  {
    AppendKeeps(env, opts, log, record);
  }

  lemma {:induction false} SegmentCreatedBreaksOff(env: Env, opts: Options, log: Log, record: Record)
    requires WellFormed(env, opts, log) && Legal(env, opts, log, record)
    requires Possible(env, opts, log, record, SegmentCreated)
    ensures BrokenOff(env, opts, CrashBase(env, opts, log, record, SegmentCreated), [])
  {
    RotatedKeeps(env, opts, log);
    RotatedFlat(log);
  }

  lemma {:induction false} RecordTornBreaksOff(env: Env, opts: Options, log: Log, record: Record, n: nat)
    requires WellFormed(env, opts, log) && Legal(env, opts, log, record) && Admit(env, opts, record).Ok?
    requires Possible(env, opts, log, record, RecordTorn(n))
    ensures var at := RecordTorn(n);
            BrokenOff(env, opts, CrashBase(env, opts, log, record, at), CrashTail(env, opts, log, record, at))
  {
    PreparedKeeps(env, opts, log, record);
    PreparedSequence(env, opts, log, record);
    RecordFrames(env, opts, log, record, RecordTorn(n));
    RecordStorable(env, opts, log, record);
    var prepared := Prepared(env, opts, log, NextSize(env, record), record.context.receivedAt).value;
    PrefixBreaksOff(env, opts, prepared, RecordFrame(env, opts, log, record), n);
  }

  lemma {:induction false} RecordStorable(env: Env, opts: Options, log: Log, record: Record)
    requires WellFormed(env, opts, log) && Legal(env, opts, log, record) && Admit(env, opts, record).Ok?
    ensures Prepared(env, opts, log, NextSize(env, record), record.context.receivedAt).Ok?
    ensures Storable(env, opts, RecordFrame(env, opts, log, record))
  {
    AppendKeeps(env, opts, log, record);
    PreparedSequence(env, opts, log, record);
  }

  function EndNumber(log: Log): (n: nat)
    requires log != []
  {
    log[|log| - 1].number
  }

  lemma {:induction false} CheckpointedEnd(env: Env, log: Log, timestamp: nat, k: nat)
    requires log != [] && 0 < k <= |log|
    ensures EndNumber(Checkpointed(env, log, timestamp, k)) == EndNumber(log) + 1
  {
  }

  lemma {:induction false} PreparedEnd(env: Env, opts: Options, log: Log, next: nat, timestamp: nat)
    requires log != [] && Prepared(env, opts, log, next, timestamp).Ok?
    ensures EndNumber(Prepared(env, opts, log, next, timestamp).value) <= EndNumber(log) + 1
  {
    match Decide(env, opts, log, next, timestamp)
    case Prune(k) => CheckpointedEnd(env, log, timestamp, k);
    case _ =>
  }

  lemma {:induction false} WithFrameEnd(log: Log, f: Frame)
    requires log != []
    ensures EndNumber(WithFrame(log, f)) == EndNumber(log)
  {
  }

  /** An append opens at most one segment. */
  lemma {:induction false} CrashNumber(env: Env, opts: Options, log: Log, record: Record, at: CrashPoint)
    requires log != [] && Possible(env, opts, log, record, at)
    ensures EndNumber(CrashBase(env, opts, log, record, at)) <= EndNumber(log) + 1
  {
    var next, timestamp := NextSize(env, record), record.context.receivedAt;
    if at.Removing? {
      CheckpointedEnd(env, log, timestamp, Plan(env, opts, log, record).count);
    } else if at.RecordTorn? || at.RecordWritten? {
      PreparedEnd(env, opts, log, next, timestamp);
      if at.RecordWritten? {
        WithFrameEnd(Prepared(env, opts, log, next, timestamp).value, RecordFrame(env, opts, log, record));
      }
    }
  }

  /** An append uses up at most two sequence numbers and one segment number. */
  lemma {:induction false} CrashHorizon(env: Env, opts: Options, log: Log, record: Record, at: CrashPoint, n: nat)
    requires WellFormed(env, opts, log) && Legal(env, opts, log, record) && Admit(env, opts, record).Ok?
    requires Possible(env, opts, log, record, at)
    requires Countable(log, n + 2)
    ensures Countable(CrashBase(env, opts, log, record, at), n)
  {
    CrashFrames(env, opts, log, record, at);
    CrashSequence(env, opts, log, record, at);
    CrashNumber(env, opts, log, record, at);
  }

  lemma {:induction false} CrashSequence(env: Env, opts: Options, log: Log, record: Record, at: CrashPoint)
    requires WellFormed(env, opts, log) && Legal(env, opts, log, record)
    requires Possible(env, opts, log, record, at)
    ensures LastSequence(Flat(CrashBase(env, opts, log, record, at)))
         == LastSequence(Flat(log)) + Written(env, opts, log, record, at)
  {
    CrashFrames(env, opts, log, record, at);
    PlannedNumbers(env, opts, log, record);
    NumbersReach(Flat(log), Dropped(env, opts, log, record, at), Planned(env, opts, log, record),
                 Written(env, opts, log, record, at));
  }

  /** The frames an append sets out to write follow the head without a gap. */
  lemma {:induction false} PlannedNumbers(env: Env, opts: Options, log: Log, record: Record)
    requires WellFormed(env, opts, log) && Legal(env, opts, log, record)
    ensures Prepared(env, opts, log, NextSize(env, record), record.context.receivedAt).Ok?
    ensures Numbered(Flat(log), Planned(env, opts, log, record))
  {
    PreparedSequence(env, opts, log, record);
    RotatedFlat(log);
    NumberedSnoc(Flat(log), Interposed(env, opts, log, NextSize(env, record), record.context.receivedAt),
                 RecordFrame(env, opts, log, record));
  }

  /** They continue the chain as well. */
  lemma {:induction false} PlannedLinked(env: Env, opts: Options, log: Log, record: Record)
    requires WellFormed(env, opts, log) && Legal(env, opts, log, record)
    ensures Prepared(env, opts, log, NextSize(env, record), record.context.receivedAt).Ok?
    ensures Linked(env, Flat(log) + Planned(env, opts, log, record))
  {
    NeverRefused(env, opts, log, record);
    var next, timestamp := NextSize(env, record), record.context.receivedAt;
    PreparedFlat(env, opts, log, next, timestamp);
    InterposedLinked(env, opts, log, next, timestamp);
    NextLinked(env, Flat(log), PrunedFrames(env, opts, log, next, timestamp),
               Interposed(env, opts, log, next, timestamp),
               Prepared(env, opts, log, next, timestamp).value, env.encode(record, None));
  }

  lemma {:induction false} InterposedLinked(env: Env, opts: Options, log: Log, next: nat, timestamp: nat)
    requires log != [] && Linked(env, Flat(log))
    ensures Linked(env, Flat(log) + Interposed(env, opts, log, next, timestamp))
    ensures Interposed(env, opts, log, next, timestamp) == [] ==> PrunedFrames(env, opts, log, next, timestamp) == 0
  {
    RotatedFlat(log);
    match Decide(env, opts, log, next, timestamp)
    case Prune(k) => LinkedSnoc(env, Flat(log), CheckpointFrame(env, log, timestamp, k));
    case _ => assert Flat(log) + [] == Flat(log);
  }

  /** The next frame after what is kept and written is the next one after all of it. */
  lemma {:induction false} NextLinked(env: Env, all: seq<Frame>, gone: nat, fs: seq<Frame>, log: Log,
                                      payload: seq<Byte>)
    requires gone <= |all| && (fs == [] ==> gone == 0) && Flat(log) == all[gone..] + fs && Linked(env, all + fs)
    ensures Linked(env, all + (fs + [NextOf(env, log, payload)]))
  {
    var f := NextOf(env, log, payload);
    LinkedSnoc(env, all + fs, f);
    assert all + (fs + [f]) == (all + fs) + [f];
  }

  lemma {:induction false} LinkedSnoc(env: Env, fs: seq<Frame>, f: Frame)
    requires Linked(env, fs) && (fs != [] ==> Follows(env, fs[|fs| - 1], f))
    ensures Linked(env, fs + [f])
  {
    forall i | 0 < i < |fs + [f]| ensures FollowsAt(env, fs + [f], i) {
      if i < |fs| {
        assert FollowsAt(env, fs, i);
      }
    }
  }

  lemma {:induction false} NumberedSnoc(before: seq<Frame>, fs: seq<Frame>, f: Frame)
    requires Numbered(before, fs) && f.sequence == LastSequence(before) + 1 + |fs|
    ensures Numbered(before, fs + [f])
  {
  }

  predicate Numbered(before: seq<Frame>, fs: seq<Frame>) {
    forall i :: 0 <= i < |fs| ==> fs[i].sequence == LastSequence(before) + 1 + i
  }

  lemma {:induction false} NumbersReach(before: seq<Frame>, gone: nat, fs: seq<Frame>, w: nat)
    requires Numbered(before, fs) && gone <= |before| && w <= |fs| && (gone > 0 ==> w > 0)
    ensures LastSequence(before[gone..] + fs[..w]) == LastSequence(before) + w
  {
    var all := before[gone..] + fs[..w];
    if w > 0 {
      assert all[|all| - 1] == fs[w - 1];
    } else {
      assert all == before;
    }
  }

  /** The recovery append is legal and admissible. */
  ghost predicate CanRecord(env: Env, opts: Options, context: Context) {
    && context.actor == SystemRecoveryActor
    && context.receivedAt < U64_SPAN
    && Admit(env, opts, RecoveryRecord(context)).Ok?
    && Spacious(env, opts, NextSize(env, RecoveryRecord(context)))
  }

  /**
   Crash consistency. Stop an append anywhere; reopening with a recovery context
   succeeds. The reopened ledger is what was whole on disk: the acknowledged frames
   that retention had not removed and a first part of the planned frames, nothing else;
   one recovery record follows exactly when torn bytes were cut.
   */
  lemma {:induction false} CrashConsistency(env: Env, opts: Options, log: Log, record: Record, at: CrashPoint,
                                            context: Context)
    requires WellFormed(env, opts, log) && Legal(env, opts, log, record) && Admit(env, opts, record).Ok?
    requires Possible(env, opts, log, record, at)
    requires at.Removing? && 0 < at.j < Plan(env, opts, log, record).count ==> CutVouched(env, log, at.j)
    requires Countable(log, 4) && CanRecord(env, opts, context)
    requires Scannable(opts, CrashBase(env, opts, log, record, at), CrashTail(env, opts, log, record, at))
    ensures var base, tail := CrashBase(env, opts, log, record, at), CrashTail(env, opts, log, record, at);
            var recovery := RecoveryRecord(context);
            && WellFormed(env, opts, base)
            && Flat(base) == Flat(log)[Dropped(env, opts, log, record, at)..]
                             + Planned(env, opts, log, record)[..Written(env, opts, log, record, at)]
            && var reopened := Open(env, opts, Some(context), CrashDisk(env, opts, log, record, at));
            && reopened.Ok? && WellFormed(env, opts, reopened.value)
            && (tail == [] ==> reopened.value == base)
            && (tail != [] ==>
                && Prepared(env, opts, base, NextSize(env, recovery), context.receivedAt).Ok?
                && Flat(reopened.value)
                   == Flat(base)[PrunedFrames(env, opts, base, NextSize(env, recovery), context.receivedAt)..]
                      + Planned(env, opts, base, recovery)
                && env.decode(RecordFrame(env, opts, base, recovery).payload) == Ok((recovery, None)))
  {
    var base, tail := CrashBase(env, opts, log, record, at), CrashTail(env, opts, log, record, at);
    CrashRecoverable(env, opts, log, record, at);
    CrashFrames(env, opts, log, record, at);
    CrashHorizon(env, opts, log, record, at, 2);
    OpenRecovers(env, opts, context, base, tail);
    if tail != [] {
      RecoveryAppend(env, opts, base, context);
    }
  }

  lemma {:induction false} RecoveryAppend(env: Env, opts: Options, base: Log, context: Context)
    requires env.Lawful() && opts.Valid() && WellFormed(env, opts, base) && Countable(base, 2)
    requires CanRecord(env, opts, context)
    ensures var recovery := RecoveryRecord(context);
            && Append(env, opts, base, recovery).Ok?
            && WellFormed(env, opts, Append(env, opts, base, recovery).value)
            && Prepared(env, opts, base, NextSize(env, recovery), context.receivedAt).Ok?
            && Flat(Append(env, opts, base, recovery).value)
               == Flat(base)[PrunedFrames(env, opts, base, NextSize(env, recovery), context.receivedAt)..]
                  + Planned(env, opts, base, recovery)
            && env.decode(RecordFrame(env, opts, base, recovery).payload) == Ok((recovery, None))
  {
    var recovery := RecoveryRecord(context);
    assert Legal(env, opts, base, recovery);
    AppendKeeps(env, opts, base, recovery);
    Assoc(Flat(base)[PrunedFrames(env, opts, base, NextSize(env, recovery), context.receivedAt)..],
          Interposed(env, opts, base, NextSize(env, recovery), context.receivedAt),
          [RecordFrame(env, opts, base, recovery)]);
  }

  /** The files of a partial removal that no checkpoint vouches for. */
  lemma {:induction false} UnvouchedFiles(env: Env, opts: Options, log: Log, record: Record, j: nat)
    requires WellFormed(env, opts, log) && Legal(env, opts, log, record)
    requires Possible(env, opts, log, record, Removing(j)) && 0 < j < Plan(env, opts, log, record).count
    requires !CutVouched(env, log, j)
    ensures var c := Checkpointed(env, log, record.context.receivedAt, Plan(env, opts, log, record).count);
            && CrashDisk(env, opts, log, record, Removing(j)) == RenderTail(env, c[j..], [])
            && WellFormed(env, opts, c) && j < |c| && !Anchored(env, c[j].number, Flat(c[j..]))
            && |Flat(c[j..])| <= |Flat(log)| + 1
  {
    var timestamp, k := record.context.receivedAt, Plan(env, opts, log, record).count;
    CheckpointHasRoom(env, opts, log, record, k);
    CheckpointedKeeps(env, opts, log, timestamp, k);
    CutFlat(env, log, timestamp, k, j);
    CutAnchoredExactly(env, opts, log, timestamp, k, j);
  }

  /** The segments from j on of a well-formed log: numbered files whose chain holds. */
  lemma {:induction false} SegmentsFrom(env: Env, opts: Options, c: Log, j: nat)
    requires WellFormed(env, opts, c) && 0 < j < |c|
    ensures var l := c[j..];
            && Chain(env, opts, l[0].number, Flat(l)) && l[0].number == c[j].number
            && Contiguous(FileNumbers(RenderTail(env, l, [])))
  {
    var l := c[j..];
    var first := l[0].number;
    FlatSplit(c, j);
    PackedNumber(c, j);
    Seam(Flat(c[..j]), Flat(l));
    ChainSuffix(env, opts, c[0].number, Flat(c), |Flat(c[..j])|, first);
    assert Packed(l);
    RenderContiguous(env, l, []);
  }

  lemma {:induction false} RemovalPossible(env: Env, opts: Options, log: Log, record: Record, j: nat)
    requires WellFormed(env, opts, log) && Legal(env, opts, log, record)
    requires Plan(env, opts, log, record).Prune? && j <= Plan(env, opts, log, record).count
    ensures Possible(env, opts, log, record, Removing(j))
  {
    NeverRefused(env, opts, log, record);
  }
}
