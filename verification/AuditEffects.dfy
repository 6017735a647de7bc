/**
 What an append leaves behind when one of its file operations fails. The functions say,
 step by step, which files are there and what is reported; `EffectMatches` shows that
 every fault stops the append at one of the crash points, or not at all.
 */
module AuditEffects {
  import opened Bytes
  import opened AuditTypes
  import opened AuditFrames
  import opened AuditLog
  import opened AuditScan
  import opened AuditAppend
  import opened AuditCrash

  /** The file operation of an append that fails, if any; a write may stop after n bytes. */
  datatype Fault =
    | NoFault
    | RotateSync | RotateCreate | RotateDirectorySync
    | CheckpointWrite(n: nat) | CheckpointSync
    | RetainDirectorySync | RemoveFile(j: nat) | RemoveDirectorySync
    | RecordWrite(n: nat) | RecordSync

  datatype WriteFault = Lands | Stops(n: nat) | Unsynced

  /** What a step leaves on disk, and the log it goes on with or the error it reports. */
  datatype Effect = Effect(disk: Disk, result: Result<Log, Code>)

  function CheckpointFault(fault: Fault): (w: WriteFault)
  {
    match fault
    case CheckpointWrite(n) => Stops(n)
    case CheckpointSync => Unsynced
    case _ => Lands
  }

  function RecordFault(fault: Fault): (w: WriteFault)
  {
    match fault
    case RecordWrite(n) => Stops(n)
    case RecordSync => Unsynced
    case _ => Lands
  }

  /** `append_encoded` */
  function WriteEffect(env: Env, log: Log, payload: seq<Byte>, w: WriteFault): (e: Effect)
    requires log != []
    ensures e.result.Ok? ==> |e.result.value| == |log|
  {
    var f := NextOf(env, log, payload);
    if NextSequence(Flat(log)) >= U64_SPAN then Effect(Render(env, log), Err(SequenceInvalid))
    else
      match w
      case Stops(n) =>
        if n < |FrameBytes(env, f)| then Effect(RenderTail(env, log, FrameBytes(env, f)[..n]), Err(AppendFailed))
        else Effect(Render(env, WithFrame(log, f)), Ok(WithFrame(log, f)))
      case Unsynced => Effect(Render(env, WithFrame(log, f)), Err(SyncFailed))
      case Lands => Effect(Render(env, WithFrame(log, f)), Ok(WithFrame(log, f)))
  }

  /** `rotate_segment` */
  function RotateEffect(env: Env, log: Log, fault: Fault): (e: Effect)
    requires log != []
    ensures e.result.Ok? ==> e.result.value != []
  {
    if fault == RotateSync then Effect(Render(env, log), Err(SyncFailed))
    else if log[|log| - 1].number + 1 >= U64_SPAN then Effect(Render(env, log), Err(CapacityReached))
    else if fault == RotateCreate then Effect(Render(env, log), Err(Unavailable))
    else if fault == RotateDirectorySync then Effect(Render(env, Rotated(log)), Err(SyncFailed))
    else Effect(Render(env, Rotated(log)), Ok(Rotated(log)))
  }

  /** The end of `retain_for`: the k oldest segment files go. */
  function RemoveEffect(env: Env, log: Log, k: nat, fault: Fault): (e: Effect)
    requires k < |log|
    ensures e.result.Ok? ==> e.result.value != []
  {
    if fault == RetainDirectorySync then Effect(Render(env, log), Err(SyncFailed))
    else if fault.RemoveFile? && fault.j < k then Effect(Render(env, log[fault.j..]), Err(Unavailable))
    else if fault == RemoveDirectorySync then Effect(Render(env, log[k..]), Err(SyncFailed))
    else Effect(Render(env, log[k..]), Ok(log[k..]))
  }

  /** The second half of `retain_for`. */
  function CheckpointThenRemove(env: Env, log: Log, payload: seq<Byte>, k: nat, fault: Fault): (e: Effect)
    requires k < |log|
    ensures e.result.Ok? ==> e.result.value != []
  {
    var written := WriteEffect(env, log, payload, CheckpointFault(fault));
    if written.result.Err? then written else RemoveEffect(env, written.result.value, k, fault)
  }

  /** `retain_for`, on the rotated log. */
  function RetainEffect(env: Env, opts: Options, log: Log, next: nat, timestamp: nat, fault: Fault): (e: Effect)
    requires log != []
    ensures e.result.Ok? ==> e.result.value != []
  {
    match FindRemoval(env, opts, log, next, timestamp, 1)
    case None => Effect(Render(env, log), Err(CapacityReached))
    case Some(k) =>
      var payload := CheckpointPayload(env, log, timestamp, k);
      if FrameSize(payload) + next > opts.maxTotal || FrameSize(payload) > opts.maxSegmentBytes then
        Effect(Render(env, log), Err(CapacityReached))
      else
        CheckpointThenRemove(env, log, payload, k, fault)
  }

  function RetainIfEffect(env: Env, opts: Options, log: Log, next: nat, timestamp: nat, fault: Fault): (e: Effect)
    requires log != []
    ensures e.result.Ok? ==> e.result.value != []
  {
    if RetentionRequired(env, opts, log, next) then RetainEffect(env, opts, log, next, timestamp, fault)
    else Effect(Render(env, log), Ok(log))
  }

  /** `prepare_storage` */
  function PrepareEffect(env: Env, opts: Options, log: Log, next: nat, timestamp: nat, fault: Fault): (e: Effect)
    requires log != []
    ensures e.result.Ok? ==> e.result.value != []
  {
    if CurrentBytes(env, log) == 0 || CurrentBytes(env, log) + next <= opts.maxSegmentBytes then
      Effect(Render(env, log), Ok(log))
    else
      var rotated := RotateEffect(env, log, fault);
      if rotated.result.Err? then rotated
      else RetainIfEffect(env, opts, rotated.result.value, next, timestamp, fault)
  }

  /** `append`, on a writable ledger. */
  function AppendEffect(env: Env, opts: Options, log: Log, record: Record, fault: Fault): (e: Effect)
    requires log != []
  {
    match Admit(env, opts, record)
    case Err(code) => Effect(Render(env, log), Err(code))
    case Ok(payload) =>
      var prepared := PrepareEffect(env, opts, log, FrameSize(payload), record.context.receivedAt, fault);
      if prepared.result.Err? then prepared
      else WriteEffect(env, prepared.result.value, payload, RecordFault(fault))
  }

  // ----- faults and crash points -----

  predicate RotationFault(fault: Fault) {
    fault.RotateSync? || fault.RotateCreate? || fault.RotateDirectorySync?
  }

  /** What retention does once it has decided to remove k segments. */
  function PruneEffect(env: Env, log: Log, timestamp: nat, k: nat, fault: Fault): (e: Effect)
    requires log != [] && 0 < k <= |log|
    ensures e.result.Ok? ==> e.result.value != []
  {
    CheckpointThenRemove(env, Rotated(log), CheckpointPayload(env, Rotated(log), timestamp, k), k, fault)
  }

  /** The crash point a fault of retention stands for; the checkpoint frame has `size` bytes. */
  function PruneSpot(size: nat, k: nat, fault: Fault): (at: Option<CrashPoint>)
    ensures at.Some? && at.value.CheckpointTorn? ==> 0 < at.value.n < size
    ensures at.Some? && at.value.Removing? ==> at.value.j <= k
  {
    match fault
    case RotateSync => Some(Untouched)
    case RotateCreate => Some(Untouched)
    case RotateDirectorySync => Some(SegmentCreated)
    case CheckpointWrite(n) =>
      if n >= size then None else if n == 0 then Some(SegmentCreated) else Some(CheckpointTorn(n))
    case CheckpointSync => Some(Removing(0))
    case RetainDirectorySync => Some(Removing(0))
    case RemoveFile(j) => if j < k then Some(Removing(j)) else None
    case RemoveDirectorySync => Some(Removing(k))
    case _ => None
  }

  /** The files at that point. */
  function PruneFiles(env: Env, log: Log, rotated: Log, checkpointed: Log, frame: seq<Byte>, at: CrashPoint): (d: Disk)
    requires log != [] && rotated != []
    requires at.CheckpointTorn? ==> at.n <= |frame|
    requires at.Removing? ==> at.j < |checkpointed|
  {
    match at
    case SegmentCreated => RenderTail(env, rotated, [])
    case CheckpointTorn(n) => RenderTail(env, rotated, frame[..n])
    case Removing(j) => RenderTail(env, checkpointed[j..], [])
    case _ => RenderTail(env, log, [])
  }

  /** The checkpoint is written whole, or the write stops. */
  function CheckpointEffect(env: Env, rotated: Log, checkpointed: Log, frame: seq<Byte>, w: WriteFault): (e: Effect)
    requires rotated != []
  {
    if w.Stops? && w.n < |frame| then Effect(RenderTail(env, rotated, frame[..w.n]), Err(AppendFailed))
    else if w == Unsynced then Effect(Render(env, checkpointed), Err(SyncFailed))
    else Effect(Render(env, checkpointed), Ok(checkpointed))
  }

  lemma {:induction false} CheckpointWritten(env: Env, log: Log, timestamp: nat, k: nat, w: WriteFault)
    requires log != [] && 0 < k <= |log| && NextSequence(Flat(log)) < U64_SPAN
    ensures WriteEffect(env, Rotated(log), CheckpointPayload(env, Rotated(log), timestamp, k), w)
         == CheckpointEffect(env, Rotated(log), Checkpointed(env, log, timestamp, k),
                             FrameBytes(env, CheckpointFrame(env, log, timestamp, k)), w)
  {
    RotatedFlat(log);
  }

  /** Retention went through, or it stopped with the files of its crash point. */
  lemma {:induction false} PruneEnds(env: Env, log: Log, rotated: Log, c: Log, frame: seq<Byte>, k: nat, fault: Fault)
    requires log != [] && rotated != [] && k < |c| && frame != [] && !RotationFault(fault)
    ensures var written := CheckpointEffect(env, rotated, c, frame, CheckpointFault(fault));
            var e := if written.result.Err? then written else RemoveEffect(env, c, k, fault);
            match PruneSpot(|frame|, k, fault)
            case Some(at) => Failed(e) && e.disk == PruneFiles(env, log, rotated, c, frame, at)
            case None => e == Effect(Render(env, c[k..]), Ok(c[k..]))
  {
    if fault.CheckpointWrite? || fault.CheckpointSync? {
      PruneWrites(env, log, rotated, c, frame, k, fault);
    } else {
      PruneRemoves(env, log, rotated, c, frame, k, fault);
    }
  }

  /** The checkpoint's own write stops. */
  lemma {:induction false} PruneWrites(env: Env, log: Log, rotated: Log, c: Log, frame: seq<Byte>, k: nat, fault: Fault)
    requires log != [] && rotated != [] && k < |c| && frame != [] && (fault.CheckpointWrite? || fault.CheckpointSync?)
    ensures var written := CheckpointEffect(env, rotated, c, frame, CheckpointFault(fault));
            match PruneSpot(|frame|, k, fault)
            case Some(at) => Failed(written) && written.disk == PruneFiles(env, log, rotated, c, frame, at)
            case None =>
              && written == Effect(Render(env, c), Ok(c))
              && RemoveEffect(env, c, k, fault) == Effect(Render(env, c[k..]), Ok(c[k..]))
  {
    RenderTailNone(env, c);
    assert c[0..] == c;
    NoneTaken(frame);
  }

  /** The checkpoint is whole; a removal may stop. */
  lemma {:induction false} PruneRemoves(env: Env, log: Log, rotated: Log, c: Log, frame: seq<Byte>, k: nat,
                                        fault: Fault)
    requires log != [] && rotated != [] && k < |c| && !RotationFault(fault) && !fault.CheckpointWrite?
          && !fault.CheckpointSync?
    ensures CheckpointEffect(env, rotated, c, frame, CheckpointFault(fault)) == Effect(Render(env, c), Ok(c))
    ensures var e := RemoveEffect(env, c, k, fault);
            match PruneSpot(|frame|, k, fault)
            case Some(at) => Failed(e) && e.disk == PruneFiles(env, log, rotated, c, frame, at)
            case None => e == Effect(Render(env, c[k..]), Ok(c[k..]))
  {
    match PruneSpot(|frame|, k, fault)
    case None =>
    case Some(at) =>
      RenderTailNone(env, c[at.j..]);
      assert c[0..] == c;
  }

  /** The crash point a fault of the record's own write stands for; `idle` is the point just before it. */
  function RecordSpot(size: nat, idle: CrashPoint, fault: Fault): (at: Option<CrashPoint>)
  {
    match fault
    case RecordWrite(n) => if n >= size then None else if n == 0 then Some(idle) else Some(RecordTorn(n))
    case RecordSync => Some(RecordWritten)
    case _ => None
  }

  function RotateSpot(fault: Fault): (at: Option<CrashPoint>)
  {
    match fault
    case RotateSync => Some(Untouched)
    case RotateCreate => Some(Untouched)
    case RotateDirectorySync => Some(SegmentCreated)
    case _ => None
  }

  function OrElse(a: Option<CrashPoint>, b: Option<CrashPoint>): (c: Option<CrashPoint>)
  {
    if a.Some? then a else b
  }

  /** Where a fault stops the append of this record; nowhere when the append does not get to that operation. */
  function StopsAt(env: Env, opts: Options, log: Log, record: Record, fault: Fault): (at: Option<CrashPoint>)
    requires log != [] && Prepared(env, opts, log, NextSize(env, record), record.context.receivedAt).Ok?
  {
    var size := |FrameBytes(env, RecordFrame(env, opts, log, record))|;
    match Plan(env, opts, log, record)
    case Prune(k) =>
      OrElse(PruneSpot(|FrameBytes(env, CheckpointFrame(env, log, record.context.receivedAt, k))|, k, fault),
             RecordSpot(size, Removing(k), fault))
    case Rotate => OrElse(RotateSpot(fault), RecordSpot(size, SegmentCreated, fault))
    case _ => RecordSpot(size, Untouched, fault)
  }

  /** A file operation failed. */
  predicate Failed(e: Effect) {
    e.result == Err(AppendFailed) || e.result == Err(SyncFailed) || e.result == Err(Unavailable)
  }

  /** Stopped at this point: an error, and the files of the crash point. */
  predicate StoppedAt(env: Env, opts: Options, log: Log, record: Record, at: CrashPoint, e: Effect)
    requires log != []
  {
    && Possible(env, opts, log, record, at)
    && Failed(e) && e.disk == CrashDisk(env, opts, log, record, at)
  }

  lemma {:induction false} PrunePossible(env: Env, opts: Options, log: Log, record: Record, k: nat, fault: Fault,
                                         at: CrashPoint)
    requires log != [] && Plan(env, opts, log, record) == Prune(k)
    requires Prepared(env, opts, log, NextSize(env, record), record.context.receivedAt).Ok?
    requires PruneSpot(|FrameBytes(env, CheckpointFrame(env, log, record.context.receivedAt, k))|, k, fault) == Some(at)
    ensures Possible(env, opts, log, record, at)
    ensures at.Untouched? || at.SegmentCreated? || at.CheckpointTorn? || at.Removing?
  {
  }

  /** The points of retention, with their files. */
  lemma {:induction false} PruneDisk(env: Env, opts: Options, log: Log, record: Record, k: nat, at: CrashPoint)
    requires log != [] && Plan(env, opts, log, record) == Prune(k) && Possible(env, opts, log, record, at)
    requires at.Untouched? || at.SegmentCreated? || at.CheckpointTorn? || at.Removing?
    ensures CrashDisk(env, opts, log, record, at)
         == PruneFiles(env, log, Rotated(log), Checkpointed(env, log, record.context.receivedAt, k),
                       FrameBytes(env, CheckpointFrame(env, log, record.context.receivedAt, k)), at)
  {
  }

  lemma {:induction false} RetainIsPrune(env: Env, opts: Options, log: Log, record: Record, fault: Fault)
    requires log != [] && Plan(env, opts, log, record).Prune?
    ensures RetainEffect(env, opts, Rotated(log), NextSize(env, record), record.context.receivedAt, fault)
         == PruneEffect(env, log, record.context.receivedAt, Plan(env, opts, log, record).count, fault)
  {
  }

  /** The write of one frame, by its fault. */
  lemma {:induction false} WriteOutcome(env: Env, p: Log, payload: seq<Byte>, fault: Fault)
    requires p != [] && NextSequence(Flat(p)) < U64_SPAN
    ensures var f := NextOf(env, p, payload);
            var e, l := WriteEffect(env, p, payload, RecordFault(fault)), WithFrame(p, f);
            match fault
            case RecordWrite(n) =>
              if n < |FrameBytes(env, f)| then Failed(e) && e.disk == RenderTail(env, p, FrameBytes(env, f)[..n])
              else e == Effect(Render(env, l), Ok(l))
            case RecordSync => Failed(e) && e.disk == RenderTail(env, l, [])
            case _ => e == Effect(Render(env, l), Ok(l))
  {
    RenderTailNone(env, WithFrame(p, NextOf(env, p, payload)));
  }

  /** The points of the record's own write, with their files. */
  lemma {:induction false} RecordDisk(env: Env, opts: Options, log: Log, record: Record, n: nat)
    requires log != [] && Prepared(env, opts, log, NextSize(env, record), record.context.receivedAt).Ok?
    ensures var p, f := Prepared(env, opts, log, NextSize(env, record), record.context.receivedAt).value,
                        RecordFrame(env, opts, log, record);
            && f == NextOf(env, p, env.encode(record, None))
            && Possible(env, opts, log, record, RecordWritten)
            && CrashDisk(env, opts, log, record, RecordWritten) == RenderTail(env, WithFrame(p, f), [])
            && (0 < n < |FrameBytes(env, f)| ==>
                  && Possible(env, opts, log, record, RecordTorn(n))
                  && CrashDisk(env, opts, log, record, RecordTorn(n)) == RenderTail(env, p, FrameBytes(env, f)[..n]))
  {
  }

  /** The record's own write, on the prepared log p; `idle` is the point at which p is on disk. */
  lemma {:induction false} RecordEnds(env: Env, opts: Options, log: Log, record: Record, idle: CrashPoint, fault: Fault)
    requires log != [] && Prepared(env, opts, log, NextSize(env, record), record.context.receivedAt).Ok?
    requires NextSequence(Flat(Prepared(env, opts, log, NextSize(env, record),
                                        record.context.receivedAt).value)) < U64_SPAN
    requires Possible(env, opts, log, record, idle)
    requires CrashDisk(env, opts, log, record, idle)
          == RenderTail(env, Prepared(env, opts, log, NextSize(env, record), record.context.receivedAt).value, [])
    ensures var p := Prepared(env, opts, log, NextSize(env, record), record.context.receivedAt).value;
            var e := WriteEffect(env, p, env.encode(record, None), RecordFault(fault));
            match RecordSpot(|FrameBytes(env, RecordFrame(env, opts, log, record))|, idle, fault)
            case Some(at) => StoppedAt(env, opts, log, record, at, e)
            case None => var l := WithFrame(p, RecordFrame(env, opts, log, record)); e == Effect(Render(env, l), Ok(l))
  {
    var p := Prepared(env, opts, log, NextSize(env, record), record.context.receivedAt).value;
    var size := |FrameBytes(env, RecordFrame(env, opts, log, record))|;
    match RecordSpot(size, idle, fault)
    case None =>
      WriteOutcome(env, p, env.encode(record, None), fault);
    case Some(_) =>
      if fault == RecordWrite(0) {
        RecordIdle(env, opts, log, record, idle);
      } else {
        RecordStops(env, opts, log, record, fault);
      }
  }

  /** Nothing of the frame was written. */
  lemma {:induction false} RecordIdle(env: Env, opts: Options, log: Log, record: Record, idle: CrashPoint)
    requires log != [] && Prepared(env, opts, log, NextSize(env, record), record.context.receivedAt).Ok?
    requires NextSequence(Flat(Prepared(env, opts, log, NextSize(env, record),
                                        record.context.receivedAt).value)) < U64_SPAN
    requires Possible(env, opts, log, record, idle)
    requires CrashDisk(env, opts, log, record, idle)
          == RenderTail(env, Prepared(env, opts, log, NextSize(env, record), record.context.receivedAt).value, [])
    ensures var p := Prepared(env, opts, log, NextSize(env, record), record.context.receivedAt).value;
            StoppedAt(env, opts, log, record, idle, WriteEffect(env, p, env.encode(record, None), Stops(0)))
  {
    var p := Prepared(env, opts, log, NextSize(env, record), record.context.receivedAt).value;
    WriteOutcome(env, p, env.encode(record, None), RecordWrite(0));
    NoneTaken(FrameBytes(env, RecordFrame(env, opts, log, record)));
  }

  /** Some of it was, or all of it without a sync. */
  lemma {:induction false} RecordStops(env: Env, opts: Options, log: Log, record: Record, fault: Fault)
    requires log != [] && Prepared(env, opts, log, NextSize(env, record), record.context.receivedAt).Ok?
    requires NextSequence(Flat(Prepared(env, opts, log, NextSize(env, record),
                                        record.context.receivedAt).value)) < U64_SPAN
    requires fault == RecordSync
          || (fault.RecordWrite? && 0 < fault.n < |FrameBytes(env, RecordFrame(env, opts, log, record))|)
    ensures var p := Prepared(env, opts, log, NextSize(env, record), record.context.receivedAt).value;
            StoppedAt(env, opts, log, record, if fault == RecordSync then RecordWritten else RecordTorn(fault.n),
                      WriteEffect(env, p, env.encode(record, None), RecordFault(fault)))
  {
    var p := Prepared(env, opts, log, NextSize(env, record), record.context.receivedAt).value;
    WriteOutcome(env, p, env.encode(record, None), fault);
    RecordDisk(env, opts, log, record, if fault.RecordWrite? then fault.n else 0);
  }

  lemma NoneTaken<T>(s: seq<T>)
    ensures s[..0] == []
  {
  }

  /** Storage preparation went through, or it stopped at this point. */
  predicate PrepareEnds(env: Env, opts: Options, log: Log, record: Record, spot: Option<CrashPoint>, e: Effect)
    requires log != [] && Prepared(env, opts, log, NextSize(env, record), record.context.receivedAt).Ok?
  {
    match spot
    case Some(at) => StoppedAt(env, opts, log, record, at, e)
    case None =>
      var p := Prepared(env, opts, log, NextSize(env, record), record.context.receivedAt).value;
      e == Effect(Render(env, p), Ok(p))
  }

  lemma {:induction false} PreparedByPruning(env: Env, opts: Options, log: Log, record: Record, k: nat)
    requires log != [] && Plan(env, opts, log, record) == Prune(k)
    requires Prepared(env, opts, log, NextSize(env, record), record.context.receivedAt).Ok?
    ensures NextSequence(Flat(log)) < U64_SPAN
    ensures Prepared(env, opts, log, NextSize(env, record), record.context.receivedAt).value
         == Checkpointed(env, log, record.context.receivedAt, k)[k..]
  {
  }

  lemma {:induction false} PruneOutcome(env: Env, log: Log, timestamp: nat, k: nat, fault: Fault)
    requires log != [] && 0 < k <= |log| && NextSequence(Flat(log)) < U64_SPAN && !RotationFault(fault)
    ensures var c, frame := Checkpointed(env, log, timestamp, k),
              FrameBytes(env, CheckpointFrame(env, log, timestamp, k));
            var e := PruneEffect(env, log, timestamp, k, fault);
            match PruneSpot(|frame|, k, fault)
            case Some(at) => Failed(e) && e.disk == PruneFiles(env, log, Rotated(log), c, frame, at)
            case None => e == Effect(Render(env, c[k..]), Ok(c[k..]))
  {
    CheckpointWritten(env, log, timestamp, k, CheckpointFault(fault));
    PruneEnds(env, log, Rotated(log), Checkpointed(env, log, timestamp, k),
              FrameBytes(env, CheckpointFrame(env, log, timestamp, k)), k, fault);
  }

  lemma {:induction false} PreparePrune(env: Env, opts: Options, log: Log, record: Record, k: nat, fault: Fault)
    requires log != [] && Plan(env, opts, log, record) == Prune(k) && !RotationFault(fault)
    requires log[|log| - 1].number + 1 < U64_SPAN
    requires Prepared(env, opts, log, NextSize(env, record), record.context.receivedAt).Ok?
    ensures PrepareEnds(env, opts, log, record,
                        PruneSpot(|FrameBytes(env, CheckpointFrame(env, log, record.context.receivedAt, k))|, k, fault),
                        PruneEffect(env, log, record.context.receivedAt, k, fault))
  {
    var timestamp := record.context.receivedAt;
    var c, frame := Checkpointed(env, log, timestamp, k), FrameBytes(env, CheckpointFrame(env, log, timestamp, k));
    PreparedByPruning(env, opts, log, record, k);
    PruneOutcome(env, log, timestamp, k, fault);
    match PruneSpot(|frame|, k, fault)
    case None =>
    case Some(at) =>
      PrunePossible(env, opts, log, record, k, fault, at);
      PruneDisk(env, opts, log, record, k, at);
  }

  lemma {:induction false} PrepareRotation(env: Env, opts: Options, log: Log, record: Record, fault: Fault)
    requires log != []
          && (Plan(env, opts, log, record).Rotate? || (Plan(env, opts, log, record).Prune? && RotationFault(fault)))
    requires log[|log| - 1].number + 1 < U64_SPAN
    requires Prepared(env, opts, log, NextSize(env, record), record.context.receivedAt).Ok?
    ensures PrepareEnds(env, opts, log, record, RotateSpot(fault), RotateEffect(env, log, fault))
  {
    RenderTailNone(env, log);
    RenderTailNone(env, Rotated(log));
  }

  lemma {:induction false} RotationOutcome(env: Env, log: Log, fault: Fault)
    requires log != [] && log[|log| - 1].number + 1 < U64_SPAN
    ensures RotateEffect(env, log, fault).result == Ok(Rotated(log)) <==> !RotationFault(fault)
    ensures RotateEffect(env, log, fault).result.Err? <==> RotationFault(fault)
  {
  }

  /** What storage preparation does, by what it decides. */
  lemma {:induction false} PrepareByPlan(env: Env, opts: Options, log: Log, record: Record, fault: Fault)
    requires log != [] && log[|log| - 1].number + 1 < U64_SPAN
    ensures var e := PrepareEffect(env, opts, log, NextSize(env, record), record.context.receivedAt, fault);
            match Plan(env, opts, log, record)
            case Stay => e == Effect(Render(env, log), Ok(log))
            case Rotate => e == RotateEffect(env, log, fault)
            case Prune(k) =>
              e == if RotationFault(fault) then RotateEffect(env, log, fault)
                   else RetainEffect(env, opts, Rotated(log), NextSize(env, record), record.context.receivedAt, fault)
            case Refuse => true
  {
    RotationOutcome(env, log, fault);
  }

  /** The point at which the prepared log is on disk and nothing of the record is. */
  function IdlePoint(plan: Storage): (at: CrashPoint)
  {
    match plan
    case Prune(k) => Removing(k)
    case Rotate => SegmentCreated
    case _ => Untouched
  }

  function PrepareSpot(env: Env, log: Log, timestamp: nat, plan: Storage, fault: Fault): (at: Option<CrashPoint>)
    requires log != [] && (plan.Prune? ==> 0 < plan.count <= |log|)
  {
    match plan
    case Prune(k) => PruneSpot(|FrameBytes(env, CheckpointFrame(env, log, timestamp, k))|, k, fault)
    case Rotate => RotateSpot(fault)
    case _ => None
  }

  lemma {:induction false} IdleDisk(env: Env, opts: Options, log: Log, record: Record)
    requires log != [] && Prepared(env, opts, log, NextSize(env, record), record.context.receivedAt).Ok?
    ensures Possible(env, opts, log, record, IdlePoint(Plan(env, opts, log, record)))
    ensures CrashDisk(env, opts, log, record, IdlePoint(Plan(env, opts, log, record)))
         == RenderTail(env, Prepared(env, opts, log, NextSize(env, record), record.context.receivedAt).value, [])
  {
  }

  lemma {:induction false} PreparationPrunes(env: Env, opts: Options, log: Log, record: Record, k: nat, fault: Fault)
    requires log != [] && log[|log| - 1].number + 1 < U64_SPAN && Plan(env, opts, log, record) == Prune(k)
    requires Prepared(env, opts, log, NextSize(env, record), record.context.receivedAt).Ok?
    ensures PrepareEnds(env, opts, log, record,
                        PruneSpot(|FrameBytes(env, CheckpointFrame(env, log, record.context.receivedAt, k))|, k, fault),
                        PrepareEffect(env, opts, log, NextSize(env, record), record.context.receivedAt, fault))
  {
    PrepareByPlan(env, opts, log, record, fault);
    if RotationFault(fault) {
      PrepareRotation(env, opts, log, record, fault);
      SameSpot(|FrameBytes(env, CheckpointFrame(env, log, record.context.receivedAt, k))|, k, fault);
    } else {
      RetainIsPrune(env, opts, log, record, fault);
      PreparePrune(env, opts, log, record, k, fault);
    }
  }

  lemma {:induction false} SameSpot(size: nat, k: nat, fault: Fault)
    requires RotationFault(fault)
    ensures PruneSpot(size, k, fault) == RotateSpot(fault)
  {
  }

  lemma {:induction false} PreparationRotates(env: Env, opts: Options, log: Log, record: Record, fault: Fault)
    requires log != [] && log[|log| - 1].number + 1 < U64_SPAN && Plan(env, opts, log, record).Rotate?
    requires Prepared(env, opts, log, NextSize(env, record), record.context.receivedAt).Ok?
    ensures PrepareEnds(env, opts, log, record, RotateSpot(fault),
                        PrepareEffect(env, opts, log, NextSize(env, record), record.context.receivedAt, fault))
  {
    PrepareByPlan(env, opts, log, record, fault);
    PrepareRotation(env, opts, log, record, fault);
  }

  lemma {:induction false} PreparationStays(env: Env, opts: Options, log: Log, record: Record, fault: Fault)
    requires log != [] && log[|log| - 1].number + 1 < U64_SPAN && Plan(env, opts, log, record).Stay?
    requires Prepared(env, opts, log, NextSize(env, record), record.context.receivedAt).Ok?
    ensures PrepareEnds(env, opts, log, record, None,
                        PrepareEffect(env, opts, log, NextSize(env, record), record.context.receivedAt, fault))
  {
    PrepareByPlan(env, opts, log, record, fault);
  }

  lemma {:induction false} PreparationEnds(env: Env, opts: Options, log: Log, record: Record, fault: Fault)
    requires log != [] && log[|log| - 1].number + 1 < U64_SPAN
    requires Prepared(env, opts, log, NextSize(env, record), record.context.receivedAt).Ok?
    ensures PrepareEnds(env, opts, log, record,
                        PrepareSpot(env, log, record.context.receivedAt, Plan(env, opts, log, record), fault),
                        PrepareEffect(env, opts, log, NextSize(env, record), record.context.receivedAt, fault))
  {
    match Plan(env, opts, log, record)
    case Prune(k) => PreparationPrunes(env, opts, log, record, k, fault);
    case Rotate => PreparationRotates(env, opts, log, record, fault);
    case Stay => PreparationStays(env, opts, log, record, fault);
  }

  /**
   An append with any fault: it stops at the crash point the fault stands for, or it is
   the append on the log and its files are those of the new log.
   */
  lemma {:induction false} EffectMatches(env: Env, opts: Options, log: Log, record: Record, fault: Fault)
    requires WellFormed(env, opts, log) && Legal(env, opts, log, record) && Admit(env, opts, record).Ok?
    ensures Prepared(env, opts, log, NextSize(env, record), record.context.receivedAt).Ok?
    ensures var e, at := AppendEffect(env, opts, log, record, fault), StopsAt(env, opts, log, record, fault);
            match at
            case Some(point) => StoppedAt(env, opts, log, record, point, e)
            case None =>
              && e.result.Ok? && Append(env, opts, log, record) == e.result
              && e.disk == Render(env, e.result.value)
  {
    PreparedSequence(env, opts, log, record);
    var plan, timestamp := Plan(env, opts, log, record), record.context.receivedAt;
    StopsInOrder(env, opts, log, record, fault);
    AppendParts(env, opts, log, record, fault);
    if PrepareSpot(env, log, timestamp, plan, fault).Some? {
      StopsEarly(env, opts, log, record, fault);
    } else {
      StopsLate(env, opts, log, record, fault);
    }
  }

  lemma {:induction false} StopsEarly(env: Env, opts: Options, log: Log, record: Record, fault: Fault)
    requires log != [] && log[|log| - 1].number + 1 < U64_SPAN
    requires Prepared(env, opts, log, NextSize(env, record), record.context.receivedAt).Ok?
    requires PrepareSpot(env, log, record.context.receivedAt, Plan(env, opts, log, record), fault).Some?
    ensures StoppedAt(env, opts, log, record,
                      PrepareSpot(env, log, record.context.receivedAt, Plan(env, opts, log, record), fault).value,
                      PrepareEffect(env, opts, log, NextSize(env, record), record.context.receivedAt, fault))
  {
    PreparationEnds(env, opts, log, record, fault);
  }

  lemma {:induction false} StopsLate(env: Env, opts: Options, log: Log, record: Record, fault: Fault)
    requires log != [] && log[|log| - 1].number + 1 < U64_SPAN
    requires Prepared(env, opts, log, NextSize(env, record), record.context.receivedAt).Ok?
    requires NextSequence(Flat(Prepared(env, opts, log, NextSize(env, record),
                                        record.context.receivedAt).value)) < U64_SPAN
    requires PrepareSpot(env, log, record.context.receivedAt, Plan(env, opts, log, record), fault).None?
    ensures var before := PrepareEffect(env, opts, log, NextSize(env, record), record.context.receivedAt, fault);
            && before.result.Ok?
            && var e := WriteEffect(env, before.result.value, env.encode(record, None), RecordFault(fault));
            && var l := WithFrame(Prepared(env, opts, log, NextSize(env, record), record.context.receivedAt).value,
                                  RecordFrame(env, opts, log, record));
            && match RecordSpot(|FrameBytes(env, RecordFrame(env, opts, log, record))|,
                                IdlePoint(Plan(env, opts, log, record)), fault)
               case Some(at) => StoppedAt(env, opts, log, record, at, e)
               case None => e == Effect(Render(env, l), Ok(l))
  {
    PreparationEnds(env, opts, log, record, fault);
    IdleDisk(env, opts, log, record);
    RecordEnds(env, opts, log, record, IdlePoint(Plan(env, opts, log, record)), fault);
  }

  lemma {:induction false} AppendParts(env: Env, opts: Options, log: Log, record: Record, fault: Fault)
    requires log != [] && Admit(env, opts, record).Ok?
    requires Prepared(env, opts, log, NextSize(env, record), record.context.receivedAt).Ok?
    requires NextSequence(Flat(Prepared(env, opts, log, NextSize(env, record),
                                        record.context.receivedAt).value)) < U64_SPAN
    ensures var before := PrepareEffect(env, opts, log, NextSize(env, record), record.context.receivedAt, fault);
            AppendEffect(env, opts, log, record, fault)
            == if before.result.Err? then before
               else WriteEffect(env, before.result.value, env.encode(record, None), RecordFault(fault))
    ensures Append(env, opts, log, record)
         == Ok(WithFrame(Prepared(env, opts, log, NextSize(env, record), record.context.receivedAt).value,
                         RecordFrame(env, opts, log, record)))
  {
  }

  lemma {:induction false} StopsInOrder(env: Env, opts: Options, log: Log, record: Record, fault: Fault)
    requires log != [] && Prepared(env, opts, log, NextSize(env, record), record.context.receivedAt).Ok?
    ensures var plan := Plan(env, opts, log, record);
            var before := PrepareSpot(env, log, record.context.receivedAt, plan, fault);
            var during := RecordSpot(|FrameBytes(env, RecordFrame(env, opts, log, record))|, IdlePoint(plan), fault);
            && StopsAt(env, opts, log, record, fault) == OrElse(before, during)
            && (before.Some? ==> RecordFault(fault) == Lands)
  {
  }
}
