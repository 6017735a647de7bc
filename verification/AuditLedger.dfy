/**
 The ledger as the program runs it: an object whose vectors, counters and files are
 updated step by step, where any file operation may fail. Its methods are proved
 against the log: memory always mirrors the files, a successful append is `Append`, and
 a failed one leaves the files of its crash point and degrades the writer for good.
 */
module AuditLedger {
  import opened Bytes
  import opened AuditTypes
  import opened AuditFrames
  import opened AuditLog
  import opened AuditScan
  import opened AuditAppend
  import opened AuditCrash
  import opened AuditEffects
  import opened AuditReader
  import opened AuditMemory
  import opened AuditStates

  /** Bytes written at the end of the current segment's file. */
  function Extended(disk: Disk, bytes: seq<Byte>): (d: Disk)
    requires disk != []
    ensures |d| == |disk|
  {
    var m := |disk| - 1;
    disk[..m] + [File(disk[m].number, disk[m].bytes + bytes)]
  }

  lemma {:induction false} ExtendedRender(env: Env, log: Log, bytes: seq<Byte>)
    requires log != []
    ensures Extended(Render(env, log), bytes) == RenderTail(env, log, bytes)
  {
    var m := |log| - 1;
    assert Render(env, log)[..m] == Render(env, log[..m]);
  }

  lemma {:induction false} RenderWithFrame(env: Env, log: Log, f: Frame)
    requires log != []
    ensures Extended(Render(env, log), FrameBytes(env, f)) == Render(env, WithFrame(log, f))
  {
    var m := |log| - 1;
    FileBytesSnoc(env, log[m].frames, f);
    ExtendedRender(env, log, FrameBytes(env, f));
    RenderSnoc(env, log[..m], Seg(log[m].number, log[m].frames + [f]));
  }

  /** Memory mirrors the log, and the files are its files. */
  predicate Agree(env: Env, log: Log, m: Memory, disk: Disk) {
    Mirrors(env, log, m) && Positive(log) && disk == Render(env, log)
  }

  /** What `append_encoded` does, in terms of memory and files. */
  function WriteCases(env: Env, log: Log, m: Memory, disk: Disk, payload: seq<Byte>, w: WriteFault): (e: Effect)
    requires log != [] && disk != []
  {
    var frame := Frame(m.head.sequence + 1, m.lastHash, payload);
    var bytes := FrameBytes(env, frame);
    if m.head.sequence + 1 >= U64_SPAN then Effect(disk, Err(SequenceInvalid))
    else if w.Stops? && w.n < |bytes| then Effect(Extended(disk, bytes[..w.n]), Err(AppendFailed))
    else if w == Unsynced then Effect(Extended(disk, bytes), Err(SyncFailed))
    else Effect(Extended(disk, bytes), Ok(WithFrame(log, frame)))
  }

  lemma {:induction false} NextFromMemory(env: Env, log: Log, m: Memory, payload: seq<Byte>)
    requires Mirrors(env, log, m)
    ensures Frame(m.head.sequence + 1, m.lastHash, payload) == NextOf(env, log, payload)
  {
  }

  /** The three ways a write can end, on the files. */
  lemma {:induction false} WriteOnDisk(env: Env, log: Log, f: Frame, disk: Disk, n: nat)
    requires log != [] && disk == Render(env, log)
    ensures Extended(disk, FrameBytes(env, f)) == Render(env, WithFrame(log, f))
    ensures n < |FrameBytes(env, f)| ==>
              Extended(disk, FrameBytes(env, f)[..n]) == RenderTail(env, log, FrameBytes(env, f)[..n])
  {
    RenderWithFrame(env, log, f);
    if n < |FrameBytes(env, f)| {
      ExtendedRender(env, log, FrameBytes(env, f)[..n]);
    }
  }

  lemma {:induction false} WriteByCases(env: Env, log: Log, m: Memory, disk: Disk, payload: seq<Byte>, w: WriteFault)
    requires log != [] && disk == Render(env, log)
    requires Frame(m.head.sequence + 1, m.lastHash, payload) == NextOf(env, log, payload)
    ensures WriteEffect(env, log, payload, w) == WriteCases(env, log, m, disk, payload, w)
  {
    WriteOnDisk(env, log, NextOf(env, log, payload), disk, if w.Stops? then w.n else 0);
  }

  /** A frame that was written and synced leaves memory and files agreeing on the longer log. */
  lemma {:induction false} WriteAgrees(env: Env, log: Log, m: Memory, disk: Disk, payload: seq<Byte>, record: Record,
                                       w: WriteFault)
    requires Agree(env, log, m, disk)
    requires env.decode(payload).Ok? && env.decode(payload).value.0 == record
    ensures m.segments != [] && disk != []
    ensures WriteEffect(env, log, payload, w) == WriteCases(env, log, m, disk, payload, w)
    ensures match WriteEffect(env, log, payload, w)
            case Effect(d, Ok(l)) =>
              Agree(env, l, MemoryWith(env, m, Frame(m.head.sequence + 1, m.lastHash, payload), record), d)
            case Effect(_, Err(_)) => true
  {
    NextFromMemory(env, log, m, payload);
    WriteByCases(env, log, m, disk, payload, w);
    var f := NextOf(env, log, payload);
    FrameMirrored(env, log, m, f, record);
    PositiveSnoc(log, f);
  }

  lemma {:induction false} RenderRotated(env: Env, log: Log, number: nat)
    requires log != [] && number == log[|log| - 1].number
    ensures Render(env, Rotated(log)) == Render(env, log) + [File(number + 1, [])]
  {
    RenderSnoc(env, log, Seg(number + 1, []));
    assert FileOf(env, Seg(number + 1, [])) == File(number + 1, []);
  }

  lemma {:induction false} PositiveRotated(log: Log)
    requires log != [] && Positive(log)
    ensures Positive(Rotated(log))
  {
    RotatedFlat(log);
  }

  lemma {:induction false} RotationAgrees(env: Env, log: Log, m: Memory, disk: Disk, l: Log, held: Memory, files: Disk)
    requires Agree(env, log, m, disk) && log[|log| - 1].frames != []
    requires l == Rotated(log) && held == MemoryRotated(m) && files == disk + [File(m.currentSegment + 1, [])]
    ensures Agree(env, l, held, files)
  {
    RotationMirrored(env, log, m, l, held);
    RotatedFiles(env, log, m.currentSegment, l, files);
  }

  lemma {:induction false} RotatedFiles(env: Env, log: Log, number: nat, l: Log, files: Disk)
    requires log != [] && Positive(log) && number == log[|log| - 1].number
    requires l == Rotated(log) && files == Render(env, log) + [File(number + 1, [])]
    ensures Positive(l) && files == Render(env, l)
  {
    PositiveRotated(log);
    RenderRotated(env, log, number);
  }

  lemma {:induction false} RotateResult(env: Env, log: Log, fault: Fault)
    requires log != []
    ensures RotateEffect(env, log, fault).result.Ok? ==> RotateEffect(env, log, fault).result.value == Rotated(log)
  {
  }

  /** `prepare_storage` by its branches. */
  lemma {:induction false} PrepareCases(env: Env, opts: Options, log: Log, next: nat, timestamp: nat, fault: Fault)
    requires log != []
    ensures var e, rotated := PrepareEffect(env, opts, log, next, timestamp, fault), RotateEffect(env, log, fault);
            if CurrentBytes(env, log) == 0 || CurrentBytes(env, log) + next <= opts.maxSegmentBytes then
              e == Effect(Render(env, log), Ok(log))
            else if rotated.result.Err? then e == rotated
            else
              && rotated.result == Ok(Rotated(log))
              && e == RetainIfEffect(env, opts, Rotated(log), next, timestamp, fault)
  {
    RotateResult(env, log, fault);
  }

  /** The second half of `retain_for` by its branches. */
  lemma {:induction false} PruneCases(env: Env, log: Log, payload: seq<Byte>, k: nat, fault: Fault, c: Log)
    requires Packed(log) && 0 < k < |log| && c == WithFrame(log, NextOf(env, log, payload))
    ensures Packed(c) && |c| == |log| && c[|c| - 1].frames != []
    ensures var e, w := CheckpointThenRemove(env, log, payload, k, fault),
              WriteEffect(env, log, payload, CheckpointFault(fault));
            if w.result.Err? then e == w else w.result == Ok(c) && e == RemoveEffect(env, c, k, fault)
  {
    PackedWithFrame(log, NextOf(env, log, payload));
  }

  /** `retain_for` by its branches. */
  lemma {:induction false} RetainCases(env: Env, opts: Options, log: Log, next: nat, timestamp: nat, fault: Fault)
    requires log != []
    ensures var e := RetainEffect(env, opts, log, next, timestamp, fault);
            match FindRemoval(env, opts, log, next, timestamp, 1)
            case None => e == Effect(Render(env, log), Err(CapacityReached))
            case Some(k) =>
              var payload := CheckpointPayload(env, log, timestamp, k);
              e == if FrameSize(payload) + next > opts.maxTotal || FrameSize(payload) > opts.maxSegmentBytes
                   then Effect(Render(env, log), Err(CapacityReached))
                   else CheckpointThenRemove(env, log, payload, k, fault)
  {
  }

  lemma {:induction false} RemoveResult(env: Env, log: Log, k: nat, fault: Fault)
    requires k < |log|
    ensures RemoveEffect(env, log, k, fault).result.Ok? ==> RemoveEffect(env, log, k, fault).result.value == log[k..]
  {
  }

  lemma {:induction false} SumSnoc(ds: seq<Segment>, k: nat)
    requires k < |ds|
    ensures SumBytes(ds[..k + 1]) == SumBytes(ds[..k]) + ds[k].bytes
  {
    assert ds[..k + 1][..k] == ds[..k];
  }

  /** The checkpoint's metadata, from the descriptors. */
  lemma {:induction false} PrunedFromMemory(env: Env, log: Log, ds: seq<Segment>, k: nat)
    requires SegmentsMirror(env, log, ds) && 0 < k < |log|
    ensures Pruned(ds[0].first, ds[k - 1].last, ds[k - 1].terminalHash) == PrunedBy(env, log, k)
  {
    assert Describes(env, log, 0, ds[0]) && Describes(env, log, k - 1, ds[k - 1]);
    SegmentsAt(env, log, 0);
    SegmentsAt(env, log, k - 1);
  }

  lemma {:induction false} SumsFromMemory(env: Env, log: Log, ds: seq<Segment>, k: nat)
    requires SegmentsMirror(env, log, ds) && k <= |log|
    ensures SumBytes(ds) == TotalBytes(env, log) && SumBytes(ds[..k]) == TotalBytes(env, log[..k])
  {
    SumIsTotal(env, log, ds, k);
    SumIsTotal(env, log, ds, |log|);
    assert ds[..|ds|] == ds && log[..|log|] == log;
  }

  /** The search has passed over the first k counts. */
  ghost predicate Passed(env: Env, opts: Options, log: Log, next: nat, timestamp: nat, k: nat) {
    FindRemoval(env, opts, log, next, timestamp, 1) == FindRemoval(env, opts, log, next, timestamp, k + 1)
  }

  /** One more count: its payload, its test, and where the search stands after it. */
  lemma {:induction false} RemovalTest(env: Env, opts: Options, log: Log, m: Memory, next: nat, timestamp: nat, k: nat,
                                       payload: seq<Byte>, fits: bool)
    requires Mirrors(env, log, m) && 0 < k < |log|
    requires Passed(env, opts, log, next, timestamp, k - 1)
    requires payload == env.encode(CheckpointRecord(timestamp, m.currentSegment),
               Some(Pruned(m.segments[0].first, m.segments[k - 1].last, m.segments[k - 1].terminalHash)))
    requires fits <==> && |m.segments| - k <= opts.maxSegments
                       && SumBytes(m.segments) - SumBytes(m.segments[..k]) + FrameSize(payload) + next <= opts.maxTotal
    ensures fits ==> && FindRemoval(env, opts, log, next, timestamp, 1) == Some(k)
                     && payload == CheckpointPayload(env, log, timestamp, k)
    ensures !fits ==> Passed(env, opts, log, next, timestamp, k)
  {
    PrunedFromMemory(env, log, m.segments, k);
    SumsFromMemory(env, log, m.segments, k);
    assert payload == CheckpointPayload(env, log, timestamp, k);
    FindStep(env, opts, log, next, timestamp, k);
  }

  lemma {:induction false} FindStep(env: Env, opts: Options, log: Log, next: nat, timestamp: nat, k: nat)
    requires 0 < k < |log|
    ensures FindRemoval(env, opts, log, next, timestamp, k)
         == if FitsWithout(env, opts, log, next, timestamp, k) then Some(k)
            else FindRemoval(env, opts, log, next, timestamp, k + 1)
  {
  }

  lemma {:induction false} PassedAll(env: Env, opts: Options, log: Log, next: nat, timestamp: nat, k: nat)
    requires Passed(env, opts, log, next, timestamp, k) && k + 1 >= |log|
    ensures FindRemoval(env, opts, log, next, timestamp, 1) == None
  {
  }

  /** `remove_file` of a segment. */
  function Deleted(disk: Disk, number: nat): (d: Disk)
  {
    if disk == [] then [] else if disk[0].number == number then disk[1..] else [disk[0]] + Deleted(disk[1..], number)
  }

  /** Removing the oldest segment's file. */
  lemma {:induction false} DeletedFirst(env: Env, log: Log, j: nat)
    requires j < |log|
    ensures Deleted(Render(env, log[j..]), log[j].number) == Render(env, log[j + 1..])
  {
    assert Render(env, log[j..])[1..] == Render(env, log[j + 1..]);
  }

  /** The records and owners that stay when these segment numbers go. */
  lemma {:induction false} KeepStep<T>(xs: seq<T>, n: nat, i: nat)
    requires i < |xs|
    ensures (if i + 1 <= n then [] else xs[n..i + 1])
         == (if i <= n then [] else xs[n..i]) + (if i < n then [] else [xs[i]])
  {
  }

  /** The numbers of the first k segments. */
  function Numbers(ds: seq<Segment>, k: nat): (ns: seq<nat>)
    requires k <= |ds|
    ensures |ns| == k
  {
    seq(k, i requires 0 <= i < k => ds[i].number)
  }

  lemma {:induction false} NumbersAre(env: Env, log: Log, ds: seq<Segment>, k: nat)
    requires SegmentsMirror(env, log, ds) && k <= |log|
    ensures forall i :: 0 <= i < k ==> Numbers(ds, k)[i] == log[i].number
    ensures k < |log| ==> ds[k].number == log[k].number
  {
    forall i | 0 <= i < |log| ensures ds[i].number == log[i].number {
      assert Describes(env, log, i, ds[i]);
    }
  }

  /** The removed numbers own exactly the first records. */
  lemma {:induction false} RemovedOwn(env: Env, log: Log, ds: seq<Segment>, k: nat, i: nat)
    requires SegmentsMirror(env, log, ds) && Packed(log) && k <= |log| && i < |Owners(log)|
    ensures Owners(log)[i] in Numbers(ds, k) <==> i < |Flat(log[..k])|
  {
    NumbersAre(env, log, ds, k);
    OwnersSplit(log, k, i);
    var x, ns := Owners(log)[i], Numbers(ds, k);
    if x in ns {
      var h :| 0 <= h < k && ns[h] == x;
      assert log[h].number == x;
    } else {
      forall h | 0 <= h < k ensures log[h].number != x {
        assert ns[h] == log[h].number;
      }
    }
  }

  lemma {:induction false} PositiveCut(log: Log, k: nat)
    requires k <= |log| && Positive(log)
    ensures Positive(log[k..])
  {
    FlatSplit(log, k);
    var n := |Flat(log[..k])|;
    forall i | 0 <= i < |Flat(log[k..])| ensures Flat(log[k..])[i].sequence > 0 {
      assert Flat(log[k..])[i] == Flat(log)[n + i];
    }
  }

  predicate NumbersMatch(log: Log, ns: seq<nat>) {
    |ns| <= |log| && forall i :: 0 <= i < |ns| ==> ns[i] == log[i].number
  }

  /** Of the records, exactly the first n are owned by these segments. */
  predicate OwnFirst(owners: seq<nat>, ns: seq<nat>, n: nat) {
    forall i :: 0 <= i < |owners| ==> (owners[i] in ns <==> i < n)
  }

  /** Without the first k segments, memory and files still agree. */
  lemma {:induction false} CutReady(env: Env, log: Log, m: Memory, k: nat)
    requires Mirrors(env, log, m) && Positive(log) && Packed(log) && 0 < k < |log| && log[|log| - 1].frames != []
    ensures |m.segments| == |log| && |Flat(log[..k])| <= |m.records| == |m.owners|
    ensures NumbersMatch(log, Numbers(m.segments, k))
    ensures OwnFirst(m.owners, Numbers(m.segments, k), |Flat(log[..k])|)
    ensures Agree(env, log[k..], MemoryCut(m, k, |Flat(log[..k])|, Generation(m.segments[k].number)),
                  Render(env, log[k..]))
  {
    NumbersAre(env, log, m.segments, k);
    forall i | 0 <= i < |m.owners| ensures m.owners[i] in Numbers(m.segments, k) <==> i < |Flat(log[..k])| {
      RemovedOwn(env, log, m.segments, k, i);
    }
    PackedNumber(log, k);
    CutMirrored(env, log, m, k);
    PositiveCut(log, k);
  }

  /** The checkpoint for the first k segments decodes to the record it was made from. */
  lemma {:induction false} CheckpointReads(env: Env, opts: Options, log: Log, timestamp: nat, k: nat)
    requires env.Lawful() && WellFormed(env, opts, log) && 0 < k < |log|
    ensures var d := env.decode(CheckpointPayload(env, log, timestamp, k));
            d.Ok? && d.value.0 == CheckpointRecord(timestamp, log[|log| - 1].number)
  {
    PrunedRange(env, opts, log, k);
    assert Encodable(CheckpointRecord(timestamp, log[|log| - 1].number), Some(PrunedBy(env, log, k)));
  }

  lemma {:induction false} PackedWithFrame(log: Log, f: Frame)
    requires Packed(log)
    ensures Packed(WithFrame(log, f)) && WithFrame(log, f)[|log| - 1].frames != []
  {
  }

  lemma {:induction false} RetentionFromMemory(env: Env, opts: Options, log: Log, m: Memory, next: nat)
    requires Mirrors(env, log, m)
    ensures RetentionRequired(env, opts, log, next) <==>
              |m.segments| > opts.maxSegments || SumBytes(m.segments) + next > opts.maxTotal
  {
    SumsFromMemory(env, log, m.segments, |log|);
  }

  lemma {:induction false} HoldsFrames(env: Env, log: Log, m: Memory)
    requires Mirrors(env, log, m) && m.currentBytes > 0
    ensures log[|log| - 1].frames != []
  {
  }

  lemma {:induction false} RotationReady(env: Env, opts: Options, log: Log, m: Memory, disk: Disk, l: Log, held: Memory,
                                         files: Disk)
    requires Agree(env, log, m, disk) && WellFormed(env, opts, log) && m.currentBytes > 0
    requires l == Rotated(log) && held == MemoryRotated(m) && files == disk + [File(m.currentSegment + 1, [])]
    ensures log != [] && m.currentSegment == log[|log| - 1].number && disk == Render(env, log)
    ensures Agree(env, l, held, files) && WellFormed(env, opts, l)
  {
    HoldsFrames(env, log, m);
    RotatedKeeps(env, opts, log);
    RotationAgrees(env, log, m, disk, l, held, files);
  }

  /** The head stays, or its sequence goes up. */
  predicate Advances(h: Head, h': Head) {
    h' == h || h'.sequence > h.sequence
  }

  /** How an admitted append ends, in the log, the files, the writer's state and the reply. */
  predicate Ended(env: Env, opts: Options, before: Log, record: Record, fault: Fault,
                  log: Log, disk: Disk, state: IoState, r: Result<Head, Code>)
    requires before != []
  {
    && Prepared(env, opts, before, NextSize(env, record), record.context.receivedAt).Ok?
    && match StopsAt(env, opts, before, record, fault)
       case None =>
         && r.Ok? && state == PublishedHead && Append(env, opts, before, record) == Ok(log)
         && disk == Render(env, log)
       case Some(at) =>
         && r.Err? && state == Degraded
         && Possible(env, opts, before, record, at) && disk == CrashDisk(env, opts, before, record, at)
  }

  /** The effect of an append, read as its end. */
  lemma {:induction false} EffectEnds(env: Env, opts: Options, before: Log, record: Record, fault: Fault,
                                      log: Log, disk: Disk, state: IoState, r: Result<Head, Code>)
    requires WellFormed(env, opts, before) && Legal(env, opts, before, record) && Admit(env, opts, record).Ok?
    requires disk == AppendEffect(env, opts, before, record, fault).disk
    requires match AppendEffect(env, opts, before, record, fault).result
             case Ok(l) => r.Ok? && log == l && state == PublishedHead
             case Err(code) => r == Err(code) && (state == Degraded || code == SequenceInvalid)
    ensures Ended(env, opts, before, record, fault, log, disk, state, r)
    ensures r.Ok? ==> WellFormed(env, opts, log)
    ensures r.Err? ==> state == Degraded
  {
    EffectMatches(env, opts, before, record, fault);
    match StopsAt(env, opts, before, record, fault)
    case None =>
      AppendKeeps(env, opts, before, record);
    case Some(_) =>
  }

  /** An acknowledged append leaves a last segment that holds frames. */
  lemma {:induction false} AppendedReloads(env: Env, opts: Options, before: Log, record: Record, log: Log)
    requires WellFormed(env, opts, before) && Legal(env, opts, before, record) && Admit(env, opts, record).Ok?
    requires AuditAppend.Append(env, opts, before, record) == Ok(log)
    ensures WellFormed(env, opts, log) && log[|log| - 1].frames != []
  {
    AppendKeeps(env, opts, before, record);
  }

  lemma {:induction false} AdmittedReads(env: Env, opts: Options, log: Log, record: Record)
    requires log != [] && Legal(env, opts, log, record) && Admit(env, opts, record).Ok?
    ensures env.decode(Admit(env, opts, record).value) == Ok((record, None))
  {
    assert Encodable(record, None);
  }

  // ----- what open starts from -----

  /** No segment but the last is empty, and not all are unless they start with segment 1. */
  predicate Filled(log: Log) {
    && (forall i :: 0 <= i < |log| - 1 ==> log[i].frames != [])
    && (log != [] && log[0].number > 1 ==> Flat(log) != [])
  }

  /** If the scan cuts the files, they are ones that the recovery record can be appended to. */
  ghost predicate Resumable(env: Env, opts: Options, recovery: Option<Context>, disk: Disk) {
    Scan(env, opts, recovery.Some?, Discovered(disk)).Ok? ==>
      var (base, cut) := Scan(env, opts, recovery.Some?, Discovered(disk)).value;
      cut ==> Filled(base) && env.Lawful() && Countable(base, 2) && CanRecord(env, opts, recovery.value)
  }

  /** The files of a log, whole or broken off inside a frame, are such files. */
  lemma {:induction false} LeftBehindResumes(env: Env, opts: Options, context: Context, base: Log, tail: seq<Byte>)
    requires env.Lawful() && Recoverable(env, opts, base, tail)
    requires Countable(base, 2) && CanRecord(env, opts, context)
    ensures Resumable(env, opts, Some(context), RenderTail(env, base, tail))
  {
    ScanComplete(env, opts, true, base, tail);
  }

  /** The log of accepted files is well-formed exactly when it is filled. */
  lemma {:induction false} AcceptedStands(env: Env, opts: Options, recovery: Option<Context>, disk: Disk)
    requires opts.Valid() && Contiguous(FileNumbers(Discovered(disk)))
    requires Scan(env, opts, recovery.Some?, Discovered(disk)).Ok?
    ensures var base := Scan(env, opts, recovery.Some?, Discovered(disk)).value.0;
            && base != [] && base[0].number > 0 && Positive(base)
            && base[0].number - 1 == Generation(Discovered(disk)[0].number)
            && (WellFormed(env, opts, base) <==> Filled(base))
  {
    var files := Discovered(disk);
    var tail := ScanSound(env, opts, recovery.Some?, files);
    NumberedAlike(env, Scan(env, opts, recovery.Some?, files).value.0, tail, files);
    AnchoredPositive(env, opts, Scan(env, opts, recovery.Some?, files).value.0);
  }

  lemma {:induction false} NumberedAlike(env: Env, log: Log, tail: seq<Byte>, files: Disk)
    requires log != [] && files == RenderTail(env, log, tail) && Contiguous(FileNumbers(files))
    ensures log[0].number > 0 && forall i :: 0 < i < |log| ==> log[i].number == log[i - 1].number + 1
  {
    var ns := FileNumbers(files);
    forall i | 0 <= i < |log| ensures log[i].number == ns[i] {
    }
  }

  lemma {:induction false} NoFaultStops(env: Env, opts: Options, log: Log, record: Record)
    requires WellFormed(env, opts, log) && Legal(env, opts, log, record)
    ensures Prepared(env, opts, log, NextSize(env, record), record.context.receivedAt).Ok?
    ensures StopsAt(env, opts, log, record, NoFault) == None
  {
    PreparedSequence(env, opts, log, record);
  }

  class FileAuditLedger {
    const env: Env
    const opts: Options
    var disk: Disk
    var records: seq<View>
    var owners: seq<nat>
    var segments: seq<Segment>
    var currentSegment: nat
    var currentBytes: nat
    var head: Head
    var lastHash: Hash
    var state: IoState

    /** The log the memory and the files stand for. */
    ghost var log: Log

    ghost function Held(): Memory
      reads `records, `owners, `segments, `currentSegment, `currentBytes, `head, `lastHash
    {
      Memory(records, owners, segments, currentSegment, currentBytes, head, lastHash)
    }

    ghost predicate Agrees()
      reads this
    {
      Agree(env, log, Held(), disk)
    }

    /** The step ended as the effect says: its files, and its log or its error. */
    ghost predicate Shows(e: Effect, failure: Option<Code>)
      reads this
    {
      && disk == e.disk
      && match e.result
         case Ok(l) => failure == None && log == l && Agrees()
         case Err(code) => failure == Some(code)
    }

    predicate Writable()
      reads `state
    {
      state == Ready || state == PublishedHead || state == Recovering
    }

    ghost predicate Valid()
      reads this
    {
      && opts.Valid()
      && (Writable() || state == Degraded || state == FailedClosed)
      && (Writable() ==> Agrees() && WellFormed(env, opts, log))
    }

    /** The end of `open`: the ledger takes over what the scan loaded. */
    constructor (env: Env, opts: Options, loaded: Loaded, ghost log: Log)
      requires opts.Valid() && log != [] && log[0].number > 0 && Positive(log) && Decoded(env, Flat(log))
      requires loaded == Image(env, log[0].number - 1, log, loaded.recovered)
      ensures this.env == env && this.opts == opts && this.log == log && Agrees()
      ensures WellFormed(env, opts, log) ==> Valid()
      ensures state == if loaded.recovered then Recovering else Ready
    {
      this.env := env;
      this.opts := opts;
      this.disk := loaded.disk;
      this.records := loaded.records;
      this.owners := loaded.owners;
      this.segments := loaded.segments;
      this.currentSegment := loaded.disk[|loaded.disk| - 1].number;
      this.currentBytes := loaded.currentBytes;
      this.head := loaded.head;
      this.lastHash := loaded.lastHash;
      this.state := if loaded.recovered then Recovering else Ready;
      this.log := log;
      new;
      ImageMirrors(env, log, loaded.recovered);
    }

    /** The file operations of `append_encoded`: write all, then sync. */
    method WriteBytes(bytes: seq<Byte>, w: WriteFault) returns (failure: Option<Code>)
      requires Writable() && disk != []
      modifies `disk, `state
      ensures if w.Stops? && w.n < |bytes| then
                failure == Some(AppendFailed) && disk == Extended(old(disk), bytes[..w.n]) && state == Degraded
              else
                && disk == Extended(old(disk), bytes)
                && (if w == Unsynced then failure == Some(SyncFailed) && state == Degraded
                    else failure == None && state == Syncing)
    {
      state := Transition(state, BeginEncoding).value;
      state := Transition(state, Encoded).value;
      if w.Stops? && w.n < |bytes| {
        disk := Extended(disk, bytes[..w.n]);
        state := Transition(state, IoFailed).value;
        return Some(AppendFailed);
      }
      disk := Extended(disk, bytes);
      state := Transition(state, Appended).value;
      if w == Unsynced {
        state := Transition(state, IoFailed).value;
        return Some(SyncFailed);
      }
      return None;
    }

    /** The end of `append_encoded`: memory takes over the synced frame. */
    method Publish(frame: Frame, record: Record)
      requires segments != []
      modifies `records, `owners, `segments, `currentBytes, `head, `lastHash
      ensures Held() == MemoryWith(env, old(Held()), frame, record)
    {
      lastHash := Digest(env, frame);
      currentBytes := currentBytes + |FrameBytes(env, frame)|;
      head := head.(sequence := frame.sequence);
      records := records + [View(frame.sequence, record)];
      owners := owners + [currentSegment];
      var n := |segments| - 1;
      segments := segments[..n] + [Touched(segments[n], frame.sequence, lastHash, currentBytes)];
    }

    /** `append_encoded`, as it changes the fields. */
    method WriteFrame(record: Record, payload: seq<Byte>, w: WriteFault) returns (r: Result<Head, Code>)
      requires Writable() && segments != [] && disk != [] && log != []
      modifies this
      ensures log == old(log)
      ensures disk == WriteCases(env, log, old(Held()), old(disk), payload, w).disk
      ensures match WriteCases(env, log, old(Held()), old(disk), payload, w).result
              case Ok(_) =>
                && r == Ok(head) && state == PublishedHead
                && Held() == MemoryWith(env, old(Held()), Frame(old(head).sequence + 1, old(lastHash), payload), record)
              case Err(code) =>
                && r == Err(code) && Held() == old(Held())
                && state == if code == SequenceInvalid then old(state) else Degraded
    {
      if head.sequence + 1 >= U64_SPAN {
        return Err(SequenceInvalid);
      }
      var frame := Frame(head.sequence + 1, lastHash, payload);
      var failure := WriteBytes(FrameBytes(env, frame), w);
      if failure.Some? {
        return Err(failure.value);
      }
      Publish(frame, record);
      state := Transition(state, Synced).value;
      return Ok(head);
    }

    /** `append_encoded`, as it changes the log. */
    method AppendEncoded(record: Record, payload: seq<Byte>, w: WriteFault) returns (r: Result<Head, Code>)
      requires Writable() && Agrees()
      requires env.decode(payload).Ok? && env.decode(payload).value.0 == record
      modifies this
      ensures disk == WriteEffect(env, old(log), payload, w).disk
      ensures match WriteEffect(env, old(log), payload, w).result
              case Ok(l) => log == l && Agrees() && state == PublishedHead && r == Ok(head)
              case Err(code) =>
                && r == Err(code) && log == old(log) && Held() == old(Held())
                && state == if code == SequenceInvalid then old(state) else Degraded
      ensures head == if r.Ok? then old(head).(sequence := old(head).sequence + 1) else old(head)
    {
      WriteAgrees(env, log, Held(), disk, payload, record, w);
      ghost var e := WriteEffect(env, log, payload, w);
      ghost var held := MemoryWith(env, Held(), Frame(head.sequence + 1, lastHash, payload), record);
      assert e.result.Ok? ==> Agree(env, e.result.value, held, e.disk);
      r := WriteFrame(record, payload, w);
      if r.Ok? {
        log := e.result.value;
        assert Held() == held && disk == e.disk;
      }
    }

    /** The end of `rotate_segment`: memory takes over the new segment. */
    method OpenSegment(ghost l: Log)
      requires Agree(env, l, MemoryRotated(Held()), disk)
      modifies `segments, `currentSegment, `currentBytes, `log
      ensures log == l && Agrees()
    {
      ghost var held := MemoryRotated(Held());
      currentSegment := currentSegment + 1;
      currentBytes := 0;
      segments := segments + [Segment(currentSegment, 0, 0, lastHash, 0)];
      log := l;
      assert Held() == held;
    }

    /** The file operations of `rotate_segment`. */
    method RotateOnDisk(fault: Fault) returns (failure: Option<Code>)
      requires log != [] && currentSegment == log[|log| - 1].number && disk == Render(env, log)
      modifies `disk
      ensures disk == RotateEffect(env, log, fault).disk
      ensures match RotateEffect(env, log, fault).result
              case Ok(_) => failure == None && disk == old(disk) + [File(currentSegment + 1, [])]
              case Err(code) => failure == Some(code)
    {
      RenderRotated(env, log, currentSegment);
      if fault == RotateSync {
        return Some(SyncFailed);
      }
      if currentSegment + 1 >= U64_SPAN {
        return Some(CapacityReached);
      }
      if fault == RotateCreate {
        return Some(Unavailable);
      }
      disk := disk + [File(currentSegment + 1, [])];
      if fault == RotateDirectorySync {
        return Some(SyncFailed);
      }
      return None;
    }

    /** `rotate_segment`; the ghosts are the log, memory and files it leads to. */
    method RotateSegment(fault: Fault, ghost l: Log, ghost held: Memory, ghost files: Disk)
      returns (failure: Option<Code>)
      requires log != [] && currentSegment == log[|log| - 1].number && disk == Render(env, log)
      requires l == Rotated(log) && held == MemoryRotated(Held()) && files == disk + [File(currentSegment + 1, [])]
      requires Agree(env, l, held, files)
      modifies `disk, `segments, `currentSegment, `currentBytes, `log
      ensures Shows(RotateEffect(env, old(log), fault), failure)
    {
      RotateResult(env, log, fault);
      failure := RotateOnDisk(fault);
      if failure.None? {
        assert disk == files && MemoryRotated(Held()) == held;
        OpenSegment(l);
      }
    }

    /**
     One turn of the loop of `retain_for`: whether removing the k oldest segments is enough,
     and the checkpoint for them.
     */
    method TestRemoval(template: Record, k: nat, removedBytes: nat, next: nat, timestamp: nat)
      returns (fits: bool, payload: seq<Byte>)
      requires Agrees() && 0 < k < |segments| && removedBytes == SumBytes(segments[..k])
      requires template == CheckpointRecord(timestamp, currentSegment)
      requires Passed(env, opts, log, next, timestamp, k - 1)
      ensures fits ==> && FindRemoval(env, opts, log, next, timestamp, 1) == Some(k)
                       && payload == CheckpointPayload(env, log, timestamp, k)
      ensures !fits ==> Passed(env, opts, log, next, timestamp, k)
    {
      var last := segments[k - 1];
      payload := env.encode(template, Some(Pruned(segments[0].first, last.last, last.terminalHash)));
      fits := |segments| - k <= opts.maxSegments
              && SumBytes(segments) - removedBytes + FrameSize(payload) + next <= opts.maxTotal;
      RemovalTest(env, opts, log, Held(), next, timestamp, k, payload, fits);
    }

    /** The loop of `retain_for`: how many of the oldest segments to remove, and the checkpoint for them. */
    method ChooseRemoval(next: nat, timestamp: nat) returns (r: Option<(nat, seq<Byte>)>)
      requires Agrees()
      ensures r == match FindRemoval(env, opts, log, next, timestamp, 1)
                   case None => None
                   case Some(k) => Some((k, CheckpointPayload(env, log, timestamp, k)))
    {
      var template := CheckpointRecord(timestamp, currentSegment);
      var removeCount, removedBytes := 0, 0;
      while true
        invariant removeCount < |segments|
        invariant removedBytes == SumBytes(segments[..removeCount])
        invariant Passed(env, opts, log, next, timestamp, removeCount)
        decreases |segments| - removeCount
      {
        if removeCount + 1 >= |segments| {
          PassedAll(env, opts, log, next, timestamp, removeCount);
          return None;
        }
        SumSnoc(segments, removeCount);
        removedBytes := removedBytes + segments[removeCount].bytes;
        removeCount := removeCount + 1;
        var fits, payload := TestRemoval(template, removeCount, removedBytes, next, timestamp);
        if fits {
          return Some((removeCount, payload));
        }
      }
    }

    /** The removal loop of `retain_for`. */
    method DeleteFiles(numbers: seq<nat>, fault: Fault) returns (failure: Option<Code>)
      requires disk == Render(env, log) && NumbersMatch(log, numbers)
      modifies `disk
      ensures if fault.RemoveFile? && fault.j < |numbers| then
                failure == Some(Unavailable) && disk == Render(env, log[fault.j..])
              else failure == None && disk == Render(env, log[|numbers|..])
    {
      assert log[0..] == log;
      var i := 0;
      while i < |numbers|
        invariant i <= |numbers| && disk == Render(env, log[i..])
        invariant fault.RemoveFile? ==> i <= fault.j || fault.j >= |numbers|
      {
        if fault == RemoveFile(i) {
          return Some(Unavailable);
        }
        DeletedFirst(env, log, i);
        disk := Deleted(disk, numbers[i]);
        i := i + 1;
      }
      return None;
    }

    /** The end of `retain_for`: records of removed segments go, the rest stays in order. */
    method RetainRecords(removed: set<nat>, ghost n: nat)
      requires |records| == |owners| && n <= |records|
      requires forall i :: 0 <= i < |owners| ==> (owners[i] in removed <==> i < n)
      modifies `records, `owners
      ensures records == old(records)[n..] && owners == old(owners)[n..]
    {
      var keptRecords: seq<View>, keptOwners: seq<nat>, i := [], [], 0;
      while i < |owners|
        modifies {}
        invariant i <= |owners|
        invariant keptRecords == if i <= n then [] else records[n..i]
        invariant keptOwners == if i <= n then [] else owners[n..i]
      {
        KeepStep(records, n, i);
        KeepStep(owners, n, i);
        if owners[i] !in removed {
          keptRecords, keptOwners := keptRecords + [records[i]], keptOwners + [owners[i]];
        }
        i := i + 1;
      }
      records, owners := keptRecords, keptOwners;
    }

    /** Memory forgets the first k segments; the removed numbers own the first n records. */
    method Forget(k: nat, ghost n: nat, ghost l: Log)
      requires k < |segments| && n <= |records| == |owners| && OwnFirst(owners, Numbers(segments, k), n)
      requires Agree(env, l, MemoryCut(Held(), k, n, Generation(segments[k].number)), disk)
      modifies `records, `owners, `segments, `head, `log
      ensures log == l && Agrees() && head.sequence == old(head).sequence
    {
      ghost var held := MemoryCut(Held(), k, n, Generation(segments[k].number));
      var numbers := Numbers(segments, k);
      var removed := set x | x in numbers;
      RetainRecords(removed, n);
      segments := segments[k..];
      head := Head(Generation(segments[0].number), head.sequence);
      log := l;
      assert Held() == held;
    }

    /** The file operations at the end of `retain_for`. */
    method RemoveOnDisk(k: nat, fault: Fault) returns (failure: Option<Code>)
      requires k < |log| && disk == Render(env, log) && k <= |segments| && NumbersMatch(log, Numbers(segments, k))
      modifies `disk
      ensures disk == RemoveEffect(env, log, k, fault).disk
      ensures match RemoveEffect(env, log, k, fault).result
              case Ok(_) => failure == None && disk == Render(env, log[k..])
              case Err(code) => failure == Some(code)
    {
      if fault == RetainDirectorySync {
        return Some(SyncFailed);
      }
      failure := DeleteFiles(Numbers(segments, k), fault);
      if failure.None? && fault == RemoveDirectorySync {
        return Some(SyncFailed);
      }
    }

    /** The files of the k oldest segments go, and memory follows; the ghosts are the log and memory it leads to. */
    method RemoveTo(k: nat, fault: Fault, ghost n: nat, ghost rest: Log, ghost held: Memory)
      returns (failure: Option<Code>)
      requires k < |log| && disk == Render(env, log) && rest == log[k..]
      requires k < |segments| && n <= |records| == |owners| && OwnFirst(owners, Numbers(segments, k), n)
      requires NumbersMatch(log, Numbers(segments, k))
      requires held == MemoryCut(Held(), k, n, Generation(segments[k].number))
      requires Agree(env, rest, held, Render(env, rest))
      modifies `disk, `records, `owners, `segments, `head, `log
      ensures Shows(RemoveEffect(env, old(log), k, fault), failure)
      ensures head.sequence == old(head).sequence
    {
      RemoveResult(env, log, k, fault);
      failure := RemoveOnDisk(k, fault);
      if failure.None? {
        Forget(k, n, rest);
      }
    }

    /** The end of `retain_for`. */
    method RemoveSegments(k: nat, fault: Fault) returns (failure: Option<Code>)
      requires Agrees() && Packed(log) && 0 < k < |log| && log[|log| - 1].frames != []
      modifies `disk, `records, `owners, `segments, `head, `log
      ensures Shows(RemoveEffect(env, old(log), k, fault), failure)
      ensures head.sequence == old(head).sequence
    {
      CutReady(env, log, Held(), k);
      ghost var n := |Flat(log[..k])|;
      failure := RemoveTo(k, fault, n, log[k..], MemoryCut(Held(), k, n, Generation(segments[k].number)));
    }

    /** The second half of `retain_for`: the checkpoint is appended and synced, then the k oldest segments go. */
    method Prune(k: nat, record: Record, payload: seq<Byte>, fault: Fault) returns (failure: Option<Code>)
      requires Writable() && Agrees() && Packed(log) && 0 < k < |log|
      requires env.decode(payload).Ok? && env.decode(payload).value.0 == record
      modifies this
      ensures Shows(CheckpointThenRemove(env, old(log), payload, k, fault), failure)
      ensures Advances(old(head), head)
      ensures failure == None ==> state == PublishedHead
    {
      ghost var c := WithFrame(log, NextOf(env, log, payload));
      PruneCases(env, log, payload, k, fault, c);
      var written := AppendEncoded(record, payload, CheckpointFault(fault));
      if written.Err? {
        return Some(written.error);
      }
      assert log == c;
      failure := RemoveSegments(k, fault);
    }

    /** `retain_for` */
    method RetainFor(next: nat, timestamp: nat, fault: Fault) returns (failure: Option<Code>)
      requires Writable() && Agrees() && env.Lawful() && WellFormed(env, opts, log)
      modifies this
      ensures Shows(RetainEffect(env, opts, old(log), next, timestamp, fault), failure)
      ensures Advances(old(head), head)
      ensures failure == None ==> state == PublishedHead
    {
      RetainCases(env, opts, log, next, timestamp, fault);
      var choice := ChooseRemoval(next, timestamp);
      if choice.None? {
        return Some(CapacityReached);
      }
      var (k, payload) := choice.value;
      if FrameSize(payload) + next > opts.maxTotal || FrameSize(payload) > opts.maxSegmentBytes {
        return Some(CapacityReached);
      }
      CheckpointReads(env, opts, log, timestamp, k);
      failure := Prune(k, CheckpointRecord(timestamp, currentSegment), payload, fault);
    }

    /** Rotation of a segment that holds frames keeps the log well-formed. */
    method Rotate(fault: Fault) returns (failure: Option<Code>)
      requires Agrees() && WellFormed(env, opts, log) && currentBytes > 0
      modifies `disk, `segments, `currentSegment, `currentBytes, `log
      ensures Shows(RotateEffect(env, old(log), fault), failure)
      ensures failure == None ==> WellFormed(env, opts, log)
    {
      ghost var l, held, files := Rotated(log), MemoryRotated(Held()), disk + [File(currentSegment + 1, [])];
      RotationReady(env, opts, log, Held(), disk, l, held, files);
      RotateResult(env, log, fault);
      failure := RotateSegment(fault, l, held, files);
      assert failure == None ==> log == l;
    }

    /** Retention, when the bounds ask for it. */
    method RetainIfRequired(next: nat, timestamp: nat, fault: Fault) returns (failure: Option<Code>)
      requires Writable() && Agrees() && env.Lawful() && WellFormed(env, opts, log)
      modifies this
      ensures Shows(RetainIfEffect(env, opts, old(log), next, timestamp, fault), failure)
      ensures Advances(old(head), head)
      ensures failure == None ==> Writable()
    {
      RetentionFromMemory(env, opts, log, Held(), next);
      if |segments| > opts.maxSegments || SumBytes(segments) + next > opts.maxTotal {
        failure := RetainFor(next, timestamp, fault);
      } else {
        failure := None;
      }
    }

    /** The rotation and the retention of `prepare_storage`. */
    method RotateAndRetain(next: nat, timestamp: nat, fault: Fault) returns (failure: Option<Code>)
      requires Writable() && Agrees() && env.Lawful() && WellFormed(env, opts, log)
      requires currentBytes > 0 && currentBytes + next > opts.maxSegmentBytes
      modifies this
      ensures Shows(PrepareEffect(env, opts, old(log), next, timestamp, fault), failure)
      ensures Advances(old(head), head)
      ensures failure == None ==> Writable()
    {
      PrepareCases(env, opts, log, next, timestamp, fault);
      ghost var rotated := Rotated(log);
      failure := Rotate(fault);
      if failure == None {
        assert log == rotated;
        failure := RetainIfRequired(next, timestamp, fault);
      }
    }

    /** `prepare_storage`: any failure degrades the writer. */
    method PrepareStorage(next: nat, timestamp: nat, fault: Fault) returns (failure: Option<Code>)
      requires Writable() && Agrees() && env.Lawful() && WellFormed(env, opts, log)
      modifies this
      ensures Shows(PrepareEffect(env, opts, old(log), next, timestamp, fault), failure)
      ensures Advances(old(head), head)
      ensures if failure == None then Writable() else state == Degraded
    {
      PrepareCases(env, opts, log, next, timestamp, fault);
      if currentBytes == 0 || currentBytes + next <= opts.maxSegmentBytes {
        return None;
      }
      failure := RotateAndRetain(next, timestamp, fault);
      if failure.Some? {
        state := Degraded;
      }
    }

    /** The two steps of `append` once the record is admitted. */
    method Store(record: Record, payload: seq<Byte>, fault: Fault) returns (r: Result<Head, Code>)
      requires Writable() && Agrees() && env.Lawful() && WellFormed(env, opts, log)
      requires Admit(env, opts, record) == Ok(payload)
      requires env.decode(payload).Ok? && env.decode(payload).value.0 == record
      modifies this
      ensures Shows(AppendEffect(env, opts, old(log), record, fault), if r.Ok? then None else Some(r.error))
      ensures Advances(old(head), head)
      ensures if r.Ok? then r == Ok(head) && state == PublishedHead else state == Degraded || r.error == SequenceInvalid
    {
      var failure := PrepareStorage(FrameSize(payload), record.context.receivedAt, fault);
      if failure.Some? {
        return Err(failure.value);
      }
      r := AppendEncoded(record, payload, RecordFault(fault));
    }

    /** `append` of an admitted record on a writable ledger. */
    method AppendAdmitted(record: Record, payload: seq<Byte>, fault: Fault) returns (r: Result<Head, Code>)
      requires Writable() && Agrees() && WellFormed(env, opts, log) && Legal(env, opts, log, record)
      requires Admit(env, opts, record) == Ok(payload)
      modifies this
      ensures Ended(env, opts, old(log), record, fault, log, disk, state, r) && Advances(old(head), head)
      ensures if r.Ok? then r == Ok(head) && state == PublishedHead && Agrees() && WellFormed(env, opts, log)
              else state == Degraded
      ensures r.Ok? ==> (Rebuilds(env, opts, disk, Held()) <==> |records| <= opts.maxScan)
    {
      AdmittedReads(env, opts, log, record);
      ghost var before := log;
      r := Store(record, payload, fault);
      EffectEnds(env, opts, before, record, fault, log, disk, state, r);
      if r.Ok? {
        AppendedReloads(env, opts, before, record, log);
        MirrorRebuilds(env, opts, log, Held());
      }
    }

    /**
     `append`: on a degraded writer, or for a record that is not admitted, nothing
     changes. Otherwise it is `Append` on the log, or it stops at the crash point of the
     fault with the files of that point, and the writer stays degraded. After an
     acknowledged append a scan of the files would rebuild exactly what the ledger holds,
     unless it holds more records than the scan limit.
     */
    method Append(record: Record, fault: Fault) returns (r: Result<Head, Code>)
      requires Valid() && (Writable() ==> Legal(env, opts, log, record))
      modifies this
      ensures Valid()
      ensures !old(Writable()) ==> r == Err(Unavailable)
      ensures old(Writable()) && Admit(env, opts, record).Err? ==> r == Err(Admit(env, opts, record).error)
      ensures !old(Writable()) || Admit(env, opts, record).Err? ==>
                disk == old(disk) && Held() == old(Held()) && state == old(state) && log == old(log)
      ensures old(Writable()) && Admit(env, opts, record).Ok? ==>
                && Ended(env, opts, old(log), record, fault, log, disk, state, r)
                && (r.Ok? ==> r == Ok(head)) && Advances(old(head), head)
      ensures r.Ok? ==> (Rebuilds(env, opts, disk, Held()) <==> |records| <= opts.maxScan)
    {
      if !Writable() {
        return Err(Unavailable);
      }
      match Admit(env, opts, record) {
        case Err(code) =>
          return Err(code);
        case Ok(payload) =>
          r := AppendAdmitted(record, payload, fault);
      }
    }

    /**
     `append_terminal` and `append_reconciliation`: refused, with nothing written, unless
     the head is the expected one.
     */
    method AppendAfter(record: Record, expected: Head, fault: Fault) returns (r: Result<Head, Code>)
      requires Valid() && (Writable() ==> Legal(env, opts, log, record))
      modifies this
      ensures Valid()
      ensures old(head) != expected ==>
                && r == Err(RecordInvalid)
                && disk == old(disk) && Held() == old(Held()) && state == old(state) && log == old(log)
      ensures old(head) == expected && !old(Writable()) ==> r == Err(Unavailable)
      ensures old(head) == expected && old(Writable()) && Admit(env, opts, record).Err? ==>
                r == Err(Admit(env, opts, record).error)
      ensures !old(Writable()) || Admit(env, opts, record).Err? ==>
                disk == old(disk) && Held() == old(Held()) && state == old(state) && log == old(log)
      ensures old(head) == expected && old(Writable()) && Admit(env, opts, record).Ok? ==>
                && Ended(env, opts, old(log), record, fault, log, disk, state, r)
                && (r.Ok? ==> r == Ok(head)) && Advances(old(head), head)
      ensures r.Ok? ==> (Rebuilds(env, opts, disk, Held()) <==> |records| <= opts.maxScan)
    {
      if expected != head {
        return Err(RecordInvalid);
      }
      r := Append(record, fault);
    }

    /** The recovery record that `open` appends after a cut. */
    method Recover(context: Context)
      requires Valid() && Writable() && env.Lawful() && Countable(log, 2) && CanRecord(env, opts, context)
      modifies this
      ensures Valid() && Writable()
      ensures AuditAppend.Append(env, opts, old(log), RecoveryRecord(context)) == Ok(log)
    {
      var record := RecoveryRecord(context);
      assert Legal(env, opts, log, record);
      NoFaultStops(env, opts, log, record);
      var reply := Append(record, NoFault);
    }

    /**
     `open`, on any files: refused with the error of the scan, or a ledger that holds the
     log of its files, followed by a recovery record exactly when bytes were cut off. It is
     valid unless an empty segment lies before the last, which no ledger leaves behind.
     */
    static method Open(env: Env, opts: Options, recovery: Option<Context>, disk: Disk)
      returns (r: Result<FileAuditLedger, Code>)
      requires Resumable(env, opts, recovery, disk)
      ensures match AuditCrash.Open(env, opts, recovery, disk)
              case Err(code) => r == Err(code)
              case Ok(log) =>
                && r.Ok? && fresh(r.value) && r.value.env == env && r.value.opts == opts
                && r.value.log == log && r.value.Agrees() && r.value.Writable()
                && (Filled(log) ==> r.value.Valid())
    {
      if !opts.Valid() || (recovery.Some? && recovery.value.actor != SystemRecoveryActor) {
        return Err(RecordInvalid);
      }
      var files := Discovered(disk);
      if Unnumbered(files) {
        return Err(RecordInvalid);
      }
      if !Contiguous(FileNumbers(files)) {
        return Err(InteriorCorruption);
      }
      var scanned := ScanSegments(env, opts, recovery.Some?, files);
      if scanned.Err? {
        return Err(scanned.error);
      }
      AcceptedStands(env, opts, recovery, disk);
      ghost var base := Scan(env, opts, recovery.Some?, files).value.0;
      var ledger := new FileAuditLedger(env, opts, scanned.value, base);
      if ledger.state == Recovering {
        ledger.Recover(recovery.value);
      }
      return Ok(ledger);
    }
  }
}
