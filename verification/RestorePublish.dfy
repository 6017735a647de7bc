/**
 Replacing a data directory by a restored one: the target is renamed to a rollback
 directory, the stage is renamed into its place, and a journal says how far this got.
 Renames are atomic and recursive deletion is not: it leaves a damaged tree for as long
 as it runs. The process may stop before or after any of these steps, and recovery may
 be stopped in the same way.
 */
module RestorePublish {
  import opened Bytes
  import opened RestoreJournal

  datatype Content = Old | New

  /** A directory: missing, or a tree that is whole or partly deleted. */
  datatype Slot = Absent | Tree(content: Content, whole: bool)

  datatype Disk = Disk(target: Slot, stage: Slot, rollback: Slot, journal: Option<TxState>)

  const OLD: Slot := Tree(Old, true)
  const NEW: Slot := Tree(New, true)

  // ----- the publisher's steps -----

  /** One step of `remove_dir_all`. */
  function Deleting(s: Slot): (s': Slot)
    requires s.Tree?
  {
    if s.whole then Tree(s.content, false) else Absent
  }

  predicate RollbackDone(d: Disk) {
    d.rollback == Absent && d.stage == Absent
  }

  /** The next step of `rollback_after_failure`, once it has found a rollback directory. */
  function RollbackStep(d: Disk): (d': Disk)
  {
    if d.rollback.Tree? then
      if d.target.Tree? then d.(target := Deleting(d.target)) else d.(target := d.rollback, rollback := Absent)
    else if d.stage.Tree? then d.(stage := Deleting(d.stage))
    else d
  }

  predicate CleanupDone(d: Disk) {
    d.rollback == Absent && d.stage == Absent
  }

  /** The next step of `cleanup_committed`. */
  function CleanupStep(d: Disk): (d': Disk)
  {
    if d.rollback.Tree? then d.(rollback := Deleting(d.rollback))
    else if d.stage.Tree? then d.(stage := Deleting(d.stage))
    else d
  }

  /**
   `target_valid` and `rollback_valid` ask for a readable current revision. The restored
   tree has one; the tree to be replaced need not. Of a damaged tree that has one it may
   still be readable.
   */
  predicate Valid(s: Slot, oldValid: bool, damagedReadable: bool) {
    s.Tree? && (s.content == Old ==> oldValid) && (s.whole || damagedReadable)
  }

  // ----- the use cases -----

  /** Where the process is: in the replacing use case, in one of its two endings, finished, or stopped. */
  datatype Phase =
    | Idle | Journalled | Moved | MovedRecorded | Published | PublishedRecorded
    | Cleaning | RollingBack | Finished | Stopped

  /** `oldValid`: the tree to be replaced has a readable current revision. */
  datatype Restore = Restore(disk: Disk, phase: Phase, committed: bool, oldValid: bool)

  datatype Step =
    | Begin | MoveTarget | RecordMoved | PublishStage | RecordPublished | StartCleanup
    | CleanOne | FinishCleanup
    | Fail | RollOne | FinishRollback
    | Stop
    | Recover(targetReadable: bool, rollbackReadable: bool)

  datatype Decision = Commit | Abort | RollBack | Ambiguous

  /** What recovery decides from the journal and the two checks. */
  function Decide(state: TxState, target: bool, rollback: bool): (d: Decision)
  {
    match (state, target, rollback)
    case (Prepared, true, false) => Abort
    case (TargetMoved, true, true) => Commit
    case (StagePublished, true, _) => Commit
    case (_, false, true) => RollBack
    case (_, _, _) => Ambiguous
  }

  function DecisionFor(s: Restore, targetReadable: bool, rollbackReadable: bool): (r: Decision)
  {
    var d := s.disk;
    if d.journal.None? then Ambiguous
    else Decide(d.journal.value, Valid(d.target, s.oldValid, targetReadable),
                Valid(d.rollback, s.oldValid, rollbackReadable))
  }

  predicate Enabled(s: Restore, step: Step) {
    match step
    case Begin => s.phase == Idle
    case MoveTarget => s.phase == Journalled
    case RecordMoved => s.phase == Moved
    case PublishStage => s.phase == MovedRecorded
    case RecordPublished => s.phase == Published
    case StartCleanup => s.phase == PublishedRecorded
    case CleanOne => s.phase == Cleaning && !CleanupDone(s.disk)
    case FinishCleanup => s.phase == Cleaning && CleanupDone(s.disk)
    case Fail => s.phase in {Journalled, Moved, MovedRecorded, Published, PublishedRecorded}
    case RollOne => s.phase == RollingBack && !RollbackDone(s.disk)
    case FinishRollback => s.phase == RollingBack && RollbackDone(s.disk)
    case Stop => s.phase != Stopped && s.phase != Finished
    case Recover(_, _) => s.phase == Stopped
  }

  function Next(s: Restore, step: Step): (s': Restore)
    requires Enabled(s, step)
  {
    var d := s.disk;
    match step
    case Begin => s.(disk := d.(journal := Some(Prepared)), phase := Journalled)
    case MoveTarget => s.(disk := d.(target := Absent, rollback := d.target), phase := Moved)
    case RecordMoved => s.(disk := d.(journal := Some(TargetMoved)), phase := MovedRecorded)
    case PublishStage => s.(disk := d.(target := d.stage, stage := Absent), phase := Published)
    case RecordPublished => s.(disk := d.(journal := Some(StagePublished)), phase := PublishedRecorded)
    case StartCleanup => s.(phase := Cleaning, committed := true)
    case CleanOne => s.(disk := CleanupStep(d))
    case FinishCleanup => s.(disk := d.(journal := None), phase := Finished)
    case Fail => if d.rollback.Tree? then s.(phase := RollingBack)
                 else s.(disk := d.(journal := None), phase := Finished)
    case RollOne => s.(disk := RollbackStep(d))
    case FinishRollback => s.(disk := d.(journal := None), phase := Finished)
    case Stop => s.(phase := Stopped)
    case Recover(t, r) =>
      match DecisionFor(s, t, r)
      case Commit => s.(phase := Cleaning, committed := true)
      case Abort => s.(phase := Cleaning)
      case RollBack => s.(phase := RollingBack)
      case Ambiguous => s
  }

  /** `prepare_replace` accepts: a target, with or without a readable revision, a stage and no rollback directory. */
  function Start(oldValid: bool): (s: Restore)
  {
    Restore(Disk(OLD, NEW, Absent, None), Idle, false, oldValid)
  }

  // ----- what every step keeps -----

  /** An intact tree is in place or in reserve, and the reserve is the old tree. */
  predicate Kept(d: Disk) {
    || (d.target == OLD && d.rollback == Absent)
    || d.target == NEW
    || (d.rollback == OLD && (d.target == Absent || d.target == Tree(New, false)))
  }

  /** The old tree is intact at exactly one of target and rollback. */
  predicate OldOnce(d: Disk) {
    || (d.target == OLD && d.rollback == Absent)
    || (d.rollback == OLD && (d.target == Absent || d.target.content == New))
  }

  predicate PhaseFits(s: Restore) {
    var d := s.disk;
    match s.phase
    case Idle => d == Start(s.oldValid).disk
    case Journalled => d.target == OLD && d.rollback == Absent && d.stage == NEW
    case Moved => d.target == Absent && d.rollback == OLD && d.stage == NEW
    case MovedRecorded => d == Disk(Absent, NEW, OLD, Some(TargetMoved))
    case Published => d.target == NEW && d.rollback == OLD && d.stage == Absent
    case PublishedRecorded => d.target == NEW && d.rollback == OLD && d.stage == Absent
    case Cleaning => (d.target == OLD && d.rollback == Absent) || (d.target == NEW && s.committed)
    case RollingBack => OldOnce(d)
    case Finished => d.target == OLD || (d.target == NEW && s.committed)
    case Stopped => true
  }

  predicate Inv(s: Restore) {
    && Kept(s.disk) && PhaseFits(s)
    && (!s.committed ==> OldOnce(s.disk))
    && (s.disk.target == OLD ==> s.disk.rollback == Absent)
    && (s.disk.rollback.Tree? ==> s.disk.rollback.content == Old)
    && (s.disk.journal == Some(Prepared) ==> s.disk.target == OLD || s.disk.target == Absent)
  }

  /**
   The target is a partly deleted tree whose current revision can still be read, and
   the journal says it was published, or the old tree in reserve is valid as well.
   */
  predicate Misread(s: Restore, targetReadable: bool) {
    && s.disk.target.Tree? && !s.disk.target.whole && targetReadable
    && (s.disk.journal == Some(StagePublished) || (s.disk.journal == Some(TargetMoved) && s.oldValid))
  }

  /** Recovery does not misread the target. */
  predicate Honest(s: Restore, step: Step) {
    step.Recover? ==> !Misread(s, step.targetReadable)
  }

  lemma {:induction false} StepKeeps(s: Restore, step: Step)
    requires Inv(s) && Enabled(s, step) && Honest(s, step)
    ensures Inv(Next(s, step))
  {
  }

  // ----- every run -----

  predicate Run(s: Restore, steps: seq<Step>)
    decreases |steps|
  {
    steps == [] || (Enabled(s, steps[0]) && Run(Next(s, steps[0]), steps[1..]))
  }

  /** No recovery of the run misreads the target. */
  predicate AllHonest(s: Restore, steps: seq<Step>)
    requires Run(s, steps)
    decreases |steps|
  {
    steps == [] || (Honest(s, steps[0]) && AllHonest(Next(s, steps[0]), steps[1..]))
  }

  function Final(s: Restore, steps: seq<Step>): (s': Restore)
    requires Run(s, steps)
    decreases |steps|
  {
    if steps == [] then s else Final(Next(s, steps[0]), steps[1..])
  }

  lemma {:induction false} RunKeeps(s: Restore, steps: seq<Step>)
    requires Inv(s) && Run(s, steps) && AllHonest(s, steps)
    ensures Inv(Final(s, steps))
    decreases |steps|
  {
    if steps != [] {
      StepKeeps(s, steps[0]);
      RunKeeps(Next(s, steps[0]), steps[1..]);
    }
  }

  /** Recovery misreads the target only to commit it, and a commit is never taken back. */
  lemma {:induction false} UncommittedStep(s: Restore, step: Step)
    requires Inv(s) && Enabled(s, step) && !Next(s, step).committed
    ensures !s.committed && Inv(Next(s, step))
  {
    assert Honest(s, step);
    StepKeeps(s, step);
  }

  lemma {:induction false} CommittedStays(s: Restore, steps: seq<Step>)
    requires Run(s, steps) && s.committed
    ensures Final(s, steps).committed
    decreases |steps|
  {
    if steps != [] {
      CommittedStays(Next(s, steps[0]), steps[1..]);
    }
  }

  lemma {:induction false} UncommittedKeeps(s: Restore, steps: seq<Step>)
    requires Inv(s) && Run(s, steps) && !Final(s, steps).committed
    ensures Inv(Final(s, steps))
    decreases |steps|
  {
    if steps != [] {
      var s' := Next(s, steps[0]);
      if s'.committed {
        CommittedStays(s', steps[1..]);
        assert false;
      }
      UncommittedStep(s, steps[0]);
      UncommittedKeeps(s', steps[1..]);
    }
  }

  /**
   Whatever fails or stops, whatever recovery reads, and whether or not the old tree has
   a readable revision: until a commit starts its cleanup, the old tree is intact at
   exactly one of target and rollback, and a run that finished without committing has it
   in place.
   */
  lemma {:induction false} OldTreeSurvives(oldValid: bool, steps: seq<Step>)
    requires Run(Start(oldValid), steps)
    ensures var s := Final(Start(oldValid), steps);
            !s.committed ==> OldOnce(s.disk) && (s.phase == Finished ==> s.disk.target == OLD)
  {
    if !Final(Start(oldValid), steps).committed {
      UncommittedKeeps(Start(oldValid), steps);
    }
  }

  /**
   And as long as no recovery misreads the target, however often recovery is stopped in
   turn, an intact tree is at target or rollback throughout, and every finished run has
   one in place, the old one unless it committed.
   */
  lemma {:induction false} TreeSurvives(oldValid: bool, steps: seq<Step>)
    requires Run(Start(oldValid), steps)
    ensures var s := Final(Start(oldValid), steps);
            && (!s.committed ==> OldOnce(s.disk))
            && (AllHonest(Start(oldValid), steps) ==>
                  && (s.disk.target == NEW || s.disk.target == OLD || s.disk.rollback == OLD)
                  && (s.phase == Finished ==> s.disk.target == OLD || (s.committed && s.disk.target == NEW)))
  {
    OldTreeSurvives(oldValid, steps);
    if AllHonest(Start(oldValid), steps) {
      RunKeeps(Start(oldValid), steps);
    }
  }

  // ----- rollback, as often as it takes -----

  /** `rollback_after_failure`, stopped after n steps. */
  function RollbackFor(d: Disk, n: nat): (d': Disk)
    decreases n
  {
    if n == 0 then d else RollbackFor(RollbackStep(d), n - 1)
  }

  /** One call: without a rollback directory there is nothing to do. */
  function RollbackCall(d: Disk, n: nat): (d': Disk)
  {
    if d.rollback.Tree? then RollbackFor(d, n) else d
  }

  function RollbackCalls(d: Disk, ns: seq<nat>): (d': Disk)
    decreases |ns|
  {
    if ns == [] then d else RollbackCalls(RollbackCall(d, ns[0]), ns[1..])
  }

  lemma {:induction false} RollbackKeeps(d: Disk, n: nat)
    requires OldOnce(d)
    ensures OldOnce(RollbackFor(d, n))
    ensures n >= Distance(d) ==> RollbackFor(d, n).target == OLD && RollbackDone(RollbackFor(d, n))
    decreases n
  {
    if n > 0 {
      RollbackKeeps(RollbackStep(d), n - 1);
    }
  }

  function Weight(s: Slot): (n: nat)
  {
    if s == Absent then 0 else if s.whole then 2 else 1
  }

  /** How many steps a call still has to make. */
  function Distance(d: Disk): (n: nat)
    ensures n <= 5
  {
    (if d.rollback.Tree? then Weight(d.target) + 1 else 0) + Weight(d.stage)
  }

  /**
   Calls that stop anywhere, any number of them, followed by one that runs to its end:
   the old tree is in place and there is no rollback directory.
   */
  lemma {:induction false} RollbackIdempotent(d: Disk, ns: seq<nat>, n: nat)
    requires OldOnce(d) && n >= 5
    ensures var d' := RollbackCall(RollbackCalls(d, ns), n); d'.target == OLD && d'.rollback == Absent
    decreases |ns|
  {
    if ns == [] {
      RollbackKeeps(d, n);
    } else {
      RollbackKeeps(d, ns[0]);
      RollbackIdempotent(RollbackCall(d, ns[0]), ns[1..], n);
    }
  }

  // ----- where recovery goes wrong -----

  /** The replacing use case up to the point where the stage is in place and recorded. */
  const PUBLISHING: seq<Step> := [Begin, MoveTarget, RecordMoved, PublishStage, RecordPublished]

  function PublishedState(oldValid: bool): (s: Restore)
  {
    Restore(Disk(NEW, Absent, OLD, Some(StagePublished)), PublishedRecorded, false, oldValid)
  }

  function MovedState(oldValid: bool): (s: Restore)
  {
    Restore(Disk(Absent, NEW, OLD, Some(TargetMoved)), MovedRecorded, false, oldValid)
  }

  lemma {:induction false} ReachMoved(oldValid: bool)
    ensures var steps := [Begin, MoveTarget, RecordMoved];
            Run(Start(oldValid), steps) && Final(Start(oldValid), steps) == MovedState(oldValid)
  {
    var s2 := Restore(Disk(Absent, NEW, OLD, Some(Prepared)), Moved, false, oldValid);
    var s1 := Restore(Disk(OLD, NEW, Absent, Some(Prepared)), Journalled, false, oldValid);
    Last(s2, RecordMoved, MovedState(oldValid));
    Front(s1, MoveTarget, s2, [RecordMoved], MovedState(oldValid));
    Front(Start(oldValid), Begin, s1, [MoveTarget] + [RecordMoved], MovedState(oldValid));
    assert [Begin, MoveTarget, RecordMoved] == [Begin] + ([MoveTarget] + [RecordMoved]);
  }

  lemma {:induction false} ReachPublished(oldValid: bool)
    ensures Run(Start(oldValid), PUBLISHING) && Final(Start(oldValid), PUBLISHING) == PublishedState(oldValid)
  {
    var s4 := Restore(Disk(NEW, Absent, OLD, Some(TargetMoved)), Published, false, oldValid);
    ReachMoved(oldValid);
    Last(s4, RecordPublished, PublishedState(oldValid));
    Front(MovedState(oldValid), PublishStage, s4, [RecordPublished], PublishedState(oldValid));
    var a, b := [Begin, MoveTarget, RecordMoved], [PublishStage] + [RecordPublished];
    RunConcat(Start(oldValid), a, b);
    assert PUBLISHING == a + b;
  }

  lemma {:induction false} RunConcat(s: Restore, a: seq<Step>, b: seq<Step>)
    requires Run(s, a) && Run(Final(s, a), b)
    ensures Run(s, a + b) && Final(s, a + b) == Final(Final(s, a), b)
    decreases |a|
  {
    if a == [] {
      assert a + b == b;
    } else {
      RunConcat(Next(s, a[0]), a[1..], b);
      assert (a + b)[1..] == a[1..] + b;
    }
  }

  lemma {:induction false} Last(s: Restore, step: Step, s': Restore)
    requires Enabled(s, step) && Next(s, step) == s'
    ensures Run(s, [step]) && Final(s, [step]) == s'
  {
    assert [step][1..] == [];
  }

  lemma {:induction false} Front(s: Restore, step: Step, s1: Restore, steps: seq<Step>, s': Restore)
    requires Enabled(s, step) && Next(s, step) == s1 && Run(s1, steps) && Final(s1, steps) == s'
    ensures Run(s, [step] + steps) && Final(s, [step] + steps) == s'
  {
    assert ([step] + steps)[1..] == steps;
  }

  /**
   It fails there, stops while the rollback deletes the published tree, and recovery takes
   what is left of it for valid.
   */
  const LOSING: seq<Step> := [Fail, RollOne, Stop, Recover(true, true), CleanOne, CleanOne]

  /** After such a run neither place holds an intact tree. */
  lemma {:induction false} DamagedTargetCommitted(oldValid: bool)
    ensures Run(Start(oldValid), PUBLISHING + LOSING)
    ensures var d := Final(Start(oldValid), PUBLISHING + LOSING).disk;
            d.target == Tree(New, false) && d.rollback == Absent && d.stage == Absent
  {
    ReachPublished(oldValid);
    LosingRun(oldValid);
    RunConcat(Start(oldValid), PUBLISHING, LOSING);
  }

  function HalfDeleted(oldValid: bool): (s: Restore)
  {
    Restore(Disk(Tree(New, false), Absent, OLD, Some(StagePublished)), RollingBack, false, oldValid)
  }

  lemma {:induction false} LosingRun(oldValid: bool)
    ensures Run(PublishedState(oldValid), LOSING)
    ensures var d := Final(PublishedState(oldValid), LOSING).disk;
            d.target == Tree(New, false) && d.rollback == Absent && d.stage == Absent
  {
    var s0 := PublishedState(oldValid);
    var s1 := s0.(phase := RollingBack);
    Last(s1, RollOne, HalfDeleted(oldValid));
    Front(s0, Fail, s1, [RollOne], HalfDeleted(oldValid));
    LosingEnd(oldValid);
    var a, b := [Fail] + [RollOne], [Stop, Recover(true, true), CleanOne, CleanOne];
    RunConcat(s0, a, b);
    assert LOSING == a + b;
  }

  lemma {:induction false} LosingEnd(oldValid: bool)
    ensures var steps := [Stop, Recover(true, true), CleanOne, CleanOne];
            && Run(HalfDeleted(oldValid), steps)
            && var d := Final(HalfDeleted(oldValid), steps).disk;
            && d.target == Tree(New, false) && d.rollback == Absent && d.stage == Absent
  {
    var s2 := HalfDeleted(oldValid);
    var s3 := s2.(phase := Stopped);
    var s4 := s3.(phase := Cleaning, committed := true);
    var s5 := s4.(disk := s4.disk.(rollback := Tree(Old, false)));
    var s6 := s4.(disk := s4.disk.(rollback := Absent));
    Last(s5, CleanOne, s6);
    Front(s4, CleanOne, s5, [CleanOne], s6);
    Front(s3, Recover(true, true), s4, [CleanOne] + [CleanOne], s6);
    Front(s2, Stop, s3, [Recover(true, true)] + ([CleanOne] + [CleanOne]), s6);
    assert [Stop, Recover(true, true), CleanOne, CleanOne]
        == [Stop] + ([Recover(true, true)] + ([CleanOne] + [CleanOne]));
  }

  /** Recovery keeps an intact tree, whatever happens to it afterwards, exactly when the target is not misread. */
  lemma {:induction false} RecoverySafeExactly(s: Restore, targetReadable: bool, rollbackReadable: bool)
    requires Inv(s) && s.phase == Stopped
    ensures var s' := Next(s, Recover(targetReadable, rollbackReadable));
            && (Inv(s') <==> !Misread(s, targetReadable))
            && (Misread(s, targetReadable) ==>
                  && s'.phase == Cleaning
                  && var d := CleanupStep(CleanupStep(s'.disk)); d.target == s.disk.target && d.rollback == Absent)
  {
  }

  /**
   When recovery gives up. With a valid old tree: exactly when the target was moved, is
   in place again, and no valid rollback directory says which tree it is. Without one:
   at every point except where the stage is recorded as published and valid.
   */
  lemma {:induction false} AmbiguousExactly(s: Restore, targetReadable: bool, rollbackReadable: bool)
    requires Inv(s) && s.phase == Stopped && s.disk.journal.Some?
    ensures var d := s.disk;
            DecisionFor(s, targetReadable, rollbackReadable) == Ambiguous <==>
              if s.oldValid then
                && d.journal == Some(TargetMoved) && d.target.Tree? && d.target.whole
                && !(d.rollback.Tree? && (d.rollback.whole || rollbackReadable))
              else
                !(d.journal == Some(StagePublished)
                  && (d.target == NEW || (d.target == Tree(New, false) && targetReadable)))
  {
  }

  /**
   Without a readable revision in the old tree, a restore that stops before the stage
   is recorded as published is never resolved, although both trees are intact.
   */
  lemma {:induction false} UnreadableOldUnresolved(targetReadable: bool, rollbackReadable: bool)
    ensures Run(Start(false), [Begin, Stop])
    ensures var s := Final(Start(false), [Begin, Stop]);
            && s.disk.target == OLD && s.disk.stage == NEW && s.phase == Stopped
            && Next(s, Recover(targetReadable, rollbackReadable)) == s
  {
    var s1 := Restore(Disk(OLD, NEW, Absent, Some(Prepared)), Journalled, false, false);
    var s2 := s1.(phase := Stopped);
    Last(s1, Stop, s2);
    Front(Start(false), Begin, s1, [Stop], s2);
    assert [Begin, Stop] == [Begin] + [Stop];
  }

  /**
   The first recovery that reports a completed commit has the new tree in place exactly
   when the target is not misread and a rollback directory is still there. Without that
   directory it is the old tree that is in place, and the rollback that put it there is
   reported as a commit.
   */
  lemma {:induction false} CommitReportedExactly(s: Restore, targetReadable: bool, rollbackReadable: bool)
    requires Inv(s) && s.phase == Stopped && DecisionFor(s, targetReadable, rollbackReadable) == Commit
    ensures !s.committed ==> (s.disk.target == NEW <==> !Misread(s, targetReadable) && s.disk.rollback.Tree?)
    ensures !s.committed && s.disk.rollback == Absent ==> s.disk.target == OLD
    ensures s.disk.target == OLD ==> s.disk.journal == Some(StagePublished) && s.disk.rollback == Absent && s.oldValid
  {
  }

  /** From the first such report on, with a whole tree in place, no step changes the target. */
  lemma {:induction false} CommitSettles(s: Restore, step: Step)
    requires Inv(s) && s.committed && s.phase in {Cleaning, Stopped, Finished}
    requires s.disk.target == NEW || s.disk.target == OLD
    requires Enabled(s, step)
    ensures var s' := Next(s, step);
            s'.disk.target == s.disk.target && s'.committed && s'.phase in {Cleaning, Stopped, Finished}
  {
  }

  /** A finished rollback that stops before the journal is deleted. */
  const MISREPORTED: seq<Step> := [Fail, RollOne, RollOne, RollOne, Stop]

  /** It is reported as a completed commit, with the old tree in place, when that tree is valid. */
  lemma {:induction false} RolledBackReportedAsCommit(oldValid: bool)
    ensures Run(Start(oldValid), PUBLISHING + MISREPORTED)
    ensures var s := Final(Start(oldValid), PUBLISHING + MISREPORTED);
            && s.disk.target == OLD && s.phase == Stopped
            && DecisionFor(s, false, false) == if oldValid then Commit else Ambiguous
  {
    ReachPublished(oldValid);
    MisreportedRun(oldValid);
    RunConcat(Start(oldValid), PUBLISHING, MISREPORTED);
  }

  lemma {:induction false} MisreportedRun(oldValid: bool)
    ensures Run(PublishedState(oldValid), MISREPORTED)
    ensures Final(PublishedState(oldValid), MISREPORTED)
         == Restore(Disk(OLD, Absent, Absent, Some(StagePublished)), Stopped, false, oldValid)
  {
    var s0 := PublishedState(oldValid);
    var s1 := s0.(phase := RollingBack);
    var s2 := s1.(disk := s1.disk.(target := Tree(New, false)));
    var s3 := s1.(disk := s1.disk.(target := Absent));
    var s4 := s1.(disk := s1.disk.(target := OLD, rollback := Absent));
    var s5 := s4.(phase := Stopped);
    Last(s4, Stop, s5);
    Front(s3, RollOne, s4, [Stop], s5);
    Front(s2, RollOne, s3, [RollOne] + [Stop], s5);
    Front(s1, RollOne, s2, [RollOne] + ([RollOne] + [Stop]), s5);
    Front(s0, Fail, s1, [RollOne] + ([RollOne] + ([RollOne] + [Stop])), s5);
    assert MISREPORTED == [Fail] + ([RollOne] + ([RollOne] + ([RollOne] + [Stop])));
  }

  // ----- the program -----

  /** `remove_dir_all` with so many steps left before the process stops. */
  method RemoveTree(s: Slot, budget: nat) returns (s': Slot, left: nat)
    ensures s' == Absent ==> budget == left + Weight(s)
    ensures s' != Absent ==> left == 0 && Weight(s') + budget == Weight(s) && s'.content == s.content
  {
    s', left := s, budget;
    while s'.Tree? && left > 0
      invariant s'.Tree? ==> s.Tree? && s'.content == s.content
      invariant left <= budget && Weight(s') + (budget - left) == Weight(s)
      decreases left
    {
      s', left := Deleting(s'), left - 1;
    }
  }

  datatype RollbackOutcome = Restored | NotRequired

  /** `FileReplaceRestorePublisher`; every method may be stopped after `budget` file operations. */
  class Publisher {
    var target: Slot
    var stage: Slot
    var rollback: Slot
    var journal: Option<TxState>

    ghost function Value(): Disk
      reads this
    {
      Disk(target, stage, rollback, journal)
    }

    constructor (target: Slot, stage: Slot)
      ensures Value() == Disk(target, stage, Absent, None)
    {
      this.target, this.stage, rollback, journal := target, stage, Absent, None;
    }

    /** Renaming a directory works when it is there and nothing is in its way. */
    method MoveTargetToRollback() returns (ok: bool)
      modifies `target, `rollback
      ensures ok == (old(target).Tree? && old(rollback) == Absent)
      ensures ok ==> target == Absent && rollback == old(target)
      ensures !ok ==> target == old(target) && rollback == old(rollback)
    {
      ok := target.Tree? && rollback == Absent;
      if ok {
        rollback, target := target, Absent;
      }
    }

    method PublishStage() returns (ok: bool)
      modifies `target, `stage
      ensures ok == (old(stage).Tree? && old(target) == Absent)
      ensures ok ==> stage == Absent && target == old(stage)
      ensures !ok ==> target == old(target) && stage == old(stage)
    {
      ok := stage.Tree? && target == Absent;
      if ok {
        target, stage := stage, Absent;
      }
    }

    /** Returns nothing when it was stopped. */
    method RollbackAfterFailure(budget: nat) returns (outcome: Option<RollbackOutcome>)
      modifies `target, `stage, `rollback
      ensures Value() == RollbackCall(old(Value()), budget)
      ensures outcome == Some(NotRequired) <==> !old(rollback).Tree?
      ensures outcome == Some(Restored) ==> target == old(rollback) && rollback == Absent && stage == Absent
    {
      if !rollback.Tree? {
        return Some(NotRequired);
      }
      ghost var d := Value();
      var left: nat;
      target, left := RemoveTree(target, budget);
      RollbackDeletes(d, target, budget, left);
      if target.Tree? || left == 0 {
        return None;
      }
      target, rollback := rollback, Absent;
      left := left - 1;
      ghost var e := Value();
      ghost var before := left;
      stage, left := RemoveTree(stage, left);
      RollbackClears(e, stage, before, left);
      return if stage.Tree? then None else Some(Restored);
    }
  }

  /** The first part of a rollback: the target goes. */
  lemma {:induction false} RollbackDeletes(d: Disk, t: Slot, budget: nat, left: nat)
    requires d.rollback.Tree?
    requires t == Absent ==> budget == left + Weight(d.target)
    requires t != Absent ==> left == 0 && Weight(t) + budget == Weight(d.target) && t.content == d.target.content
    ensures RollbackFor(d, budget) == RollbackFor(d.(target := t), left)
    decreases budget
  {
    if d.target.Tree? && budget > 0 {
      RollbackDeletes(RollbackStep(d), t, budget - 1, left);
    }
  }

  /** The last part: the stage goes. */
  lemma {:induction false} RollbackClears(d: Disk, stage: Slot, budget: nat, left: nat)
    requires d.rollback == Absent
    requires stage == Absent ==> budget == left + Weight(d.stage)
    requires stage != Absent ==>
               left == 0 && Weight(stage) + budget == Weight(d.stage) && stage.content == d.stage.content
    ensures RollbackFor(d, budget) == d.(stage := stage)
    decreases budget
  {
    if budget > 0 {
      if d.stage.Tree? {
        RollbackClears(RollbackStep(d), stage, budget - 1, left);
      } else {
        RollbackClears(d, stage, budget - 1, left - 1);
      }
    }
  }
}
