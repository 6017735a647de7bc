/**
 Whole runs of the ledger: appends, crashes at any point, reopens, and crashes while the
 recovery record of a reopen is being written, in any order.
 */
module AuditRuns {
  import opened Bytes
  import opened AuditTypes
  import opened AuditFrames
  import opened AuditLog
  import opened AuditScan
  import opened AuditAppend
  import opened AuditCrash
  import opened AuditHistory
  import opened AuditBounds
  import opened AuditLimit

  /** A running ledger, or the files a crash left behind. */
  datatype State = Up(log: Log) | Down(log: Log, tail: seq<Byte>)

  datatype Event =
    | Write(record: Record)
    | Crash(record: Record, at: CrashPoint)
    | Reopen(context: Context)
    | CrashReopen(context: Context, at: CrashPoint)

  predicate Sound(env: Env, opts: Options, st: State) {
    && opts.Valid()
    && WellFormed(env, opts, st.log)
    && (st.Down? ==> Recoverable(env, opts, st.log, st.tail))
  }

  /** An append of this record can start. */
  ghost predicate CanAppend(env: Env, opts: Options, log: Log, record: Record)
    requires log != []
  {
    Legal(env, opts, log, record) && Admit(env, opts, record).Ok?
  }

  /**
   It can stop here with files that a scan does not refuse for their number of frames;
   between removals the cut is vouched for.
   */
  ghost predicate CanStop(env: Env, opts: Options, log: Log, record: Record, at: CrashPoint)
    requires log != []
  {
    && CanAppend(env, opts, log, record)
    && Possible(env, opts, log, record, at)
    && Scannable(opts, CrashBase(env, opts, log, record, at), CrashTail(env, opts, log, record, at))
    && (at.Removing? && 0 < at.j < Plan(env, opts, log, record).count ==> CutVouched(env, log, at.j))
  }

  ghost predicate Enabled(env: Env, opts: Options, st: State, e: Event)
    requires st.log != []
  {
    match e
    case Write(record) => st.Up? && CanAppend(env, opts, st.log, record)
    case Crash(record, at) => st.Up? && CanStop(env, opts, st.log, record, at)
    case Reopen(context) =>
      st.Down? && env.Lawful() && Countable(st.log, 2) && CanRecord(env, opts, context)
    case CrashReopen(context, at) =>
      && st.Down? && st.tail != []
      && CanRecord(env, opts, context)
      && CanStop(env, opts, st.log, RecoveryRecord(context), at)
  }

  /** The state after an event; its definition shows that no enabled append or reopen fails. */
  ghost function After(env: Env, opts: Options, st: State, e: Event): (st': State)
    requires Sound(env, opts, st) && Enabled(env, opts, st, e)
    ensures Sound(env, opts, st')
  {
    match e
    case Write(record) =>
      AppendKeeps(env, opts, st.log, record);
      Up(Append(env, opts, st.log, record).value)
    case Crash(record, at) =>
      CrashRecoverable(env, opts, st.log, record, at);
      Down(CrashBase(env, opts, st.log, record, at), CrashTail(env, opts, st.log, record, at))
    case Reopen(context) =>
      ReopenSucceeds(env, opts, st, context);
      Up(Open(env, opts, Some(context), RenderTail(env, st.log, st.tail)).value)
    case CrashReopen(context, at) =>
      CrashRecoverable(env, opts, st.log, RecoveryRecord(context), at);
      Down(CrashBase(env, opts, st.log, RecoveryRecord(context), at),
           CrashTail(env, opts, st.log, RecoveryRecord(context), at))
  }

  lemma {:induction false} ReopenSucceeds(env: Env, opts: Options, st: State, context: Context)
    requires Sound(env, opts, st) && Enabled(env, opts, st, Reopen(context))
    ensures Open(env, opts, Some(context), RenderTail(env, st.log, st.tail)).Ok?
    ensures WellFormed(env, opts, Open(env, opts, Some(context), RenderTail(env, st.log, st.tail)).value)
  {
    OpenRecovers(env, opts, context, st.log, st.tail);
    RecoveryAppend(env, opts, st.log, context);
  }

  /** The frames an event makes durable. */
  ghost function Added(env: Env, opts: Options, st: State, e: Event): (fs: seq<Frame>)
    requires Sound(env, opts, st) && Enabled(env, opts, st, e)
  {
    match e
    case Write(record) =>
      AppendKeeps(env, opts, st.log, record);
      Planned(env, opts, st.log, record)
    case Crash(record, at) =>
      Planned(env, opts, st.log, record)[..Written(env, opts, st.log, record, at)]
    case Reopen(context) =>
      RecoveryAppend(env, opts, st.log, context);
      if st.tail == [] then [] else Planned(env, opts, st.log, RecoveryRecord(context))
    case CrashReopen(context, at) =>
      Planned(env, opts, st.log, RecoveryRecord(context))[..Written(env, opts, st.log, RecoveryRecord(context), at)]
  }

  /** Every event only drops oldest frames and adds its own at the end. */
  lemma {:induction false} StepSlides(env: Env, opts: Options, st: State, e: Event) returns (k: nat)
    requires Sound(env, opts, st) && Enabled(env, opts, st, e)
    ensures Slid(Flat(st.log), k, Added(env, opts, st, e), Flat(After(env, opts, st, e).log))
  {
    match e
    case Write(record) =>
      AppendKeeps(env, opts, st.log, record);
      k := PrunedFrames(env, opts, st.log, NextSize(env, record), record.context.receivedAt);
      Assoc(Flat(st.log)[k..], Interposed(env, opts, st.log, NextSize(env, record), record.context.receivedAt),
            [RecordFrame(env, opts, st.log, record)]);
    case Crash(record, at) =>
      k := Dropped(env, opts, st.log, record, at);
      CrashFrames(env, opts, st.log, record, at);
    case Reopen(context) =>
      OpenRecovers(env, opts, context, st.log, st.tail);
      RecoveryAppend(env, opts, st.log, context);
      var recovery := RecoveryRecord(context);
      if st.tail == [] {
        k := 0;
        assert Flat(st.log)[0..] + [] == Flat(st.log);
      } else {
        k := PrunedFrames(env, opts, st.log, NextSize(env, recovery), context.receivedAt);
      }
    case CrashReopen(context, at) =>
      k := Dropped(env, opts, st.log, RecoveryRecord(context), at);
      CrashFrames(env, opts, st.log, RecoveryRecord(context), at);
  }

  // ----- runs -----

  /** The ledger as a system over its retained frames. */
  ghost function Ledger(env: Env, opts: Options): (sys: System<State, Event, Frame>)
  {
    System(
      (st, e) => Sound(env, opts, st) && Enabled(env, opts, st, e),
      (st, e) => if Sound(env, opts, st) && Enabled(env, opts, st, e) then After(env, opts, st, e) else st,
      (st: State) => Flat(st.log),
      (st, e) => if Sound(env, opts, st) && Enabled(env, opts, st, e) then Added(env, opts, st, e) else [])
  }

  lemma {:induction false} LedgerSlides(env: Env, opts: Options)
    ensures Slides(Ledger(env, opts))
  {
    var sys := Ledger(env, opts);
    forall st, e | sys.enabled(st, e)
      ensures exists k :: Slid(sys.kept(st), k, sys.added(st, e), sys.kept(sys.next(st, e)))
    {
      var k := StepSlides(env, opts, st, e);
      assert Slid(sys.kept(st), k, sys.added(st, e), sys.kept(sys.next(st, e)));
    }
  }

  lemma {:induction false} FinalSound(env: Env, opts: Options, st: State, events: seq<Event>)
    requires Sound(env, opts, st) && Run(Ledger(env, opts), st, events)
    ensures Sound(env, opts, Final(Ledger(env, opts), st, events))
  {
    FinalKeeps(Ledger(env, opts), st, events, s => Sound(env, opts, s));
  }

  // ----- nothing goes without a checkpoint -----

  /** Every event raises the head by the number of frames it makes durable. */
  lemma {:induction false} StepCounts(env: Env, opts: Options, st: State, e: Event)
    requires Sound(env, opts, st) && Enabled(env, opts, st, e)
    ensures LastSequence(Flat(After(env, opts, st, e).log))
         == LastSequence(Flat(st.log)) + |Added(env, opts, st, e)|
  {
    match e
    case Write(record) =>
      AppendCounts(env, opts, st.log, record);
    case Crash(record, at) =>
      CrashSequence(env, opts, st.log, record, at);
    case Reopen(context) =>
      OpenRecovers(env, opts, context, st.log, st.tail);
      assert Legal(env, opts, st.log, RecoveryRecord(context));
      AppendCounts(env, opts, st.log, RecoveryRecord(context));
    case CrashReopen(context, at) =>
      CrashSequence(env, opts, st.log, RecoveryRecord(context), at);
  }

  lemma {:induction false} AppendCounts(env: Env, opts: Options, log: Log, record: Record)
    requires WellFormed(env, opts, log) && CanAppend(env, opts, log, record)
    ensures Append(env, opts, log, record).Ok?
    ensures Prepared(env, opts, log, NextSize(env, record), record.context.receivedAt).Ok?
    ensures LastSequence(Flat(Append(env, opts, log, record).value))
         == LastSequence(Flat(log)) + |Planned(env, opts, log, record)|
  {
    AppendIsWritten(env, opts, log, record);
    CrashSequence(env, opts, log, record, RecordWritten);
  }

  /** A log holds as many frames as its head counts, exactly when it still starts at its first segment. */
  lemma {:induction false} HeadCounts(env: Env, opts: Options, log: Log)
    requires WellFormed(env, opts, log)
    ensures |Flat(log)| <= LastSequence(Flat(log))
    ensures log[0].number <= 1 ==> |Flat(log)| == LastSequence(Flat(log))
  {
    var fs := Flat(log);
    if fs != [] {
      FirstSequencePositive(env, opts, log);
      SequencesCount(env, fs, |fs| - 1);
    }
  }

  /** One frame directly after another, as a relation. */
  ghost function Succession(env: Env): (join: (Frame, Frame) -> bool)
  {
    (f, g) => Follows(env, f, g)
  }

  lemma {:induction false} LinkedChained(env: Env, fs: seq<Frame>)
    ensures Linked(env, fs) <==> Chained(Succession(env), fs)
  {
    forall i | 0 < i < |fs| ensures FollowsAt(env, fs, i) <==> JoinedAt(Succession(env), fs, i) {
    }
    if Linked(env, fs) {
      forall i | 0 < i < |fs| ensures JoinedAt(Succession(env), fs, i) {
        assert FollowsAt(env, fs, i);
      }
    }
    if Chained(Succession(env), fs) {
      forall i | 0 < i < |fs| ensures FollowsAt(env, fs, i) {
        assert JoinedAt(Succession(env), fs, i);
      }
    }
  }

  /** An event does not empty the ledger. */
  lemma {:induction false} StepLeaves(env: Env, opts: Options, st: State, e: Event)
    requires Sound(env, opts, st) && Enabled(env, opts, st, e)
    ensures Flat(After(env, opts, st, e).log) == [] ==> Flat(st.log) == []
  {
    StepCounts(env, opts, st, e);
    HeadCounts(env, opts, st.log);
  }

  /** What an event makes durable continues the chain. */
  lemma {:induction false} StepContinues(env: Env, opts: Options, st: State, e: Event)
    requires Sound(env, opts, st) && Enabled(env, opts, st, e)
    ensures Linked(env, Flat(st.log) + Added(env, opts, st, e))
  {
    match e
    case Write(record) =>
      PlannedLinked(env, opts, st.log, record);
    case Crash(record, at) =>
      PartLinked(env, opts, st.log, record, Written(env, opts, st.log, record, at));
    case Reopen(context) =>
      assert Legal(env, opts, st.log, RecoveryRecord(context));
      PlannedLinked(env, opts, st.log, RecoveryRecord(context));
      assert Flat(st.log) + [] == Flat(st.log);
    case CrashReopen(context, at) =>
      PartLinked(env, opts, st.log, RecoveryRecord(context), Written(env, opts, st.log, RecoveryRecord(context), at));
  }

  lemma {:induction false} PartLinked(env: Env, opts: Options, log: Log, record: Record, w: nat)
    requires WellFormed(env, opts, log) && Legal(env, opts, log, record)
    requires Prepared(env, opts, log, NextSize(env, record), record.context.receivedAt).Ok?
    requires w <= |Planned(env, opts, log, record)|
    ensures Linked(env, Flat(log) + Planned(env, opts, log, record)[..w])
  {
    PlannedLinked(env, opts, log, record);
    var all, part := Flat(log) + Planned(env, opts, log, record), Flat(log) + Planned(env, opts, log, record)[..w];
    forall i | 0 < i < |part| ensures FollowsAt(env, part, i) {
      assert FollowsAt(env, all, i);
      assert part[i - 1] == all[i - 1] && part[i] == all[i];
    }
  }

  lemma {:induction false} LedgerProlongs(env: Env, opts: Options)
    ensures Prolongs(Ledger(env, opts), Succession(env))
  {
    var sys := Ledger(env, opts);
    forall st, e | sys.enabled(st, e)
      ensures Chained(Succession(env), sys.kept(st) + sys.added(st, e))
      ensures sys.kept(sys.next(st, e)) == [] ==> sys.kept(st) == []
    {
      StepLeaves(env, opts, st, e);
      StepContinues(env, opts, st, e);
      LinkedChained(env, sys.kept(st) + sys.added(st, e));
    }
  }

  /** A run raises the head by the number of frames it made durable. */
  lemma {:induction false} RunCounts(env: Env, opts: Options, st: State, events: seq<Event>)
    requires Run(Ledger(env, opts), st, events)
    ensures LastSequence(Flat(Final(Ledger(env, opts), st, events).log))
         == LastSequence(Flat(st.log)) + |Later(Ledger(env, opts), st, events)|
  {
    var sys, m := Ledger(env, opts), (st: State) => LastSequence(Flat(st.log));
    forall st, e | sys.enabled(st, e) ensures m(sys.next(st, e)) == m(st) + |sys.added(st, e)| {
      StepCounts(env, opts, st, e);
    }
    CountsAdded(sys, st, events, m);
  }

  /** The history is one hash chain. */
  lemma {:induction false} HistoryLinked(env: Env, opts: Options, st: State, events: seq<Event>)
    requires Sound(env, opts, st) && Run(Ledger(env, opts), st, events)
    ensures Linked(env, History(Ledger(env, opts), st, events))
  {
    LedgerSlides(env, opts);
    LedgerProlongs(env, opts);
    LinkedChained(env, Flat(st.log));
    HistoryChained(Ledger(env, opts), Succession(env), st, events);
    LinkedChained(env, History(Ledger(env, opts), st, events));
  }

  /** What is missing of a chain that is anchored where it goes on is vouched for. */
  lemma {:induction false} MissingVouched(env: Env, opts: Options, history: seq<Frame>, gone: nat, log: Log)
    requires WellFormed(env, opts, log) && log[0].number > 1
    requires Linked(env, history) && Retained(history, gone, Flat(log)) && gone > 0
    ensures RemovalVouched(env, history[..gone], Flat(log))
  {
    assert FollowsAt(env, history, gone);
    assert Flat(log)[0] == history[gone];
  }

  /**
   Over any run, whatever it mixes, the history of everything durable, in order, is one
   hash chain, and the retained frames are this history without some oldest part. The
   final state is sound, so it is open or can be reopened, and if a part is missing, a
   retained checkpoint names the sequence and the hash of its last frame.
   */
  lemma {:induction false} RunKeepsHistory(env: Env, opts: Options, st: State, events: seq<Event>) returns (gone: nat)
    requires Sound(env, opts, st) && Run(Ledger(env, opts), st, events)
    ensures Sound(env, opts, Final(Ledger(env, opts), st, events))
    ensures var history, last := History(Ledger(env, opts), st, events), Final(Ledger(env, opts), st, events).log;
            && Linked(env, history) && Retained(history, gone, Flat(last))
            && (gone > 0 ==> last[0].number > 1 && RemovalVouched(env, history[..gone], Flat(last)))
  {
    LedgerSlides(env, opts);
    FinalSound(env, opts, st, events);
    gone := RetainedKeeps(Ledger(env, opts), st, events);
    var history, last := History(Ledger(env, opts), st, events), Final(Ledger(env, opts), st, events).log;
    HistoryLinked(env, opts, st, events);
    RunCounts(env, opts, st, events);
    HeadCounts(env, opts, st.log);
    HeadCounts(env, opts, last);
    if gone > 0 {
      MissingVouched(env, opts, history, gone, last);
    }
  }

  /** An acknowledged write adds its checkpoint, if any, and ends with the record's own frame. */
  lemma {:induction false} WriteEndsHistory(env: Env, opts: Options, st: State, record: Record)
    requires Sound(env, opts, st) && Enabled(env, opts, st, Write(record))
    ensures var added := Added(env, opts, st, Write(record));
            added != [] && env.decode(added[|added| - 1].payload) == Ok((record, None))
  {
    AppendKeeps(env, opts, st.log, record);
  }

  /** The frame at this place carries the record. */
  ghost predicate Carries(env: Env, fs: seq<Frame>, place: nat, record: Record) {
    place < |fs| && env.decode(fs[place].payload) == Ok((record, None))
  }

  /** Where the history holds the frame of the record acknowledged by event i. */
  lemma {:induction false} AcknowledgedPlace(env: Env, opts: Options, st: State, events: seq<Event>, i: nat)
    returns (place: nat)
    requires Run(Ledger(env, opts), st, events) && i < |events| && events[i].Write?
    ensures Carries(env, History(Ledger(env, opts), st, events), place, events[i].record)
  {
    var sys := Ledger(env, opts);
    LedgerSlides(env, opts);
    EnabledAt(sys, st, events, i);
    var at := StateAt(sys, st, events, i);
    WriteEndsHistory(env, opts, at, events[i].record);
    place := PlaceOf(sys, st, events, i, |sys.added(at, events[i])| - 1);
  }

  /**
   An acknowledged record is never lost. Its frame keeps its place in the history, one
   hash chain over the whole run, crashes included; at the end it is either still in the
   ledger, at the same distance from the end, or it lies in the removed part, and a
   retained checkpoint names the sequence and the hash of the last frame of that part.
   */
  lemma {:induction false} AcknowledgedSurvives(env: Env, opts: Options, st: State, events: seq<Event>, i: nat)
    returns (gone: nat, place: nat)
    requires Sound(env, opts, st) && Run(Ledger(env, opts), st, events)
    requires i < |events| && events[i].Write?
    ensures Sound(env, opts, Final(Ledger(env, opts), st, events))
    ensures var history, last := History(Ledger(env, opts), st, events), Final(Ledger(env, opts), st, events).log;
            && Linked(env, history) && Retained(history, gone, Flat(last))
            && Carries(env, history, place, events[i].record)
            && (place >= gone ==> Flat(last)[place - gone] == history[place])
            && (place < gone ==> last[0].number > 1 && RemovalVouched(env, history[..gone], Flat(last)))
  {
    gone := RunKeepsHistory(env, opts, st, events);
    place := AcknowledgedPlace(env, opts, st, events, i);
  }

  // ----- runs of acknowledged appends -----

  function AppendAll(env: Env, opts: Options, log: Log, records: seq<Record>): (r: Result<Log, Code>)
    requires log != []
    ensures r.Ok? ==> r.value != []
    decreases |records|
  {
    if records == [] then Ok(log)
    else
      match Append(env, opts, log, records[0])
      case Err(code) => Err(code)
      case Ok(log') => AppendAll(env, opts, log', records[1..])
  }

  /** Records a caller may append: admissible, not checkpoints, with room for a checkpoint beside them. */
  ghost predicate Appendable(env: Env, opts: Options, records: seq<Record>) {
    forall i :: 0 <= i < |records| ==>
      && Admit(env, opts, records[i]).Ok?
      && records[i].kind != RetentionCheckpoint
      && records[i].context.receivedAt < U64_SPAN
      && Spacious(env, opts, NextSize(env, records[i]))
  }

  /** One append of a run: it succeeds, keeps the log well-formed, and keeps a bounded log bounded. */
  lemma {:induction false} AppendStep(env: Env, opts: Options, log: Log, record: Record, n: nat)
    requires WellFormed(env, opts, log)
    requires Legal(env, opts, log, record) && Admit(env, opts, record).Ok?
    requires Countable(log, n + 2)
    ensures Append(env, opts, log, record).Ok?
    ensures var log' := Append(env, opts, log, record).value;
            && WellFormed(env, opts, log') && Countable(log', n)
            && (Roomy(opts) && Bounded(env, opts, log) ==> Bounded(env, opts, log'))
  {
    AppendKeeps(env, opts, log, record);
    AppendIsWritten(env, opts, log, record);
    CrashHorizon(env, opts, log, record, RecordWritten, n);
    if Roomy(opts) && Bounded(env, opts, log) {
      AppendBounded(env, opts, log, record);
    }
  }

  /** Before each append of the run the counters are not used up. */
  ghost predicate Steady(env: Env, opts: Options, log: Log, records: seq<Record>)
    requires log != []
    decreases |records|
  {
    records != [] ==>
      && Countable(log, 2)
      && (Append(env, opts, log, records[0]).Ok? ==>
          Steady(env, opts, Append(env, opts, log, records[0]).value, records[1..]))
  }

  /** A number of frames fixed beforehand that the counters have room for is one way to be steady. */
  lemma {:induction false} CountableSteady(env: Env, opts: Options, log: Log, records: seq<Record>)
    requires env.Lawful() && opts.Valid() && WellFormed(env, opts, log)
    requires Appendable(env, opts, records) && Countable(log, 2 * |records|)
    ensures Steady(env, opts, log, records)
    decreases |records|
  {
    if records != [] {
      assert Legal(env, opts, log, records[0]);
      AppendStep(env, opts, log, records[0], 2 * |records| - 2);
      CountableSteady(env, opts, Append(env, opts, log, records[0]).value, records[1..]);
    }
  }

  /**
   Reopening refines memory, over every run: any number of appends with any mix of
   rotations and retentions succeeds, and reopening its files gives back exactly the
   log the running ledger holds, unless it holds more frames than a scan takes. A
   bounded ledger stays bounded throughout.
   */
  lemma {:induction false} RunReopens(env: Env, opts: Options, log: Log, records: seq<Record>,
                                      recovery: Option<Context>)
    requires env.Lawful() && opts.Valid() && WellFormed(env, opts, log)
    requires Appendable(env, opts, records) && Steady(env, opts, log, records)
    requires recovery.Some? ==> recovery.value.actor == SystemRecoveryActor
    ensures var r := AppendAll(env, opts, log, records);
            && r.Ok? && WellFormed(env, opts, r.value)
            && Open(env, opts, recovery, Render(env, r.value))
               == (if |Flat(r.value)| <= opts.maxScan then Ok(r.value) else Err(CapacityReached))
            && (Roomy(opts) && Bounded(env, opts, log) ==> Bounded(env, opts, r.value))
    decreases |records|
  {
    if records == [] {
      ReopensExactly(env, opts, recovery, log);
    } else {
      assert Legal(env, opts, log, records[0]);
      AppendStep(env, opts, log, records[0], 0);
      RunReopens(env, opts, Append(env, opts, log, records[0]).value, records[1..], recovery);
    }
  }

  /** Where the total limit allows no more frames than a scan takes, no such condition is left. */
  lemma {:induction false} BoundedRunReopens(env: Env, opts: Options, log: Log, records: seq<Record>,
                                             recovery: Option<Context>)
    requires env.Lawful() && opts.Valid() && Roomy(opts) && WellFormed(env, opts, log) && Bounded(env, opts, log)
    requires Appendable(env, opts, records) && Steady(env, opts, log, records)
    requires recovery.Some? ==> recovery.value.actor == SystemRecoveryActor
    requires opts.maxTotal < (HEADER_LEN + HASH_LEN) * (opts.maxScan + 1)
    ensures var r := AppendAll(env, opts, log, records);
            r.Ok? && Bounded(env, opts, r.value) && Open(env, opts, recovery, Render(env, r.value)) == Ok(r.value)
  {
    RunReopens(env, opts, log, records, recovery);
    FramesTakeBytes(env, AppendAll(env, opts, log, records).value);
  }

  /**
   From a bounded ledger no further condition is needed: after any run of appends, one
   more append may stop at any point at all and the ledger reopens. The scan limit is
   asked only of the ledger that is stopped, and not at all where the total limit
   allows no more frames than a scan takes.
   */
  lemma {:induction false} BoundedRunSurvivesCrash(env: Env, opts: Options, log: Log, records: seq<Record>,
                                                   record: Record, at: CrashPoint, context: Context)
    requires env.Lawful() && opts.Valid() && Roomy(opts)
    requires WellFormed(env, opts, log) && Bounded(env, opts, log)
    requires Appendable(env, opts, records) && Appendable(env, opts, [record])
    requires Steady(env, opts, log, records) && CanRecord(env, opts, context)
    ensures var r := AppendAll(env, opts, log, records);
            && r.Ok?
            && (Countable(r.value, 4) && Possible(env, opts, r.value, record, at)
                && (|Flat(r.value)| < opts.maxScan || opts.maxTotal < (HEADER_LEN + HASH_LEN) * opts.maxScan) ==>
                  Open(env, opts, Some(context), CrashDisk(env, opts, r.value, record, at)).Ok?)
  {
    RunReopens(env, opts, log, records, None);
    var l := AppendAll(env, opts, log, records).value;
    FramesTakeBytes(env, l);
    if Countable(l, 4) && |Flat(l)| < opts.maxScan {
      assert [record][0] == record;
      BoundedCrash(env, opts, l, record, at, context);
    }
  }

  lemma {:induction false} BoundedCrash(env: Env, opts: Options, log: Log, record: Record, at: CrashPoint,
                                        context: Context)
    requires Roomy(opts) && WellFormed(env, opts, log) && Bounded(env, opts, log)
    requires Legal(env, opts, log, record) && Admit(env, opts, record).Ok?
    requires Countable(log, 4) && |Flat(log)| < opts.maxScan && CanRecord(env, opts, context)
    ensures Possible(env, opts, log, record, at) ==>
              Open(env, opts, Some(context), CrashDisk(env, opts, log, record, at)).Ok?
  {
    if Possible(env, opts, log, record, at) {
      OneAtATime(env, opts, log, record);
      CrashScannable(env, opts, log, record, at);
      CrashConsistency(env, opts, log, record, at, context);
    }
  }
}
