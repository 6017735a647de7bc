/**
 The ledger shared between clones: every call holds the lock, so any interleaving of the
 clients is a sequence of calls. Main result: a terminal record that was accepted with
 the head its own intent returned follows that intent directly, but for at most one
 retention checkpoint.
 */
module AuditShared {
  import opened Bytes
  import opened AuditTypes
  import opened AuditFrames
  import opened AuditLog
  import opened AuditAppend
  import opened AuditCrash
  import opened AuditQueries
  import AuditRuns

  /** The locked ledger: its log, and whether its writer still accepts records. */
  datatype Shared = Shared(log: Log, writable: bool)

  datatype Call =
    | AppendIntent(record: Record)
    | AppendTerminal(record: Record, expected: Head)
    | AppendReconciliation(record: Record, expected: Head)
    | AppendObservation(record: Record)

  /**
   A file operation that fails: its error, and the log the ledger is left with. A frame
   that cannot be written may leave the segment created for it, and a failed removal
   comes after the checkpoint was appended, so the head may have moved.
   */
  datatype Failure = Failure(code: Code, left: Log)

  /** A call, and the failure that stops it, if one does. */
  datatype Turn = Turn(call: Call, failure: Option<Failure>)

  /** What a failure can leave: the same log, that log with a new empty segment, or one with a later head. */
  predicate Leaves(log: Log, left: Log)
    requires Packed(log)
  {
    left == log || (Packed(left) && (left == Rotated(log) || HeadOf(left).sequence > HeadOf(log).sequence))
  }

  /** A call carries the head it expects, or none. */
  function Expected(call: Call): (h: Option<Head>)
  {
    match call
    case AppendTerminal(_, h) => Some(h)
    case AppendReconciliation(_, h) => Some(h)
    case _ => None
  }

  /** One call under the lock: the ledger after it, and the reply. */
  function Serve(env: Env, opts: Options, st: Shared, t: Turn): (r: (Shared, Result<Head, Code>))
    requires Packed(st.log) && (t.failure.Some? ==> Leaves(st.log, t.failure.value.left))
    ensures r.0.log != [] && (r.1.Err? && r.0.writable ==> r.0.log == st.log)
  {
    var record := t.call.record;
    if Expected(t.call).Some? && Expected(t.call).value != HeadOf(st.log) then (st, Err(RecordInvalid))
    else if !st.writable then (st, Err(Unavailable))
    else
      match Admit(env, opts, record)
      case Err(code) => (st, Err(code))
      case Ok(_) =>
        if t.failure.Some? then (Shared(t.failure.value.left, false), Err(t.failure.value.code))
        else Granted(st, Append(env, opts, st.log, record))
  }

  function Granted(st: Shared, appended: Result<Log, Code>): (r: (Shared, Result<Head, Code>))
    requires st.log != []
    ensures r.0.log != [] && (r.1.Err? ==> r.0.log == st.log)
  {
    if appended.Ok? && Packed(appended.value) then (Shared(appended.value, true), Ok(HeadOf(appended.value)))
    else (Shared(st.log, false), Err(CapacityReached))
  }

  // ----- what one call does -----

  /** One frame comes directly after another, or with a single checkpoint between them. */
  ghost predicate Adjacent(env: Env, last: Frame, own: Frame) {
    || Follows(env, last, own)
    || exists c: Frame :: Follows(env, last, c) && PrunedOf(env, c).Some? && Follows(env, c, own)
  }

  /** The last frame of the log is the record's. */
  ghost predicate EndsWith(env: Env, log: Log, record: Record) {
    Flat(log) != [] && env.decode(Flat(log)[|Flat(log)| - 1].payload) == Ok((record, None))
  }

  predicate Headed(log: Log) {
    log != [] && log[0].number > 0
  }

  /** The log l' is l with the record at its end, and perhaps a checkpoint before it. */
  ghost predicate Extends(env: Env, l: Log, record: Record, l': Log)
    requires Headed(l) && Headed(l')
  {
    && EndsWith(env, l', record)
    && HeadOf(l').sequence > HeadOf(l).sequence
    && (Flat(l) != [] ==> Adjacent(env, Flat(l)[|Flat(l)| - 1], Flat(l')[|Flat(l')| - 1]))
  }

  /** The frame that the record's own frame comes after. */
  lemma {:induction false} PreparedLast(env: Env, opts: Options, log: Log, record: Record)
    requires WellFormed(env, opts, log) && Legal(env, opts, log, record) && Flat(log) != []
    requires Prepared(env, opts, log, NextSize(env, record), record.context.receivedAt).Ok?
    ensures var fs, between := Flat(Prepared(env, opts, log, NextSize(env, record), record.context.receivedAt).value),
                               Interposed(env, opts, log, NextSize(env, record), record.context.receivedAt);
            && fs != []
            && (between == [] ==> fs[|fs| - 1] == Flat(log)[|Flat(log)| - 1])
            && (between != [] ==> fs[|fs| - 1] == between[0])
  {
    var next, timestamp := NextSize(env, record), record.context.receivedAt;
    PreparedFlat(env, opts, log, next, timestamp);
    PrunedWithCheckpoint(env, opts, log, next, timestamp);
    LastAfter(Flat(log), PrunedFrames(env, opts, log, next, timestamp), Interposed(env, opts, log, next, timestamp),
              Flat(Prepared(env, opts, log, next, timestamp).value));
  }

  /** Frames are dropped only when a checkpoint is written. */
  lemma {:induction false} PrunedWithCheckpoint(env: Env, opts: Options, log: Log, next: nat, timestamp: nat)
    requires log != []
    ensures Interposed(env, opts, log, next, timestamp) == [] ==> PrunedFrames(env, opts, log, next, timestamp) == 0
  {
  }

  lemma LastAfter<T>(a: seq<T>, p: nat, b: seq<T>, c: seq<T>)
    requires a != [] && p <= |a| && |b| <= 1 && (b == [] ==> p == 0) && c == a[p..] + b
    ensures c != [] && c[|c| - 1] == if b == [] then a[|a| - 1] else b[0]
  {
  }

  /** The checkpoint, if there is one, comes directly after the last frame. */
  lemma {:induction false} InterposedFollows(env: Env, opts: Options, log: Log, record: Record)
    requires WellFormed(env, opts, log) && Legal(env, opts, log, record) && Flat(log) != []
    ensures var between := Interposed(env, opts, log, NextSize(env, record), record.context.receivedAt);
            between != [] ==> Follows(env, Flat(log)[|Flat(log)| - 1], between[0]) && PrunedOf(env, between[0]).Some?
  {
    match Plan(env, opts, log, record)
    case Prune(k) =>
      RotatedFlat(log);
      CheckpointDecodes(env, opts, log, record.context.receivedAt, k);
    case _ =>
  }

  /** An append leaves its record at the end of the chain. */
  lemma {:induction false} AppendExtends(env: Env, opts: Options, log: Log, record: Record)
    requires WellFormed(env, opts, log) && Legal(env, opts, log, record) && Admit(env, opts, record).Ok?
    ensures Append(env, opts, log, record).Ok? && WellFormed(env, opts, Append(env, opts, log, record).value)
    ensures Extends(env, log, record, Append(env, opts, log, record).value)
  {
    AppendLast(env, opts, log, record);
    RecordAbove(env, opts, log, record);
    if Flat(log) != [] {
      RecordFollows(env, opts, log, record);
    }
    ExtendsBy(env, log, record, Append(env, opts, log, record).value, RecordFrame(env, opts, log, record));
  }

  lemma {:induction false} ExtendsBy(env: Env, l: Log, record: Record, l': Log, f: Frame)
    requires Headed(l) && Headed(l') && EndsWith(env, l', record) && Flat(l')[|Flat(l')| - 1] == f
    requires f.sequence > LastSequence(Flat(l))
    requires Flat(l) != [] ==> Adjacent(env, Flat(l)[|Flat(l)| - 1], f)
    ensures Extends(env, l, record, l')
  {
  }

  lemma {:induction false} AppendLast(env: Env, opts: Options, log: Log, record: Record)
    requires WellFormed(env, opts, log) && Legal(env, opts, log, record) && Admit(env, opts, record).Ok?
    ensures Prepared(env, opts, log, NextSize(env, record), record.context.receivedAt).Ok?
    ensures Append(env, opts, log, record).Ok? && WellFormed(env, opts, Append(env, opts, log, record).value)
    ensures EndsWith(env, Append(env, opts, log, record).value, record)
    ensures var fs := Flat(Append(env, opts, log, record).value); fs[|fs| - 1] == RecordFrame(env, opts, log, record)
  {
    AppendKeeps(env, opts, log, record);
  }

  lemma {:induction false} RecordAbove(env: Env, opts: Options, log: Log, record: Record)
    requires WellFormed(env, opts, log) && Legal(env, opts, log, record)
    requires Prepared(env, opts, log, NextSize(env, record), record.context.receivedAt).Ok?
    ensures RecordFrame(env, opts, log, record).sequence > LastSequence(Flat(log))
  {
    PreparedSequence(env, opts, log, record);
  }

  lemma {:induction false} RecordFollows(env: Env, opts: Options, log: Log, record: Record)
    requires WellFormed(env, opts, log) && Legal(env, opts, log, record) && Flat(log) != []
    requires Prepared(env, opts, log, NextSize(env, record), record.context.receivedAt).Ok?
    ensures Adjacent(env, Flat(log)[|Flat(log)| - 1], RecordFrame(env, opts, log, record))
  {
    var next, timestamp := NextSize(env, record), record.context.receivedAt;
    PreparedLast(env, opts, log, record);
    InterposedFollows(env, opts, log, record);
    FrameFollows(env, Prepared(env, opts, log, next, timestamp).value, env.encode(record, None));
    var fs, own := Flat(Prepared(env, opts, log, next, timestamp).value), RecordFrame(env, opts, log, record);
    AdjacentVia(env, Flat(log)[|Flat(log)| - 1], Interposed(env, opts, log, next, timestamp), fs[|fs| - 1], own);
  }

  lemma {:induction false} AdjacentVia(env: Env, last: Frame, between: seq<Frame>, previous: Frame, own: Frame)
    requires Follows(env, previous, own)
    requires between == [] ==> previous == last
    requires between != [] ==>
               previous == between[0] && Follows(env, last, between[0]) && PrunedOf(env, between[0]).Some?
    ensures Adjacent(env, last, own)
  {
  }

  lemma {:induction false} FrameFollows(env: Env, log: Log, payload: seq<Byte>)
    requires Flat(log) != []
    ensures Follows(env, Flat(log)[|Flat(log)| - 1], NextOf(env, log, payload))
  {
  }

  /** One call, from ledger to ledger, with its reply. */
  ghost predicate Step(env: Env, opts: Options, st: Shared, t: Turn, st': Shared, reply: Result<Head, Code>) {
    && Packed(st.log) && (t.failure.Some? ==> Leaves(st.log, t.failure.value.left))
    && (st.writable ==> WellFormed(env, opts, st.log) && Legal(env, opts, st.log, t.call.record))
    && (st', reply) == Serve(env, opts, st, t)
  }

  /**
   What a call means. Acknowledged, it extends the log of a ledger that accepts records.
   Refused, it leaves the log alone, or a ledger that accepts no more records, whose head
   is the same or a later one.
   */
  ghost predicate Meaning(env: Env, st: Shared, call: Call, st': Shared, reply: Result<Head, Code>) {
    && Headed(st.log) && Headed(st'.log)
    && (st'.writable ==> st.writable)
    && (reply.Err? ==>
          || st'.log == st.log
          || (!st'.writable && HeadOf(st'.log).sequence >= HeadOf(st.log).sequence))
    && (reply.Ok? ==>
          && st.writable
          && reply == Ok(HeadOf(st'.log))
          && (Expected(call).Some? ==> Expected(call).value == HeadOf(st.log))
          && Extends(env, st.log, call.record, st'.log))
  }

  lemma {:induction false} StepMeaning(env: Env, opts: Options, st: Shared, t: Turn, st': Shared,
                                       reply: Result<Head, Code>)
    requires Step(env, opts, st, t, st', reply)
    ensures Packed(st'.log) && (st'.writable ==> WellFormed(env, opts, st'.log))
    ensures Meaning(env, st, t.call, st', reply)
  {
    if st.writable && Admit(env, opts, t.call.record).Ok? {
      AppendExtends(env, opts, st.log, t.call.record);
    }
    if t.failure.Some? {
      LeavesHead(st.log, t.failure.value.left);
    }
  }

  lemma {:induction false} LeavesHead(log: Log, left: Log)
    requires Packed(log) && Leaves(log, left)
    ensures Packed(left) && HeadOf(left).sequence >= HeadOf(log).sequence
  {
    RotatedFlat(log);
  }

  // ----- interleavings -----

  /** Any interleaving of the clones' calls: the ledger before and after each call, and the replies. */
  ghost predicate Interleaving(env: Env, opts: Options, states: seq<Shared>, turns: seq<Turn>,
                               replies: seq<Result<Head, Code>>)
  {
    && |states| == |turns| + 1 && |replies| == |turns|
    && forall n {:trigger turns[n]} ::
         0 <= n < |turns| ==> Step(env, opts, states[n], turns[n], states[n + 1], replies[n])
  }

  ghost predicate Meanings(env: Env, states: seq<Shared>, turns: seq<Turn>, replies: seq<Result<Head, Code>>) {
    && |states| == |turns| + 1 && |replies| == |turns|
    && forall n {:trigger turns[n]} ::
         0 <= n < |turns| ==> Meaning(env, states[n], turns[n].call, states[n + 1], replies[n])
  }

  lemma {:induction false} InterleavingMeans(env: Env, opts: Options, states: seq<Shared>, turns: seq<Turn>,
                                             replies: seq<Result<Head, Code>>)
    requires Interleaving(env, opts, states, turns, replies)
    ensures Meanings(env, states, turns, replies)
  {
    forall n | 0 <= n < |turns| ensures Meaning(env, states[n], turns[n].call, states[n + 1], replies[n]) {
      StepMeaning(env, opts, states[n], turns[n], states[n + 1], replies[n]);
    }
  }

  /**
   The head does not move down; if it does not move and the ledger accepts records, the
   call was refused and the log is the same.
   */
  predicate Rises(st: Shared, st': Shared, reply: Result<Head, Code>) {
    && Headed(st.log) && Headed(st'.log)
    && HeadOf(st.log).sequence <= HeadOf(st'.log).sequence
    && (st'.writable ==> st.writable)
    && (HeadOf(st.log).sequence == HeadOf(st'.log).sequence ==> reply.Err? && (st'.writable ==> st'.log == st.log))
  }

  lemma {:induction false} MeaningRises(env: Env, st: Shared, call: Call, st': Shared, reply: Result<Head, Code>)
    requires Meaning(env, st, call, st', reply)
    ensures Rises(st, st', reply)
  {
  }

  /**
   A quantity that stays only where nothing changes, while something is up: where both
   are so again, nothing changed in between.
   */
  lemma {:induction false} Stays<T>(xs: seq<T>, heads: seq<nat>, up: seq<bool>, ok: seq<bool>, m: nat, n: nat)
    requires |xs| == |heads| == |up| == |ok| + 1 && m <= n <= |ok|
    requires forall i :: 0 <= i < |ok| ==> heads[i] <= heads[i + 1] && (up[i + 1] ==> up[i])
    requires forall i :: 0 <= i < |ok| ==> heads[i] == heads[i + 1] && up[i + 1] ==> xs[i] == xs[i + 1] && !ok[i]
    ensures heads[m] <= heads[n]
    ensures heads[m] == heads[n] && up[n] ==> xs[m] == xs[n] && forall i :: m <= i < n ==> !ok[i]
    decreases n
  {
    if m < n {
      assert heads[n - 1] <= heads[n - 1 + 1];
      Stays(xs, heads, up, ok, m, n - 1);
    }
  }

  function Logs(states: seq<Shared>): (ls: seq<Log>)
    ensures |ls| == |states|
  {
    seq(|states|, i requires 0 <= i < |states| => states[i].log)
  }

  function Heads(states: seq<Shared>): (ns: seq<nat>)
    ensures |ns| == |states|
  {
    seq(|states|, i requires 0 <= i < |states| => LastSequence(Flat(states[i].log)))
  }

  function Ups(states: seq<Shared>): (bs: seq<bool>)
    ensures |bs| == |states|
  {
    seq(|states|, i requires 0 <= i < |states| => states[i].writable)
  }

  function Oks(replies: seq<Result<Head, Code>>): (bs: seq<bool>)
    ensures |bs| == |replies|
  {
    seq(|replies|, i requires 0 <= i < |replies| => replies[i].Ok?)
  }

  /** While the head stays and the ledger accepts records, every call is refused and the log is the same. */
  lemma {:induction false} HeadStays(states: seq<Shared>, replies: seq<Result<Head, Code>>, m: nat, n: nat)
    requires |states| == |replies| + 1 && m <= n <= |replies|
    requires forall i {:trigger replies[i]} :: 0 <= i < |replies| ==> Rises(states[i], states[i + 1], replies[i])
    requires LastSequence(Flat(states[m].log)) == LastSequence(Flat(states[n].log)) && states[n].writable
    ensures states[m].log == states[n].log && forall i :: m <= i < n ==> replies[i].Err?
  {
    var ls, hs, us, bs := Logs(states), Heads(states), Ups(states), Oks(replies);
    forall i | 0 <= i < |bs| ensures
        && hs[i] <= hs[i + 1] && (us[i + 1] ==> us[i])
        && (hs[i] == hs[i + 1] && us[i + 1] ==> ls[i] == ls[i + 1] && !bs[i]) {
      assert Rises(states[i], states[i + 1], replies[i]);
    }
    Stays(ls, hs, us, bs, m, n);
    forall i | m <= i < n ensures replies[i].Err? {
      assert !bs[i];
    }
  }

  /**
   Adjacency. Call i is an intent that was acknowledged, call j a terminal or
   reconciliation that carries the head which call i returned and was acknowledged.
   Whatever the other clients did in between, all of it was refused: the frame of call j
   follows the frame of call i, with at most one retention checkpoint between them.
   */
  lemma {:induction false} TerminalFollowsIntent(env: Env, opts: Options, states: seq<Shared>, turns: seq<Turn>,
                                                 replies: seq<Result<Head, Code>>, i: nat, j: nat)
    requires Interleaving(env, opts, states, turns, replies) && i < j < |turns|
    requires turns[i].call.AppendIntent? && replies[i].Ok? && replies[j].Ok?
    requires Expected(turns[j].call) == Some(replies[i].value)
    ensures forall n :: i < n < j ==> replies[n].Err?
    ensures states[j].log == states[i + 1].log
    ensures EndsWith(env, states[j].log, turns[i].call.record)
    ensures EndsWith(env, states[j + 1].log, turns[j].call.record)
    ensures var before, after := Flat(states[j].log), Flat(states[j + 1].log);
            Adjacent(env, before[|before| - 1], after[|after| - 1])
  {
    InterleavingMeans(env, opts, states, turns, replies);
    AdjacentByHead(env, states, turns, replies, i, j);
  }

  /** Between an acknowledged call and an acknowledged call that expects its head, nothing is written. */
  lemma {:induction false} SameLog(env: Env, states: seq<Shared>, turns: seq<Turn>, replies: seq<Result<Head, Code>>,
                                   i: nat, j: nat)
    requires Meanings(env, states, turns, replies) && i < j < |turns|
    requires replies[i].Ok? && replies[j].Ok? && Expected(turns[j].call) == Some(replies[i].value)
    ensures states[j].log == states[i + 1].log && forall n :: i < n < j ==> replies[n].Err?
  {
    AllRise(env, states, turns, replies);
    HeadsMeet(env, states[i], turns[i].call, states[i + 1], replies[i], states[j], turns[j].call, states[j + 1],
              replies[j]);
    HeadStays(states, replies, i + 1, j);
  }

  lemma {:induction false} AllRise(env: Env, states: seq<Shared>, turns: seq<Turn>, replies: seq<Result<Head, Code>>)
    requires Meanings(env, states, turns, replies)
    ensures forall n {:trigger replies[n]} :: 0 <= n < |turns| ==> Rises(states[n], states[n + 1], replies[n])
  {
    forall n | 0 <= n < |turns| ensures Rises(states[n], states[n + 1], replies[n]) {
      MeaningRises(env, states[n], turns[n].call, states[n + 1], replies[n]);
    }
  }

  /** An acknowledged call leaves the head it returned, and one that expects a head finds it. */
  lemma {:induction false} HeadsMeet(env: Env, a: Shared, first: Call, a': Shared, r: Result<Head, Code>, b: Shared,
                                     second: Call, b': Shared, t: Result<Head, Code>)
    requires Meaning(env, a, first, a', r) && Meaning(env, b, second, b', t)
    requires r.Ok? && t.Ok? && Expected(second) == Some(r.value)
    ensures LastSequence(Flat(a'.log)) == LastSequence(Flat(b.log)) && b.writable
  {
  }

  lemma {:induction false} AdjacentByHead(env: Env, states: seq<Shared>, turns: seq<Turn>,
                                          replies: seq<Result<Head, Code>>, i: nat, j: nat)
    requires Meanings(env, states, turns, replies) && i < j < |turns|
    requires replies[i].Ok? && replies[j].Ok? && Expected(turns[j].call) == Some(replies[i].value)
    ensures forall n :: i < n < j ==> replies[n].Err?
    ensures states[j].log == states[i + 1].log
    ensures EndsWith(env, states[j].log, turns[i].call.record)
    ensures EndsWith(env, states[j + 1].log, turns[j].call.record)
    ensures var before, after := Flat(states[j].log), Flat(states[j + 1].log);
            Adjacent(env, before[|before| - 1], after[|after| - 1])
  {
    SameLog(env, states, turns, replies, i, j);
    assert Meaning(env, states[i], turns[i].call, states[i + 1], replies[i]);
    assert Meaning(env, states[j], turns[j].call, states[j + 1], replies[j]);
  }

  // ----- cursors over a growing ledger -----

  /** An append without retention adds one frame at the end and keeps the generation. */
  lemma {:induction false} AppendAddsFrame(env: Env, opts: Options, log: Log, record: Record)
    requires WellFormed(env, opts, log) && Legal(env, opts, log, record) && Admit(env, opts, record).Ok?
    requires !Plan(env, opts, log, record).Prune?
    ensures Prepared(env, opts, log, NextSize(env, record), record.context.receivedAt).Ok?
    ensures Append(env, opts, log, record).Ok?
    ensures Flat(Append(env, opts, log, record).value) == Flat(log) + [RecordFrame(env, opts, log, record)]
  {
    AppendKeeps(env, opts, log, record);
    assert Flat(log)[0..] + [] == Flat(log);
  }

  /** Along a chain the record views go up, below the end of u64. */
  lemma {:induction false} ChainAscends(env: Env, opts: Options, log: Log)
    requires WellFormed(env, opts, log)
    ensures Decoded(env, Flat(log))
    ensures Ascending(Views(env, Flat(log))) && Under(Views(env, Flat(log)), U64_MAX)
    ensures forall i :: 0 <= i < |Flat(log)| ==> Views(env, Flat(log))[i].sequence <= HeadOf(log).sequence
  {
    var fs := Flat(log);
    forall i | 0 <= i < |fs| ensures env.decode(fs[i].payload).Ok? && fs[i].sequence + 1 < U64_SPAN {
      assert Storable(env, opts, fs[i]);
    }
    forall i | 0 <= i < |fs| ensures fs[i].sequence == fs[0].sequence + i && fs[0].sequence > 0 {
      SequencesCount(env, fs, i);
      FirstSequencePositive(env, opts, log);
    }
  }

  /**
   While appends need no retention, a cursor the ledger issued stays valid, and the page
   it asks for and the next cursor are the same as before.
   */
  lemma {:induction false} LedgerPageStable(env: Env, opts: Options, log: Log, record: Record, q: Query)
    requires WellFormed(env, opts, log) && Legal(env, opts, log, record) && Admit(env, opts, record).Ok?
    requires !Plan(env, opts, log, record).Prune?
    requires q.cursor.Some? && !CursorRefused(HeadOf(log), q.cursor.value)
    ensures Append(env, opts, log, record).Ok?
    ensures var l := Append(env, opts, log, record).value;
            && WellFormed(env, opts, l)
            && SamePage(env, log, l, q)
  {
    LedgerGrows(env, opts, log, record);
    PageStableOn(env, opts, log, Append(env, opts, log, record).value, RecordFrame(env, opts, log, record), q);
  }

  /** The longer log has one more frame, of the same generation. */
  predicate OneMore(log: Log, l: Log, f: Frame)
    requires Headed(log) && Headed(l)
  {
    Flat(l) == Flat(log) + [f] && HeadOf(l).generation == HeadOf(log).generation
  }

  lemma {:induction false} LedgerGrows(env: Env, opts: Options, log: Log, record: Record)
    requires WellFormed(env, opts, log) && Legal(env, opts, log, record) && Admit(env, opts, record).Ok?
    requires !Plan(env, opts, log, record).Prune?
    ensures Prepared(env, opts, log, NextSize(env, record), record.context.receivedAt).Ok?
    ensures Append(env, opts, log, record).Ok?
    ensures var l := Append(env, opts, log, record).value;
            WellFormed(env, opts, l) && OneMore(log, l, RecordFrame(env, opts, log, record))
  {
    AppendKeeps(env, opts, log, record);
    AppendAddsFrame(env, opts, log, record);
    SameGeneration(env, opts, log, record);
  }

  ghost predicate SamePage(env: Env, log: Log, l: Log, q: Query)
    requires Headed(log) && Headed(l)
  {
    && Decoded(env, Flat(log)) && Decoded(env, Flat(l))
    && (q.cursor.Some? ==> !CursorRefused(HeadOf(l), q.cursor.value))
    && RunQuery(Views(env, Flat(log)), HeadOf(log), q).Ok?
    && RunQuery(Views(env, Flat(l)), HeadOf(l), q)
       == Ok(RunQuery(Views(env, Flat(log)), HeadOf(log), q).value.(head := HeadOf(l)))
  }

  lemma {:induction false} PageStableOn(env: Env, opts: Options, log: Log, l: Log, f: Frame, q: Query)
    requires WellFormed(env, opts, log) && WellFormed(env, opts, l) && OneMore(log, l, f)
    requires q.cursor.Some? && !CursorRefused(HeadOf(log), q.cursor.value)
    ensures SamePage(env, log, l, q)
  {
    ChainAscends(env, opts, log);
    ChainAscends(env, opts, l);
    LastIsHead(env, opts, l, f, Flat(log));
    ViewsSnoc(env, Flat(log), f);
    PageStable(Views(env, Flat(log)), [View(f.sequence, RecordOf(env, f))], HeadOf(log), HeadOf(l), q);
  }

  /** The frame that was added has a later sequence than every one before it. */
  lemma {:induction false} LastIsHead(env: Env, opts: Options, l: Log, f: Frame, before: seq<Frame>)
    requires WellFormed(env, opts, l) && Flat(l) == before + [f]
    ensures f.sequence > LastSequence(before) && HeadOf(l).sequence == f.sequence && f.sequence < U64_MAX
  {
    ChainAscends(env, opts, l);
    assert Flat(l)[|before|] == f && Storable(env, opts, Flat(l)[|before|]);
    if before != [] {
      SequencesCount(env, Flat(l), |before|);
      SequencesCount(env, Flat(l), |before| - 1);
      assert Flat(l)[|before| - 1] == before[|before| - 1];
    }
  }

  lemma {:induction false} FirstStays(log: Log, f: Frame)
    requires log != []
    ensures WithFrame(log, f)[0].number == log[0].number && Rotated(log)[0].number == log[0].number
  {
  }

  lemma {:induction false} SameGeneration(env: Env, opts: Options, log: Log, record: Record)
    requires WellFormed(env, opts, log) && !Plan(env, opts, log, record).Prune? && Append(env, opts, log, record).Ok?
    requires Packed(Append(env, opts, log, record).value)
    ensures HeadOf(Append(env, opts, log, record).value).generation == HeadOf(log).generation
  {
    var f := RecordFrame(env, opts, log, record);
    FirstStays(log, f);
    FirstStays(Rotated(log), f);
  }

  /** Appends one after the other, each admissible where it happens and none needing retention. */
  ghost predicate Quiet(env: Env, opts: Options, log: Log, records: seq<Record>)
    requires log != []
    decreases |records|
  {
    records != [] ==>
      && Legal(env, opts, log, records[0]) && Admit(env, opts, records[0]).Ok?
      && !Plan(env, opts, log, records[0]).Prune?
      && Append(env, opts, log, records[0]).Ok?
      && Quiet(env, opts, Append(env, opts, log, records[0]).value, records[1..])
  }

  lemma {:induction false} SamePageOn(env: Env, a: Log, b: Log, c: Log, q: Query)
    requires Headed(a) && Headed(b) && Headed(c) && SamePage(env, a, b, q) && SamePage(env, b, c, q)
    ensures SamePage(env, a, c, q)
  {
  }

  /** Over any number of such appends a cursor the ledger issued stays valid and its page the same. */
  lemma {:induction false} LedgerPagesStable(env: Env, opts: Options, log: Log, records: seq<Record>, q: Query)
    requires WellFormed(env, opts, log) && Quiet(env, opts, log, records)
    requires q.cursor.Some? && !CursorRefused(HeadOf(log), q.cursor.value)
    ensures AuditRuns.AppendAll(env, opts, log, records).Ok?
    ensures var l := AuditRuns.AppendAll(env, opts, log, records).value;
            WellFormed(env, opts, l) && SamePage(env, log, l, q)
    decreases |records|
  {
    if records == [] {
      ChainAscends(env, opts, log);
      SelfPage(env, log, q);
    } else {
      LedgerPageStable(env, opts, log, records[0], q);
      var l := Append(env, opts, log, records[0]).value;
      LedgerPagesStable(env, opts, l, records[1..], q);
      SamePageOn(env, log, l, AuditRuns.AppendAll(env, opts, l, records[1..]).value, q);
    }
  }

  lemma {:induction false} SelfPage(env: Env, log: Log, q: Query)
    requires Headed(log) && Decoded(env, Flat(log))
    requires q.cursor.Some? && !CursorRefused(HeadOf(log), q.cursor.value)
    ensures SamePage(env, log, log, q)
  {
  }

  /** Following the cursors of a ledger reads exactly its matching records, newest first. */
  lemma {:induction false} LedgerPagingComplete(env: Env, opts: Options, log: Log, q: Query)
    requires WellFormed(env, opts, log) && q.limit > 0 && q.cursor.None?
    ensures Decoded(env, Flat(log))
    ensures var out := Follow(Views(env, Flat(log)), HeadOf(log), q, BeforeOf(q));
            && Descending(out)
            && forall v :: v in out <==> v in Views(env, Flat(log)) && q.Matches(v.record)
  {
    ChainAscends(env, opts, log);
    PagingComplete(Views(env, Flat(log)), HeadOf(log), q);
  }
}
