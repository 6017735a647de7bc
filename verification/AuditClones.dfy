/**
 The ledger that several clients share, as the program runs it: every call locks the one
 `FileAuditLedger` and goes through to it. Whatever calls and file faults come, what the
 object has served so far is an interleaving in the sense of `AuditShared`.
 */
module AuditClones {
  import opened Bytes
  import opened AuditTypes
  import opened AuditFrames
  import opened AuditLog
  import opened AuditAppend
  import opened AuditEffects
  import opened AuditShared
  import opened AuditStates
  import AuditLedger

  /** A log with this head. */
  function WithHead(h: Head): (l: Log)
    ensures Packed(l) && HeadOf(l) == h
  {
    [Seg(h.generation + 1, [Frame(h.sequence, ZERO_HASH, [])])]
  }

  /** What a call can tell of the ledger behind the lock. */
  datatype Behind = Behind(log: Log, writable: bool, head: Head)

  /** The state is that of the ledger: its log while it accepts records, and its head in any case. */
  predicate Standing(st: Shared, s: Behind) {
    && Packed(st.log) && HeadOf(st.log) == s.head
    && st.writable == s.writable && (s.writable ==> st.log == s.log)
  }

  lemma {:induction false} InterleavingSnoc(env: Env, opts: Options, states: seq<Shared>, turns: seq<Turn>,
                                            replies: seq<Result<Head, Code>>, t: Turn, st: Shared,
                                            reply: Result<Head, Code>)
    requires Interleaving(env, opts, states, turns, replies)
    requires Step(env, opts, states[|turns|], t, st, reply)
    ensures Interleaving(env, opts, states + [st], turns + [t], replies + [reply])
  {
    var ss, ts, rs := states + [st], turns + [t], replies + [reply];
    forall n | 0 <= n < |ts| ensures Step(env, opts, ss[n], ts[n], ss[n + 1], rs[n]) {
      if n < |turns| {
        assert turns[n] == ts[n] && ss[n + 1] == states[n + 1];
      }
    }
  }

  /** A call that is refused before anything is written. */
  lemma {:induction false} RefusedTurn(env: Env, opts: Options, st: Shared, call: Call, reply: Result<Head, Code>)
    returns (t: Turn)
    requires Packed(st.log)
    requires st.writable ==> WellFormed(env, opts, st.log) && Legal(env, opts, st.log, call.record)
    requires if Expected(call).Some? && Expected(call).value != HeadOf(st.log) then reply == Err(RecordInvalid)
             else if !st.writable then reply == Err(Unavailable)
             else Admit(env, opts, call.record).Err? && reply == Err(Admit(env, opts, call.record).error)
    ensures t.call == call && Step(env, opts, st, t, st, reply)
  {
    t := Turn(call, None);
  }

  /** A call that gets as far as the files and is acknowledged. */
  lemma {:induction false} GrantedTurn(env: Env, opts: Options, st: Shared, call: Call, log: Log) returns (t: Turn)
    requires st.writable && WellFormed(env, opts, st.log) && Legal(env, opts, st.log, call.record)
    requires Expected(call).Some? ==> Expected(call).value == HeadOf(st.log)
    requires Admit(env, opts, call.record).Ok? && Append(env, opts, st.log, call.record) == Ok(log) && Packed(log)
    ensures t.call == call && Step(env, opts, st, t, Shared(log, true), Ok(HeadOf(log)))
  {
    t := Turn(call, None);
  }

  /** And one that a failing file operation stops. */
  lemma {:induction false} FailedTurn(env: Env, opts: Options, st: Shared, call: Call, code: Code, head: Head)
    returns (t: Turn, left: Log)
    requires st.writable && WellFormed(env, opts, st.log) && Legal(env, opts, st.log, call.record)
    requires Expected(call).Some? ==> Expected(call).value == HeadOf(st.log)
    requires Admit(env, opts, call.record).Ok? && AuditLedger.Advances(HeadOf(st.log), head)
    ensures Packed(left) && HeadOf(left) == head
    ensures t.call == call && Step(env, opts, st, t, Shared(left, false), Err(code))
  {
    left := if head == HeadOf(st.log) then st.log else WithHead(head);
    t := Turn(call, Some(Failure(code, left)));
  }

  /** What a call does to the ledger behind the lock, and the reply. */
  predicate Replied(env: Env, opts: Options, s: Behind, call: Call, s': Behind, reply: Result<Head, Code>) {
    if Expected(call).Some? && Expected(call).value != s.head then reply == Err(RecordInvalid) && s' == s
    else if !s.writable then reply == Err(Unavailable) && s' == s
    else
      match Admit(env, opts, call.record)
      case Err(code) => reply == Err(code) && s' == s
      case Ok(_) =>
        && s'.writable == reply.Ok? && AuditLedger.Advances(s.head, s'.head)
        && (reply.Ok? ==> s.log != [] && Appended(env, opts, s.log, call.record, s', reply))
  }

  predicate Appended(env: Env, opts: Options, log: Log, record: Record, s': Behind, reply: Result<Head, Code>)
    requires log != []
  {
    && Append(env, opts, log, record) == Ok(s'.log) && Packed(s'.log)
    && s'.head == HeadOf(s'.log) && reply == Ok(s'.head)
  }

  /** Every call is one turn. */
  lemma {:induction false} OneTurn(env: Env, opts: Options, st: Shared, s: Behind, call: Call, s': Behind,
                                   reply: Result<Head, Code>)
    returns (t: Turn, st': Shared)
    requires Standing(st, s) && (s.writable ==> WellFormed(env, opts, s.log) && Legal(env, opts, s.log, call.record))
    requires Replied(env, opts, s, call, s', reply)
    ensures t.call == call && Step(env, opts, st, t, st', reply) && Standing(st', s')
  {
    if (Expected(call).Some? && Expected(call).value != s.head) || !s.writable
       || Admit(env, opts, call.record).Err? {
      t := RefusedTurn(env, opts, st, call, reply);
      st' := st;
    } else if reply.Ok? {
      t := GrantedTurn(env, opts, st, call, s'.log);
      st' := Shared(s'.log, true);
    } else {
      var left;
      t, left := FailedTurn(env, opts, st, call, reply.error, s'.head);
      st' := Shared(left, false);
    }
  }

  /** So an interleaving goes on with it. */
  lemma {:induction false} NextTurn(env: Env, opts: Options, states: seq<Shared>, turns: seq<Turn>,
                                    replies: seq<Result<Head, Code>>, s: Behind, call: Call, s': Behind,
                                    reply: Result<Head, Code>)
    returns (t: Turn, st': Shared)
    requires Interleaving(env, opts, states, turns, replies) && Standing(states[|turns|], s)
    requires s.writable ==> WellFormed(env, opts, s.log) && Legal(env, opts, s.log, call.record)
    requires Replied(env, opts, s, call, s', reply)
    ensures Interleaving(env, opts, states + [st'], turns + [t], replies + [reply])
    ensures t.call == call && Standing(st', s')
  {
    t, st' := OneTurn(env, opts, states[|turns|], s, call, s', reply);
    InterleavingSnoc(env, opts, states, turns, replies, t, st', reply);
  }

  lemma {:induction false} EndedMeans(env: Env, opts: Options, before: Log, record: Record, fault: Fault, log: Log,
                                      disk: Disk, state: IoState, reply: Result<Head, Code>)
    requires before != [] && AuditLedger.Ended(env, opts, before, record, fault, log, disk, state, reply)
    ensures reply.Ok? ==> Append(env, opts, before, record) == Ok(log)
    ensures if reply.Ok? then state == PublishedHead else state == Degraded
  {
  }

  class SharedFileAuditLedger {
    const inner: AuditLedger.FileAuditLedger

    /** The ledger before and after each call served so far, and the replies. */
    ghost var states: seq<Shared>
    ghost var turns: seq<Turn>
    ghost var replies: seq<Result<Head, Code>>

    ghost function Locked(): Behind
      reads inner
    {
      Behind(inner.log, inner.Writable(), inner.head)
    }

    ghost predicate Valid()
      reads this, inner
    {
      && inner.Valid()
      && Interleaving(inner.env, inner.opts, states, turns, replies)
      && Standing(states[|turns|], Locked())
    }

    constructor (inner: AuditLedger.FileAuditLedger)
      requires inner.Valid() && inner.Writable()
      ensures Valid() && this.inner == inner && turns == [] && replies == []
    {
      this.inner := inner;
      states, turns, replies := [Shared(inner.log, true)], [], [];
    }

    /** The lock is held: a call without an expected head goes through to the ledger. */
    method ForwardAppend(call: Call, fault: Fault) returns (reply: Result<Head, Code>)
      requires Expected(call).None?
      requires inner.Valid() && (inner.Writable() ==> Legal(inner.env, inner.opts, inner.log, call.record))
      modifies inner
      ensures inner.Valid() && Replied(inner.env, inner.opts, old(Locked()), call, Locked(), reply)
    {
      ghost var before := inner.log;
      ghost var reaches := inner.Writable() && Admit(inner.env, inner.opts, call.record).Ok?;
      reply := inner.Append(call.record, fault);
      if reaches {
        EndedMeans(inner.env, inner.opts, before, call.record, fault, inner.log, inner.disk, inner.state, reply);
      }
    }

    /** And one with an expected head. */
    method ForwardAfter(call: Call, fault: Fault) returns (reply: Result<Head, Code>)
      requires Expected(call).Some?
      requires inner.Valid() && (inner.Writable() ==> Legal(inner.env, inner.opts, inner.log, call.record))
      modifies inner
      ensures inner.Valid() && Replied(inner.env, inner.opts, old(Locked()), call, Locked(), reply)
    {
      ghost var before := inner.log;
      ghost var reaches := inner.Writable() && Admit(inner.env, inner.opts, call.record).Ok?
                           && Expected(call).value == inner.head;
      reply := inner.AppendAfter(call.record, Expected(call).value, fault);
      if reaches {
        EndedMeans(inner.env, inner.opts, before, call.record, fault, inner.log, inner.disk, inner.state, reply);
      }
    }

    /** The turn is added to what was served. */
    ghost method Note(call: Call, reply: Result<Head, Code>, s: Behind) returns (turn: Turn, after: Shared)
      requires inner.Valid() && Interleaving(inner.env, inner.opts, states, turns, replies)
      requires Standing(states[|turns|], s)
      requires s.writable ==>
                 WellFormed(inner.env, inner.opts, s.log) && Legal(inner.env, inner.opts, s.log, call.record)
      requires Replied(inner.env, inner.opts, s, call, Locked(), reply)
      modifies this
      ensures Valid() && turn.call == call
      ensures turns == old(turns) + [turn] && states == old(states) + [after] && replies == old(replies) + [reply]
    {
      turn, after := NextTurn(inner.env, inner.opts, states, turns, replies, s, call, Locked(), reply);
      states, turns, replies := states + [after], turns + [turn], replies + [reply];
    }

    /**
     `append_intent`, `append_terminal`, `append_reconciliation` and
     `append_security_observation`: the reply is that of one more turn.
     */
    method Answer(call: Call, fault: Fault) returns (reply: Result<Head, Code>, ghost turn: Turn, ghost after: Shared)
      requires Valid() && (inner.Writable() ==> Legal(inner.env, inner.opts, inner.log, call.record))
      modifies this, inner
      ensures Valid() && turn.call == call
      ensures turns == old(turns) + [turn] && states == old(states) + [after] && replies == old(replies) + [reply]
    {
      ghost var s := Locked();
      if Expected(call).None? {
        reply := ForwardAppend(call, fault);
      } else {
        reply := ForwardAfter(call, fault);
      }
      turn, after := Note(call, reply, s);
    }
  }
}
