/**
 The two scans over the record views that find unfinished operations.
 */
module AuditOperations {
  import opened Bytes
  import opened AuditTypes

  predicate Opens(r: Record, id: string) {
    r.kind == Intent && r.context.operationId == id
  }

  predicate Closes(r: Record, id: string) {
    (r.kind == Terminal || r.kind == Reconciliation) && r.context.operationId == id
  }

  /** Some intent of the operation has no terminal or reconciliation record after it. */
  predicate StillOpen(views: seq<View>, id: string) {
    exists i :: 0 <= i < |views| && Opens(views[i].record, id) && !ClosedAfter(views, i, id)
  }

  predicate ClosedAfter(views: seq<View>, i: nat, id: string) {
    exists j :: i < j < |views| && Closes(views[j].record, id)
  }

  /** The last record that opens or closes the operation decides. */
  lemma {:induction false} OpenStep(views: seq<View>, v: View, id: string)
    ensures StillOpen(views + [v], id) <==>
            Opens(v.record, id) || (StillOpen(views, id) && !Closes(v.record, id))
  {
    var all, n := views + [v], |views|;
    assert all[n] == v;
    if Opens(v.record, id) {
      assert !ClosedAfter(all, n, id);
    } else if Closes(v.record, id) {
      forall i | 0 <= i < |all| && Opens(all[i].record, id) ensures ClosedAfter(all, i, id) {
        assert i < n && all[n] == v;
      }
    } else {
      forall i | 0 <= i < n && Opens(views[i].record, id)
        ensures ClosedAfter(all, i, id) <==> ClosedAfter(views, i, id)
      {
        SameClosed(views, v, i, id);
      }
      if StillOpen(views, id) {
        var i :| 0 <= i < n && Opens(views[i].record, id) && !ClosedAfter(views, i, id);
        assert all[i] == views[i];
      }
      if StillOpen(all, id) {
        var i :| 0 <= i < |all| && Opens(all[i].record, id) && !ClosedAfter(all, i, id);
        assert i < n && all[i] == views[i];
      }
    }
  }

  lemma {:induction false} SameClosed(views: seq<View>, v: View, i: nat, id: string)
    requires i < |views| && !Closes(v.record, id)
    ensures ClosedAfter(views + [v], i, id) <==> ClosedAfter(views, i, id)
  {
    var all := views + [v];
    if ClosedAfter(views, i, id) {
      var j :| i < j < |views| && Closes(views[j].record, id);
      assert all[j] == views[j];
    }
    if ClosedAfter(all, i, id) {
      var j :| i < j < |all| && Closes(all[j].record, id);
      assert j < |views| && all[j] == views[j];
    }
  }

  /** The intents of unfinished operations among the first n views, oldest first. */
  function OpenIntents(views: seq<View>, n: nat): (out: seq<Record>)
    requires n <= |views|
  {
    if n == 0 then []
    else
      var r := views[n - 1].record;
      OpenIntents(views, n - 1) + if r.kind == Intent && StillOpen(views, r.context.operationId) then [r] else []
  }

  /** `incomplete_operations`: one pass collects the open ids, a second one their intents. */
  method IncompleteOperations(views: seq<View>) returns (out: seq<Record>)
    ensures out == OpenIntents(views, |views|)
  {
    var open: set<string> := {};
    var i := 0;
    while i < |views|
      invariant i <= |views|
      invariant forall id :: id in open <==> StillOpen(views[..i], id)
    {
      var r := views[i].record;
      var id := r.context.operationId;
      ghost var seen := views[..i + 1];
      assert seen == views[..i] + [views[i]];
      forall id: string ensures StillOpen(seen, id) <==> Opens(r, id) || (StillOpen(views[..i], id) && !Closes(r, id)) {
        OpenStep(views[..i], views[i], id);
      }
      match r.kind {
        case Intent => open := open + {id};
        case Terminal => open := open - {id};
        case Reconciliation => open := open - {id};
        case _ =>
      }
      i := i + 1;
    }
    assert views[..i] == views;
    out := [];
    i := 0;
    while i < |views|
      invariant i <= |views| && out == OpenIntents(views, i)
    {
      var r := views[i].record;
      if r.kind == Intent && r.context.operationId in open {
        out := out + [r];
      }
      i := i + 1;
    }
  }

  /** A terminal or reconciliation record finishes its operation: none of its intents is listed any more. */
  lemma {:induction false} ClosingFinishes(views: seq<View>, v: View, n: nat)
    requires (v.record.kind == Terminal || v.record.kind == Reconciliation) && n <= |views| + 1
    ensures forall r :: r in OpenIntents(views + [v], n) ==> r.context.operationId != v.record.context.operationId
  {
    var all := views + [v];
    OpenStep(views, v, v.record.context.operationId);
    if n > 0 {
      ClosingFinishes(views, v, n - 1);
    }
  }

  /** An intent is listed until then: it is the last entry right after it was written. */
  lemma {:induction false} IntentIsListed(views: seq<View>, v: View)
    requires v.record.kind == Intent
    ensures var out := OpenIntents(views + [v], |views| + 1); out != [] && out[|out| - 1] == v.record
  {
    OpenStep(views, v, v.record.context.operationId);
    assert (views + [v])[|views|] == v;
  }

  // ----- reconciliations that are still unknown -----

  predicate Settles(r: Record, id: string) {
    r.kind == Reconciliation && r.context.operationId == id
    && r.outcome in {Some(ReconciledCommitted), Some(ReconciledNotCommitted)}
  }

  predicate Unknown(r: Record, id: string) {
    r.kind == Reconciliation && r.context.operationId == id && r.outcome == Some(ReconciliationUnknown)
  }

  /** The record is the operation's last say: unknown, and nothing after it repeats or settles it. */
  predicate LastWord(views: seq<View>, i: nat, id: string) {
    && i < |views| && Unknown(views[i].record, id)
    && forall j :: i < j < |views| ==> !Unknown(views[j].record, id) && !Settles(views[j].record, id)
  }

  predicate Pending(views: seq<View>, id: string, r: Record) {
    exists i :: 0 <= i < |views| && LastWord(views, i, id) && views[i].record == r
  }

  lemma {:induction false} LastWordStep(views: seq<View>, v: View, i: nat, id: string)
    requires i < |views|
    ensures LastWord(views + [v], i, id) <==> LastWord(views, i, id) && !Unknown(v.record, id) && !Settles(v.record, id)
  {
    var all := views + [v];
    assert all[|views|] == v;
    assert forall j :: 0 <= j < |views| ==> all[j] == views[j];
  }

  lemma {:induction false} PendingStep(views: seq<View>, v: View, id: string, r: Record)
    ensures Pending(views + [v], id, r) <==>
              || (Unknown(v.record, id) && r == v.record)
              || (Pending(views, id, r) && !Unknown(v.record, id) && !Settles(v.record, id))
  {
    var all, n := views + [v], |views|;
    assert all[n] == v;
    assert LastWord(all, n, id) <==> Unknown(v.record, id);
    if Pending(views, id, r) {
      var i :| 0 <= i < n && LastWord(views, i, id) && views[i].record == r;
      LastWordStep(views, v, i, id);
      assert all[i] == views[i];
    }
    if Pending(all, id, r) {
      var i :| 0 <= i <= n && LastWord(all, i, id) && all[i].record == r;
      if i < n {
        LastWordStep(views, v, i, id);
      }
    }
  }

  /** The loop of `unresolved_reconciliations`: the last unknown reconciliation record per operation. */
  method UnresolvedByOperation(views: seq<View>) returns (unresolved: map<string, Record>)
    ensures forall id, r :: (id in unresolved && unresolved[id] == r) <==> Pending(views, id, r)
  {
    unresolved := map[];
    var n := 0;
    while n < |views|
      invariant n <= |views|
      invariant forall id, r :: (id in unresolved && unresolved[id] == r) <==> Pending(views[..n], id, r)
    {
      var v := views[n];
      var id := v.record.context.operationId;
      ghost var seen := views[..n + 1];
      assert seen == views[..n] + [v];
      forall id, r ensures Pending(seen, id, r) <==>
                             || (Unknown(v.record, id) && r == v.record)
                             || (Pending(views[..n], id, r) && !Unknown(v.record, id) && !Settles(v.record, id)) {
        PendingStep(views[..n], v, id, r);
      }
      ghost var before := unresolved;
      if v.record.kind == Reconciliation && v.record.outcome == Some(ReconciliationUnknown) {
        unresolved := unresolved[id := v.record];
      } else if v.record.kind == Reconciliation
                && v.record.outcome in {Some(ReconciledCommitted), Some(ReconciledNotCommitted)} {
        unresolved := unresolved - {id};
      }
      forall id', r ensures (id' in unresolved && unresolved[id'] == r) <==> Pending(seen, id', r) {
        assert (id' in before && before[id'] == r) <==> Pending(views[..n], id', r);
      }
      n := n + 1;
    }
    assert views[..n] == views;
  }

  // ----- the order of the result -----

  /** The order of the map's keys: by their first different character. */
  predicate Precedes(a: string, b: string) {
    b != [] && (a == [] || a[0] < b[0] || (a[0] == b[0] && Precedes(a[1..], b[1..])))
  }

  lemma {:induction false} OneFirst(a: string, b: string)
    ensures a == b || Precedes(a, b) || Precedes(b, a)
  {
    if a != [] && b != [] && a[0] == b[0] {
      OneFirst(a[1..], b[1..]);
      if a[1..] == b[1..] {
        assert a == [a[0]] + a[1..] && b == [b[0]] + b[1..];
      }
    }
  }

  lemma {:induction false} PrecedesOn(a: string, b: string, c: string)
    requires Precedes(a, b) && Precedes(b, c)
    ensures Precedes(a, c)
  {
    if a != [] && a[0] == b[0] == c[0] {
      PrecedesOn(a[1..], b[1..], c[1..]);
    }
  }

  predicate Ordered(rs: seq<Record>) {
    forall i, j :: 0 <= i < j < |rs| ==> Precedes(rs[i].context.operationId, rs[j].context.operationId)
  }

  /** The record at its place in the order. */
  function Placed(r: Record, rs: seq<Record>): (out: seq<Record>)
    ensures forall x :: x in out <==> x == r || x in rs
  {
    if rs == [] || Precedes(r.context.operationId, rs[0].context.operationId) then [r] + rs
    else
      assert rs == [rs[0]] + rs[1..];
      [rs[0]] + Placed(r, rs[1..])
  }

  lemma {:induction false} PlacedOrdered(r: Record, rs: seq<Record>)
    requires Ordered(rs) && forall x :: x in rs ==> x.context.operationId != r.context.operationId
    ensures Ordered(Placed(r, rs))
  {
    var id := r.context.operationId;
    if rs != [] {
      var head, rest := rs[0], rs[1..];
      OneFirst(id, head.context.operationId);
      if Precedes(id, head.context.operationId) {
        forall j | 0 <= j < |rs| ensures Precedes(id, rs[j].context.operationId) {
          if j > 0 {
            PrecedesOn(id, head.context.operationId, rs[j].context.operationId);
          }
        }
      } else {
        PlacedOrdered(r, rest);
        var out := Placed(r, rest);
        forall j | 0 <= j < |out| ensures Precedes(head.context.operationId, out[j].context.operationId) {
          if out[j] != r {
            assert out[j] in out;
            var k :| 0 <= k < |rest| && rest[k] == out[j];
            assert rs[k + 1] == out[j];
          }
        }
      }
    }
  }

  /** The values of the map in the order of its keys. */
  method Values(unresolved: map<string, Record>) returns (rs: seq<Record>)
    requires forall id :: id in unresolved ==> unresolved[id].context.operationId == id
    ensures Ordered(rs)
    ensures forall r :: r in rs <==>
              r.context.operationId in unresolved && unresolved[r.context.operationId] == r
  {
    rs := [];
    var left := unresolved.Keys;
    while left != {}
      invariant left <= unresolved.Keys && Ordered(rs)
      invariant forall r :: r in rs <==>
                  && r.context.operationId in unresolved && r.context.operationId !in left
                  && unresolved[r.context.operationId] == r
      decreases |left|
    {
      var id :| id in left;
      PlacedOrdered(unresolved[id], rs);
      rs, left := Placed(unresolved[id], rs), left - {id};
    }
  }

  /** `unresolved_reconciliations`: these records, one per operation, in the order of the operations. */
  method UnresolvedReconciliations(views: seq<View>) returns (rs: seq<Record>)
    ensures Ordered(rs)
    ensures forall r :: r in rs <==> Pending(views, r.context.operationId, r)
  {
    var unresolved := UnresolvedByOperation(views);
    forall id | id in unresolved ensures unresolved[id].context.operationId == id {
      assert Pending(views, id, unresolved[id]);
    }
    rs := Values(unresolved);
  }
}
