/** Reading the ledger: cursor paging over the record views. */
module AuditQueries {
  import opened Bytes
  import opened AuditTypes

  datatype PageCursor = PageCursor(generation: nat, before: nat)

  datatype Query = Query(
    action: Option<Action>,
    outcome: Option<Outcome>,
    targetKind: Option<TargetKind>,
    from: Option<nat>,
    to: Option<nat>,
    limit: nat,
    cursor: Option<PageCursor>)
  {
    /** The filters, without the cursor. */
    predicate Matches(r: Record) {
      && (action.Some? ==> action.value == r.action)
      && (outcome.Some? ==> Some(outcome.value) == r.outcome)
      && (targetKind.Some? ==> targetKind.value == r.targetKind)
      && (from.Some? ==> r.context.receivedAt >= from.value)
      && (to.Some? ==> r.context.receivedAt <= to.value)
    }
  }

  datatype Page = Page(records: seq<View>, next: Option<PageCursor>, head: Head)

  /** The views of a ledger: sequences go up, none past the head or at the end of u64. */
  predicate Ascending(views: seq<View>) {
    forall i, j :: 0 <= i < j < |views| ==> views[i].sequence < views[j].sequence
  }

  predicate Under(views: seq<View>, bound: nat) {
    forall i :: 0 <= i < |views| ==> 0 < views[i].sequence < bound
  }

  /** The newest `limit` matching records before a sequence, newest first. */
  function Select(views: seq<View>, q: Query, before: nat, limit: nat): (out: seq<View>)
    ensures |out| <= limit && |out| <= |views|
  {
    if views == [] || limit == 0 then []
    else
      var n := |views| - 1;
      if views[n].sequence < before && q.Matches(views[n].record)
      then [views[n]] + Select(views[..n], q, before, limit - 1)
      else Select(views[..n], q, before, limit)
  }

  const U64_MAX: nat := U64_SPAN - 1

  function BeforeOf(q: Query): (n: nat)
  {
    if q.cursor.Some? then q.cursor.value.before else U64_MAX
  }

  predicate CursorRefused(head: Head, cursor: PageCursor) {
    || cursor.generation != head.generation
    || cursor.before == 0
    || cursor.before > (if head.sequence == U64_MAX then U64_MAX else head.sequence + 1)
  }

  function NextCursor(views: seq<View>, head: Head, page: seq<View>): (c: Option<PageCursor>)
  {
    if page == [] then None
    else
      var last := page[|page| - 1].sequence;
      if exists i :: 0 <= i < |views| && views[i].sequence < last then Some(PageCursor(head.generation, last)) else None
  }

  function RunQuery(views: seq<View>, head: Head, q: Query): (r: Result<Page, Code>)
  {
    if q.cursor.Some? && CursorRefused(head, q.cursor.value) then Err(CursorInvalid)
    else
      var page := Select(views, q, BeforeOf(q), q.limit);
      Ok(Page(page, NextCursor(views, head, page), head))
  }

  // ----- what a page is -----

  /** Exactly the matching views before a sequence, newest first: this determines a list. */
  ghost predicate Lists(views: seq<View>, q: Query, before: nat, out: seq<View>) {
    && (forall i, j :: 0 <= i < j < |out| ==> out[j].sequence < out[i].sequence)
    && (forall v :: v in out <==> v in views && v.sequence < before && q.Matches(v.record))
  }

  function Everything(views: seq<View>, q: Query, before: nat): (out: seq<View>)
    ensures |out| <= |views|
  {
    Select(views, q, before, |views|)
  }

  /** A larger limit only makes the selection longer. */
  lemma {:induction false} SelectPrefix(views: seq<View>, q: Query, before: nat, limit: nat, more: nat)
    requires limit <= more
    ensures |Select(views, q, before, limit)| <= |Select(views, q, before, more)|
    ensures Select(views, q, before, limit) == Select(views, q, before, more)[..|Select(views, q, before, limit)|]
    ensures |Select(views, q, before, limit)| == limit
         || Select(views, q, before, limit) == Select(views, q, before, more)
  {
    if views != [] && limit != 0 {
      var n := |views| - 1;
      if views[n].sequence < before && q.Matches(views[n].record) {
        SelectPrefix(views[..n], q, before, limit - 1, more - 1);
      } else {
        SelectPrefix(views[..n], q, before, limit, more);
      }
    }
  }

  lemma {:induction false} SelectMembers(views: seq<View>, q: Query, before: nat, limit: nat, v: View)
    requires |views| <= limit
    ensures v in Select(views, q, before, limit) <==> v in views && v.sequence < before && q.Matches(v.record)
  {
    if views != [] {
      var n := |views| - 1;
      assert views == views[..n] + [views[n]];
      if views[n].sequence < before && q.Matches(views[n].record) {
        SelectMembers(views[..n], q, before, limit - 1, v);
      } else {
        SelectMembers(views[..n], q, before, limit, v);
      }
    }
  }

  lemma {:induction false} SelectFromViews(views: seq<View>, q: Query, before: nat, limit: nat, k: nat)
    requires k < |Select(views, q, before, limit)|
    ensures Select(views, q, before, limit)[k] in views
    ensures Select(views, q, before, limit)[k].sequence < before
  {
    var n := |views| - 1;
    if views[n].sequence < before && q.Matches(views[n].record) {
      if k > 0 {
        SelectFromViews(views[..n], q, before, limit - 1, k - 1);
      }
    } else {
      SelectFromViews(views[..n], q, before, limit, k);
    }
  }

  lemma {:induction false} SelectDescends(views: seq<View>, q: Query, before: nat, limit: nat, i: nat, j: nat)
    requires Ascending(views) && i < j < |Select(views, q, before, limit)|
    ensures Select(views, q, before, limit)[j].sequence < Select(views, q, before, limit)[i].sequence
  {
    var n := |views| - 1;
    if views[n].sequence < before && q.Matches(views[n].record) {
      if i > 0 {
        SelectDescends(views[..n], q, before, limit - 1, i - 1, j - 1);
      } else {
        SelectFromViews(views[..n], q, before, limit - 1, j - 1);
      }
    } else {
      SelectDescends(views[..n], q, before, limit, i, j);
    }
  }

  /** The whole selection is the list of the matching views. */
  lemma {:induction false} EverythingLists(views: seq<View>, q: Query, before: nat)
    requires Ascending(views)
    ensures Lists(views, q, before, Everything(views, q, before))
  {
    var out := Everything(views, q, before);
    forall i, j | 0 <= i < j < |out| ensures out[j].sequence < out[i].sequence {
      SelectDescends(views, q, before, |views|, i, j);
    }
    forall v ensures v in out <==> v in views && v.sequence < before && q.Matches(v.record) {
      SelectMembers(views, q, before, |views|, v);
    }
  }

  predicate Descending(out: seq<View>) {
    forall i, j :: 0 <= i < j < |out| ==> out[j].sequence < out[i].sequence
  }

  /** The members after position k of a descending list are those below its record k - 1. */
  lemma {:induction false} TailMembers(out: seq<View>, k: nat, v: View)
    requires Descending(out) && 0 < k <= |out|
    ensures v in out[k..] <==> v in out && v.sequence < out[k - 1].sequence
  {
    if v in out[k..] {
      var i :| 0 <= i < |out[k..]| && out[k..][i] == v;
      assert out[k + i] == v;
    }
    if v in out && v.sequence < out[k - 1].sequence {
      var i :| 0 <= i < |out| && out[i] == v;
      assert i >= k;
      assert out[k..][i - k] == v;
    }
  }

  /** Descending lists with the same members are equal. */
  lemma {:induction false} SameList(a: seq<View>, b: seq<View>)
    requires Descending(a) && Descending(b) && forall v :: v in a <==> v in b
    ensures a == b
  {
    if a != [] || b != [] {
      if a != [] {
        SameFirst(a, b);
      } else {
        SameFirst(b, a);
      }
      forall v ensures v in a[1..] <==> v in b[1..] {
        TailMembers(a, 1, v);
        TailMembers(b, 1, v);
      }
      SameList(a[1..], b[1..]);
      assert a == [a[0]] + a[1..] && b == [b[0]] + b[1..];
    }
  }

  lemma {:induction false} SameFirst(a: seq<View>, b: seq<View>)
    requires Descending(a) && Descending(b) && a != [] && forall v :: v in a <==> v in b
    ensures b != [] && a[0] == b[0]
  {
    assert a[0] in b;
    var i :| 0 <= i < |b| && b[i] == a[0];
    assert b[0] in a;
    var j :| 0 <= j < |a| && a[j] == b[0];
  }

  /** Going on below the last record of a page gives the rest of the selection. */
  lemma {:induction false} SelectFrom(views: seq<View>, q: Query, before: nat, k: nat)
    requires Ascending(views) && 0 < k <= |Everything(views, q, before)|
    ensures Everything(views, q, Everything(views, q, before)[k - 1].sequence) == Everything(views, q, before)[k..]
  {
    var all := Everything(views, q, before);
    var last := all[k - 1].sequence;
    EverythingLists(views, q, before);
    EverythingLists(views, q, last);
    assert all[k - 1] in all;
    forall v ensures v in all[k..] <==> v in Everything(views, q, last) {
      TailMembers(all, k, v);
    }
    assert Descending(all[k..]);
    SameList(all[k..], Everything(views, q, last));
  }

  // ----- following the cursors -----

  /** The pages from a sequence downward, as a client that follows `next_cursor` reads them. */
  function Follow(views: seq<View>, head: Head, q: Query, before: nat): (out: seq<View>)
    requires q.limit > 0
    decreases before
  {
    var page := Select(views, q, before, q.limit);
    match NextCursor(views, head, page)
    case None => page
    case Some(c) => if c.before < before then page + Follow(views, head, q, c.before) else page
  }

  /** A cursor the ledger issues lies below the page it came with, so following cursors ends. */
  lemma {:induction false} CursorDescends(views: seq<View>, head: Head, q: Query, before: nat)
    requires q.limit > 0
    ensures var next := NextCursor(views, head, Select(views, q, before, q.limit));
            next.Some? ==> next.value.before < before && next.value.generation == head.generation
  {
    var page := Select(views, q, before, q.limit);
    if page != [] {
      SelectFromViews(views, q, before, q.limit, |page| - 1);
    }
  }

  /** Paging is complete: the pages together are everything that matches, newest first, nothing twice. */
  lemma {:induction false} FollowIsEverything(views: seq<View>, head: Head, q: Query, before: nat)
    requires Ascending(views) && q.limit > 0
    ensures Follow(views, head, q, before) == Everything(views, q, before)
    decreases before
  {
    var all, page := Everything(views, q, before), Select(views, q, before, q.limit);
    PageIsPrefix(views, q, before);
    var k := |page|;
    if 0 < k < |all| {
      MoreMeansCursor(views, head, q, before);
    }
    match NextCursor(views, head, page)
    case Some(c) =>
      CursorDescends(views, head, q, before);
      SelectFrom(views, q, before, k);
      FollowIsEverything(views, head, q, c.before);
      assert all == all[..k] + all[k..];
    case None =>
  }

  /** A page that leaves matching records behind comes with a cursor. */
  lemma {:induction false} MoreMeansCursor(views: seq<View>, head: Head, q: Query, before: nat)
    requires Ascending(views) && 0 < |Select(views, q, before, q.limit)| < |Everything(views, q, before)|
    ensures NextCursor(views, head, Select(views, q, before, q.limit)).Some?
  {
    var all, page := Everything(views, q, before), Select(views, q, before, q.limit);
    PageIsPrefix(views, q, before);
    var k := |page|;
    SelectFromViews(views, q, before, |views|, k);
    SelectDescends(views, q, before, |views|, k - 1, k);
    assert page[k - 1] == all[k - 1];
    var i :| 0 <= i < |views| && views[i] == all[k];
  }

  lemma {:induction false} PageIsPrefix(views: seq<View>, q: Query, before: nat)
    ensures var all, page := Everything(views, q, before), Select(views, q, before, q.limit);
            && |page| <= |all| && page == all[..|page|]
            && (|page| < q.limit ==> page == all)
  {
    if q.limit <= |views| {
      SelectPrefix(views, q, before, q.limit, |views|);
    } else {
      SelectPrefix(views, q, before, |views|, q.limit);
    }
  }

  /** The first query and its cursors read exactly the matching records of the ledger. */
  lemma {:induction false} PagingComplete(views: seq<View>, head: Head, q: Query)
    requires Ascending(views) && Under(views, U64_MAX) && q.limit > 0 && q.cursor.None?
    ensures var out := Follow(views, head, q, BeforeOf(q));
            && Descending(out)
            && forall v :: v in out <==> v in views && q.Matches(v.record)
  {
    FollowIsEverything(views, head, q, U64_MAX);
    EverythingLists(views, q, U64_MAX);
    forall v | v in views ensures v.sequence < U64_MAX {
      var i :| 0 <= i < |views| && views[i] == v;
    }
  }

  /** What `Follow` does is what a client sees: each of its pages is a query's answer. */
  lemma {:induction false} FollowIsQueries(views: seq<View>, head: Head, q: Query, before: nat)
    requires Ascending(views) && Under(views, U64_MAX) && q.limit > 0
    requires views != [] ==> head.sequence == views[|views| - 1].sequence
    requires || (q.cursor == None && before == U64_MAX)
             || (q.cursor == Some(PageCursor(head.generation, before)) && 0 < before <= head.sequence + 1)
    requires head.sequence < U64_MAX
    ensures RunQuery(views, head, q).Ok?
    ensures var page := RunQuery(views, head, q).value;
            && Follow(views, head, q, before)
               == page.records
                  + (if page.next.None? then []
                     else Follow(views, head, q.(cursor := page.next), page.next.value.before))
            && (page.next.Some? ==> !CursorRefused(head, page.next.value))
  {
    var page := Select(views, q, before, q.limit);
    CursorDescends(views, head, q, before);
    if page != [] {
      SelectFromViews(views, q, before, q.limit, |page| - 1);
      var i :| 0 <= i < |views| && views[i] == page[|page| - 1];
    }
    if NextCursor(views, head, page).Some? {
      FilterOnly(views, head, q, NextCursor(views, head, page), NextCursor(views, head, page).value.before);
    }
  }

  /** The cursor itself does not filter. */
  lemma {:induction false} FilterOnly(views: seq<View>, head: Head, q: Query, cursor: Option<PageCursor>, before: nat)
    requires q.limit > 0
    ensures Follow(views, head, q, before) == Follow(views, head, q.(cursor := cursor), before)
    decreases before
  {
    SelectFilterOnly(views, q, cursor, before, q.limit);
    match NextCursor(views, head, Select(views, q, before, q.limit))
    case None =>
    case Some(c) =>
      if c.before < before {
        FilterOnly(views, head, q, cursor, c.before);
      }
  }

  lemma {:induction false} SelectFilterOnly(views: seq<View>, q: Query, cursor: Option<PageCursor>, before: nat,
                                            limit: nat)
    ensures Select(views, q, before, limit) == Select(views, q.(cursor := cursor), before, limit)
  {
    if views != [] && limit != 0 {
      var n := |views| - 1;
      if views[n].sequence < before && q.Matches(views[n].record) {
        SelectFilterOnly(views[..n], q, cursor, before, limit - 1);
      } else {
        SelectFilterOnly(views[..n], q, cursor, before, limit);
      }
    }
  }

  // ----- pages stay the same while records are added -----

  /** Records at or above the bound are passed over. */
  lemma {:induction false} SelectPasses(views: seq<View>, more: seq<View>, q: Query, before: nat, limit: nat)
    requires forall i :: 0 <= i < |more| ==> more[i].sequence >= before
    ensures Select(views + more, q, before, limit) == Select(views, q, before, limit)
  {
    if more == [] {
      assert views + more == views;
    } else if limit != 0 {
      var n := |more| - 1;
      assert (views + more)[..|views + more| - 1] == views + more[..n];
      SelectPasses(views, more[..n], q, before, limit);
    }
  }

  /**
   Stability: a cursor that was good stays good while records are only added, and its
   page and next cursor are the same.
   */
  lemma {:induction false} PageStable(views: seq<View>, more: seq<View>, head: Head, head': Head, q: Query)
    requires Ascending(views + more) && head'.generation == head.generation && head.sequence <= head'.sequence
    requires q.cursor.Some? && !CursorRefused(head, q.cursor.value)
    requires head.sequence < U64_MAX
    requires forall i :: 0 <= i < |more| ==> more[i].sequence > head.sequence
    ensures !CursorRefused(head', q.cursor.value)
    ensures RunQuery(views, head, q).Ok? && RunQuery(views + more, head', q).Ok?
    ensures RunQuery(views + more, head', q).value == RunQuery(views, head, q).value.(head := head')
  {
    var before := BeforeOf(q);
    SelectPasses(views, more, q, before, q.limit);
    var page := Select(views, q, before, q.limit);
    if page != [] {
      SelectFromViews(views, q, before, q.limit, |page| - 1);
      SameNext(views, more, head, page);
    }
  }

  lemma {:induction false} SameNext(views: seq<View>, more: seq<View>, head: Head, page: seq<View>)
    requires page != [] && forall i :: 0 <= i < |more| ==> more[i].sequence >= page[|page| - 1].sequence
    ensures NextCursor(views + more, head, page) == NextCursor(views, head, page)
  {
    var all, last := views + more, page[|page| - 1].sequence;
    if i :| 0 <= i < |views| && views[i].sequence < last {
      assert all[i] == views[i];
    }
    assert forall j :: 0 <= j < |more| ==> all[|views| + j] == more[j];
    if i :| 0 <= i < |all| && all[i].sequence < last {
      assert views[i].sequence < last;
    }
  }
}
