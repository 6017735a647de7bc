/**
 Systems that retain a sequence: every event adds some elements at its end and may drop
 some from its front. Over any run the retained sequence is a suffix of everything ever
 retained or added, and if every event continues a chain, all of that is one chain.
 */
module AuditHistory {
  datatype System<!S, !E, !T> = System(
    enabled: (S, E) -> bool, next: (S, E) -> S, kept: S -> seq<T>, added: (S, E) -> seq<T>)

  /** k elements go from the front and some come at the end. */
  ghost predicate Slid<T>(before: seq<T>, k: nat, added: seq<T>, after: seq<T>) {
    k <= |before| && after == before[k..] + added
  }

  ghost predicate Slides<S(!new), E(!new), T>(sys: System<S, E, T>) {
    forall s, e :: sys.enabled(s, e) ==> exists k :: Slid(sys.kept(s), k, sys.added(s, e), sys.kept(sys.next(s, e)))
  }

  /** Every event of the run is enabled where it happens. */
  ghost predicate Run<S, E, T>(sys: System<S, E, T>, s: S, es: seq<E>)
    decreases |es|
  {
    es == [] || (sys.enabled(s, es[0]) && Run(sys, sys.next(s, es[0]), es[1..]))
  }

  ghost function Final<S, E, T>(sys: System<S, E, T>, s: S, es: seq<E>): (s': S)
    decreases |es|
  {
    if es == [] then s else Final(sys, sys.next(s, es[0]), es[1..])
  }

  /** The state before event i. */
  ghost function StateAt<S, E, T>(sys: System<S, E, T>, s: S, es: seq<E>, i: nat): (s': S)
    requires i < |es|
    decreases |es|
  {
    if i == 0 then s else StateAt(sys, sys.next(s, es[0]), es[1..], i - 1)
  }

  ghost function Later<S, E, T>(sys: System<S, E, T>, s: S, es: seq<E>): (ts: seq<T>)
    decreases |es|
  {
    if es == [] then [] else sys.added(s, es[0]) + Later(sys, sys.next(s, es[0]), es[1..])
  }

  /** Everything retained at the start or added since, in order. */
  ghost function History<S, E, T>(sys: System<S, E, T>, s: S, es: seq<E>): (ts: seq<T>)
  {
    sys.kept(s) + Later(sys, s, es)
  }

  lemma {:induction false} Shift<T>(a: seq<T>, k: nat, x: seq<T>, b: seq<T>, y: seq<T>)
    requires Slid(a, k, x, b)
    ensures a + (x + y) == a[..k] + (b + y)
  {
  }

  lemma {:induction false} HistoryStep<S(!new), E(!new), T>(sys: System<S, E, T>, s: S, es: seq<E>)
    returns (dropped: seq<T>)
    requires Slides(sys) && Run(sys, s, es) && es != []
    ensures History(sys, s, es) == dropped + History(sys, sys.next(s, es[0]), es[1..])
  {
    var s' := sys.next(s, es[0]);
    var k: nat :| Slid(sys.kept(s), k, sys.added(s, es[0]), sys.kept(s'));
    dropped := sys.kept(s)[..k];
    Shift(sys.kept(s), k, sys.added(s, es[0]), sys.kept(s'), Later(sys, s', es[1..]));
  }

  /** The retained elements are the history without its first ones. */
  ghost predicate Retained<T>(history: seq<T>, gone: nat, kept: seq<T>) {
    gone <= |history| && kept == history[gone..]
  }

  lemma {:induction false} RetainedKeeps<S(!new), E(!new), T>(sys: System<S, E, T>, s: S, es: seq<E>)
    returns (gone: nat)
    requires Slides(sys) && Run(sys, s, es)
    ensures Retained(History(sys, s, es), gone, sys.kept(Final(sys, s, es)))
    decreases |es|
  {
    if es == [] {
      gone := 0;
      assert sys.kept(s) + [] == sys.kept(s);
    } else {
      var dropped := HistoryStep(sys, s, es);
      var l := RetainedKeeps(sys, sys.next(s, es[0]), es[1..]);
      gone := |dropped| + l;
    }
  }

  /** Where the history holds the j-th element that event i added. */
  lemma {:induction false} PlaceOf<S(!new), E(!new), T>(sys: System<S, E, T>, s: S, es: seq<E>, i: nat, j: nat)
    returns (place: nat)
    requires Slides(sys) && Run(sys, s, es) && i < |es| && j < |sys.added(StateAt(sys, s, es, i), es[i])|
    ensures place < |History(sys, s, es)| && History(sys, s, es)[place] == sys.added(StateAt(sys, s, es, i), es[i])[j]
    decreases |es|
  {
    if i == 0 {
      place := |sys.kept(s)| + j;
    } else {
      var dropped := HistoryStep(sys, s, es);
      var p := PlaceOf(sys, sys.next(s, es[0]), es[1..], i - 1, j);
      place := |dropped| + p;
    }
  }

  lemma {:induction false} EnabledAt<S, E, T>(sys: System<S, E, T>, s: S, es: seq<E>, i: nat)
    requires Run(sys, s, es) && i < |es|
    ensures sys.enabled(StateAt(sys, s, es, i), es[i])
    decreases |es|
  {
    if i > 0 {
      EnabledAt(sys, sys.next(s, es[0]), es[1..], i - 1);
    }
  }

  /** What every step keeps, the whole run keeps. */
  lemma {:induction false} FinalKeeps<S(!new), E(!new), T>(sys: System<S, E, T>, s: S, es: seq<E>, inv: S -> bool)
    requires inv(s) && Run(sys, s, es)
    requires forall s, e :: sys.enabled(s, e) ==> inv(sys.next(s, e))
    ensures inv(Final(sys, s, es))
    decreases |es|
  {
    if es != [] {
      FinalKeeps(sys, sys.next(s, es[0]), es[1..], inv);
    }
  }

  /** A quantity that every event raises by what it adds tells how much a run added. */
  lemma {:induction false} CountsAdded<S(!new), E(!new), T>(sys: System<S, E, T>, s: S, es: seq<E>, m: S -> nat)
    requires Run(sys, s, es)
    requires forall s, e :: sys.enabled(s, e) ==> m(sys.next(s, e)) == m(s) + |sys.added(s, e)|
    ensures m(Final(sys, s, es)) == m(s) + |Later(sys, s, es)|
    decreases |es|
  {
    if es != [] {
      CountsAdded(sys, sys.next(s, es[0]), es[1..], m);
    }
  }

  // ----- chains -----

  ghost predicate JoinedAt<T>(join: (T, T) -> bool, ts: seq<T>, i: nat)
    requires 0 < i < |ts|
  {
    join(ts[i - 1], ts[i])
  }

  /** Each element joins the one before it. */
  ghost predicate Chained<T>(join: (T, T) -> bool, ts: seq<T>) {
    forall i :: 0 < i < |ts| ==> JoinedAt(join, ts, i)
  }

  /** What an event adds continues the retained chain, and no event drops everything. */
  ghost predicate Prolongs<S(!new), E(!new), T>(sys: System<S, E, T>, join: (T, T) -> bool) {
    forall s, e :: sys.enabled(s, e) ==>
                     && Chained(join, sys.kept(s) + sys.added(s, e))
                     && (sys.kept(sys.next(s, e)) == [] ==> sys.kept(s) == [])
  }

  /** Chains that overlap are one chain. */
  lemma {:induction false} Overlap<T>(join: (T, T) -> bool, a: seq<T>, k: nat, x: seq<T>, b: seq<T>, y: seq<T>)
    requires Slid(a, k, x, b) && Chained(join, a + x) && Chained(join, b + y) && (b == [] ==> a == [])
    ensures Chained(join, a + (x + y))
  {
    var all := a + (x + y);
    forall i | 0 < i < |all| ensures JoinedAt(join, all, i) {
      if i < |a + x| {
        assert JoinedAt(join, a + x, i);
      } else {
        assert JoinedAt(join, b + y, i - k);
      }
    }
  }

  lemma {:induction false} SuffixChained<T>(join: (T, T) -> bool, ts: seq<T>, k: nat)
    requires Chained(join, ts) && k <= |ts|
    ensures Chained(join, ts[k..])
  {
    forall i | 0 < i < |ts[k..]| ensures JoinedAt(join, ts[k..], i) {
      assert JoinedAt(join, ts, i + k);
    }
  }

  /** The whole history is one chain, whatever was dropped from it. */
  lemma {:induction false} HistoryChained<S(!new), E(!new), T>(sys: System<S, E, T>, join: (T, T) -> bool, s: S,
                                                               es: seq<E>)
    requires Slides(sys) && Prolongs(sys, join) && Run(sys, s, es) && Chained(join, sys.kept(s))
    ensures Chained(join, History(sys, s, es))
    decreases |es|
  {
    if es == [] {
      assert sys.kept(s) + [] == sys.kept(s);
    } else {
      var a, x, b := sys.kept(s), sys.added(s, es[0]), sys.kept(sys.next(s, es[0]));
      var k: nat :| Slid(a, k, x, b);
      SuffixChained(join, a + x, k);
      assert (a + x)[k..] == b;
      HistoryChained(sys, join, sys.next(s, es[0]), es[1..]);
      Overlap(join, a, k, x, b, Later(sys, sys.next(s, es[0]), es[1..]));
    }
  }
}
