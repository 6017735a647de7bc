/**
 Preparing the TLS factories of one runtime generation through a cache of trust bundles
 that asks the reader at most once for each reference.

 The reader is a parameter: its answer to a reference may change with the number of reads
 already made, so nothing here supposes that the store stands still while a generation is
 being prepared.
 */
module TrustCache {
  import opened Bytes

  // Identifiers and bundles are only copied and compared here.
  type Name = nat
  type Ref = nat
  type Key = (Name, Name)
  type Bundle = nat

  datatype Answer = Found(bundle: Bundle) | Missing | Broken

  datatype Failure = BundleNotFound | ReaderFailed | FactoryRefused | RegistryClash | CertificateNotFound | PlanInvalid
  datatype Outcome<T> = Ready(value: T) | Failed(error: Failure)

  // ----- the plan -----

  datatype Scheme = Http | Https
  datatype Policy = Disabled | ServerAuthenticated(name: Name, ref: Ref)
  /** An upstream; its URL is the scheme it parses to, if it parses. */
  datatype Upstream = Upstream(id: Name, scheme: Option<Scheme>, policy: Policy)
  datatype Service = Service(id: Name, upstreams: seq<Upstream>)
  datatype Target = Target(key: Key, upstream: Upstream)
  datatype Requirement = Requirement(key: Key, ref: Ref, name: Name)

  function TargetsOf(s: Service): (ts: seq<Target>)
  {
    seq(|s.upstreams|, i requires 0 <= i < |s.upstreams| => Target((s.id, s.upstreams[i].id), s.upstreams[i]))
  }

  function Targets(services: seq<Service>): (ts: seq<Target>)
  {
    if services == [] then [] else TargetsOf(services[0]) + Targets(services[1..])
  }

  predicate Consistent(u: Upstream) {
    (u.scheme == Some(Http) && u.policy.Disabled?) || (u.scheme == Some(Https) && u.policy.ServerAuthenticated?)
  }

  predicate Plannable(ts: seq<Target>) {
    && (forall i :: 0 <= i < |ts| ==> Consistent(ts[i].upstream))
    && (forall i, j :: 0 <= i < j < |ts| ==> ts[i].key != ts[j].key)
  }

  /** One requirement for each authenticated upstream, in order. */
  function Required(ts: seq<Target>): (qs: seq<Requirement>)
  {
    if ts == [] then []
    else
      var t := ts[|ts| - 1];
      Required(ts[..|ts| - 1]) + RequirementOf(t)
  }

  function RequirementOf(t: Target): (qs: seq<Requirement>)
  {
    if t.upstream.policy.ServerAuthenticated? then [Requirement(t.key, t.upstream.policy.ref, t.upstream.policy.name)]
    else []
  }

  lemma {:induction false} PlannableSnoc(ts: seq<Target>, t: Target)
    ensures Plannable(ts + [t]) <==>
              Plannable(ts) && Consistent(t.upstream) && forall i :: 0 <= i < |ts| ==> ts[i].key != t.key
  {
    var us := ts + [t];
    assert us[|ts|] == t;
    assert forall i :: 0 <= i < |ts| ==> us[i] == ts[i];
  }

  lemma {:induction false} PlannablePrefix(ts: seq<Target>, more: seq<Target>)
    requires Plannable(ts + more)
    ensures Plannable(ts)
  {
    assert forall i :: 0 <= i < |ts| ==> (ts + more)[i] == ts[i];
  }

  /** The targets before the `j`-th upstream of the `i`-th service. */
  ghost function Before(services: seq<Service>, i: nat, j: nat): (ts: seq<Target>)
    requires i < |services| && j <= |services[i].upstreams|
  {
    Targets(services[..i]) + TargetsOf(services[i])[..j]
  }

  lemma {:induction false} TargetsSplit(services: seq<Service>, i: nat)
    requires i < |services|
    ensures Targets(services[..i + 1]) == Targets(services[..i]) + TargetsOf(services[i])
    ensures Targets(services) == Targets(services[..i + 1]) + Targets(services[i + 1..])
  {
    TargetsConcat(services[..i], [services[i]]);
    assert services[..i + 1] == services[..i] + [services[i]];
    assert Targets([services[i]]) == TargetsOf(services[i]) + [];
    TargetsConcat(services[..i + 1], services[i + 1..]);
    assert services == services[..i + 1] + services[i + 1..];
  }

  lemma {:induction false} TargetsConcat(a: seq<Service>, b: seq<Service>)
    ensures Targets(a + b) == Targets(a) + Targets(b)
  {
    if a == [] {
      assert a + b == b;
    } else {
      assert (a + b)[1..] == a[1..] + b;
      TargetsConcat(a[1..], b);
    }
  }

  lemma {:induction false} BeforeStep(services: seq<Service>, i: nat, j: nat)
    requires i < |services| && j < |services[i].upstreams|
    ensures Before(services, i, j + 1) == Before(services, i, j) + [TargetsOf(services[i])[j]]
    ensures Plannable(Targets(services)) ==> Plannable(Before(services, i, j + 1))
  {
    TargetsSplit(services, i);
    var own := TargetsOf(services[i]);
    assert own == own[..j + 1] + own[j + 1..];
    var more := Targets(services[i + 1..]);
    assert Targets(services) == Before(services, i, j + 1) + (own[j + 1..] + more);
    if Plannable(Targets(services)) {
      PlannablePrefix(Before(services, i, j + 1), own[j + 1..] + more);
    }
  }

  /** What planning has collected after these targets. */
  ghost predicate Planned(ts: seq<Target>, keys: set<Key>, qs: seq<Requirement>) {
    Plannable(ts) && qs == Required(ts) && forall k :: k in keys <==> exists i :: 0 <= i < |ts| && ts[i].key == k
  }

  lemma {:induction false} PlannedSnoc(ts: seq<Target>, t: Target, keys: set<Key>, qs: seq<Requirement>)
    requires Planned(ts, keys, qs)
    ensures Plannable(ts + [t]) <==> Consistent(t.upstream) && t.key !in keys
    ensures Plannable(ts + [t]) ==> Planned(ts + [t], keys + {t.key}, qs + RequirementOf(t))
  {
    var us := ts + [t];
    PlannableSnoc(ts, t);
    assert us[..|ts|] == ts && us[|ts|] == t;
    assert forall i :: 0 <= i < |ts| ==> us[i] == ts[i];
    forall k ensures k in keys + {t.key} <==> exists i :: 0 <= i < |us| && us[i].key == k {
      if k in keys {
        var i :| 0 <= i < |ts| && ts[i].key == k;
        assert us[i].key == k;
      }
    }
  }

  /** The body of the planning loop, for one upstream. */
  method PlanOne(service: Name, upstream: Upstream, keys: set<Key>, requirements: seq<Requirement>,
                 ghost ts: seq<Target>)
      returns (r: Outcome<(set<Key>, seq<Requirement>)>)
    requires Planned(ts, keys, requirements)
    ensures var t := Target((service, upstream.id), upstream);
            if Plannable(ts + [t]) then r.Ready? && Planned(ts + [t], r.value.0, r.value.1)
            else r == Failed(PlanInvalid)
  {
    var key := (service, upstream.id);
    PlannedSnoc(ts, Target(key, upstream), keys, requirements);
    if upstream.scheme.None? {
      return Failed(PlanInvalid);
    }
    if key in keys {
      return Failed(PlanInvalid);
    }
    match (upstream.scheme.value, upstream.policy) {
      case (Http, Disabled) =>
        assert requirements + [] == requirements;
        return Ready((keys + {key}, requirements));
      case (Https, ServerAuthenticated(name, ref)) =>
        return Ready((keys + {key}, requirements + [Requirement(key, ref, name)]));
      case _ =>
        return Failed(PlanInvalid);
    }
  }

  /** The inner planning loop, for one service. */
  method PlanService(services: seq<Service>, i: nat, keys: set<Key>, requirements: seq<Requirement>)
      returns (r: Outcome<(set<Key>, seq<Requirement>)>)
    requires i < |services| && Planned(Targets(services[..i]), keys, requirements)
    ensures r.Ready? ==> Planned(Targets(services[..i + 1]), r.value.0, r.value.1)
    ensures r.Failed? ==> r == Failed(PlanInvalid) && !Plannable(Targets(services))
  {
    var service, j := services[i], 0;
    var keys', requirements' := keys, requirements;
    assert Before(services, i, 0) == Targets(services[..i]);
    while j < |service.upstreams|
      invariant j <= |service.upstreams|
      invariant Planned(Before(services, i, j), keys', requirements')
    {
      BeforeStep(services, i, j);
      var one := PlanOne(service.id, service.upstreams[j], keys', requirements', Before(services, i, j));
      if one.Failed? {
        return Failed(PlanInvalid);
      }
      keys', requirements', j := one.value.0, one.value.1, j + 1;
    }
    TargetsSplit(services, i);
    assert Before(services, i, j) == Targets(services[..i + 1]);
    return Ready((keys', requirements'));
  }

  /** `plan_upstream_tls_preparation`, before the requirements are sorted. */
  method Plan(services: seq<Service>) returns (r: Outcome<seq<Requirement>>)
    ensures r == if Plannable(Targets(services)) then Ready(Required(Targets(services))) else Failed(PlanInvalid)
  {
    var keys: set<Key>, requirements: seq<Requirement> := {}, [];
    var i := 0;
    while i < |services|
      invariant i <= |services|
      invariant Planned(Targets(services[..i]), keys, requirements)
    {
      var one := PlanService(services, i, keys, requirements);
      if one.Failed? {
        return Failed(PlanInvalid);
      }
      keys, requirements, i := one.value.0, one.value.1, i + 1;
    }
    assert services[..i] == services;
    return Ready(requirements);
  }

  /** The check that the runtime makes of a registry: every authenticated upstream is in it, and nothing else. */
  predicate ValidForSnapshot(ts: seq<Target>, keys: set<Key>) {
    && (forall t :: t in ts && t.upstream.policy.ServerAuthenticated? ==> t.key in keys)
    && |keys| == |Required(ts)|
  }

  /** A registry with the keys of a plan, in any order, passes that check. */
  lemma {:induction false} PlanPassesCheck(ts: seq<Target>, qs: seq<Requirement>)
    requires Plannable(ts) && multiset(qs) == multiset(Required(ts))
    ensures UniqueKeys(qs) && ValidForSnapshot(ts, KeysOf(qs))
  {
    RequiredKeys(ts);
    SameMembers(qs, Required(ts));
    SortedUnique(qs, Required(ts));
    assert KeysOf(qs) == KeysOf(Required(ts));
  }

  lemma {:induction false} SameMembers(a: seq<Requirement>, b: seq<Requirement>)
    requires multiset(a) == multiset(b)
    ensures forall q :: q in a <==> q in b
  {
    forall q ensures q in a <==> q in b {
      assert q in a <==> q in multiset(a);
      assert q in b <==> q in multiset(b);
    }
  }

  lemma {:induction false} SortedUnique(a: seq<Requirement>, b: seq<Requirement>)
    requires multiset(a) == multiset(b) && UniqueKeys(b)
    ensures UniqueKeys(a)
  {
    forall i, j | 0 <= i < j < |a| ensures a[i].key != a[j].key {
      SameMembers(a, b);
      assert a[i] in a && a[j] in a;
      var k :| 0 <= k < |b| && b[k] == a[i];
      var l :| 0 <= l < |b| && b[l] == a[j];
      if k == l {
        TwiceCounted(a, i, j);
        OnceCounted(b, k);
      }
    }
  }

  lemma {:induction false} TwiceCounted(a: seq<Requirement>, i: nat, j: nat)
    requires i < j < |a| && a[i] == a[j]
    ensures multiset(a)[a[i]] >= 2
  {
    assert a == a[..i + 1] + a[i + 1..];
    assert a[i] in multiset(a[..i + 1]) by {
      assert a[..i + 1][i] == a[i];
    }
    assert a[j] in multiset(a[i + 1..]) by {
      assert a[i + 1..][j - i - 1] == a[j];
    }
  }

  lemma {:induction false} OnceCounted(b: seq<Requirement>, k: nat)
    requires k < |b| && UniqueKeys(b)
    ensures multiset(b)[b[k]] == 1
  {
    assert b == b[..k] + [b[k]] + b[k + 1..];
    assert b[k] !in b[..k] && b[k] !in b[k + 1..];
  }

  /** Distinct targets require distinct keys, one for each authenticated target. */
  ghost predicate KeysFit(ts: seq<Target>) {
    && UniqueKeys(Required(ts)) && ValidForSnapshot(ts, KeysOf(Required(ts)))
    && forall k :: k in KeysOf(Required(ts)) ==> exists i :: 0 <= i < |ts| && ts[i].key == k
  }

  lemma {:induction false} RequiredKeys(ts: seq<Target>)
    requires Plannable(ts)
    ensures KeysFit(ts)
  {
    if ts != [] {
      var less, t := ts[..|ts| - 1], ts[|ts| - 1];
      assert ts == less + [t];
      PlannableSnoc(less, t);
      RequiredKeys(less);
      KeysFitSnoc(less, t);
    }
  }

  lemma {:induction false} KeysFitSnoc(ts: seq<Target>, t: Target)
    requires KeysFit(ts) && forall i :: 0 <= i < |ts| ==> ts[i].key != t.key
    ensures KeysFit(ts + [t])
  {
    var us := ts + [t];
    assert us[..|ts|] == ts && us[|ts|] == t;
    assert forall i :: 0 <= i < |ts| ==> us[i] == ts[i];
    assert forall u :: u in us <==> u in ts || u == t;
    if t.upstream.policy.ServerAuthenticated? {
      NewRequirement(ts, t);
    } else {
      assert Required(us) == Required(ts);
    }
  }

  lemma {:induction false} NewRequirement(ts: seq<Target>, t: Target)
    requires KeysFit(ts)
    requires t.upstream.policy.ServerAuthenticated? && forall i :: 0 <= i < |ts| ==> ts[i].key != t.key
    ensures var qs := Required(ts) + RequirementOf(t);
            UniqueKeys(qs) && KeysOf(qs) == KeysOf(Required(ts)) + {t.key} && |KeysOf(qs)| == |qs|
  {
    var before, q := Required(ts), RequirementOf(t)[0];
    var qs := before + [q];
    assert t.key !in KeysOf(before);
    assert forall p :: p in qs <==> p in before || p == q;
    assert KeysOf(qs) == KeysOf(before) + {t.key};
    forall i, j | 0 <= i < j < |qs| ensures qs[i].key != qs[j].key {
      assert qs[i] == before[i];
      if j == |before| {
        assert before[i].key in KeysOf(before);
      }
    }
  }

  // ----- the cache -----

  predicate NoRepeat(log: seq<Ref>) {
    forall i, j :: 0 <= i < j < |log| ==> log[i] != log[j]
  }

  /** The cache holds, of every reference read, what the reader answered at its only read. */
  ghost predicate Sound(log: seq<Ref>, bundles: map<Ref, Bundle>, answer: (Ref, nat) -> Answer) {
    && NoRepeat(log)
    && (forall ref :: ref in bundles ==> ref in log)
    && (forall i :: 0 <= i < |log| ==> (log[i] in bundles <==> answer(log[i], i).Found?))
    && (forall i :: 0 <= i < |log| && log[i] in bundles ==> answer(log[i], i) == Found(bundles[log[i]]))
  }

  /** No read has failed so far. */
  predicate Complete(log: seq<Ref>, bundles: map<Ref, Bundle>) {
    forall i :: 0 <= i < |log| ==> log[i] in bundles
  }

  predicate Extends(old_: map<Ref, Bundle>, new_: map<Ref, Bundle>) {
    forall ref :: ref in old_ ==> ref in new_ && new_[ref] == old_[ref]
  }

  /** The factories of one loop, each as the bundle it was made from. */
  predicate Made(factories: map<Ref, Bundle>, bundles: map<Ref, Bundle>, accepts: Bundle -> bool) {
    forall ref :: ref in factories ==> ref in bundles && accepts(bundles[ref]) && factories[ref] == bundles[ref]
  }

  function Members(log: seq<Ref>): (rs: set<Ref>)
  {
    set ref | ref in log
  }

  function RefsOf(qs: seq<Requirement>): (rs: set<Ref>)
  {
    set q | q in qs :: q.ref
  }

  function ClientRefs(ls: seq<Listener>): (rs: set<Ref>)
  {
    set l | l in ls && l.auth.RequiredFrom? :: l.auth.ref
  }

  datatype ClientFactory = ClientFactory(trust: Bundle)
  datatype ServerFactory = NoClientAuth | RequiredClientAuth(trust: Bundle)
  datatype Upstreams = Upstreams(request: map<Key, ClientFactory>, health: map<Key, ClientFactory>)

  datatype ClientAuth = NotRequired | RequiredFrom(ref: Ref)
  datatype Listener = Listener(bind: nat, auth: ClientAuth)
  datatype PreparedListener = PreparedListener(bind: nat, factory: ServerFactory)
  /** A certificate snapshot: whether it yields a server configuration, and with which client trust. */
  datatype Certificates = Certificates(usable: bool, accepts: Bundle -> bool)

  predicate UniqueKeys(qs: seq<Requirement>) {
    forall i, j :: 0 <= i < j < |qs| ==> qs[i].key != qs[j].key
  }

  function KeysOf(qs: seq<Requirement>): (ks: set<Key>)
  {
    set q | q in qs :: q.key
  }

  /** Both registries hold, for exactly the required keys, a factory made from the cached bundle. */
  predicate UpstreamsBuilt(u: Upstreams, qs: seq<Requirement>, bundles: map<Ref, Bundle>, trusts: Bundle -> bool) {
    && UniqueKeys(qs)
    && u.request == u.health && u.request.Keys == KeysOf(qs)
    && forall q ::
         q in qs ==>
           q.ref in bundles && trusts(bundles[q.ref]) && q.key in u.request
             && u.request[q.key] == ClientFactory(bundles[q.ref])
  }

  /** Why outbound preparation stopped. */
  predicate UpstreamsBlocked(e: Failure, qs: seq<Requirement>, log: seq<Ref>, bundles: map<Ref, Bundle>,
                             trusts: Bundle -> bool)
  {
    match e
    case RegistryClash => !UniqueKeys(qs)
    case FactoryRefused => exists q :: q in qs && q.ref in bundles && !trusts(bundles[q.ref])
    case _ => exists q :: q in qs && q.ref in log && q.ref !in bundles
  }

  predicate ListenersBuilt(ps: seq<PreparedListener>, ls: seq<Listener>, bundles: map<Ref, Bundle>, tls: Certificates) {
    && tls.usable && |ps| == |ls|
    && forall i :: 0 <= i < |ls| ==> ListenerBuilt(ps[i], ls[i], bundles, tls)
  }

  predicate ListenerBuilt(p: PreparedListener, l: Listener, bundles: map<Ref, Bundle>, tls: Certificates) {
    && p.bind == l.bind
    && match l.auth
       case NotRequired => p.factory == NoClientAuth
       case RequiredFrom(ref) =>
         && ref in bundles && tls.accepts(bundles[ref])
         && p.factory == RequiredClientAuth(bundles[ref])
  }

  predicate ListenersBlocked(e: Failure, ls: seq<Listener>, log: seq<Ref>, bundles: map<Ref, Bundle>, tls: Certificates)
  {
    match e
    case FactoryRefused =>
      !tls.usable || exists l ::
        l in ls && l.auth.RequiredFrom? && l.auth.ref in bundles && !tls.accepts(bundles[l.auth.ref])
    case _ => exists l :: l in ls && l.auth.RequiredFrom? && l.auth.ref in log && l.auth.ref !in bundles
  }

  datatype Generation = Generation(upstreams: Upstreams, listeners: seq<PreparedListener>)

  predicate GenerationBuilt(g: Generation, qs: seq<Requirement>, trusts: Bundle -> bool, ls: seq<Listener>,
                            tls: Option<Certificates>, bundles: map<Ref, Bundle>)
  {
    && UpstreamsBuilt(g.upstreams, qs, bundles, trusts)
    && if ls == [] then g.listeners == [] else tls.Some? && ListenersBuilt(g.listeners, ls, bundles, tls.value)
  }

  predicate GenerationBlocked(e: Failure, qs: seq<Requirement>, trusts: Bundle -> bool, ls: seq<Listener>,
                              tls: Option<Certificates>, log: seq<Ref>, bundles: map<Ref, Bundle>)
  {
    || UpstreamsBlocked(e, qs, log, bundles, trusts)
    || (ls != [] && if tls.None? then e == CertificateNotFound else ListenersBlocked(e, ls, log, bundles, tls.value))
  }

  class TrustBundleCache {
    const answer: (Ref, nat) -> Answer
    var bundles: map<Ref, Bundle>
    /** The references asked of the reader, in order. */
    var log: seq<Ref>

    ghost predicate Valid()
      reads this
    {
      Sound(log, bundles, answer) && Complete(log, bundles)
    }

    constructor (answer: (Ref, nat) -> Answer)
      ensures Valid() && log == [] && bundles == map[] && this.answer == answer
    {
      this.answer := answer;
      bundles := map[];
      log := [];
    }

    method Load(ref: Ref) returns (r: Outcome<Bundle>)
      requires Valid()
      modifies this
      ensures Sound(log, bundles, answer) && Extends(old(bundles), bundles)
      ensures Members(log) == Members(old(log)) + {ref}
      ensures r.Ready? ==> Valid() && ref in bundles && r.value == bundles[ref]
      ensures r.Failed? ==> ref in log && ref !in bundles && r.error in {BundleNotFound, ReaderFailed}
    {
      if ref in bundles {
        return Ready(bundles[ref]);
      }
      var a := answer(ref, |log|);
      OneMoreRead(log, bundles, answer, ref);
      log := log + [ref];
      if a.Missing? {
        return Failed(BundleNotFound);
      }
      if a.Broken? {
        return Failed(ReaderFailed);
      }
      bundles := bundles[ref := a.bundle];
      return Ready(a.bundle);
    }

    /** The factory of a reference: the one already made in this loop, or a new one. */
    method Factory(factories: map<Ref, Bundle>, ref: Ref, accepts: Bundle -> bool)
      returns (r: Outcome<map<Ref, Bundle>>)
      requires Valid() && Made(factories, bundles, accepts)
      modifies this
      ensures Sound(log, bundles, answer) && Extends(old(bundles), bundles)
      ensures r.Ready? ==> Valid() && Members(log) == Members(old(log)) + {ref}
      ensures r.Ready? ==> Made(r.value, bundles, accepts) && ref in r.value
      ensures r.Failed? ==> if r.error.FactoryRefused? then ref in bundles && !accepts(bundles[ref])
                            else ref in log && ref !in bundles && r.error in {BundleNotFound, ReaderFailed}
    {
      if ref in factories {
        return Ready(factories);
      }
      var loaded := Load(ref);
      if loaded.Failed? {
        return Failed(loaded.error);
      }
      if !accepts(loaded.value) {
        return Failed(FactoryRefused);
      }
      return Ready(factories[ref := loaded.value]);
    }

    /** `prepare_upstream_tls_runtime_with_cache`, for the planned requirements in any order. */
    method PrepareUpstreams(qs: seq<Requirement>, trusts: Bundle -> bool) returns (r: Outcome<Upstreams>)
      requires Valid()
      modifies this
      ensures Sound(log, bundles, answer) && Extends(old(bundles), bundles)
      ensures r.Ready? ==> Valid() && UpstreamsBuilt(r.value, qs, bundles, trusts)
      ensures r.Ready? ==> Members(log) == Members(old(log)) + RefsOf(qs)
      ensures r.Failed? ==> UpstreamsBlocked(r.error, qs, log, bundles, trusts)
    {
      var factories: map<Ref, Bundle>, u, i := map[], Upstreams(map[], map[]), 0;
      while i < |qs|
        invariant i <= |qs| && Valid() && Extends(old(bundles), bundles)
        invariant Made(factories, bundles, trusts)
        invariant UpstreamsBuilt(u, qs[..i], bundles, trusts)
        invariant Members(log) == Members(old(log)) + RefsOf(qs[..i])
      {
        var q := qs[i];
        ghost var before := bundles;
        var made := Factory(factories, q.ref, trusts);
        if made.Failed? {
          assert q in qs;
          return Failed(made.error);
        }
        factories := made.value;
        Snoc(qs, i);
        if q.key in u.request {
          Clash(qs, i);
          return Failed(RegistryClash);
        }
        StillBuilt(u, qs[..i], before, bundles, trusts);
        OneMoreUpstream(u, qs[..i], q, bundles, trusts);
        var factory := ClientFactory(factories[q.ref]);
        u := Upstreams(u.request[q.key := factory], u.health[q.key := factory]);
        i := i + 1;
      }
      assert qs[..i] == qs;
      return Ready(u);
    }

    /** `prepare_https_listener_factories_with_cache`. */
    method PrepareListeners(ls: seq<Listener>, tls: Certificates) returns (r: Outcome<seq<PreparedListener>>)
      requires Valid()
      modifies this
      ensures Sound(log, bundles, answer) && Extends(old(bundles), bundles)
      ensures r.Ready? ==> Valid() && ListenersBuilt(r.value, ls, bundles, tls)
      ensures r.Ready? ==> Members(log) == Members(old(log)) + ClientRefs(ls)
      ensures r.Failed? ==> ListenersBlocked(r.error, ls, log, bundles, tls)
    {
      if !tls.usable {
        return Failed(FactoryRefused);
      }
      var factories: map<Ref, Bundle>, prepared: seq<PreparedListener>, i := map[], [], 0;
      while i < |ls|
        invariant i <= |ls| && Valid() && Extends(old(bundles), bundles)
        invariant Made(factories, bundles, tls.accepts)
        invariant ListenersBuilt(prepared, ls[..i], bundles, tls)
        invariant Members(log) == Members(old(log)) + ClientRefs(ls[..i])
      {
        var l, factory := ls[i], NoClientAuth;
        ghost var before := bundles;
        if l.auth.RequiredFrom? {
          var made := Factory(factories, l.auth.ref, tls.accepts);
          if made.Failed? {
            assert l in ls;
            return Failed(made.error);
          }
          factories := made.value;
          factory := RequiredClientAuth(factories[l.auth.ref]);
        }
        ListenerSnoc(ls, i);
        OneMoreListener(prepared, ls[..i], l, factory, before, bundles, tls);
        prepared := prepared + [PreparedListener(l.bind, factory)];
        i := i + 1;
      }
      assert ls[..i] == ls;
      return Ready(prepared);
    }

    /** `prepare_tls_runtime_generation`: one cache for the outbound and the inbound side. */
    static method PrepareGeneration(qs: seq<Requirement>, trusts: Bundle -> bool, ls: seq<Listener>,
                                    tls: Option<Certificates>, answer: (Ref, nat) -> Answer, ghost store: Ref -> Answer)
        returns (cache: TrustBundleCache, r: Outcome<Generation>)
      ensures fresh(cache) && cache.answer == answer
      ensures Sound(cache.log, cache.bundles, answer)
      ensures r.Ready? ==> Complete(cache.log, cache.bundles) && Members(cache.log) == RefsOf(qs) + ClientRefs(ls)
      ensures r.Ready? ==> GenerationBuilt(r.value, qs, trusts, ls, tls, cache.bundles)
      ensures r.Failed? ==> GenerationBlocked(r.error, qs, trusts, ls, tls, cache.log, cache.bundles)
      ensures StandsStill(answer, store) ==> (r.Ready? <==> Preparable(qs, trusts, ls, tls, store))
    {
      cache := new TrustBundleCache(answer);
      r := cache.PrepareBoth(qs, trusts, ls, tls);
      if StandsStill(answer, store) {
        PreparedExactly(r, qs, trusts, ls, tls, cache.log, cache.bundles, answer, store);
      }
    }

    /** First the outbound side, then the inbound one. */
    method PrepareBoth(qs: seq<Requirement>, trusts: Bundle -> bool, ls: seq<Listener>, tls: Option<Certificates>)
        returns (r: Outcome<Generation>)
      requires log == [] && bundles == map[]
      modifies this
      ensures Sound(log, bundles, answer)
      ensures r.Ready? ==> Complete(log, bundles) && Members(log) == RefsOf(qs) + ClientRefs(ls)
      ensures r.Ready? ==> GenerationBuilt(r.value, qs, trusts, ls, tls, bundles)
      ensures r.Failed? ==> GenerationBlocked(r.error, qs, trusts, ls, tls, log, bundles)
    {
      var upstreams := PrepareUpstreams(qs, trusts);
      if upstreams.Failed? {
        return Failed(upstreams.error);
      }
      if ls == [] {
        return Ready(Generation(upstreams.value, []));
      }
      if tls.None? {
        return Failed(CertificateNotFound);
      }
      ghost var before := bundles;
      var listeners := PrepareListeners(ls, tls.value);
      StillBuilt(upstreams.value, qs, before, bundles, trusts);
      if listeners.Failed? {
        return Failed(listeners.error);
      }
      return Ready(Generation(upstreams.value, listeners.value));
    }
  }

  lemma {:induction false} OneMoreRead(log: seq<Ref>, bundles: map<Ref, Bundle>, answer: (Ref, nat) -> Answer, ref: Ref)
    requires Sound(log, bundles, answer) && Complete(log, bundles) && ref !in bundles
    ensures Members(log + [ref]) == Members(log) + {ref}
    ensures var a := answer(ref, |log|);
            if a.Found? then
              Sound(log + [ref], bundles[ref := a.bundle], answer) && Complete(log + [ref], bundles[ref := a.bundle])
            else Sound(log + [ref], bundles, answer)
  {
    var more := log + [ref];
    assert forall i :: 0 <= i < |log| ==> more[i] == log[i];
    assert more[|log|] == ref;
    assert forall r :: r in more <==> r in log || r == ref;
  }

  /** An already built registry does not depend on later reads. */
  lemma {:induction false} StillBuilt(u: Upstreams, qs: seq<Requirement>, before: map<Ref, Bundle>,
                                      after: map<Ref, Bundle>, trusts: Bundle -> bool)
    requires UpstreamsBuilt(u, qs, before, trusts) && Extends(before, after)
    ensures UpstreamsBuilt(u, qs, after, trusts)
  {
    assert forall q :: q in qs ==> after[q.ref] == before[q.ref];
  }

  lemma {:induction false} Snoc(qs: seq<Requirement>, i: nat)
    requires i < |qs|
    ensures qs[..i + 1] == qs[..i] + [qs[i]] && RefsOf(qs[..i + 1]) == RefsOf(qs[..i]) + {qs[i].ref}
  {
    var less, q := qs[..i], qs[i];
    assert qs[..i + 1] == less + [q];
    assert forall p :: p in less + [q] <==> p in less || p == q;
  }

  lemma {:induction false} ListenerSnoc(ls: seq<Listener>, i: nat)
    requires i < |ls|
    ensures ls[..i + 1] == ls[..i] + [ls[i]]
    ensures ClientRefs(ls[..i + 1]) == ClientRefs(ls[..i]) + if ls[i].auth.RequiredFrom? then {ls[i].auth.ref} else {}
  {
    var less, l := ls[..i], ls[i];
    assert ls[..i + 1] == less + [l];
    assert forall p :: p in less + [l] <==> p in less || p == l;
  }

  lemma {:induction false} OneMoreListener(ps: seq<PreparedListener>, ls: seq<Listener>, l: Listener, f: ServerFactory,
                                           before: map<Ref, Bundle>, after: map<Ref, Bundle>, tls: Certificates)
    requires ListenersBuilt(ps, ls, before, tls) && Extends(before, after)
    requires ListenerBuilt(PreparedListener(l.bind, f), l, after, tls)
    ensures ListenersBuilt(ps + [PreparedListener(l.bind, f)], ls + [l], after, tls)
  {
    var p := PreparedListener(l.bind, f);
    forall i | 0 <= i < |ls + [l]| ensures ListenerBuilt((ps + [p])[i], (ls + [l])[i], after, tls) {
      if i < |ls| {
        assert (ps + [p])[i] == ps[i] && (ls + [l])[i] == ls[i];
      }
    }
  }

  lemma {:induction false} Clash(qs: seq<Requirement>, i: nat)
    requires i < |qs| && qs[i].key in KeysOf(qs[..i])
    ensures !UniqueKeys(qs)
  {
    var q :| q in qs[..i] && q.key == qs[i].key;
    var j :| 0 <= j < i && qs[..i][j] == q;
    assert qs[j].key == qs[i].key;
  }

  lemma {:induction false} OneMoreUpstream(u: Upstreams, qs: seq<Requirement>, q: Requirement,
                                           bundles: map<Ref, Bundle>, trusts: Bundle -> bool)
    requires UpstreamsBuilt(u, qs, bundles, trusts) && q.key !in u.request
    requires q.ref in bundles && trusts(bundles[q.ref])
    ensures var f := ClientFactory(bundles[q.ref]);
            UpstreamsBuilt(Upstreams(u.request[q.key := f], u.health[q.key := f]), qs + [q], bundles, trusts)
  {
    var f, more := ClientFactory(bundles[q.ref]), qs + [q];
    assert forall p :: p in more <==> p in qs || p == q;
    assert KeysOf(more) == KeysOf(qs) + {q.key};
    assert u.request[q.key := f].Keys == u.request.Keys + {q.key};
    forall i, j | 0 <= i < j < |more| ensures more[i].key != more[j].key {
      assert more[i] == qs[i];
      if j == |qs| {
        assert qs[i].key in KeysOf(qs);
      }
    }
  }

  // ----- from the snapshot to the generation -----

  /** The derived order on requirements, field by field. */
  predicate AtMost(a: Requirement, b: Requirement) {
    if a.key.0 != b.key.0 then a.key.0 < b.key.0
    else if a.key.1 != b.key.1 then a.key.1 < b.key.1
    else if a.ref != b.ref then a.ref < b.ref
    else a.name <= b.name
  }

  predicate Ordered(qs: seq<Requirement>) {
    forall i, j :: 0 <= i < j < |qs| ==> AtMost(qs[i], qs[j])
  }

  function Insert(q: Requirement, qs: seq<Requirement>): (r: seq<Requirement>)
    ensures multiset(r) == multiset(qs) + multiset{q}
  {
    if qs == [] || AtMost(q, qs[0]) then [q] + qs
    else
      assert qs == [qs[0]] + qs[1..];
      [qs[0]] + Insert(q, qs[1..])
  }

  /** `requirements.sort()` */
  function Sort(qs: seq<Requirement>): (r: seq<Requirement>)
    ensures multiset(r) == multiset(qs)
  {
    if qs == [] then []
    else
      assert qs == [qs[0]] + qs[1..];
      Insert(qs[0], Sort(qs[1..]))
  }

  lemma {:induction false} InsertOrdered(q: Requirement, qs: seq<Requirement>)
    requires Ordered(qs)
    ensures Ordered(Insert(q, qs))
  {
    if qs != [] && !AtMost(q, qs[0]) {
      InsertOrdered(q, qs[1..]);
      var rest := Insert(q, qs[1..]);
      forall i | 0 <= i < |rest| ensures AtMost(qs[0], rest[i]) {
        assert rest[i] in multiset(rest);
        if rest[i] != q {
          assert rest[i] in multiset(qs[1..]);
          var j :| 0 <= j < |qs[1..]| && qs[1..][j] == rest[i];
          assert qs[j + 1] == rest[i];
        }
      }
    }
  }

  lemma {:induction false} SortOrdered(qs: seq<Requirement>)
    ensures Ordered(Sort(qs))
  {
    if qs != [] {
      SortOrdered(qs[1..]);
      InsertOrdered(qs[0], Sort(qs[1..]));
    }
  }

  /**
   `prepare_tls_runtime_generation`, from the services of a snapshot: a snapshot that
   cannot be planned fails before anything is read; a generation that is ready has
   registries with exactly the keys that the runtime's own check expects.
   */
  method PrepareSnapshot(services: seq<Service>, trusts: Bundle -> bool, ls: seq<Listener>,
                         tls: Option<Certificates>, answer: (Ref, nat) -> Answer, ghost store: Ref -> Answer)
      returns (cache: TrustBundleCache, r: Outcome<Generation>)
    ensures fresh(cache) && cache.answer == answer && Sound(cache.log, cache.bundles, answer)
    ensures !Plannable(Targets(services)) ==> r == Failed(PlanInvalid) && cache.log == []
    ensures Plannable(Targets(services)) ==>
              var qs := Sort(Required(Targets(services)));
              && (r.Ready? ==>
                    && Complete(cache.log, cache.bundles) && Members(cache.log) == RefsOf(qs) + ClientRefs(ls)
                    && GenerationBuilt(r.value, qs, trusts, ls, tls, cache.bundles)
                    && ValidForSnapshot(Targets(services), r.value.upstreams.request.Keys))
              && (r.Failed? ==> GenerationBlocked(r.error, qs, trusts, ls, tls, cache.log, cache.bundles))
              && (StandsStill(answer, store) ==> (r.Ready? <==> Preparable(qs, trusts, ls, tls, store)))
  {
    var plan := Plan(services);
    if plan.Failed? {
      cache := new TrustBundleCache(answer);
      return cache, Failed(plan.error);
    }
    var requirements := Sort(plan.value);
    PlanPassesCheck(Targets(services), requirements);
    cache, r := TrustBundleCache.PrepareGeneration(requirements, trusts, ls, tls, answer, store);
  }

  // ----- a store that stands still -----

  /** The reader answers from a store that does not change. */
  ghost predicate StandsStill(answer: (Ref, nat) -> Answer, store: Ref -> Answer) {
    forall ref, n :: answer(ref, n) == store(ref)
  }

  /** What a generation needs of the store. */
  predicate Preparable(qs: seq<Requirement>, trusts: Bundle -> bool, ls: seq<Listener>, tls: Option<Certificates>,
                       store: Ref -> Answer)
  {
    && UniqueKeys(qs)
    && (forall q :: q in qs ==> store(q.ref).Found? && trusts(store(q.ref).bundle))
    && (ls != [] ==> tls.Some? && tls.value.usable)
    && (forall l ::
        l in ls && l.auth.RequiredFrom? ==> store(l.auth.ref).Found? && tls.value.accepts(store(l.auth.ref).bundle))
  }

  /**
   With a reader whose answers do not change, preparation succeeds exactly when the store
   has every trusted bundle.
   */
  lemma {:induction false} PreparedExactly(
      r: Outcome<Generation>, qs: seq<Requirement>, trusts: Bundle -> bool, ls: seq<Listener>,
      tls: Option<Certificates>,
      log: seq<Ref>, bundles: map<Ref, Bundle>, answer: (Ref, nat) -> Answer, store: Ref -> Answer)
    requires StandsStill(answer, store)
    requires Sound(log, bundles, answer)
    requires r.Ready? ==> GenerationBuilt(r.value, qs, trusts, ls, tls, bundles)
    requires r.Failed? ==> GenerationBlocked(r.error, qs, trusts, ls, tls, log, bundles)
    ensures r.Ready? <==> Preparable(qs, trusts, ls, tls, store)
  {
    forall ref | ref in log ensures ref in bundles <==> store(ref).Found? {
      CachedIsStored(log, bundles, answer, store, ref);
    }
    forall ref | ref in bundles ensures store(ref) == Found(bundles[ref]) {
      CachedIsStored(log, bundles, answer, store, ref);
    }
    if r.Ready? {
      forall l | l in ls && l.auth.RequiredFrom?
        ensures store(l.auth.ref).Found? && tls.value.accepts(store(l.auth.ref).bundle)
      {
        var i :| 0 <= i < |ls| && ls[i] == l;
        assert ListenerBuilt(r.value.listeners[i], ls[i], bundles, tls.value);
      }
    }
  }

  lemma {:induction false} CachedIsStored(log: seq<Ref>, bundles: map<Ref, Bundle>, answer: (Ref, nat) -> Answer,
                                          store: Ref -> Answer, ref: Ref)
    requires StandsStill(answer, store)
    requires Sound(log, bundles, answer) && ref in log
    ensures ref in bundles <==> store(ref).Found?
    ensures ref in bundles ==> store(ref) == Found(bundles[ref])
  {
    var i :| 0 <= i < |log| && log[i] == ref;
    assert answer(log[i], i) == store(ref);
  }
}
