/**
 Applying a configuration: prepare, activate, commit and, if the health runtime does not
 start, compensate. Four pieces of state move together: the core's configuration with
 its registries and availability generation, the mirrored snapshot, the TLS mirror, and
 the health controller.

 What the client cannot see from here (loading certificates, building factories,
 starting threads, the runtime's own validation) is an outcome in `Outcomes`.
 */
module Activation {
  import opened Bytes

  datatype Config = Config(revision: nat, content: nat)

  datatype Tls = Tls(id: nat)

  /** A prepared set of session factories, known by what it was built from. */
  datatype Registry = Registry(config: Config, tls: Option<Tls>)

  datatype Error =
    | Failure(cause: Cause)
    | GenerationsExhausted
    | StaleAvailability
    | RuntimeCompensationFailed
    | HealthCompensationFailed

  datatype Ack = Accepted | Rejected(error: Error)

  /** What each fallible step of an apply answers; None means it succeeds, a cause that it fails. */
  type Cause = nat

  datatype Outcomes = Outcomes(
    tlsSnapshot: Result<Option<Tls>, Cause>,
    candidateBuild: Option<Cause>,
    rollbackBuild: Option<Cause>,
    candidateHealth: Option<Cause>,
    rollbackHealth: Option<Cause>,
    candidateServer: Option<Cause>,
    candidateRuntime: Option<Cause>,
    candidateCommit: Option<Cause>,
    rollbackServer: Option<Cause>,
    rollbackRuntime: Option<Cause>,
    rollbackCommit: Option<Cause>,
    publishBefore: bool,
    publishBetween: bool)

  // ----- the core -----

  datatype Core = Core(config: Config, generation: Option<nat>, server: Registry, client: Registry)

  /** `apply_availability`'s test, after `reconcile` has cleared the generation of another revision. */
  predicate Stale(core: Core, next: Config, generation: nat) {
    core.config.revision == next.revision && core.generation.Some? && generation < core.generation.value
  }

  /** `activate_runtime_generation`: all of it, or nothing. */
  function Activated(core: Core, next: Config, generation: nat, server: Registry, client: Registry,
                     refusal: Option<Cause>):
    (r: (Core, Ack))
  {
    if refusal.Some? then (core, Rejected(Failure(refusal.value)))
    else if Stale(core, next, generation) then (core, Rejected(StaleAvailability))
    else (Core(next, Some(generation), server, client), Accepted)
  }

  /** A running health runtime publishes availability: kept only for its own revision, and not when it is older. */
  function Published(core: Core, run: Option<HealthRun>): (r: Core)
  {
    if run.Some? && run.value.config.revision == core.config.revision && !Stale(core, core.config, run.value.generation)
    then core.(generation := Some(run.value.generation))
    else core
  }

  // ----- the health controller -----

  datatype HealthRun = HealthRun(config: Config, generation: nat)

  datatype Health = Health(next: Option<nat>, active: Option<HealthRun>, registry: Registry)

  /** `allocate` */
  function Allocated(h: Health): (r: Result<(Health, nat), Error>)
  {
    match h.next
    case None => Err(GenerationsExhausted)
    case Some(g) => Ok((h.(next := if g + 1 < U64_SPAN then Some(g + 1) else None), g))
  }

  /** `prepare_with_tls_registry`: a generation is used up even when the runtime does not come up. */
  function Prepared(h: Health, config: Config, failure: Option<Cause>): (r: (Health, Result<HealthRun, Error>))
  {
    match Allocated(h)
    case Err(e) => (h, Err(e))
    case Ok((h', g)) => if failure.Some? then (h', Err(Failure(failure.value))) else (h', Ok(HealthRun(config, g)))
  }

  /** `commit_with_tls_registry` */
  function Committed(h: Health, run: HealthRun, registry: Registry,
                     failure: Option<Cause>): (r: (Health, Option<Cause>))
  {
    if failure.Some? then (h, failure) else (Health(h.next, Some(run), registry), None)
  }

  // ----- the client -----

  datatype World = World(core: Core, mirror: Config, tls: Option<Tls>, health: Health)

  /** What an apply has in hand before it touches the core. */
  datatype Plan = Plan(
    candidate: Registry,
    rollback: Registry,
    candidateRun: HealthRun,
    rollbackRun: HealthRun,
    nextTls: Option<Tls>)

  /** The TLS snapshot of the candidate, prepared only when TLS is served at all. */
  function NextTls(w: World, o: Outcomes): (r: Result<Option<Tls>, Cause>)
  {
    if w.tls.Some? then o.tlsSnapshot else Ok(None)
  }

  /** Everything up to the first command to the core; only the generation counter moves. */
  function PrepareApply(w: World, next: Config, o: Outcomes): (r: (World, Result<Plan, Error>))
  {
    match NextTls(w, o)
    case Err(e) => (w, Err(Failure(e)))
    case Ok(tls) =>
      if o.candidateBuild.Some? then (w, Err(Failure(o.candidateBuild.value)))
      else if o.rollbackBuild.Some? then (w, Err(Failure(o.rollbackBuild.value)))
      else
        var (h1, candidate) := Prepared(w.health, next, o.candidateHealth);
        if candidate.Err? then (w.(health := h1), Err(candidate.error))
        else
          var (h2, rollback) := Prepared(h1, w.mirror, o.rollbackHealth);
          if rollback.Err? then (w.(health := h2), Err(rollback.error))
          else if o.candidateServer.Some? then (w.(health := h2), Err(Failure(o.candidateServer.value)))
          else (w.(health := h2),
                Ok(Plan(Registry(next, tls), Registry(w.mirror, w.tls), candidate.value, rollback.value, tls)))
  }

  /** The way back, after the candidate's health runtime did not start. */
  function Compensate(w: World, p: Plan, cause: Cause, o: Outcomes): (r: (World, Ack))
  {
    var core := if o.publishBetween then Published(w.core, w.health.active) else w.core;
    if o.rollbackServer.Some? then (w.(core := core), Rejected(RuntimeCompensationFailed))
    else
      var (core', ack) := Activated(core, p.rollbackRun.config, p.rollbackRun.generation, p.rollback, p.rollback,
                                    o.rollbackRuntime);
      if ack.Rejected? then (w.(core := core'), Rejected(RuntimeCompensationFailed))
      else
        var (health, failed) := Committed(w.health, p.rollbackRun, p.rollback, o.rollbackCommit);
        (w.(core := core', health := health),
         Rejected(if failed.Some? then HealthCompensationFailed else Failure(cause)))
  }

  /** From the first command to the core on. */
  function Activate(w: World, p: Plan, next: Config, o: Outcomes): (r: (World, Ack))
  {
    var core := if o.publishBefore then Published(w.core, w.health.active) else w.core;
    var (core', ack) := Activated(core, next, p.candidateRun.generation, p.candidate, p.candidate, o.candidateRuntime);
    if ack.Rejected? then (w.(core := core'), ack)
    else
      var (health, failed) := Committed(w.health, p.candidateRun, p.candidate, o.candidateCommit);
      if failed.Some? then Compensate(w.(core := core'), p, failed.value, o)
      else (World(core', next, if p.nextTls.Some? then p.nextTls else w.tls, health), Accepted)
  }

  /** `send` of an apply. */
  function Apply(w: World, next: Config, o: Outcomes): (r: (World, Ack))
  {
    match PrepareApply(w, next, o)
    case (w', Err(e)) => (w', Rejected(e))
    case (w', Ok(p)) => Activate(w', p, next, o)
  }

  /** `send` of a certificate installation: the server registry of the current configuration is replaced. */
  function Install(w: World, tls: Result<Tls, Cause>, build: Option<Cause>, server: Option<Cause>,
                   runtime: Option<Cause>):
    (r: (World, Ack))
  {
    if w.tls.Some? && tls.Err? then (w, Rejected(Failure(tls.error)))
    else
      var next := if w.tls.Some? then Some(tls.value) else None;
      if build.Some? then (w, Rejected(Failure(build.value)))
      else if server.Some? then (w, Rejected(Failure(server.value)))
      else if runtime.Some? then (w, Rejected(Failure(runtime.value)))
      else (w.(core := w.core.(server := Registry(w.mirror, next)), tls := if next.Some? then next else w.tls),
            Accepted)
  }

  // ----- all or nothing -----

  /** Core, mirror and health controller hold the same configuration. */
  predicate Consistent(w: World) {
    && w.core.config == w.mirror
    && w.health.active.Some? && w.health.active.value.config == w.mirror
  }

  /** Generations in use were allocated before the next one. */
  predicate Fresh(w: World) {
    w.health.next.Some? ==>
      && (w.core.generation.Some? ==> w.core.generation.value < w.health.next.value)
      && (w.health.active.Some? ==> w.health.active.value.generation < w.health.next.value)
  }

  /** The candidate is everywhere, with one generation and one set of registries. */
  predicate Holds(w: World, next: Config, tls: Option<Tls>) {
    && w.core.config == next && w.mirror == next
    && w.health.active.Some? && w.health.active.value.config == next
    && w.core.generation == Some(w.health.active.value.generation)
    && w.core.server == w.core.client == w.health.registry == Registry(next, tls)
  }

  /** Nothing happened, but for generations used up and availability published. */
  predicate Untouched(w: World, w': World) {
    && w'.mirror == w.mirror && w'.tls == w.tls
    && w'.core.config == w.core.config && w'.core.server == w.core.server && w'.core.client == w.core.client
    && w'.health.active == w.health.active && w'.health.registry == w.health.registry
  }

  /** How an apply can end. */
  predicate Outcome(w: World, next: Config, o: Outcomes, w': World, ack: Ack) {
    match ack
    case Accepted =>
      && NextTls(w, o).Ok? && Holds(w', next, NextTls(w, o).value)
      && w'.tls == if NextTls(w, o).value.Some? then NextTls(w, o).value else w.tls
    case Rejected(RuntimeCompensationFailed) =>
      w'.core.config == next && w'.mirror == w.mirror && w'.tls == w.tls && w'.health.active == w.health.active
    case Rejected(HealthCompensationFailed) =>
      w'.core.config == w.mirror && w'.mirror == w.mirror && w'.tls == w.tls && w'.health.active == w.health.active
    case Rejected(_) =>
      Untouched(w, w') || (Holds(w', w.mirror, w.tls) && w'.tls == w.tls)
  }

  /** Preparation allocates two new generations, the rollback's after the candidate's. */
  lemma {:induction false} PlanIsFresh(w: World, next: Config, o: Outcomes)
    requires Fresh(w)
    ensures var (w', r) := PrepareApply(w, next, o);
            && Untouched(w, w') && Fresh(w') && w'.core == w.core
            && (r.Ok? ==>
                  && NextTls(w, o) == Ok(r.value.nextTls)
                  && r.value.candidate == Registry(next, r.value.nextTls)
                  && r.value.rollback == Registry(w.mirror, w.tls)
                  && r.value.candidateRun.config == next && r.value.rollbackRun.config == w.mirror
                  && r.value.candidateRun.generation < r.value.rollbackRun.generation
                  && (w'.health.next.Some? ==> r.value.rollbackRun.generation < w'.health.next.value)
                  && (w.core.generation.Some? ==> w.core.generation.value < r.value.candidateRun.generation)
                  && (w.health.active.Some? ==>
                        w.health.active.value.generation < r.value.candidateRun.generation))
  {
  }

  /** A generation newer than the core's, and than the active runtime's, is never stale. */
  lemma {:induction false} NewerIsNotStale(core: Core, run: Option<HealthRun>, published: bool, next: Config, g: nat)
    requires core.generation.Some? ==> core.generation.value < g
    requires run.Some? ==> run.value.generation < g
    ensures var c := if published then Published(core, run) else core;
            && !Stale(c, next, g) && c.config == core.config && c.server == core.server && c.client == core.client
            && (c.generation.Some? ==> c.generation.value < g)
  {
  }

  /** Every step before the first command to the core succeeds. */
  predicate Ready(w: World, o: Outcomes) {
    && NextTls(w, o).Ok? && o.candidateBuild.None? && o.rollbackBuild.None?
    && o.candidateHealth.None? && o.rollbackHealth.None? && o.candidateServer.None?
    && w.health.next.Some? && w.health.next.value + 1 < U64_SPAN
  }

  predicate CompensationFailed(ack: Ack) {
    ack == Rejected(RuntimeCompensationFailed) || ack == Rejected(HealthCompensationFailed)
  }

  /** The apply reached the core, and was neither refused there nor left half way. */
  predicate Settles(w: World, o: Outcomes, ack: Ack) {
    Ready(w, o) && o.candidateRuntime.None? && !CompensationFailed(ack)
  }

  /**
   All or nothing: after every apply the candidate is everywhere, or the previous
   configuration is; except for the two compensation failures, whose state is known too.
   An apply that settles makes the pieces agree even where they did not before.
   */
  lemma {:induction false} AllOrNothing(w: World, next: Config, o: Outcomes)
    requires Fresh(w)
    ensures var (w', ack) := Apply(w, next, o);
            && Outcome(w, next, o, w', ack) && Fresh(w')
            && (Settles(w, o, ack) || (Consistent(w) && !CompensationFailed(ack)) ==> Consistent(w'))
  {
    PlanIsFresh(w, next, o);
    var (w1, r) := PrepareApply(w, next, o);
    if r.Ok? {
      ActivateEnds(w, w1, r.value, next, o);
    }
  }

  lemma {:induction false} ActivateEnds(w: World, w1: World, p: Plan, next: Config, o: Outcomes)
    requires Fresh(w) && PrepareApply(w, next, o) == (w1, Ok(p))
    ensures var (w', ack) := Activate(w1, p, next, o);
            && Outcome(w, next, o, w', ack) && Fresh(w')
            && (Settles(w, o, ack) || (Consistent(w) && !CompensationFailed(ack)) ==> Consistent(w'))
  {
    PlanIsFresh(w, next, o);
    NewerIsNotStale(w1.core, w1.health.active, o.publishBefore, next, p.candidateRun.generation);
    var core := Core(next, Some(p.candidateRun.generation), p.candidate, p.candidate);
    NewerIsNotStale(core, w1.health.active, o.publishBetween, p.rollbackRun.config, p.rollbackRun.generation);
  }

  /** Exactly when each of the three remarkable answers is given; staleness is never the reason. */
  lemma {:induction false} AnswersExactly(w: World, next: Config, o: Outcomes)
    requires Fresh(w)
    ensures var ack := Apply(w, next, o).1;
            var started := Ready(w, o) && o.candidateRuntime.None?;
            && (ack == Accepted <==> started && o.candidateCommit.None?)
            && (ack == Rejected(RuntimeCompensationFailed) <==>
                  started && o.candidateCommit.Some? && (o.rollbackServer.Some? || o.rollbackRuntime.Some?))
            && (ack == Rejected(HealthCompensationFailed) <==>
                  started && o.candidateCommit.Some? && o.rollbackServer.None? && o.rollbackRuntime.None?
                    && o.rollbackCommit.Some?)
            && ack != Rejected(StaleAvailability)
  {
    PlanIsFresh(w, next, o);
    var (w1, r) := PrepareApply(w, next, o);
    assert r.Ok? <==> Ready(w, o);
    if r.Ok? {
      var p := r.value;
      NewerIsNotStale(w1.core, w1.health.active, o.publishBefore, next, p.candidateRun.generation);
      var core := Core(next, Some(p.candidateRun.generation), p.candidate, p.candidate);
      NewerIsNotStale(core, w1.health.active, o.publishBetween, p.rollbackRun.config, p.rollbackRun.generation);
    }
  }

  // ----- whole runs -----

  datatype Command =
    | ApplyConfig(next: Config, outcomes: Outcomes)
    | InstallCertificate(tls: Result<Tls, Cause>, build: Option<Cause>, server: Option<Cause>, runtime: Option<Cause>)
    | PublishAvailability

  function Do(w: World, c: Command): (r: (World, Ack))
  {
    match c
    case ApplyConfig(next, o) => Apply(w, next, o)
    case InstallCertificate(tls, build, server, runtime) => Install(w, tls, build, server, runtime)
    case PublishAvailability => (w.(core := Published(w.core, w.health.active)), Accepted)
  }

  function Final(w: World, cs: seq<Command>): (w': World)
    decreases |cs|
  {
    if cs == [] then w else Final(Do(w, cs[0]).0, cs[1..])
  }

  /**
   Whether the pieces agree after the run, if they agree before it as `together` says: a
   failed compensation takes that away, and the next apply that settles restores it.
   */
  predicate Together(together: bool, w: World, cs: seq<Command>)
    decreases |cs|
  {
    if cs == [] then together
    else
      var (w', ack) := Do(w, cs[0]);
      Together(
        (cs[0].ApplyConfig? && Settles(w, cs[0].outcomes, ack)) || (together && !CompensationFailed(ack)), w', cs[1..])
  }

  /** The configuration of the last accepted apply, or `current` if there is none. */
  function LastApplied(current: Config, w: World, cs: seq<Command>): (c: Config)
    decreases |cs|
  {
    if cs == [] then current
    else
      var (w', ack) := Do(w, cs[0]);
      LastApplied(if cs[0].ApplyConfig? && ack == Accepted then cs[0].next else current, w', cs[1..])
  }

  lemma {:induction false} StepTogether(w: World, c: Command)
    requires Fresh(w)
    ensures var (w', ack) := Do(w, c);
            && Fresh(w')
            && ((c.ApplyConfig? && Settles(w, c.outcomes, ack)) || (Consistent(w) && !CompensationFailed(ack)) ==>
                  Consistent(w'))
            && w'.mirror == if c.ApplyConfig? && ack == Accepted then c.next else w.mirror
  {
    if c.ApplyConfig? {
      AllOrNothing(w, c.next, c.outcomes);
    }
  }

  /**
   Over any run of commands, whatever fails, the mirror holds the configuration of the
   last accepted apply; and core and health controller hold it too, unless a compensation
   failed and no later apply has settled.
   */
  lemma {:induction false} RunTogether(together: bool, w: World, cs: seq<Command>)
    requires Fresh(w) && (together ==> Consistent(w))
    ensures Fresh(Final(w, cs)) && Final(w, cs).mirror == LastApplied(w.mirror, w, cs)
    ensures Together(together, w, cs) ==> Consistent(Final(w, cs))
    decreases |cs|
  {
    if cs != [] {
      StepTogether(w, cs[0]);
      var (w', ack) := Do(w, cs[0]);
      RunTogether((cs[0].ApplyConfig? && Settles(w, cs[0].outcomes, ack)) || (together && !CompensationFailed(ack)),
                  w', cs[1..]);
    }
  }

  // ----- the program -----

  /** The runtime thread's state, behind its command queue. */
  class CoreRuntime {
    var state: Core

    constructor (state: Core)
      ensures this.state == state
    {
      this.state := state;
    }

    method ActivateGeneration(next: Config, generation: nat, server: Registry, client: Registry, refusal: Option<Cause>)
      returns (ack: Ack)
      modifies this
      ensures (state, ack) == Activated(old(state), next, generation, server, client, refusal)
    {
      if refusal.Some? {
        return Rejected(Failure(refusal.value));
      }
      if state.config.revision == next.revision && state.generation.Some? && generation < state.generation.value {
        return Rejected(StaleAvailability);
      }
      state := Core(next, Some(generation), server, client);
      return Accepted;
    }

    method InstallServer(server: Registry, refusal: Option<Cause>) returns (ack: Ack)
      modifies this
      ensures if refusal.Some? then state == old(state) && ack == Rejected(Failure(refusal.value))
              else state == old(state).(server := server) && ack == Accepted
    {
      if refusal.Some? {
        return Rejected(Failure(refusal.value));
      }
      state := state.(server := server);
      return Accepted;
    }

    method Publish(run: Option<HealthRun>)
      modifies this
      ensures state == Published(old(state), run)
    {
      if run.Some? && run.value.config.revision == state.config.revision {
        if state.generation.None? || run.value.generation >= state.generation.value {
          state := state.(generation := Some(run.value.generation));
        }
      }
    }
  }

  class HealthController {
    var next: Option<nat>
    var active: Option<HealthRun>
    var registry: Registry

    ghost function Value(): Health
      reads this
    {
      Health(next, active, registry)
    }

    constructor (active: Option<HealthRun>, registry: Registry)
      ensures Value() == Health(Some(1), active, registry)
    {
      this.next, this.active, this.registry := Some(1), active, registry;
    }

    method Prepare(config: Config, failure: Option<Cause>) returns (r: Result<HealthRun, Error>)
      modifies this
      ensures (Value(), r) == Prepared(old(Value()), config, failure)
    {
      if next.None? {
        return Err(GenerationsExhausted);
      }
      var generation := next.value;
      next := if generation + 1 < U64_SPAN then Some(generation + 1) else None;
      if failure.Some? {
        return Err(Failure(failure.value));
      }
      return Ok(HealthRun(config, generation));
    }

    method Commit(run: HealthRun, newRegistry: Registry, failure: Option<Cause>) returns (failed: Option<Cause>)
      modifies this
      ensures (Value(), failed) == Committed(old(Value()), run, newRegistry, failure)
    {
      if failure.Some? {
        return failure;
      }
      registry := newRegistry;
      active := Some(run);
      return None;
    }
  }

  /** `MirroredSnapshotCommandClient` */
  class CommandClient {
    const core: CoreRuntime
    const health: HealthController
    var mirror: Config
    var tls: Option<Tls>

    constructor (core: CoreRuntime, health: HealthController, mirror: Config, tls: Option<Tls>)
      ensures this.core == core && this.health == health && this.mirror == mirror && this.tls == tls
    {
      this.core, this.health, this.mirror, this.tls := core, health, mirror, tls;
    }

    ghost function Value(): World
      reads this, core, health
    {
      World(core.state, mirror, tls, health.Value())
    }

    method PreparePlan(next: Config, o: Outcomes) returns (r: Result<Plan, Error>)
      modifies health
      ensures (Value(), r) == PrepareApply(old(Value()), next, o)
    {
      var nextTls: Option<Tls> := None;
      if tls.Some? {
        if o.tlsSnapshot.Err? {
          return Err(Failure(o.tlsSnapshot.error));
        }
        nextTls := o.tlsSnapshot.value;
      }
      if o.candidateBuild.Some? {
        return Err(Failure(o.candidateBuild.value));
      }
      var candidate := Registry(next, nextTls);
      if o.rollbackBuild.Some? {
        return Err(Failure(o.rollbackBuild.value));
      }
      var rollback := Registry(mirror, tls);
      var candidateRun := health.Prepare(next, o.candidateHealth);
      if candidateRun.Err? {
        return Err(candidateRun.error);
      }
      var rollbackRun := health.Prepare(mirror, o.rollbackHealth);
      if rollbackRun.Err? {
        return Err(rollbackRun.error);
      }
      if o.candidateServer.Some? {
        return Err(Failure(o.candidateServer.value));
      }
      return Ok(Plan(candidate, rollback, candidateRun.value, rollbackRun.value, nextTls));
    }

    method Undo(p: Plan, cause: Cause, o: Outcomes) returns (ack: Ack)
      modifies core, health
      ensures (Value(), ack) == Compensate(old(Value()), p, cause, o)
    {
      if o.publishBetween {
        core.Publish(health.active);
      }
      if o.rollbackServer.Some? {
        return Rejected(RuntimeCompensationFailed);
      }
      var compensation := core.ActivateGeneration(
        p.rollbackRun.config, p.rollbackRun.generation, p.rollback, p.rollback, o.rollbackRuntime);
      if compensation.Rejected? {
        return Rejected(RuntimeCompensationFailed);
      }
      var failed := health.Commit(p.rollbackRun, p.rollback, o.rollbackCommit);
      if failed.Some? {
        return Rejected(HealthCompensationFailed);
      }
      return Rejected(Failure(cause));
    }

    /** `send` of an apply. */
    method SendApply(next: Config, o: Outcomes) returns (ack: Ack)
      modifies this, core, health
      ensures (Value(), ack) == Apply(old(Value()), next, o)
    {
      var plan := PreparePlan(next, o);
      if plan.Err? {
        return Rejected(plan.error);
      }
      var p := plan.value;
      if o.publishBefore {
        core.Publish(health.active);
      }
      ack := core.ActivateGeneration(next, p.candidateRun.generation, p.candidate, p.candidate, o.candidateRuntime);
      if ack.Rejected? {
        return;
      }
      var failed := health.Commit(p.candidateRun, p.candidate, o.candidateCommit);
      if failed.Some? {
        ack := Undo(p, failed.value, o);
        return;
      }
      mirror := next;
      if p.nextTls.Some? {
        tls := p.nextTls;
      }
    }

    /** `send` of a certificate installation. */
    method SendInstall(loaded: Result<Tls, Cause>, build: Option<Cause>, server: Option<Cause>, runtime: Option<Cause>)
      returns (ack: Ack)
      modifies this, core
      ensures (Value(), ack) == Install(old(Value()), loaded, build, server, runtime)
    {
      var nextTls: Option<Tls> := None;
      if tls.Some? {
        if loaded.Err? {
          return Rejected(Failure(loaded.error));
        }
        nextTls := Some(loaded.value);
      }
      if build.Some? {
        return Rejected(Failure(build.value));
      }
      if server.Some? {
        return Rejected(Failure(server.value));
      }
      ack := core.InstallServer(Registry(mirror, nextTls), runtime);
      if ack == Accepted && nextTls.Some? {
        tls := nextTls;
      }
    }
  }
}
