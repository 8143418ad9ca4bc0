/** Runs of the service side of the controller: events and syncService steps, one at a time and in any
    order. The queue only decides which steps happen, so every order is allowed. */
module ServiceSync {
  import opened Wrappers
  import opened Instances
  import opened Registry
  import opened Reconcile
  import opened Convergence
  import opened Paging
  import opened Services
  import opened Controller

  /** The cluster's services, the service cache, and the registry's content for each service. */
  datatype State = State(lister: map<Name, Service>, cache: Cache, regs: map<Name, Content>) {
    function Reg(n: Name): Content {
      if n in regs then regs[n] else map[]
    }
  }

  /** `Remembered` is an update delivery storing the old version, `Recovered` the probe that finds the
      server up again, `Restarted` a new controller process. */
  datatype Event =
    | Outside(lister: map<Name, Service>, regs: map<Name, Content>)
    | Remembered(name: Name, svc: Service)
    | Recovered
    | Restarted
    | Synced(name: Name, w: Surroundings)

  function StepOf(s: State, n: Name, w: Surroundings): Step {
    SyncService(s.cache, s.Reg(n), TaskKey(n), w)
  }

  function Next(s: State, e: Event): State {
    match e
    case Outside(lister, regs) => State(lister, s.cache, regs)
    case Remembered(n, svc) => s.(cache := s.cache[TaskKey(n) := svc])
    case Recovered => s.(cache := map[])
    case Restarted => s.(cache := map[])
    case Synced(n, w) => State(s.lister, StepOf(s, n, w).cache, s.regs[n := StepOf(s, n, w).reg])
  }

  // ---- Which events can happen ---------------------------------------------------------------

  /** Others may change the registry as they like, but only the controller registers instances that carry
      its marks. A syncService step sees the lister as it is and sends the batches the code sends. */
  ghost predicate Legal(s: State, e: Event, cfg: Config)
    requires cfg.size >= 1
  {
    match e
    case Outside(lister, regs) =>
      && (forall n <- regs :: IsContent(regs[n]))
      && (forall n: Name, k: Key :: ManagedAt(Next(s, e).Reg(n), cfg, k) ==> ManagedAt(s.Reg(n), cfg, k))
    case Remembered(n, _) => PipeFree(n)
    case Recovered => true
    case Restarted => true
    case Synced(n, w) =>
      && PipeFree(n)
      && (w.lookup.Unreadable? || w.lookup == if n in s.lister then Found(s.lister[n]) else NotFound)
      && Happens(s.cache, s.Reg(n), cfg, TaskKey(n), w)
  }

  predicate AnyDenied(b: Batch) {
    exists r <- b.replies :: Denied(Deleting, r)
  }

  /** No recovery or restart, and the deletion for a vanished service has its query answered and is denied
      access nowhere. */
  predicate Benign(s: State, e: Event) {
    && !e.Recovered? && !e.Restarted?
    && (e.Synced? && e.w.lookup.NotFound? ==> e.w.answered && !AnyDenied(e.w.deletion))
  }

  // ---- Deletions -----------------------------------------------------------------------------

  ghost predicate NoneManaged(reg: Content, cfg: Config) {
    forall k :: !ManagedAt(reg, cfg, k)
  }

  lemma {:induction false} DeletesOnly(reg: Content, calls: seq<RegOp>, k: Key)
    requires forall op <- calls :: op.DeleteInstance?
    ensures Lookup(ApplyOps(reg, calls), k) == if DeleteInstance(k) in calls then None else Lookup(reg, k)
  {
    if calls != [] {
      var n := |calls| - 1;
      assert calls == calls[..n] + [calls[n]];
      assert calls[n] in calls;
      DeletesOnly(reg, calls[..n], k);
      assert calls[n] == DeleteInstance(calls[n].target);
    }
  }

  /** The filter asks for the deletion of managed instances only, and of all of them if the query was
      answered. */
  lemma FilterAsks(reg: Content, cfg: Config, answered: bool, instances: seq<Instance>, k: Key)
    requires IsContent(reg) && Shows(answered, instances, reg)
    ensures DeleteInstance(k) in DeleteOps(Filtered(instances, cfg.cluster)) <==> answered && ManagedAt(reg, cfg, k)
  {
    var kept := Filtered(instances, cfg.cluster);
    FilteredIs(instances, cfg.cluster);
    if DeleteInstance(k) in DeleteOps(kept) {
      var i :| 0 <= i < |kept| && DeleteOps(kept)[i] == DeleteInstance(k);
      assert kept[i] in kept;
    }
    if answered && ManagedAt(reg, cfg, k) {
      assert reg[k] in kept;
      var i :| 0 <= i < |kept| && kept[i] == reg[k];
      assert DeleteOps(kept)[i] == DeleteInstance(k);
    }
  }

  lemma OnlyDeletes(xs: seq<Instance>)
    ensures forall op <- DeleteOps(xs) :: op.DeleteInstance?
  {
  }

  /** A deletion removes exactly the entries whose deletion was carried out, and those are managed. */
  lemma DeletionIs(reg: Content, cfg: Config, answered: bool, instances: seq<Instance>, b: Batch, k: Key)
    requires cfg.size >= 1 && IsContent(reg) && IsDeletion(reg, cfg, answered, instances, b)
    ensures Lookup(Sent(reg, b), k) == if DeleteInstance(k) in OpsIn(b.trace) then None else Lookup(reg, k)
    ensures DeleteInstance(k) in OpsIn(b.trace) ==> answered && ManagedAt(reg, cfg, k)
    ensures IsContent(Sent(reg, b))
  {
    var ops := DeleteOps(Filtered(instances, cfg.cluster));
    BatchCarries(reg, b, Deleting, ops, cfg.size);
    OnlyDeletes(Filtered(instances, cfg.cluster));
    DeletesOnly(reg, OpsIn(b.trace), k);
    FilterAsks(reg, cfg, answered, instances, k);
    ApplyOpsKeeps(reg, OpsIn(b.trace));
  }

  /** A deletion leaves the instances of others alone, whatever the server answers. */
  lemma DeletionKeepsOthers(reg: Content, cfg: Config, answered: bool, instances: seq<Instance>, b: Batch, k: Key)
    requires cfg.size >= 1 && IsContent(reg) && IsDeletion(reg, cfg, answered, instances, b) && ForeignAt(reg, cfg, k)
    ensures Lookup(Sent(reg, b), k) == Lookup(reg, k)
  {
    DeletionIs(reg, cfg, answered, instances, b, k);
  }

  /** A deletion without an error leaves nothing managed exactly if there was nothing, or the query was
      answered and access denied nowhere. */
  lemma DeletionClears(reg: Content, cfg: Config, answered: bool, instances: seq<Instance>, b: Batch)
    requires cfg.size >= 1 && IsContent(reg) && IsDeletion(reg, cfg, answered, instances, b) && !Fails(b)
    ensures NoneManaged(Sent(reg, b), cfg) <==> NoneManaged(reg, cfg) || (answered && !AnyDenied(b))
  {
    var ops := DeleteOps(Filtered(instances, cfg.cluster));
    FilteredDifferent(instances, cfg.cluster);
    DeletionComplete(b, ops, cfg.size);
    forall k ensures ManagedAt(Sent(reg, b), cfg, k) <==>
                     ManagedAt(reg, cfg, k) && DeleteInstance(k) !in OpsIn(b.trace)
    {
      DeletionIs(reg, cfg, answered, instances, b, k);
    }
    if answered && !AnyDenied(b) {
      forall k ensures !ManagedAt(Sent(reg, b), cfg, k) {
        FilterAsks(reg, cfg, answered, instances, k);
      }
    } else if !answered {
      forall k ensures DeleteInstance(k) !in OpsIn(b.trace) {
        DeletionIs(reg, cfg, answered, instances, b, k);
      }
      StillManaged(reg, Sent(reg, b), cfg);
    } else {
      var op :| op in ops && op !in OpsIn(b.trace);
      OnlyDeletes(Filtered(instances, cfg.cluster));
      assert op == DeleteInstance(op.target);
      FilterAsks(reg, cfg, answered, instances, op.target);
      assert ManagedAt(Sent(reg, b), cfg, op.target);
    }
  }

  lemma StillManaged(reg: Content, reg': Content, cfg: Config)
    requires forall k :: ManagedAt(reg', cfg, k) <==> ManagedAt(reg, cfg, k)
    ensures NoneManaged(reg', cfg) <==> NoneManaged(reg, cfg)
  {
    if NoneManaged(reg', cfg) {
      forall k ensures !ManagedAt(reg, cfg, k) {
        assert !ManagedAt(reg', cfg, k);
      }
    }
  }

  /** For any legal step on a vanished service that succeeds: it leaves the service uncached, and nothing
      managed if and only if there was nothing, or the service was cached, its query answered, and no
      page or entry of the deletion was denied. */
  lemma VanishedIff(s: State, e: Event, cfg: Config)
    requires cfg.size >= 1 && Legal(s, e, cfg) && e.Synced? && IsContent(s.Reg(e.name))
    requires e.w.lookup.NotFound? && !StepOf(s, e.name, e.w).failed
    ensures TaskKey(e.name) !in Next(s, e).cache
    ensures NoneManaged(Next(s, e).Reg(e.name), cfg) <==>
            || NoneManaged(s.Reg(e.name), cfg)
            || (TaskKey(e.name) in s.cache && e.w.answered && !AnyDenied(e.w.deletion))
  {
    if TaskKey(e.name) in s.cache {
      DeletionClears(s.Reg(e.name), cfg, e.w.answered, e.w.instances, e.w.deletion);
    }
  }

  // ---- The invariant -------------------------------------------------------------------------

  /** Every service with managed instances is in the service cache. */
  ghost predicate ManagedCached(s: State, cfg: Config) {
    && (forall n <- s.regs :: IsContent(s.regs[n]))
    && (forall n: Name :: !NoneManaged(s.Reg(n), cfg) ==> PipeFree(n) && TaskKey(n) in s.cache)
  }

  /** The first start of a controller: it has cached and registered nothing yet. */
  ghost predicate IsStart(s: State, cfg: Config) {
    && s.cache == map[]
    && (forall n <- s.regs :: IsContent(s.regs[n]))
    && forall n: Name :: NoneManaged(s.Reg(n), cfg)
  }

  /** Every benign event keeps the invariant. */
  lemma EventKeeps(s: State, e: Event, cfg: Config)
    requires cfg.size >= 1 && ManagedCached(s, cfg) && Legal(s, e, cfg) && Benign(s, e)
    ensures ManagedCached(Next(s, e), cfg)
  {
    if e.Outside? {
      OutsideKeeps(s, e, cfg);
    } else if e.Synced? {
      SyncedKeeps(s, e, cfg);
    }
  }

  lemma OutsideKeeps(s: State, e: Event, cfg: Config)
    requires cfg.size >= 1 && ManagedCached(s, cfg) && Legal(s, e, cfg) && e.Outside?
    ensures ManagedCached(Next(s, e), cfg)
  {
    forall n: Name | !NoneManaged(Next(s, e).Reg(n), cfg) ensures PipeFree(n) && TaskKey(n) in s.cache {
      var k :| ManagedAt(Next(s, e).Reg(n), cfg, k);
      assert ManagedAt(s.Reg(n), cfg, k);
    }
  }

  /** The mode decides what a step makes of the registry. */
  lemma StepReg(cache: Cache, reg: Content, key: string, w: Surroundings)
    ensures SyncService(cache, reg, key, w).reg ==
            match ModeOf(cache, key, w)
            case Idle => reg
            case Removing => Sent(reg, w.deletion)
            case Repairing => AfterRepair(reg, w.repair)
    ensures forall k :: k != key ==> (k in SyncService(cache, reg, key, w).cache <==> k in cache)
  {
  }

  /** A step keeps the shape of the registry. */
  lemma StepFrame(s: State, e: Event, cfg: Config)
    requires cfg.size >= 1 && Legal(s, e, cfg) && e.Synced? && IsContent(s.Reg(e.name))
    ensures IsContent(StepOf(s, e.name, e.w).reg)
  {
    var reg := s.Reg(e.name);
    StepReg(s.cache, reg, TaskKey(e.name), e.w);
    match ModeOf(s.cache, TaskKey(e.name), e.w)
    case Idle =>
    case Removing => DeletionIs(reg, cfg, e.w.answered, e.w.instances, e.w.deletion, Key("", 0));
    case Repairing =>
      RepairKeepsContent(reg, e.w.lookup.svc.annotations, cfg, e.w.endpoints.value, e.w.answered, e.w.repair);
  }

  lemma RepairKeepsContent(reg: Content, svc: Annotations, cfg: Config, subsets: seq<Subset>, answered: bool,
                           r: Repairs)
    requires cfg.size >= 1 && IsContent(reg) && IsRepair(reg, svc, cfg, Wanted(subsets, svc, cfg), answered, r)
    ensures IsContent(AfterRepair(reg, r))
  {
    RepairIs(reg, svc, cfg, Wanted(subsets, svc, cfg), answered, r);
    ApplyOpsKeeps(reg, OpsIn(r.added.trace) + OpsIn(r.updated.trace) + OpsIn(r.deleted.trace));
  }

  /** What a benign step leaves behind for its own service. */
  lemma StepKeeps(s: State, e: Event, cfg: Config)
    requires cfg.size >= 1 && ManagedCached(s, cfg) && Legal(s, e, cfg) && Benign(s, e) && e.Synced?
    ensures var step := StepOf(s, e.name, e.w);
            TaskKey(e.name) in step.cache || NoneManaged(step.reg, cfg)
  {
    assert IsContent(s.Reg(e.name));
    if e.w.lookup.NotFound? && !StepOf(s, e.name, e.w).failed {
      VanishedIff(s, e, cfg);
      assert Next(s, e).Reg(e.name) == StepOf(s, e.name, e.w).reg;
    }
    if TaskKey(e.name) !in s.cache {
      assert NoneManaged(s.Reg(e.name), cfg);
    }
  }

  lemma SyncedKeeps(s: State, e: Event, cfg: Config)
    requires cfg.size >= 1 && ManagedCached(s, cfg) && Legal(s, e, cfg) && Benign(s, e) && e.Synced?
    ensures ManagedCached(Next(s, e), cfg)
  {
    assert IsContent(s.Reg(e.name));
    StepFrame(s, e, cfg);
    StepReg(s.cache, s.Reg(e.name), TaskKey(e.name), e.w);
    StepKeeps(s, e, cfg);
    var s' := Next(s, e);
    forall n: Name | !NoneManaged(s'.Reg(n), cfg) ensures PipeFree(n) && TaskKey(n) in s'.cache {
      if n != e.name {
        assert s'.Reg(n) == s.Reg(n);
        if TaskKey(n) == TaskKey(e.name) {
          TaskKeyInjective(n, e.name);
        }
      }
    }
  }

  ghost predicate IsRun(states: seq<State>, events: seq<Event>, cfg: Config)
    requires cfg.size >= 1
  {
    && |states| == |events| + 1
    && IsStart(states[0], cfg)
    && forall i :: 0 <= i < |events| ==>
         Legal(states[i], events[i], cfg) && states[i + 1] == Next(states[i], events[i])
  }

  ghost predicate AllBenign(states: seq<State>, events: seq<Event>)
    requires |states| == |events| + 1
  {
    forall i :: 0 <= i < |events| ==> Benign(states[i], events[i])
  }

  /** In every benign run from the first start, whatever the order of its steps, a service with managed
      instances is cached. */
  lemma {:induction false} ManagedAlwaysCached(states: seq<State>, events: seq<Event>, cfg: Config, i: nat)
    requires cfg.size >= 1 && IsRun(states, events, cfg) && AllBenign(states, events) && i < |states|
    ensures ManagedCached(states[i], cfg)
  {
    if i > 0 {
      ManagedAlwaysCached(states, events, cfg, i - 1);
      EventKeeps(states[i - 1], events[i - 1], cfg);
    }
  }

  /** In every benign run, whenever syncService succeeds for a vanished service, none of its managed
      instances remain and it is not cached. */
  lemma VanishedCleared(states: seq<State>, events: seq<Event>, cfg: Config, i: nat)
    requires cfg.size >= 1 && IsRun(states, events, cfg) && AllBenign(states, events) && i < |events|
    requires events[i].Synced? && events[i].w.lookup.NotFound?
    requires !StepOf(states[i], events[i].name, events[i].w).failed
    ensures NoneManaged(states[i + 1].Reg(events[i].name), cfg)
    ensures TaskKey(events[i].name) !in states[i + 1].cache
  {
    ManagedAlwaysCached(states, events, cfg, i);
    assert IsContent(states[i].Reg(events[i].name));
    VanishedIff(states[i], events[i], cfg);
  }

  // ---- Without the assumptions ---------------------------------------------------------------

  /** An instance the controller registered and will not look at again. */
  predicate Leaked(s: State, cfg: Config, n: Name, k: Key) {
    n !in s.lister && TaskKey(n) !in s.cache && ManagedAt(s.Reg(n), cfg, k)
  }

  /** Short of a late update delivery for the vanished service itself, nothing the controller does ever
      removes a leaked instance. */
  lemma LeakStays(s: State, e: Event, cfg: Config, n: Name, k: Key)
    requires cfg.size >= 1 && Leaked(s, cfg, n, k) && Legal(s, e, cfg) && PipeFree(n) && !e.Outside?
    requires e.Remembered? ==> e.name != n
    ensures Leaked(Next(s, e), cfg, n, k)
  {
    if (e.Synced? || e.Remembered?) && e.name != n && TaskKey(e.name) == TaskKey(n) {
      TaskKeyInjective(e.name, n);
    }
  }

  /** A query that fails when a service vanishes leaks every instance: it reads as an empty list. */
  lemma FailedQueryLeaks(s: State, e: Event, cfg: Config, k: Key)
    requires cfg.size >= 1 && Legal(s, e, cfg) && e.Synced? && IsContent(s.Reg(e.name))
    requires e.w.lookup.NotFound? && e.name !in s.lister && TaskKey(e.name) in s.cache
    requires !e.w.answered && ManagedAt(s.Reg(e.name), cfg, k)
    ensures !StepOf(s, e.name, e.w).failed && Leaked(Next(s, e), cfg, e.name, k)
  {
    var b := e.w.deletion;
    DeletionIs(s.Reg(e.name), cfg, false, e.w.instances, b, k);
    BatchCarries(map[], b, Deleting, DeleteOps(Filtered(e.w.instances, cfg.cluster)), cfg.size);
    assert |b.replies| == 0;
  }

  /** Every deletion that succeeds although access was denied somewhere leaks an instance. */
  lemma DeniedDeletionLeaks(s: State, e: Event, cfg: Config)
    requires cfg.size >= 1 && Legal(s, e, cfg) && e.Synced? && IsContent(s.Reg(e.name))
    requires e.w.lookup.NotFound? && e.name !in s.lister && TaskKey(e.name) in s.cache
    requires !StepOf(s, e.name, e.w).failed && AnyDenied(e.w.deletion)
    ensures exists k :: Leaked(Next(s, e), cfg, e.name, k)
  {
    VanishedIff(s, e, cfg);
    var b, ops := e.w.deletion, DeleteOps(Filtered(e.w.instances, cfg.cluster));
    var i :| 0 <= i < |b.replies| && Denied(Deleting, b.replies[i]);
    InConcat(b.pages, b.pages[i][0]);
    OnlyDeletes(Filtered(e.w.instances, cfg.cluster));
    FilterAsks(s.Reg(e.name), cfg, e.w.answered, e.w.instances, b.pages[i][0].target);
    assert ManagedAt(s.Reg(e.name), cfg, b.pages[i][0].target);
    var k :| ManagedAt(Next(s, e).Reg(e.name), cfg, k);
    assert Leaked(Next(s, e), cfg, e.name, k);
  }

  /** It happens: a page answered with code 401000 records no error and removes nothing. */
  lemma DenialHappens(s: State, cfg: Config, n: Name, x: Instance) returns (e: Event)
    requires cfg.size >= 1 && PipeFree(n) && n !in s.lister && TaskKey(n) in s.cache
    requires s.Reg(n) == map[KeyOf(x) := x] && IsManaged(x.metadata, cfg.cluster)
    ensures Legal(s, e, cfg) && e.Synced? && e.name == n && e.w.lookup.NotFound? && e.w.answered
    ensures e.w.deletion.replies == [DENIAL] && !StepOf(s, n, e.w).failed
    ensures Leaked(Next(s, e), cfg, n, KeyOf(x))
  {
    var b := DeniedBatch(x);
    e := Synced(n, Surroundings(NotFound, None, false, None, true, [x], b, NO_REPAIR));
    DeniedBatchIs(x, cfg.size);
    assert [x][..0] == [] && Filtered([x], cfg.cluster) == [x];
    assert Enumerates([x], s.Reg(n));
  }

  const DENIAL := Replied(401, UNAUTHORIZED, [])

  /** The deletion of one instance, answered with code 401000. */
  function DeniedBatch(x: Instance): Batch {
    OneBatch(DeleteInstance(KeyOf(x)), false, DENIAL)
  }

  lemma DeniedBatchIs(x: Instance, size: nat)
    requires size >= 1
    ensures IsBatch(DeniedBatch(x), Deleting, DeleteOps([x]), size) && !Fails(DeniedBatch(x))
  {
    assert DeleteOps([x]) == [DeleteInstance(KeyOf(x))];
    OneBatchIs(map[], Deleting, DeleteInstance(KeyOf(x)), false, DENIAL, size);
  }

  /** A recovery of the server strands the instances of a service that is gone but not yet processed. */
  lemma RecoveryLeaks(s: State, cfg: Config, n: Name, k: Key)
    requires n !in s.lister && ManagedAt(s.Reg(n), cfg, k)
    ensures Leaked(Next(s, Recovered), cfg, n, k)
  {
  }

  /** A restart does the same to services that vanished while no controller was running. */
  lemma RestartLeaks(s: State, cfg: Config, n: Name, k: Key)
    requires n !in s.lister && ManagedAt(s.Reg(n), cfg, k)
    ensures Leaked(Next(s, Restarted), cfg, n, k)
  {
  }

  // ---- Runs that leak ------------------------------------------------------------------------

  /** A service without annotations, in a namespace that asks for synchronisation, with one endpoint at
      `ip` and `port`. */
  function OneService(n: Name): Service {
    Service(n.ns, n.name, map[], true)
  }

  function OneSubset(ip: string, port: nat): Subset {
    Subset([Endpoint(ip, "", None)], [], [Port("", port, "TCP")])
  }

  function OneAddress(ip: string, port: nat): Address {
    Address(ip, port, DEFAULT_WEIGHT, false, "/TCP", None)
  }

  lemma OneOffered(w: Weights, ip: string, port: nat)
    requires w.standard == DEFAULT_WEIGHT && w.custom == map[]
    ensures AllOffers(OneSubset(ip, port).ready, OneSubset(ip, port).ports, w, false) == [OneAddress(ip, port)]
  {
    var s := OneSubset(ip, port);
    assert "" + "/" + "TCP" == "/TCP";
    assert Offers(s.ready[0], s.ports, w, false) == [OneAddress(ip, port)];
    assert AllOffers(s.ready[..0], s.ports, w, false) == [];
  }

  lemma OneWritten(w: Weights, ip: string, port: nat)
    requires w.standard == DEFAULT_WEIGHT && w.custom == map[]
    ensures Written([OneSubset(ip, port)], w) == [OneAddress(ip, port)]
  {
    var s := OneSubset(ip, port);
    OneOffered(w, ip, port);
    assert [s][..0] == [] && Written([s][..0], w) == [] && AllOffers(s.notReady, s.ports, w, true) == [];
  }

  lemma OneWanted(cfg: Config, ip: string, port: nat)
    ensures Wanted([OneSubset(ip, port)], map[], cfg) == map[AddressKey(ip, port) := OneAddress(ip, port)]
  {
    var a := OneAddress(ip, port);
    OneWritten(WeightsOf(map[], cfg), ip, port);
    assert [a][..0] == [] && Table([a][..0]) == map[];
  }

  /** The instance that the first reconcile of the service registers. */
  function OneInstance(cfg: Config, ip: string, port: nat): Instance {
    NewInstance(map[], cfg, OneAddress(ip, port))
  }

  function OneRepair(cfg: Config, ip: string, port: nat): Repairs {
    Repairs([], [OneAddress(ip, port)], [], [],
            OneBatch(AddInstance(OneInstance(cfg, ip, port)), true, GRANTED), EMPTY_BATCH, EMPTY_BATCH)
  }

  const GRANTED := Replied(200, SUCCESS, [])

  lemma OneDifference(cfg: Config, ip: string, port: nat)
    ensures IsDifference(map[], cfg, Wanted([OneSubset(ip, port)], map[], cfg), Managed([], cfg.cluster),
                         [OneAddress(ip, port)], [], [])
  {
    OneWanted(cfg, ip, port);
  }

  lemma NoBatch(reg: Content, kind: Kind, size: nat)
    requires size >= 1
    ensures IsBatch(EMPTY_BATCH, kind, [], size) && IsTruthful(reg, EMPTY_BATCH, kind) && Sent(reg, EMPTY_BATCH) == reg
  {
    CeilDivIs(0, size);
    assert Calls(kind, [], []) == [];
  }

  lemma OneAddition(cfg: Config, ip: string, port: nat)
    requires cfg.size >= 1
    ensures var x, b := OneInstance(cfg, ip, port), OneRepair(cfg, ip, port).added;
            && IsBatch(b, Adding, GatedAdds(map[], cfg, [OneAddress(ip, port)]), cfg.size)
            && IsTruthful(map[], b, Adding)
            && Sent(map[], b) == map[KeyOf(x) := x] && IsManaged(x.metadata, cfg.cluster)
  {
    var a, x := OneAddress(ip, port), OneInstance(cfg, ip, port);
    assert AddOps(map[], cfg, [a]) == [AddInstance(x)];
    OneBatchIs(map[], Adding, AddInstance(x), true, GRANTED, cfg.size);
    MergedIsManaged(map[], cfg, a);
  }

  lemma OneRepairIs(cfg: Config, ip: string, port: nat)
    requires cfg.size >= 1
    ensures IsRepair(map[], map[], cfg, Wanted([OneSubset(ip, port)], map[], cfg), true, OneRepair(cfg, ip, port))
  {
    NoneShown();
    OneDifference(cfg, ip, port);
    OneAddition(cfg, ip, port);
    NoUpdates(Sent(map[], OneRepair(cfg, ip, port).added), cfg);
    NoDeletes(cfg);
  }

  lemma NoneShown()
    ensures Shows(true, [], map[])
  {
  }

  lemma NoUpdates(reg: Content, cfg: Config)
    requires cfg.size >= 1
    ensures IsBatch(EMPTY_BATCH, Updating, GatedUpdates(map[], cfg, []), cfg.size)
    ensures IsTruthful(reg, EMPTY_BATCH, Updating)
  {
    assert GatedUpdates(map[], cfg, []) == [];
    NoBatch(reg, Updating, cfg.size);
  }

  lemma NoDeletes(cfg: Config)
    requires cfg.size >= 1
    ensures IsBatch(EMPTY_BATCH, Deleting, DeleteOps([]), cfg.size)
  {
    assert DeleteOps([]) == [];
    NoBatch(map[], Deleting, cfg.size);
  }

  lemma OneRepairDoes(cfg: Config, ip: string, port: nat)
    requires cfg.size >= 1
    ensures AfterRepair(map[], OneRepair(cfg, ip, port)) == map[Key(ip, port) := OneInstance(cfg, ip, port)]
  {
    var r := OneRepair(cfg, ip, port);
    OneAddition(cfg, ip, port);
    NoBatch(Sent(map[], r.added), Updating, cfg.size);
    NoBatch(Sent(map[], r.added), Deleting, cfg.size);
  }

  /** The surroundings of the step that registers it. */
  function OneStep(cfg: Config, n: Name, ip: string, port: nat): Surroundings {
    Surroundings(Found(OneService(n)), Some(true), true, Some([OneSubset(ip, port)]), true, [], EMPTY_BATCH,
                 OneRepair(cfg, ip, port))
  }

  lemma OneStepIs(cfg: Config, n: Name, ip: string, port: nat)
    requires cfg.size >= 1
    ensures var w := OneStep(cfg, n, ip, port);
            && Happens(map[], map[], cfg, TaskKey(n), w)
            && SyncService(map[], map[], TaskKey(n), w) ==
               Step(map[TaskKey(n) := OneService(n)], map[Key(ip, port) := OneInstance(cfg, ip, port)], false)
  {
    OneRepairIs(cfg, ip, port);
    OneRepairDoes(cfg, ip, port);
  }

  /** One more event at the end of a run. */
  lemma Extend(states: seq<State>, events: seq<Event>, e: Event, cfg: Config)
    returns (states': seq<State>, events': seq<Event>)
    requires cfg.size >= 1 && IsRun(states, events, cfg) && Legal(states[|events|], e, cfg)
    ensures states' == states + [Next(states[|events|], e)] && events' == events + [e]
    ensures IsRun(states', events', cfg) && states'[|events'|] == Next(states[|events|], e)
  {
    states', events' := states + [Next(states[|events|], e)], events + [e];
    forall i | 0 <= i < |events'|
      ensures Legal(states'[i], events'[i], cfg) && states'[i + 1] == Next(states'[i], events'[i])
    {
      if i < |events| {
        assert states'[i] == states[i] && states'[i + 1] == states[i + 1] && events'[i] == events[i];
      }
    }
  }

  lemma Appears(cfg: Config, svc: Service) returns (states: seq<State>, events: seq<Event>)
    requires cfg.size >= 1
    ensures IsRun(states, events, cfg)
    ensures states[|events|] == State(map[NameOf(svc) := svc], map[], map[])
  {
    states, events := [State(map[], map[], map[])], [];
    states, events := Extend(states, events, Outside(map[NameOf(svc) := svc], map[]), cfg);
  }

  lemma RegisteredOnce(cfg: Config, n: Name, ip: string, port: nat) returns (states: seq<State>, events: seq<Event>)
    requires cfg.size >= 1 && PipeFree(n)
    ensures IsRun(states, events, cfg)
    ensures states[|events|] == State(map[n := OneService(n)], map[TaskKey(n) := OneService(n)],
                                      map[n := map[Key(ip, port) := OneInstance(cfg, ip, port)]])
  {
    states, events := Appears(cfg, OneService(n));
    OneStepIs(cfg, n, ip, port);
    states, events := Extend(states, events, Synced(n, OneStep(cfg, n, ip, port)), cfg);
  }

  /** From the first start: a service appears, its endpoint is registered, and the service vanishes, the
      controller not yet having processed that. */
  lemma VanishedWhileCached(cfg: Config, n: Name, ip: string, port: nat)
    returns (states: seq<State>, events: seq<Event>, x: Instance)
    requires cfg.size >= 1 && PipeFree(n)
    ensures IsRun(states, events, cfg) && IsManaged(x.metadata, cfg.cluster)
    ensures states[|events|] == State(map[], map[TaskKey(n) := OneService(n)], map[n := map[KeyOf(x) := x]])
  {
    x := OneInstance(cfg, ip, port);
    OneAddition(cfg, ip, port);
    states, events := RegisteredOnce(cfg, n, ip, port);
    Disappears(states[|events|], cfg);
    states, events := Extend(states, events, Outside(map[], states[|events|].regs), cfg);
  }

  /** The services may vanish at any time while the registry stays as it is. */
  lemma Disappears(s: State, cfg: Config)
    requires cfg.size >= 1 && forall n <- s.regs :: IsContent(s.regs[n])
    ensures Legal(s, Outside(map[], s.regs), cfg)
  {
  }

  /** The event continues the run, and leaves an instance of service `n` behind for good. */
  ghost predicate LeaksNext(states: seq<State>, events: seq<Event>, e: Event, cfg: Config, n: Name, k: Key)
    requires cfg.size >= 1 && |states| == |events| + 1
  {
    && IsRun(states + [Next(states[|events|], e)], events + [e], cfg)
    && Leaked(Next(states[|events|], e), cfg, n, k)
  }

  lemma LeaksNow(states: seq<State>, events: seq<Event>, e: Event, cfg: Config, n: Name, k: Key)
    requires cfg.size >= 1 && IsRun(states, events, cfg) && Legal(states[|events|], e, cfg)
    requires Leaked(Next(states[|events|], e), cfg, n, k)
    ensures LeaksNext(states, events, e, cfg, n, k)
  {
    var states', events' := Extend(states, events, e, cfg);
  }

  /** From the first start a run leads to a state in which each of the four leaks: a recovery, a restart, a
      failed query and a denied deletion. */
  lemma LeaksReached(cfg: Config, n: Name, ip: string, port: nat)
    returns (states: seq<State>, events: seq<Event>, k: Key, unanswered: Event, denied: Event)
    requires cfg.size >= 1 && PipeFree(n)
    ensures unanswered.Synced? && !unanswered.w.answered
    ensures denied.Synced? && denied.w.answered && denied.w.deletion.replies == [DENIAL]
    ensures |states| == |events| + 1
    ensures LeaksNext(states, events, Recovered, cfg, n, k) && LeaksNext(states, events, Restarted, cfg, n, k)
    ensures LeaksNext(states, events, unanswered, cfg, n, k) && LeaksNext(states, events, denied, cfg, n, k)
  {
    var x;
    states, events, x := VanishedWhileCached(cfg, n, ip, port);
    var s := states[|events|];
    k := KeyOf(x);
    unanswered := UnansweredLeaks(s, cfg, n, x);
    denied := DenialHappens(s, cfg, n, x);
    RecoveryLeaks(s, cfg, n, k);
    RestartLeaks(s, cfg, n, k);
    LeaksNow(states, events, Recovered, cfg, n, k);
    LeaksNow(states, events, Restarted, cfg, n, k);
    LeaksNow(states, events, unanswered, cfg, n, k);
    LeaksNow(states, events, denied, cfg, n, k);
  }

  lemma UnansweredLeaks(s: State, cfg: Config, n: Name, x: Instance) returns (e: Event)
    requires cfg.size >= 1 && PipeFree(n) && n !in s.lister && TaskKey(n) in s.cache
    requires s.Reg(n) == map[KeyOf(x) := x] && IsManaged(x.metadata, cfg.cluster)
    ensures Legal(s, e, cfg) && e.Synced? && !e.w.answered && Leaked(Next(s, e), cfg, n, KeyOf(x))
  {
    e := Synced(n, Surroundings(NotFound, None, false, None, false, [], EMPTY_BATCH, NO_REPAIR));
    NoBatch(s.Reg(n), Deleting, cfg.size);
    assert ManagedAt(s.Reg(n), cfg, KeyOf(x));
    FailedQueryLeaks(s, e, cfg, KeyOf(x));
  }

  // ---- Isolation over runs -------------------------------------------------------------------

  /** No step of the controller, whatever the server answers, touches an instance of somebody else. */
  lemma OthersNeverTouched(s: State, e: Event, cfg: Config, n: Name, k: Key)
    requires cfg.size >= 1 && Legal(s, e, cfg) && !e.Outside? && IsContent(s.Reg(n)) && ForeignAt(s.Reg(n), cfg, k)
    ensures Lookup(Next(s, e).Reg(n), k) == Lookup(s.Reg(n), k)
  {
    if e.Synced? && e.name == n {
      StepReg(s.cache, s.Reg(n), TaskKey(n), e.w);
      match ModeOf(s.cache, TaskKey(n), e.w)
      case Idle =>
      case Removing => DeletionKeepsOthers(s.Reg(n), cfg, e.w.answered, e.w.instances, e.w.deletion, k);
      case Repairing =>
        RepairKeepsOthers(s.Reg(n), e.w.lookup.svc.annotations, cfg, e.w.endpoints.value, e.w.answered, e.w.repair, k);
    }
  }
}
