/** controller/service.go and controller/rsync.go: the service side of the controller, its two caches,
    and the health probe. */
module Controller {
  import opened Wrappers
  import opened Instances
  import opened Registry
  import opened Paging
  import opened Reconcile
  import opened Services

  type Cache = map<string, Service>

  datatype Operation = Empty | Added | Updated | Deleted

  datatype Task = Task(ns: string, name: string, resync: bool, operation: Operation)

  datatype Listing = Found(svc: Service) | NotFound | Unreadable

  /** Everything outside the controller that one syncService step depends on: what the lister says, the
      namespace's wish, whether the namespace and service could be created, the endpoints, whether the
      instance query was answered and with what, and how the batches of calls went. */
  datatype Surroundings = Surroundings(
    lookup: Listing,
    ns: NamespaceSync,
    created: bool,
    endpoints: Option<seq<Subset>>,
    answered: bool,
    instances: seq<Instance>,
    deletion: Batch,
    repair: Repairs)

  /** What a step does to the registry. */
  datatype Mode = Idle | Removing | Repairing

  function ModeOf(cache: Cache, key: string, w: Surroundings): Mode {
    match w.lookup
    case Unreadable => Idle
    case NotFound => if key in cache then Removing else Idle
    case Found(svc) =>
      if key !in cache then (if IsPolarisService(svc, w.ns) && w.created && w.endpoints.Some? then Repairing else Idle)
      else match CompareServiceChange(cache[key], svc, w.ns)
        case NotPolaris => Removing
        case RegisterChanged => Idle
        case Other => if w.endpoints.Some? then Repairing else Idle
  }

  /** The state of the cache and the registry after a step, and whether the step failed. */
  datatype Step = Step(cache: Cache, reg: Content, failed: bool)

  /** syncService, as the source runs it: vanished services are deleted through the cache, unknown ones
      created, known ones updated according to what changed. */
  function SyncService(cache: Cache, reg: Content, key: string, w: Surroundings): Step {
    var removed := Sent(reg, w.deletion);
    var repaired := AfterRepair(reg, w.repair);
    match w.lookup
    case Unreadable => Step(cache, reg, false)
    case NotFound =>
      if key !in cache then Step(cache, reg, false)
      else if Fails(w.deletion) then Step(cache, removed, true)
      else Step(cache - {key}, removed, false)
    case Found(svc) =>
      if key !in cache then
        if !IsPolarisService(svc, w.ns) then Step(cache, reg, false)
        else if !w.created || w.endpoints.None? then Step(cache, reg, true)
        else Step(cache[key := svc], repaired, false)
      else
        match CompareServiceChange(cache[key], svc, w.ns)
        case NotPolaris => Step(if Fails(w.deletion) then cache else cache[key := svc], removed, Fails(w.deletion))
        case RegisterChanged => Step(cache[key := svc], reg, false)
        case Other => if w.endpoints.Some? then Step(cache[key := svc], repaired, false) else Step(cache, reg, true)
  }

  /** filterPolarisMetadata: the instances that carry this cluster's marks. */
  function Filtered(instances: seq<Instance>, cluster: string): seq<Instance> {
    if instances == [] then []
    else
      var last := instances[|instances| - 1];
      Filtered(instances[..|instances| - 1], cluster) + (if IsManaged(last.metadata, cluster) then [last] else [])
  }

  lemma {:induction false} FilteredIs(instances: seq<Instance>, cluster: string)
    ensures forall x :: x in Filtered(instances, cluster) <==> x in instances && IsManaged(x.metadata, cluster)
  {
    if instances != [] {
      var n := |instances| - 1;
      assert instances == instances[..n] + [instances[n]];
      FilteredIs(instances[..n], cluster);
    }
  }

  lemma {:induction false} FilteredDifferent(instances: seq<Instance>, cluster: string)
    requires Different(instances)
    ensures Different(Filtered(instances, cluster)) && Distinct(DeleteOps(Filtered(instances, cluster)))
  {
    if instances != [] {
      var n := |instances| - 1;
      var kept := Filtered(instances[..n], cluster);
      FilteredDifferent(instances[..n], cluster);
      FilteredIs(instances[..n], cluster);
      forall i | 0 <= i < |kept| ensures KeyOf(kept[i]) != KeyOf(instances[n]) {
        assert kept[i] in kept;
        var j :| 0 <= j < n && instances[..n][j] == kept[i];
        assert instances[j] == kept[i];
      }
    }
  }

  /** One processDeleteService: the filtered instances of the query, deleted in a batch. */
  ghost predicate IsDeletion(reg: Content, cfg: Config, answered: bool, instances: seq<Instance>, b: Batch)
    requires cfg.size >= 1
  {
    Shows(answered, instances, reg) && IsBatch(b, Deleting, DeleteOps(Filtered(instances, cfg.cluster)), cfg.size)
  }

  /** The surroundings fit the registry: the batches are those the step sends. */
  ghost predicate Happens(cache: Cache, reg: Content, cfg: Config, key: string, w: Surroundings)
    requires cfg.size >= 1
  {
    match ModeOf(cache, key, w)
    case Idle => true
    case Removing => IsDeletion(reg, cfg, w.answered, w.instances, w.deletion)
    case Repairing =>
      IsRepair(reg, w.lookup.svc.annotations, cfg, Wanted(w.endpoints.value, w.lookup.svc.annotations, cfg),
               w.answered, w.repair)
  }

  const NO_REPAIR := Repairs([], [], [], [], EMPTY_BATCH, EMPTY_BATCH, EMPTY_BATCH)

  class PolarisController {
    var serviceCache: Cache
    var resyncServiceCache: Cache
    var queue: seq<Task>
    var isPolarisServerHealthy: bool
    var polarisServerFailedTimes: int

    constructor ()
      ensures serviceCache == map[] && resyncServiceCache == map[] && queue == []
      ensures isPolarisServerHealthy && polarisServerFailedTimes == 0
    {
      serviceCache := map[];
      resyncServiceCache := map[];
      queue := [];
      isPolarisServerHealthy := true;
      polarisServerFailedTimes := 0;
    }

    // ---- Informer events ---------------------------------------------------------------------

    method OnServiceAdd(svc: Service, ns: NamespaceSync)
      modifies `queue, `resyncServiceCache
      ensures resyncServiceCache == AfterAdd(old(resyncServiceCache), svc, ns)
      ensures queue == old(queue) + AddTasks(svc, ns)
    {
      if !IsPolarisService(svc, ns) {
        return;
      }
      queue := queue + [Task(svc.ns, svc.name, false, Added)];
      resyncServiceCache := resyncServiceCache[TaskKey(NameOf(svc)) := svc];
    }

    method OnServiceUpdate(was: Service, cur: Service, ns: NamespaceSync)
      modifies `queue, `serviceCache, `resyncServiceCache
      ensures serviceCache == CacheAfterUpdate(old(serviceCache), was, cur, ns)
      ensures resyncServiceCache == AfterUpdate(old(resyncServiceCache), was, cur, ns)
      ensures queue == old(queue) + UpdateTasks(was, cur, ns)
    {
      var wasPolaris, isPolaris := IsPolarisService(was, ns), IsPolarisService(cur, ns);
      var key := TaskKey(NameOf(cur));
      if !wasPolaris && !isPolaris {
        return;
      }
      if !isPolaris {
        queue := queue + [Task(cur.ns, cur.name, false, Updated)];
        resyncServiceCache := resyncServiceCache - {key};
        return;
      }
      if wasPolaris {
        queue := queue + [Task(cur.ns, cur.name, false, Updated)];
        serviceCache := serviceCache[key := was];
      } else {
        queue := queue + [Task(cur.ns, cur.name, false, Added)];
      }
      resyncServiceCache := resyncServiceCache[key := cur];
    }

    /** A deletion the informer learned of late arrives as a placeholder that is not a service. */
    method OnServiceDelete(obj: Option<Service>, ns: NamespaceSync)
      modifies `queue, `resyncServiceCache
      ensures resyncServiceCache == AfterDelete(old(resyncServiceCache), obj, ns)
      ensures queue == old(queue) + DeleteTasks(obj, ns)
    {
      if obj.None? || !IsPolarisService(obj.value, ns) {
        return;
      }
      queue := queue + [Task(obj.value.ns, obj.value.name, false, Deleted)];
      resyncServiceCache := resyncServiceCache - {TaskKey(NameOf(obj.value))};
    }

    // ---- Synchronising one service -------------------------------------------------------------

    /** syncService; a failed deletion puts the task into the queue on top of the retry its error causes,
        and an unreadable service puts it there without an error. `w` records how the step went. */
    method Sync(task: Task, server: Server, cfg: Config, lookup: Listing, ns: NamespaceSync, created: bool,
                endpoints: Option<seq<Subset>>, answered: bool, net: Net)
      returns (failed: bool, ghost w: Surroundings)
      requires server.Valid() && cfg.size >= 1 && Honest(net)
      modifies `serviceCache, `queue, server
      ensures server.Valid()
      ensures w.lookup == lookup && w.ns == ns && w.created == created
      ensures w.endpoints == endpoints && w.answered == answered
      ensures var key := TaskKey(Name(task.ns, task.name));
              && Happens(old(serviceCache), old(server.content), cfg, key, w)
              && Step(serviceCache, server.content, failed) ==
                   SyncService(old(serviceCache), old(server.content), key, w)
      ensures queue == old(queue) + if lookup.Unreadable? || (lookup.NotFound? && failed) then [task] else []
    {
      var key := TaskKey(Name(task.ns, task.name));
      w := Surroundings(lookup, ns, created, endpoints, answered, [], EMPTY_BATCH, NO_REPAIR);
      match lookup {
        case Unreadable =>
          queue := queue + [task];
          return false, w;
        case NotFound =>
          if key !in serviceCache {
            return false, w;
          }
          failed, w := ProcessDelete(server, cfg, answered, net, w);
          if failed {
            queue := queue + [task];
          } else {
            serviceCache := serviceCache - {key};
          }
        case Found(svc) =>
          failed, w := ProcessFound(key, svc, server, cfg, net, w, ns, created, endpoints, answered);
      }
    }

    /** The default branch of syncService, for a service that is there. */
    method ProcessFound(key: string, svc: Service, server: Server, cfg: Config, net: Net, ghost given: Surroundings,
                        ns: NamespaceSync, created: bool, endpoints: Option<seq<Subset>>, answered: bool)
      returns (failed: bool, ghost w: Surroundings)
      requires server.Valid() && cfg.size >= 1 && Honest(net)
      requires given == Surroundings(Found(svc), ns, created, endpoints, answered, [], EMPTY_BATCH, NO_REPAIR)
      modifies `serviceCache, server
      ensures server.Valid()
      ensures w == given.(instances := w.instances, deletion := w.deletion, repair := w.repair)
      ensures Happens(old(serviceCache), old(server.content), cfg, key, w)
      ensures Step(serviceCache, server.content, failed) == SyncService(old(serviceCache), old(server.content), key, w)
    {
      w := given;
      if key !in serviceCache {
        if !IsPolarisService(svc, ns) {
          return false, w;
        }
        if !created {
          return true, w;
        }
        failed, w := ProcessSync(svc, server, cfg, endpoints, answered, net, w);
      } else {
        match CompareServiceChange(serviceCache[key], svc, ns)
        case NotPolaris => failed, w := ProcessDelete(server, cfg, answered, net, w);
        case RegisterChanged => failed := false;
        case Other => failed, w := ProcessSync(svc, server, cfg, endpoints, answered, net, w);
      }
      if !failed {
        serviceCache := serviceCache[key := svc];
      }
    }

    method ProcessSync(svc: Service, server: Server, cfg: Config, endpoints: Option<seq<Subset>>, answered: bool,
                       net: Net, ghost given: Surroundings)
      returns (failed: bool, ghost w: Surroundings)
      requires server.Valid() && cfg.size >= 1 && Honest(net)
      modifies server
      ensures server.Valid() && failed == endpoints.None? && w == given.(repair := w.repair)
      ensures failed ==> server.content == old(server.content)
      ensures !failed ==>
                && server.content == AfterRepair(old(server.content), w.repair)
                && IsRepair(old(server.content), svc.annotations, cfg,
                            Wanted(endpoints.value, svc.annotations, cfg), answered, w.repair)
    {
      ghost var r;
      failed, r := ProcessSyncInstance(server, svc.annotations, cfg, endpoints, answered, net);
      w := given.(repair := r);
    }

    /** processDeleteService: query, filter, delete. */
    method ProcessDelete(server: Server, cfg: Config, answered: bool, net: Net, ghost given: Surroundings)
      returns (failed: bool, ghost w: Surroundings)
      requires server.Valid() && cfg.size >= 1 && Honest(net)
      modifies server
      ensures server.Valid() && w == given.(instances := w.instances, deletion := w.deletion)
      ensures IsDeletion(old(server.content), cfg, answered, w.instances, w.deletion)
      ensures failed == Fails(w.deletion) && server.content == Sent(old(server.content), w.deletion)
    {
      var instances := GetAllInstance(server, answered);
      var polarisIPs := FilterPolarisMetadata(instances, cfg.cluster);
      ghost var b;
      failed, b := SendBatch(server, Deleting, DeleteOps(polarisIPs), cfg.size, net);
      w := given.(instances := instances, deletion := b);
    }

    method FilterPolarisMetadata(instances: seq<Instance>, cluster: string) returns (ins: seq<Instance>)
      ensures ins == Filtered(instances, cluster)
    {
      ins := [];
      for i := 0 to |instances|
        invariant ins == Filtered(instances[..i], cluster)
      {
        assert instances[..i + 1][..i] == instances[..i];
        if IsManaged(instances[i].metadata, cluster) {
          ins := ins + [instances[i]];
        }
      }
      assert instances[..|instances|] == instances;
    }

    // ---- Resync ----------------------------------------------------------------------------------

    ghost function Snapshot(): Caches
      reads this
    {
      Caches(serviceCache, resyncServiceCache, queue)
    }

    /** The service part of resyncWorker; the pass panics on a key shorter than the suffix it
        strips. `done` lists the keys as visited. */
    method ResyncServices(namespaces: Namespaces) returns (panicked: bool, ghost done: seq<string>)
      modifies `queue, `serviceCache, `resyncServiceCache
      ensures !old(isPolarisServerHealthy) ==> !panicked && Snapshot() == old(Snapshot())
      ensures old(isPolarisServerHealthy) ==>
                && (panicked <==> exists k <- old(resyncServiceCache) :: |k| < STRIPPED)
                && (!panicked ==> IsListing(done, old(resyncServiceCache)))
                && Visitable(done, old(resyncServiceCache))
                && Snapshot() == PassOver(old(Snapshot()), done, old(resyncServiceCache), namespaces)
    {
      done := [];
      if !isPolarisServerHealthy {
        return false, done;
      }
      ghost var seen: set<string> := {};
      var entries, todo := resyncServiceCache, resyncServiceCache.Keys;
      while todo != {}
        invariant forall k :: k in entries <==> k in seen || k in todo
        invariant forall k <- todo :: k !in seen
        invariant IsPartial(done, seen) && Visitable(done, entries)
        invariant Snapshot() == PassOver(old(Snapshot()), done, entries, namespaces)
        decreases |todo|
      {
        var key :| key in todo;
        if |key| < STRIPPED {
          return true, done;
        }
        OneMoreKey(done, key, seen);
        assert (done + [key])[..|done|] == done;
        todo, seen, done := todo - {key}, seen + {key}, done + [key];
        ResyncEntry(key, entries[key], SyncFor(entries[key], namespaces));
      }
      assert seen == entries.Keys;
      forall k | k in entries ensures |k| >= STRIPPED {
        assert k in done;
      }
      return false, done;
    }

    method ResyncEntry(key: string, value: Service, ns: NamespaceSync)
      requires |key| >= STRIPPED
      modifies `queue, `serviceCache, `resyncServiceCache
      ensures Snapshot() == PassEntry(old(Snapshot()), key, value, ns)
    {
      if Strip(key) !in serviceCache {
        queue := queue + [Task(value.ns, value.name, true, Empty)];
      } else {
        OnServiceUpdate(serviceCache[Strip(key)], value, ns);
      }
    }

    // ---- Health ----------------------------------------------------------------------------------

    /** checkHealth, given the answer of the probe. */
    method CheckHealth(answered: bool)
      modifies `isPolarisServerHealthy, `serviceCache, `polarisServerFailedTimes
      ensures Health(isPolarisServerHealthy, polarisServerFailedTimes) ==
              Probe(Health(old(isPolarisServerHealthy), old(polarisServerFailedTimes)), answered)
      ensures serviceCache == if answered && !old(isPolarisServerHealthy) then map[] else old(serviceCache)
    {
      if answered {
        if !isPolarisServerHealthy {
          isPolarisServerHealthy := true;
          serviceCache := map[];
        }
        polarisServerFailedTimes := 0;
        return;
      }
      if isPolarisServerHealthy {
        polarisServerFailedTimes := polarisServerFailedTimes + 1;
        if polarisServerFailedTimes >= 3 {
          isPolarisServerHealthy := false;
          polarisServerFailedTimes := 0;
        }
      }
    }
  }

  // ---- What the informer events do to the caches -------------------------------------------------

  function AfterAdd(c: Cache, svc: Service, ns: NamespaceSync): Cache {
    if IsPolarisService(svc, ns) then c[TaskKey(NameOf(svc)) := svc] else c
  }

  function AfterUpdate(c: Cache, was: Service, cur: Service, ns: NamespaceSync): Cache {
    if IsPolarisService(cur, ns) then c[TaskKey(NameOf(cur)) := cur]
    else if IsPolarisService(was, ns) then c - {TaskKey(NameOf(cur))}
    else c
  }

  function AfterDelete(c: Cache, obj: Option<Service>, ns: NamespaceSync): Cache {
    if obj.Some? && IsPolarisService(obj.value, ns) then c - {TaskKey(NameOf(obj.value))} else c
  }

  /** Only an update between two Polaris versions writes the service cache, and it writes the old one. */
  function CacheAfterUpdate(c: Cache, was: Service, cur: Service, ns: NamespaceSync): Cache {
    if IsPolarisService(was, ns) && IsPolarisService(cur, ns) then c[TaskKey(NameOf(cur)) := was] else c
  }

  function AddTasks(svc: Service, ns: NamespaceSync): seq<Task> {
    if IsPolarisService(svc, ns) then [Task(svc.ns, svc.name, false, Added)] else []
  }

  function DeleteTasks(obj: Option<Service>, ns: NamespaceSync): seq<Task> {
    if obj.Some? && IsPolarisService(obj.value, ns)
    then [Task(obj.value.ns, obj.value.name, false, Deleted)] else []
  }

  function UpdateTasks(was: Service, cur: Service, ns: NamespaceSync): seq<Task> {
    if IsPolarisService(was, ns) then [Task(cur.ns, cur.name, false, Updated)]
    else if IsPolarisService(cur, ns) then [Task(cur.ns, cur.name, false, Added)]
    else []
  }

  // ---- Resync keys -------------------------------------------------------------------------------

  /** The length of "~resync", which the keys do not carry. */
  const STRIPPED := 7

  function Strip(key: string): string
    requires |key| >= STRIPPED
  {
    key[..|key| - STRIPPED]
  }

  /** The caches and the queue, as a pass changes them. */
  datatype Caches = Caches(services: Cache, resync: Cache, queue: seq<Task>)

  /** One entry of a pass: a task when its stripped key is not cached, otherwise a forced update. */
  function PassEntry(c: Caches, key: string, value: Service, ns: NamespaceSync): Caches
    requires |key| >= STRIPPED
  {
    if Strip(key) !in c.services then c.(queue := c.queue + [Task(value.ns, value.name, true, Empty)])
    else
      var was := c.services[Strip(key)];
      Caches(CacheAfterUpdate(c.services, was, value, ns), AfterUpdate(c.resync, was, value, ns),
             c.queue + UpdateTasks(was, value, ns))
  }

  predicate Visitable(keys: seq<string>, entries: Cache) {
    forall k <- keys :: k in entries && |k| >= STRIPPED
  }

  /** A pass over the entries in the order of `keys`. */
  function PassOver(c: Caches, keys: seq<string>, entries: Cache, namespaces: Namespaces): Caches
    requires Visitable(keys, entries)
  {
    if keys == [] then c
    else
      var n := |keys| - 1;
      assert keys[n] in keys;
      PassEntry(PassOver(c, keys[..n], entries, namespaces), keys[n], entries[keys[n]],
                SyncFor(entries[keys[n]], namespaces))
  }

  /** When every lookup misses, a pass only enqueues, one task for every key it visits. */
  lemma {:induction false} PassOnlyEnqueues(c: Caches, keys: seq<string>, entries: Cache, namespaces: Namespaces)
    requires Visitable(keys, entries) && AllMiss(entries, c.services)
    ensures PassOver(c, keys, entries, namespaces) == c.(queue := c.queue + TasksFor(keys, entries))
  {
    if keys != [] {
      var n := |keys| - 1;
      assert keys[n] in keys && keys == keys[..n] + [keys[n]];
      PassOnlyEnqueues(c, keys[..n], entries, namespaces);
      OneMoreTask(c.queue, keys[..n], keys[n], entries);
    }
  }

  ghost predicate DistinctKeys(keys: seq<string>) {
    forall i, j :: 0 <= i < j < |keys| ==> keys[i] != keys[j]
  }

  function TasksFor(keys: seq<string>, entries: Cache): seq<Task>
    requires forall k <- keys :: k in entries
  {
    seq(|keys|, i requires 0 <= i < |keys| => Task(entries[keys[i]].ns, entries[keys[i]].name, true, Empty))
  }

  lemma OneMoreTask(q: seq<Task>, keys: seq<string>, key: string, entries: Cache)
    requires key in entries && forall k <- keys :: k in entries
    ensures forall k <- keys + [key] :: k in entries
    ensures q + TasksFor(keys + [key], entries) ==
            q + TasksFor(keys, entries) + [Task(entries[key].ns, entries[key].name, true, Empty)]
  {
  }

  /** No key of the resync cache, stripped, is a key of the service cache. */
  ghost predicate AllMiss(entries: Cache, cache: Cache) {
    forall k <- entries :: |k| >= STRIPPED ==> Strip(k) !in cache
  }

  ghost predicate IsPartial(keys: seq<string>, s: set<string>) {
    DistinctKeys(keys) && forall k :: k in keys <==> k in s
  }

  lemma OneMoreKey(keys: seq<string>, key: string, s: set<string>)
    requires IsPartial(keys, s) && key !in s
    ensures IsPartial(keys + [key], s + {key})
  {
  }

  /** The keys of the entries, each once. */
  ghost predicate IsListing(keys: seq<string>, entries: Cache) {
    IsPartial(keys, entries.Keys)
  }

  // ---- Health ------------------------------------------------------------------------------------

  datatype Health = Health(healthy: bool, failures: int)

  function Probe(h: Health, answered: bool): Health {
    if answered then Health(true, 0)
    else if !h.healthy then h
    else if h.failures + 1 >= 3 then Health(false, 0)
    else Health(true, h.failures + 1)
  }
}
