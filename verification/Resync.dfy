/** The periodic resync and the health probe over whole runs. */
module Resync {
  import opened Wrappers
  import Registry
  import opened Services
  import opened Controller

  // ---- What the caches hold ------------------------------------------------------------------

  type Versions = map<Name, Service>

  /** What happens to the caches: informer deliveries, where `Lost` is a deletion that arrives as a
      placeholder instead of the object; the effects of syncService and of a server recovery on the service
      cache; and resync passes that visit the entries in some order. */
  datatype Event =
    | Add(svc: Service)
    | Update(was: Service, cur: Service)
    | Delete(svc: Service)
    | Lost(name: Name)
    | Stored(svc: Service)
    | Uncached(name: Name)
    | Recovered
    | Pass(order: seq<string>)

  /** The caches and queue, the last delivered versions, and the Polaris services whose deletion was lost. */
  datatype Watched = Watched(caches: Caches, last: Versions, lost: set<Name>)

  predicate IsPolaris(svc: Service, nss: Namespaces) {
    IsPolarisService(svc, SyncFor(svc, nss))
  }

  /** Deliveries for one object are ordered. A pass visits every entry; one that meets a short key panics
      and is no step. */
  ghost predicate InOrder(w: Watched, e: Event) {
    match e
    case Add(svc) => PipeFree(NameOf(svc)) && NameOf(svc) !in w.last
    case Update(was, cur) => NameOf(was) == NameOf(cur) && NameOf(was) in w.last && w.last[NameOf(was)] == was
    case Delete(svc) => NameOf(svc) in w.last && w.last[NameOf(svc)] == svc
    case Lost(n) => n in w.last
    case Stored(svc) => PipeFree(NameOf(svc))
    case Uncached(n) => PipeFree(n)
    case Recovered => true
    case Pass(order) => IsListing(order, w.caches.resync) && Visitable(order, w.caches.resync)
  }

  ghost function Next(w: Watched, e: Event, nss: Namespaces): Watched
    requires InOrder(w, e)
  {
    var c := w.caches;
    match e
    case Add(svc) =>
      var ns := SyncFor(svc, nss);
      Watched(c.(resync := AfterAdd(c.resync, svc, ns), queue := c.queue + AddTasks(svc, ns)),
              w.last[NameOf(svc) := svc],
              if IsPolaris(svc, nss) then w.lost - {NameOf(svc)} else w.lost)
    case Update(was, cur) =>
      var ns := SyncFor(cur, nss);
      Watched(Caches(CacheAfterUpdate(c.services, was, cur, ns), AfterUpdate(c.resync, was, cur, ns),
                     c.queue + UpdateTasks(was, cur, ns)),
              w.last[NameOf(cur) := cur],
              if IsPolaris(was, nss) || IsPolaris(cur, nss) then w.lost - {NameOf(cur)} else w.lost)
    case Delete(svc) =>
      var ns := SyncFor(svc, nss);
      Watched(c.(resync := AfterDelete(c.resync, Option.Some(svc), ns),
                 queue := c.queue + DeleteTasks(Option.Some(svc), ns)),
              w.last - {NameOf(svc)},
              if IsPolaris(svc, nss) then w.lost - {NameOf(svc)} else w.lost)
    case Lost(n) =>
      w.(last := w.last - {n}, lost := if IsPolaris(w.last[n], nss) then w.lost + {n} else w.lost)
    case Stored(svc) => w.(caches := c.(services := c.services[TaskKey(NameOf(svc)) := svc]))
    case Uncached(n) => w.(caches := c.(services := c.services - {TaskKey(n)}))
    case Recovered => w.(caches := c.(services := map[]))
    case Pass(order) => w.(caches := PassOver(c, order, c.resync, nss))
  }

  /** The runs below cover syncService: what a step for a service does to the service cache is nothing or one
      of the events above, which can happen in any state. */
  lemma SyncIsEvent(v: Watched, reg: Registry.Content, n: Name, w: Surroundings, nss: Namespaces)
    returns (e: Option<Event>)
    requires PipeFree(n) && (w.lookup.Found? ==> NameOf(w.lookup.svc) == n)
    ensures var after := SyncService(v.caches.services, reg, TaskKey(n), w).cache;
            if e.None? then after == v.caches.services
            else InOrder(v, e.value) && Next(v, e.value, nss) == v.(caches := v.caches.(services := after))
  {
    var cache := v.caches.services;
    var after := SyncService(cache, reg, TaskKey(n), w).cache;
    if after == cache {
      e := None;
    } else if w.lookup.Found? {
      e := Some(Stored(w.lookup.svc));
    } else {
      e := Some(Uncached(n));
    }
  }

  ghost predicate IsRun(ws: seq<Watched>, es: seq<Event>, nss: Namespaces) {
    && |ws| == |es| + 1
    && ws[0] == Watched(Caches(map[], map[], []), map[], {})
    && forall i :: 0 <= i < |es| ==> InOrder(ws[i], es[i]) && ws[i + 1] == Next(ws[i], es[i], nss)
  }

  predicate Expected(w: Watched, n: Name, nss: Namespaces) {
    (n in w.last && IsPolaris(w.last[n], nss)) || n in w.lost
  }

  /** The resync cache holds exactly the services whose last delivered version is a Polaris service, in
      that version, and those whose deletion was lost; the service cache only has keys of services. */
  ghost predicate Exact(w: Watched, nss: Namespaces) {
    && (forall n <- w.last :: PipeFree(n) && NameOf(w.last[n]) == n)
    && (forall n <- w.lost :: PipeFree(n))
    && KeyedByName(w.caches.resync)
    && (forall n: Name :: PipeFree(n) ==> ExactAt(w, n, nss))
    && OnlyTaskKeys(w.caches.services)
  }

  ghost predicate KeyedByName(c: Cache) {
    forall k <- c :: PipeFree(NameOf(c[k])) && k == TaskKey(NameOf(c[k]))
  }

  ghost predicate OnlyTaskKeys(c: Cache) {
    forall k <- c :: IsTaskKey(k)
  }

  ghost predicate IsTaskKey(k: string) {
    exists n: Name :: PipeFree(n) && k == TaskKey(n)
  }

  predicate ExactAt(w: Watched, n: Name, nss: Namespaces) {
    var c := w.caches.resync;
    && (TaskKey(n) in c <==> Expected(w, n, nss))
    && (n in w.last && IsPolaris(w.last[n], nss) ==> TaskKey(n) in c && c[TaskKey(n)] == w.last[n])
  }

  lemma KeysApart(n: Name)
    requires PipeFree(n)
    ensures forall m: Name :: PipeFree(m) && m != n ==> TaskKey(m) != TaskKey(n)
  {
    forall m: Name | PipeFree(m) && m != n ensures TaskKey(m) != TaskKey(n) {
      if TaskKey(m) == TaskKey(n) {
        TaskKeyInjective(m, n);
      }
    }
  }

  /** The service an event delivers. */
  function Delivered(e: Event): Name
    requires e.Add? || e.Update? || e.Delete? || e.Lost?
  {
    match e
    case Add(svc) => NameOf(svc)
    case Update(_, cur) => NameOf(cur)
    case Delete(svc) => NameOf(svc)
    case Lost(n) => n
  }

  /** A delivery leaves the entries of other services alone and makes its own exact. */
  lemma DeliveryAt(w: Watched, e: Event, nss: Namespaces, n: Name)
    requires e.Add? || e.Update? || e.Delete? || e.Lost?
    requires InOrder(w, e) && PipeFree(Delivered(e)) && PipeFree(n) && ExactAt(w, n, nss)
    ensures ExactAt(Next(w, e, nss), n, nss)
  {
    if n != Delivered(e) && TaskKey(n) == TaskKey(Delivered(e)) {
      TaskKeyInjective(n, Delivered(e));
    }
  }

  lemma DeliveryKeeps(w: Watched, e: Event, nss: Namespaces)
    requires e.Add? || e.Update? || e.Delete? || e.Lost?
    requires InOrder(w, e) && Exact(w, nss)
    ensures Exact(Next(w, e, nss), nss)
  {
    var w' := Next(w, e, nss);
    forall n: Name | PipeFree(n) ensures ExactAt(w', n, nss) {
      DeliveryAt(w, e, nss, n);
    }
    assert IsTaskKey(TaskKey(Delivered(e)));
  }

  lemma StepExact(w: Watched, e: Event, nss: Namespaces)
    requires InOrder(w, e) && Exact(w, nss)
    ensures Exact(Next(w, e, nss), nss)
    ensures e.Pass? ==>
              Next(w, e, nss).caches == w.caches.(queue := w.caches.queue + TasksFor(e.order, w.caches.resync))
  {
    if e.Add? || e.Update? || e.Delete? || e.Lost? {
      DeliveryKeeps(w, e, nss);
    } else {
      if e.Stored? {
        assert IsTaskKey(TaskKey(NameOf(e.svc)));
      }
      if e.Pass? {
        PassMisses(w.caches.resync, w.caches.services);
        PassOnlyEnqueues(w.caches, e.order, w.caches.resync, nss);
      }
      SameResync(w, Next(w, e, nss), nss);
    }
  }

  lemma SameResync(w: Watched, w': Watched, nss: Namespaces)
    requires Exact(w, nss) && w'.caches.resync == w.caches.resync && w'.last == w.last && w'.lost == w.lost
    requires OnlyTaskKeys(w'.caches.services)
    ensures Exact(w', nss)
  {
    forall n: Name | PipeFree(n) ensures ExactAt(w', n, nss) {
      assert ExactAt(w, n, nss);
    }
  }

  /** In every run of events and passes with fixed namespaces, the caches are exact after every step. */
  lemma {:induction false} CacheExact(ws: seq<Watched>, es: seq<Event>, nss: Namespaces, i: nat)
    requires IsRun(ws, es, nss) && i < |ws|
    ensures Exact(ws[i], nss)
  {
    if i > 0 {
      CacheExact(ws, es, nss, i - 1);
      StepExact(ws[i - 1], es[i - 1], nss);
    }
  }

  /** In every run, each pass changes no cache and enqueues exactly one task for every entry. */
  lemma PassEnqueuesAll(ws: seq<Watched>, es: seq<Event>, nss: Namespaces, i: nat)
    requires IsRun(ws, es, nss) && i < |es| && es[i].Pass?
    ensures IsListing(es[i].order, ws[i].caches.resync)
    ensures ws[i + 1].caches ==
            ws[i].caches.(queue := ws[i].caches.queue + TasksFor(es[i].order, ws[i].caches.resync))
  {
    CacheExact(ws, es, nss, i);
    StepExact(ws[i], es[i], nss);
  }

  /** In every run, a pass would panic exactly when a service in the cache has fewer than four letters. */
  lemma PassPanics(ws: seq<Watched>, es: seq<Event>, nss: Namespaces, i: nat)
    requires IsRun(ws, es, nss) && i < |ws|
    ensures var c := ws[i].caches.resync;
            (exists k <- c :: |k| < STRIPPED) <==> exists k <- c :: |c[k].ns| + |c[k].name| < 4
  {
    CacheExact(ws, es, nss, i);
    PassMisses(ws[i].caches.resync, ws[i].caches.services);
  }

  // ---- One pass ------------------------------------------------------------------------------

  lemma {:induction false} PipesPrefix(s: string, i: nat)
    requires i <= |s|
    ensures Pipes(s[..i]) <= Pipes(s)
  {
    assert s == s[..i] + s[i..];
    PipesConcat(s[..i], s[i..]);
  }

  /** A stripped key has lost a '|', so it is no key. */
  lemma StrippedIsNoKey(n: Name, m: Name)
    requires PipeFree(n) && PipeFree(m) && |TaskKey(n)| >= STRIPPED
    ensures Strip(TaskKey(n)) != TaskKey(m)
  {
    var key, init := TaskKey(n), n.ns + "|" + n.name;
    KeyPipes(m);
    NoPipes(n.ns);
    NoPipes(n.name);
    PipesJoined(n.ns, n.name);
    assert Strip(key) == init[..|key| - STRIPPED];
    PipesPrefix(init, |key| - STRIPPED);
  }

  /** With keys made from Kubernetes names, every lookup of a resync pass misses, whatever is cached,
      and a pass panics on the entries whose namespace and name have fewer than four letters. */
  lemma PassMisses(entries: Cache, cache: Cache)
    requires KeyedByName(entries) && OnlyTaskKeys(cache)
    ensures AllMiss(entries, cache)
    ensures forall k <- entries :: |k| < STRIPPED <==> |entries[k].ns| + |entries[k].name| < 4
  {
    forall k | k in entries && |k| >= STRIPPED ensures Strip(k) !in cache {
      forall m: Name | PipeFree(m) ensures Strip(k) != TaskKey(m) {
        StrippedIsNoKey(NameOf(entries[k]), m);
      }
      assert !IsTaskKey(Strip(k));
    }
  }

  // ---- Health --------------------------------------------------------------------------------

  function ProbeAll(history: seq<bool>): Health {
    if history == [] then Health(true, 0) else Probe(ProbeAll(history[..|history| - 1]), history[|history| - 1])
  }

  /** The failed probes since the last answered one. */
  function FailureRun(history: seq<bool>): nat {
    if history == [] || history[|history| - 1] then 0 else FailureRun(history[..|history| - 1]) + 1
  }

  /** The server counts as down exactly while at least three probes in a row have failed; the counter
      holds a shorter run and is otherwise zero. */
  lemma {:induction false} HealthAfter(history: seq<bool>)
    ensures var run := FailureRun(history);
            ProbeAll(history) == if run >= 3 then Health(false, 0) else Health(true, run)
  {
    if history != [] {
      HealthAfter(history[..|history| - 1]);
    }
  }

  /** The probe at `i` finds the server up again after it counted as down: CheckHealth clears the
      service cache then and only then, which is at the end of every run of three or more failures. */
  lemma ClearsExactly(history: seq<bool>, i: nat)
    requires i < |history|
    ensures history[i] && !ProbeAll(history[..i]).healthy <==>
            i >= 3 && history[i] && !history[i - 1] && !history[i - 2] && !history[i - 3]
  {
    HealthAfter(history[..i]);
    RunOfThree(history[..i]);
  }

  lemma RunOfThree(history: seq<bool>)
    ensures var n := |history|;
            FailureRun(history) >= 3 <==> n >= 3 && !history[n - 1] && !history[n - 2] && !history[n - 3]
  {
    var n := |history|;
    if n >= 1 && !history[n - 1] {
      var a := history[..n - 1];
      if n >= 2 && !a[n - 2] {
        var b := a[..n - 2];
        if n >= 3 && !b[n - 3] {
          assert FailureRun(b) == FailureRun(b[..n - 3]) + 1;
        }
      }
    }
  }
}
