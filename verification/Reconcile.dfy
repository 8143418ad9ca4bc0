/** controller/endpoint.go processSyncInstance and controller/apis.go CompareInstance: comparing the
    endpoints with the registered instances and repairing the difference. */
module Reconcile {
  import opened Wrappers
  import opened Text
  import opened Instances
  import opened Registry
  import opened Paging

  const METADATA := "polarismesh.cn/metadata"
  const TTL := "polarismesh.cn/ttl"
  const WEIGHT := "polarismesh.cn/weight"
  const CUSTOM_WEIGHT := "polarismesh.cn/customWeight"
  const CUSTOM_VERSION := "polarismesh.cn/customVersion"
  const WORKLOAD_KIND := "polarismesh.cn/workloadKind"
  const ENABLE_REGISTER := "polarismesh.cn/enableRegister"
  const SYNC := "polarismesh.cn/sync"
  const VERSION := "version"
  const PROTOCOL := "protocol"
  const DEFAULT_META := {CLUSTER_NAME, SOURCE, VERSION, PROTOCOL}
  const STATEFUL := {"statefulset", "statefulsetplus", "StatefulSetPlus", "StatefulSet"}

  /** What the JSON decoder leaves in the map, and whether it reported an error. */
  datatype Decoded = Decoded(entries: map<string, string>, failed: bool)

  /** `size` is the number of instances a page holds. */
  datatype Config = Config(
    cluster: string, size: nat, json: string -> Decoded, jsonWeights: string -> map<string, int>)

  /** The annotations of a service. */
  type Annotations = map<string, string>

  // ---- What a service asks for ---------------------------------------------------------------

  /** A heartbeat interval of 1 to 60 seconds. */
  predicate HealthChecked(svc: Annotations) {
    var ttl := Atoi(Meta(svc, TTL));
    ttl.Some? && 0 < ttl.value <= 60
  }

  function WeightsOf(svc: Annotations, cfg: Config): Weights {
    Weights(if WEIGHT in svc then Atoi(svc[WEIGHT]).GetOr(DEFAULT_WEIGHT) else DEFAULT_WEIGHT,
            if Meta(svc, CUSTOM_WEIGHT) == "" then map[] else cfg.jsonWeights(Meta(svc, CUSTOM_WEIGHT)),
            Meta(svc, WORKLOAD_KIND) in STATEFUL)
  }

  /** The gate in front of adding and updating; it closes only when both annotations say "false". */
  predicate Registers(svc: Annotations) {
    Meta(svc, ENABLE_REGISTER) != "false" || Meta(svc, SYNC) != "false"
  }

  function CustomMeta(svc: Annotations, cfg: Config): map<string, string> {
    if Meta(svc, METADATA) == "" then map[] else cfg.json(Meta(svc, METADATA)).entries
  }

  /** mergeMetadataWithService: pod labels come last and so win over the controller's own marks. */
  function Merged(svc: Annotations, cfg: Config, a: Address): map<string, string> {
    CustomMeta(svc, cfg)[SOURCE := CONTROLLER][CLUSTER_NAME := cfg.cluster] + a.labels.GetOr(map[])
  }

  function NewInstance(svc: Annotations, cfg: Config, a: Address): Instance {
    var metadata := Merged(svc, cfg, a);
    var version := if Meta(metadata, CUSTOM_VERSION) != "" then Meta(metadata, CUSTOM_VERSION)
                   else Meta(a.labels.GetOr(map[]), VERSION);
    Instance(a.ip, a.port, a.weight, !HealthChecked(svc), a.isolate, HealthChecked(svc), a.protocol, version, metadata)
  }

  function ChangeTo(svc: Annotations, cfg: Config, a: Address): Change {
    Change(a.weight, true, a.isolate, HealthChecked(svc), Merged(svc, cfg, a))
  }

  // ---- Comparing -----------------------------------------------------------------------------

  predicate EntryDiffers(had: map<string, string>, k: string, v: string) {
    k != CLUSTER_NAME && k != SOURCE && (k !in had || had[k] != v)
  }

  predicate CustomMetaDiffers(svc: Annotations, cfg: Config, current: map<string, string>) {
    if Meta(svc, METADATA) == "" then |current| > |DEFAULT_META|
    else
      var want := cfg.json(Meta(svc, METADATA));
      !want.failed && exists k <- want.entries :: EntryDiffers(current, k, want.entries[k])
  }

  predicate NeedsUpdate(svc: Annotations, cfg: Config, a: Address, x: Instance) {
    || x.healthCheck != HealthChecked(svc) || !x.healthy || x.isolate != a.isolate
    || x.weight != a.weight || x.protocol != a.protocol || CustomMetaDiffers(svc, cfg, x.metadata)
  }

  /** compareInstanceUpdate. */
  method CompareInstanceUpdate(svc: Annotations, cfg: Config, a: Address, x: Instance) returns (r: bool)
    ensures r == NeedsUpdate(svc, cfg, a, x)
  {
    if x.healthCheck != HealthChecked(svc) { return true; }
    if !x.healthy { return true; }
    if x.isolate != a.isolate { return true; }
    if x.weight != a.weight { return true; }
    if x.protocol != a.protocol { return true; }
    if Meta(svc, METADATA) == "" { return |x.metadata| > |DEFAULT_META|; }
    var want := cfg.json(Meta(svc, METADATA));
    if want.failed { return false; }
    var todo := want.entries.Keys;
    while todo != {}
      invariant todo <= want.entries.Keys
      invariant forall k <- want.entries :: k !in todo ==> !EntryDiffers(x.metadata, k, want.entries[k])
      decreases |todo|
    {
      var k :| k in todo;
      todo := todo - {k};
      if EntryDiffers(x.metadata, k, want.entries[k]) { return true; }
    }
    return false;
  }

  function KeyFor(a: Address): string {
    AddressKey(a.ip, a.port)
  }

  ghost predicate Separate(xs: seq<Address>) {
    forall i, j :: 0 <= i < j < |xs| ==> KeyFor(xs[i]) != KeyFor(xs[j])
  }

  lemma SeparateAppend(xs: seq<Address>, a: Address)
    requires Separate(xs) && forall x <- xs :: KeyFor(x) != KeyFor(a)
    ensures Separate(xs + [a])
  {
  }

  ghost predicate WellKeyedInstances(t: map<string, Instance>) {
    forall k <- t :: k == AddressKey(t[k].host, t[k].port)
  }

  predicate Wants(t: map<string, Address>, a: Address) {
    KeyFor(a) in t && t[KeyFor(a)] == a
  }

  predicate Superfluous(spec: map<string, Address>, cur: map<string, Instance>, x: Instance) {
    var k := AddressKey(x.host, x.port);
    k in cur && cur[k] == x && k !in spec
  }

  /** Exactly the missing, the differing and the superfluous entries, each once. */
  ghost predicate IsDifference(svc: Annotations, cfg: Config, spec: map<string, Address>, cur: map<string, Instance>,
                               adds: seq<Address>, deletes: seq<Instance>, updates: seq<Address>)
  {
    && Separate(adds) && Separate(updates)
    && (forall a :: a in adds <==> Wants(spec, a) && KeyFor(a) !in cur)
    && (forall a :: a in updates <==> Wants(spec, a) && KeyFor(a) in cur && NeedsUpdate(svc, cfg, a, cur[KeyFor(a)]))
    && (forall x :: x in deletes <==> Superfluous(spec, cur, x))
    && (forall i, j :: 0 <= i < j < |deletes| ==> KeyOf(deletes[i]) != KeyOf(deletes[j]))
  }

  /** CompareInstance, in whatever order the tables are walked. */
  method CompareInstance(svc: Annotations, cfg: Config, spec: map<string, Address>, cur: map<string, Instance>)
    returns (adds: seq<Address>, deletes: seq<Instance>, updates: seq<Address>)
    requires WellKeyed(spec) && WellKeyedInstances(cur)
    ensures IsDifference(svc, cfg, spec, cur, adds, deletes, updates)
  {
    adds, updates := CompareSpec(svc, cfg, spec, cur);
    deletes := CompareCurrent(spec, cur);
  }

  lemma KeysApart(xs: seq<Instance>, x: Instance)
    requires forall i, j :: 0 <= i < j < |xs| ==> KeyOf(xs[i]) != KeyOf(xs[j])
    requires forall y <- xs :: AddressKey(y.host, y.port) != AddressKey(x.host, x.port)
    ensures forall i, j :: 0 <= i < j < |xs + [x]| ==> KeyOf((xs + [x])[i]) != KeyOf((xs + [x])[j])
  {
    forall y | y in xs ensures KeyOf(y) != KeyOf(x) {
      assert AddressKey(y.host, y.port) != AddressKey(x.host, x.port);
    }
  }

  /** The second loop of CompareInstance, over the registered entries. */
  method CompareCurrent(spec: map<string, Address>, cur: map<string, Instance>) returns (deletes: seq<Instance>)
    requires WellKeyedInstances(cur)
    ensures forall x :: x in deletes <==> Superfluous(spec, cur, x)
    ensures forall i, j :: 0 <= i < j < |deletes| ==> KeyOf(deletes[i]) != KeyOf(deletes[j])
  {
    deletes := [];
    var todo := cur.Keys;
    while todo != {}
      invariant todo <= cur.Keys
      invariant forall x <- deletes :: Superfluous(spec, cur, x) && AddressKey(x.host, x.port) !in todo
      invariant forall k <- cur :: k !in todo && k !in spec ==> cur[k] in deletes
      invariant forall i, j :: 0 <= i < j < |deletes| ==> KeyOf(deletes[i]) != KeyOf(deletes[j])
      decreases |todo|
    {
      var k :| k in todo;
      todo := todo - {k};
      if k !in spec {
        KeysApart(deletes, cur[k]);
        deletes := deletes + [cur[k]];
      }
    }
  }

  /** The first loop of CompareInstance, over the wanted entries. */
  method CompareSpec(svc: Annotations, cfg: Config, spec: map<string, Address>, cur: map<string, Instance>)
    returns (adds: seq<Address>, updates: seq<Address>)
    requires WellKeyed(spec)
    ensures Separate(adds) && Separate(updates)
    ensures forall a :: a in adds <==> Wants(spec, a) && KeyFor(a) !in cur
    ensures forall a :: a in updates <==> Wants(spec, a) && KeyFor(a) in cur && NeedsUpdate(svc, cfg, a, cur[KeyFor(a)])
  {
    adds, updates := [], [];
    var todo := spec.Keys;
    while todo != {}
      invariant todo <= spec.Keys
      invariant Separate(adds) && Separate(updates)
      invariant forall a <- adds :: Wants(spec, a) && KeyFor(a) !in todo && KeyFor(a) !in cur
      invariant forall a <- updates :: Wants(spec, a) && KeyFor(a) !in todo && KeyFor(a) in cur
                                       && NeedsUpdate(svc, cfg, a, cur[KeyFor(a)])
      invariant forall k <- spec :: k !in todo ==>
                  if k !in cur then spec[k] in adds
                  else NeedsUpdate(svc, cfg, spec[k], cur[k]) ==> spec[k] in updates
      decreases |todo|
    {
      var k :| k in todo;
      todo := todo - {k};
      if k in cur {
        var differs := CompareInstanceUpdate(svc, cfg, spec[k], cur[k]);
        if differs {
          SeparateAppend(updates, spec[k]);
          updates := updates + [spec[k]];
        }
      } else {
        SeparateAppend(adds, spec[k]);
        adds := adds + [spec[k]];
      }
    }
  }

  // ---- One reconcile -------------------------------------------------------------------------

  function TextOf(k: Key): string {
    AddressKey(k.host, k.port)
  }

  function AddOp(svc: Annotations, cfg: Config, a: Address): RegOp {
    AddInstance(NewInstance(svc, cfg, a))
  }

  function UpdateOp(svc: Annotations, cfg: Config, a: Address): RegOp {
    UpdateInstance(Key(a.ip, a.port), ChangeTo(svc, cfg, a))
  }

  /** Whether the controller takes the entry at `k` for its own; a failed query shows it nothing. */
  predicate Mine(reg: Content, cfg: Config, answered: bool, k: Key) {
    answered && k in reg && IsManaged(reg[k].metadata, cfg.cluster)
  }

  /** What one reconcile with successful calls makes of the entry at `k`. */
  function Outcome(reg: Content, spec: map<string, Address>, svc: Annotations, cfg: Config, answered: bool,
                   k: Key): Option<Instance>
  {
    if TextOf(k) in spec then
      if !Registers(svc) then Lookup(reg, k)
      else if k !in reg then Some(NewInstance(svc, cfg, spec[TextOf(k)]))
      else if Mine(reg, cfg, answered, k) && NeedsUpdate(svc, cfg, spec[TextOf(k)], reg[k])
      then Some(Changed(reg[k], ChangeTo(svc, cfg, spec[TextOf(k)])))
      else Some(reg[k])
    else if Mine(reg, cfg, answered, k) then None
    else Lookup(reg, k)
  }

  ghost predicate IsOutcome(reg: Content, reg': Content, spec: map<string, Address>, svc: Annotations, cfg: Config,
                            answered: bool)
  {
    forall k :: Lookup(reg', k) == Outcome(reg, spec, svc, cfg, answered, k)
  }

  /** The table of the controller's own instances is the managed part of the registry. */
  lemma {:induction false} ManagedTable(instances: seq<Instance>, cluster: string)
    ensures var t := Managed(instances, cluster);
            && WellKeyedInstances(t)
            && (forall s <- t :: t[s] in instances && IsManaged(t[s].metadata, cluster))
            && (forall x <- instances :: IsManaged(x.metadata, cluster) ==> AddressKey(x.host, x.port) in t)
  {
    if instances != [] {
      var n := |instances| - 1;
      assert instances == instances[..n] + [instances[n]];
      ManagedTable(instances[..n], cluster);
    }
  }

  lemma ManagedIsMine(instances: seq<Instance>, reg: Content, cfg: Config, k: Key)
    requires IsContent(reg) && Lists(instances, reg)
    ensures TextOf(k) in Managed(instances, cfg.cluster) <==> Mine(reg, cfg, true, k)
    ensures Mine(reg, cfg, true, k) ==> Managed(instances, cfg.cluster)[TextOf(k)] == reg[k]
  {
    var t := Managed(instances, cfg.cluster);
    ManagedTable(instances, cfg.cluster);
    if TextOf(k) in t {
      var x := t[TextOf(k)];
      AddressKeyInjective(x.host, x.port, k.host, k.port);
      assert KeyOf(x) == k;
    }
    if Mine(reg, cfg, true, k) {
      assert reg[k] in instances;
    }
  }

  function AddOps(svc: Annotations, cfg: Config, xs: seq<Address>): seq<RegOp> {
    seq(|xs|, i requires 0 <= i < |xs| => AddOp(svc, cfg, xs[i]))
  }

  function UpdateOps(svc: Annotations, cfg: Config, xs: seq<Address>): seq<RegOp> {
    seq(|xs|, i requires 0 <= i < |xs| => UpdateOp(svc, cfg, xs[i]))
  }

  function DeleteOps(xs: seq<Instance>): seq<RegOp> {
    seq(|xs|, i requires 0 <= i < |xs| => DeleteInstance(KeyOf(xs[i])))
  }

  /** The operation is one of those the three lists ask for. */
  predicate IsAskedFor(op: RegOp, svc: Annotations, cfg: Config,
                       adds: seq<Address>, deletes: seq<Instance>, updates: seq<Address>)
  {
    op in AddOps(svc, cfg, adds) || op in UpdateOps(svc, cfg, updates) || op in DeleteOps(deletes)
  }

  /** What a list of operations on distinct keys does to one entry; `op` is the one on it, if any. */
  lemma ListEffect(reg: Content, ops: seq<RegOp>, k: Key, op: Option<RegOp>)
    requires Distinct(ops)
    requires if op.Some? then op.value in ops && op.value.On() == k else forall o <- ops :: o.On() != k
    ensures Lookup(ApplyOps(reg, ops), k) == if op.Some? then Effect(Lookup(reg, k), op.value) else Lookup(reg, k)
  {
    if op.Some? {
      Touched(reg, ops, op.value);
    } else {
      Untouched(reg, ops, k);
    }
  }

  lemma DistinctOps(svc: Annotations, cfg: Config, xs: seq<Address>)
    requires Separate(xs)
    ensures Distinct(AddOps(svc, cfg, xs)) && Distinct(UpdateOps(svc, cfg, xs))
  {
    forall i, j | 0 <= i < j < |xs| ensures Key(xs[i].ip, xs[i].port) != Key(xs[j].ip, xs[j].port) {
      assert KeyFor(xs[i]) != KeyFor(xs[j]);
    }
  }

  lemma AddsEffect(reg: Content, svc: Annotations, cfg: Config, spec: map<string, Address>, cur: map<string, Instance>,
                   adds: seq<Address>, k: Key)
    requires WellKeyed(spec) && Separate(adds) && forall a :: a in adds <==> Wants(spec, a) && KeyFor(a) !in cur
    ensures Lookup(ApplyOps(reg, AddOps(svc, cfg, adds)), k) ==
            if TextOf(k) in spec && TextOf(k) !in cur then Effect(Lookup(reg, k), AddOp(svc, cfg, spec[TextOf(k)]))
            else Lookup(reg, k)
  {
    var ops := AddOps(svc, cfg, adds);
    DistinctOps(svc, cfg, adds);
    if TextOf(k) in spec && TextOf(k) !in cur {
      var a := spec[TextOf(k)];
      AddressKeyInjective(a.ip, a.port, k.host, k.port);
      assert Wants(spec, a);
      var i :| 0 <= i < |adds| && adds[i] == a;
      assert ops[i] == AddOp(svc, cfg, a);
      ListEffect(reg, ops, k, Some(AddOp(svc, cfg, a)));
    } else {
      forall o | o in ops ensures o.On() != k {
        var i :| 0 <= i < |ops| && ops[i] == o;
        assert adds[i] in adds;
      }
      ListEffect(reg, ops, k, None);
    }
  }

  lemma UpdatesEffect(reg: Content, svc: Annotations, cfg: Config, spec: map<string, Address>,
                      cur: map<string, Instance>,
                      updates: seq<Address>, k: Key)
    requires WellKeyed(spec) && Separate(updates)
    requires forall a :: a in updates <==> Wants(spec, a) && KeyFor(a) in cur && NeedsUpdate(svc, cfg, a,
                                                                                             cur[KeyFor(a)])
    ensures Lookup(ApplyOps(reg, UpdateOps(svc, cfg, updates)), k) ==
            if TextOf(k) in spec && TextOf(k) in cur && NeedsUpdate(svc, cfg, spec[TextOf(k)], cur[TextOf(k)])
            then Effect(Lookup(reg, k), UpdateOp(svc, cfg, spec[TextOf(k)])) else Lookup(reg, k)
  {
    var ops := UpdateOps(svc, cfg, updates);
    DistinctOps(svc, cfg, updates);
    if TextOf(k) in spec && TextOf(k) in cur && NeedsUpdate(svc, cfg, spec[TextOf(k)], cur[TextOf(k)]) {
      var a := spec[TextOf(k)];
      AddressKeyInjective(a.ip, a.port, k.host, k.port);
      assert Wants(spec, a);
      var i :| 0 <= i < |updates| && updates[i] == a;
      assert ops[i] == UpdateOp(svc, cfg, a);
      ListEffect(reg, ops, k, Some(UpdateOp(svc, cfg, a)));
    } else {
      forall o | o in ops ensures o.On() != k {
        var i :| 0 <= i < |ops| && ops[i] == o;
        assert updates[i] in updates;
      }
      ListEffect(reg, ops, k, None);
    }
  }

  lemma DeletesEffect(reg: Content, spec: map<string, Address>, cur: map<string, Instance>, deletes: seq<Instance>,
                      k: Key)
    requires WellKeyedInstances(cur) && forall x :: x in deletes <==> Superfluous(spec, cur, x)
    requires forall i, j :: 0 <= i < j < |deletes| ==> KeyOf(deletes[i]) != KeyOf(deletes[j])
    ensures Lookup(ApplyOps(reg, DeleteOps(deletes)), k) ==
            if TextOf(k) in cur && TextOf(k) !in spec then None else Lookup(reg, k)
  {
    var ops := DeleteOps(deletes);
    if TextOf(k) in cur && TextOf(k) !in spec {
      var x := cur[TextOf(k)];
      AddressKeyInjective(x.host, x.port, k.host, k.port);
      assert Superfluous(spec, cur, x);
      var i :| 0 <= i < |deletes| && deletes[i] == x;
      assert ops[i] == DeleteInstance(k);
      ListEffect(reg, ops, k, Some(DeleteInstance(k)));
    } else {
      forall o | o in ops ensures o.On() != k {
        var i :| 0 <= i < |ops| && ops[i] == o;
        assert deletes[i] in deletes;
      }
      ListEffect(reg, ops, k, None);
    }
  }

  /** The registry after the gated additions and updates. */
  function Registered(reg: Content, svc: Annotations, cfg: Config, adds: seq<Address>, updates: seq<Address>): Content {
    if Registers(svc) then ApplyOps(ApplyOps(reg, AddOps(svc, cfg, adds)), UpdateOps(svc, cfg, updates)) else reg
  }

  /** Carrying out a difference, additions first and deletions last, has the stated outcome. */
  lemma DifferenceApplied(reg: Content, svc: Annotations, cfg: Config, spec: map<string, Address>,
                          instances: seq<Instance>, answered: bool,
                          adds: seq<Address>, deletes: seq<Instance>, updates: seq<Address>)
    requires IsContent(reg) && WellKeyed(spec) && if answered then Lists(instances, reg) else instances == []
    requires IsDifference(svc, cfg, spec, Managed(instances, cfg.cluster), adds, deletes, updates)
    ensures IsOutcome(reg, ApplyOps(Registered(reg, svc, cfg, adds, updates), DeleteOps(deletes)), spec, svc, cfg,
                      answered)
  {
    var cur := Managed(instances, cfg.cluster);
    var regA := ApplyOps(reg, AddOps(svc, cfg, adds));
    var reg1 := Registered(reg, svc, cfg, adds, updates);
    ManagedTable(instances, cfg.cluster);
    forall k ensures Lookup(ApplyOps(reg1, DeleteOps(deletes)), k) == Outcome(reg, spec, svc, cfg, answered, k) {
      if answered {
        ManagedIsMine(instances, reg, cfg, k);
      }
      AddsEffect(reg, svc, cfg, spec, cur, adds, k);
      UpdatesEffect(regA, svc, cfg, spec, cur, updates, k);
      DeletesEffect(reg1, spec, cur, deletes, k);
    }
  }

  /** The additions and updates that pass the gate. */
  function GatedAdds(svc: Annotations, cfg: Config, adds: seq<Address>): seq<RegOp> {
    if Registers(svc) then AddOps(svc, cfg, adds) else []
  }

  function GatedUpdates(svc: Annotations, cfg: Config, updates: seq<Address>): seq<RegOp> {
    if Registers(svc) then UpdateOps(svc, cfg, updates) else []
  }

  /** One repair as it happened: what the query showed, the three lists, and the three batches. */
  datatype Repairs = Repairs(
    instances: seq<Instance>, adds: seq<Address>, deletes: seq<Instance>, updates: seq<Address>,
    added: Batch, updated: Batch, deleted: Batch)

  /** An answered query shows every instance; a failed one reads as an empty list. */
  ghost predicate Shows(answered: bool, instances: seq<Instance>, reg: Content) {
    if answered then Enumerates(instances, reg) else instances == []
  }

  ghost predicate IsRepair(reg: Content, svc: Annotations, cfg: Config, spec: map<string, Address>, answered: bool,
                           r: Repairs)
    requires cfg.size >= 1
  {
    && Shows(answered, r.instances, reg)
    && IsDifference(svc, cfg, spec, Managed(r.instances, cfg.cluster), r.adds, r.deletes, r.updates)
    && IsBatch(r.added, Adding, GatedAdds(svc, cfg, r.adds), cfg.size) && IsTruthful(reg, r.added, Adding)
    && IsBatch(r.updated, Updating, GatedUpdates(svc, cfg, r.updates), cfg.size)
    && IsTruthful(Sent(reg, r.added), r.updated, Updating)
    && IsBatch(r.deleted, Deleting, DeleteOps(r.deletes), cfg.size)
  }

  function AfterRepair(reg: Content, r: Repairs): Content {
    Sent(Sent(Sent(reg, r.added), r.updated), r.deleted)
  }

  function Wanted(subsets: seq<Subset>, svc: Annotations, cfg: Config): map<string, Address> {
    Table(Written(subsets, WeightsOf(svc, cfg)))
  }

  /** processSyncInstance, whatever the server answers. It fails only when the endpoints are not found:
      a failed query just makes it believe that nothing is registered, and the errors of the three
      batches are dropped. */
  method ProcessSyncInstance(server: Server, svc: Annotations, cfg: Config, endpoints: Option<seq<Subset>>,
                             answered: bool, net: Net)
    returns (failed: bool, ghost r: Repairs)
    requires server.Valid() && cfg.size >= 1 && Honest(net)
    modifies server
    ensures server.Valid() && failed == endpoints.None?
    ensures endpoints.None? ==> server.content == old(server.content)
    ensures endpoints.Some? ==>
              && IsRepair(old(server.content), svc, cfg, Wanted(endpoints.value, svc, cfg), answered, r)
              && server.content == AfterRepair(old(server.content), r)
  {
    if endpoints.None? {
      return true, Repairs([], [], [], [], EMPTY_BATCH, EMPTY_BATCH, EMPTY_BATCH);
    }
    var instances := GetAllInstance(server, answered);
    var spec := SpecTable(endpoints.value, WeightsOf(svc, cfg));
    var cur := CurrentTable(instances, cfg.cluster);
    TableLast(Written(endpoints.value, WeightsOf(svc, cfg)));
    ManagedTable(instances, cfg.cluster);
    var adds, deletes, updates := CompareInstance(svc, cfg, spec, cur);
    ghost var added, updated, deleted;
    added, updated, deleted := Repair(server, svc, cfg, adds, deletes, updates, net);
    return false, Repairs(instances, adds, deletes, updates, added, updated, deleted);
  }

  /** getAllInstance. */
  method GetAllInstance(server: Server, answered: bool) returns (instances: seq<Instance>)
    requires server.Valid()
    ensures Shows(answered, instances, server.content)
  {
    instances := [];
    if answered {
      instances := server.GetAll();
    }
  }

  const EMPTY_BATCH := Batch([], [], [], [])

  /** The additions and updates of processSyncInstance, behind their gate. */
  method Register(server: Server, svc: Annotations, cfg: Config, adds: seq<Address>, updates: seq<Address>, net: Net)
    returns (ghost added: Batch, ghost updated: Batch)
    requires server.Valid() && cfg.size >= 1 && Honest(net)
    modifies server
    ensures server.Valid() && server.content == Sent(Sent(old(server.content), added), updated)
    ensures IsBatch(added, Adding, GatedAdds(svc, cfg, adds), cfg.size)
    ensures IsBatch(updated, Updating, GatedUpdates(svc, cfg, updates), cfg.size)
    ensures Separate(adds) ==> IsTruthful(old(server.content), added, Adding)
    ensures Separate(updates) ==> IsTruthful(Sent(old(server.content), added), updated, Updating)
  {
    if !Registers(svc) {
      return EMPTY_BATCH, EMPTY_BATCH;
    }
    var failed: bool;
    failed, added := SendBatch(server, Adding, AddOps(svc, cfg, adds), cfg.size, net);
    failed, updated := SendBatch(server, Updating, UpdateOps(svc, cfg, updates), cfg.size, net);
    if Separate(adds) {
      DistinctOps(svc, cfg, adds);
    }
    if Separate(updates) {
      DistinctOps(svc, cfg, updates);
    }
  }

  /** The calls of processSyncInstance. */
  method Repair(server: Server, svc: Annotations, cfg: Config, adds: seq<Address>, deletes: seq<Instance>,
                updates: seq<Address>, net: Net)
    returns (ghost added: Batch, ghost updated: Batch, ghost deleted: Batch)
    requires server.Valid() && cfg.size >= 1 && Honest(net)
    modifies server
    ensures server.Valid() && server.content == Sent(Sent(Sent(old(server.content), added), updated), deleted)
    ensures IsBatch(added, Adding, GatedAdds(svc, cfg, adds), cfg.size)
    ensures IsBatch(updated, Updating, GatedUpdates(svc, cfg, updates), cfg.size)
    ensures IsBatch(deleted, Deleting, DeleteOps(deletes), cfg.size)
    ensures Separate(adds) ==> IsTruthful(old(server.content), added, Adding)
    ensures Separate(updates) ==> IsTruthful(Sent(old(server.content), added), updated, Updating)
  {
    var failed: bool;
    added, updated := Register(server, svc, cfg, adds, updates, net);
    failed, deleted := SendBatch(server, Deleting, DeleteOps(deletes), cfg.size, net);
  }
}
