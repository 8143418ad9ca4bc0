/** What reconciling achieves: the managed instances become the endpoints, the instances of others are
    never touched, and reconciling again changes nothing. */
module Convergence {
  import opened Wrappers
  import opened Text
  import opened Instances
  import opened Registry
  import opened Reconcile
  import opened Paging

  // ---- Marks ---------------------------------------------------------------------------------

  /** The labels of the pod do not overwrite the marks the controller puts on an instance: checked on
      the labels, and on the custom metadata for the old source key. */
  predicate KeepsMarks(svc: Annotations, cfg: Config, a: Address) {
    var labels := a.labels.GetOr(map[]);
    && (CLUSTER_NAME in labels ==> labels[CLUSTER_NAME] == cfg.cluster)
    && (SOURCE in labels && labels[SOURCE] != CONTROLLER ==>
          (if OLD_SOURCE in labels then labels[OLD_SOURCE] else Meta(CustomMeta(svc, cfg), OLD_SOURCE)) == CONTROLLER)
  }

  lemma MarksDiffer()
    ensures CLUSTER_NAME != SOURCE && SOURCE != OLD_SOURCE && CLUSTER_NAME != OLD_SOURCE
  {
    assert |CLUSTER_NAME| == 11 && |SOURCE| == 6 && |OLD_SOURCE| == 8;
  }

  lemma MergedIsManaged(svc: Annotations, cfg: Config, a: Address)
    ensures IsManaged(Merged(svc, cfg, a), cfg.cluster) <==> KeepsMarks(svc, cfg, a)
  {
    MarksDiffer();
  }

  // ---- Convergence ---------------------------------------------------------------------------

  predicate ManagedAt(reg: Content, cfg: Config, k: Key) {
    k in reg && IsManaged(reg[k].metadata, cfg.cluster)
  }

  predicate ForeignAt(reg: Content, cfg: Config, k: Key) {
    k in reg && !IsManaged(reg[k].metadata, cfg.cluster)
  }

  /** The reconcile writes metadata at `k`. */
  predicate WritesAt(reg: Content, spec: map<string, Address>, svc: Annotations, cfg: Config, k: Key) {
    && Registers(svc) && TextOf(k) in spec && !ForeignAt(reg, cfg, k)
    && (k !in reg || NeedsUpdate(svc, cfg, spec[TextOf(k)], reg[k]))
  }

  /** After an answered reconcile exactly the endpoints not held by others are managed, if and only if
      no pod whose entry is written overwrites the marks. */
  lemma ManagedBecomeEndpoints(reg: Content, reg': Content, spec: map<string, Address>, svc: Annotations, cfg: Config)
    requires IsOutcome(reg, reg', spec, svc, cfg, true) && Registers(svc)
    ensures (forall k :: ManagedAt(reg', cfg, k) <==> TextOf(k) in spec && !ForeignAt(reg, cfg, k))
            <==> (forall k :: WritesAt(reg, spec, svc, cfg, k) ==> KeepsMarks(svc, cfg, spec[TextOf(k)]))
  {
    forall k
      ensures (ManagedAt(reg', cfg, k) <==> TextOf(k) in spec && !ForeignAt(reg, cfg, k))
              <==> (WritesAt(reg, spec, svc, cfg, k) ==> KeepsMarks(svc, cfg, spec[TextOf(k)]))
    {
      ManagedPointwise(reg, reg', spec, svc, cfg, k);
    }
  }

  lemma ManagedPointwise(reg: Content, reg': Content, spec: map<string, Address>, svc: Annotations, cfg: Config, k: Key)
    requires IsOutcome(reg, reg', spec, svc, cfg, true) && Registers(svc)
    ensures (ManagedAt(reg', cfg, k) <==> TextOf(k) in spec && !ForeignAt(reg, cfg, k))
            <==> (WritesAt(reg, spec, svc, cfg, k) ==> KeepsMarks(svc, cfg, spec[TextOf(k)]))
  {
    assert Lookup(reg', k) == Outcome(reg, spec, svc, cfg, true, k);
    if TextOf(k) in spec {
      MergedIsManaged(svc, cfg, spec[TextOf(k)]);
    }
  }

  /** Every endpoint not held by others carries the weight and isolation its endpoint asks for. */
  lemma EndpointsServed(reg: Content, reg': Content, spec: map<string, Address>, svc: Annotations, cfg: Config, k: Key)
    requires IsOutcome(reg, reg', spec, svc, cfg, true) && Registers(svc)
    requires TextOf(k) in spec && !ForeignAt(reg, cfg, k)
    ensures k in reg' && reg'[k].weight == spec[TextOf(k)].weight && reg'[k].isolate == spec[TextOf(k)].isolate
  {
    assert Lookup(reg', k) == Outcome(reg, spec, svc, cfg, true, k);
  }

  // ---- Isolation -----------------------------------------------------------------------------

  /** Whichever of the calls get through, in whatever order and however often, the instances of others
      stay as they are. */
  lemma {:induction false} OthersUntouched(
    reg: Content, svc: Annotations, cfg: Config, spec: map<string, Address>, instances: seq<Instance>,
    adds: seq<Address>, deletes: seq<Instance>, updates: seq<Address>, calls: seq<RegOp>, k: Key)
    requires IsContent(reg) && WellKeyed(spec) && (Lists(instances, reg) || instances == [])
    requires IsDifference(svc, cfg, spec, Managed(instances, cfg.cluster), adds, deletes, updates)
    requires forall op <- calls :: IsAskedFor(op, svc, cfg, adds, deletes, updates)
    requires ForeignAt(reg, cfg, k)
    ensures Lookup(ApplyOps(reg, calls), k) == Lookup(reg, k)
  {
    if calls != [] {
      var n := |calls| - 1;
      var op := calls[n];
      assert calls == calls[..n] + [op];
      OthersUntouched(reg, svc, cfg, spec, instances, adds, deletes, updates, calls[..n], k);
      CallsAreMine(svc, cfg, spec, Managed(instances, cfg.cluster), adds, deletes, updates, op);
      ManagedTable(instances, cfg.cluster);
      if Lists(instances, reg) {
        ManagedIsMine(instances, reg, cfg, k);
      }
    }
  }

  /** Only what the controller takes for its own is updated or deleted. */
  lemma CallsAreMine(svc: Annotations, cfg: Config, spec: map<string, Address>, cur: map<string, Instance>,
                     adds: seq<Address>, deletes: seq<Instance>, updates: seq<Address>, op: RegOp)
    requires IsDifference(svc, cfg, spec, cur, adds, deletes, updates)
    requires IsAskedFor(op, svc, cfg, adds, deletes, updates)
    ensures op.AddInstance? || TextOf(op.On()) in cur
  {
    if op in UpdateOps(svc, cfg, updates) {
      var i :| 0 <= i < |updates| && op == UpdateOp(svc, cfg, updates[i]);
      assert updates[i] in updates;
    } else if op in DeleteOps(deletes) {
      var i :| 0 <= i < |deletes| && op == DeleteInstance(KeyOf(deletes[i]));
      assert deletes[i] in deletes;
    }
  }

  // ---- The next comparison -------------------------------------------------------------------

  lemma EmptyOrNot<T>(xs: seq<T>)
    ensures xs == [] || exists x :: x in xs
  {
    if xs != [] {
      assert xs[0] in xs;
    }
  }

  /** After a reconcile that keeps the marks, the next comparison deletes nothing and adds only what
      others hold. */
  lemma NextComparison(reg: Content, reg': Content, spec: map<string, Address>, svc: Annotations, cfg: Config,
                       instances: seq<Instance>, adds: seq<Address>, deletes: seq<Instance>, updates: seq<Address>)
    requires IsContent(reg') && WellKeyed(spec) && Registers(svc)
    requires IsOutcome(reg, reg', spec, svc, cfg, true)
    requires forall k :: WritesAt(reg, spec, svc, cfg, k) ==> KeepsMarks(svc, cfg, spec[TextOf(k)])
    requires Lists(instances, reg')
    requires IsDifference(svc, cfg, spec, Managed(instances, cfg.cluster), adds, deletes, updates)
    ensures deletes == []
    ensures forall a :: a in adds <==> Wants(spec, a) && ForeignAt(reg, cfg, Key(a.ip, a.port))
  {
    var cur := Managed(instances, cfg.cluster);
    ManagedTable(instances, cfg.cluster);
    forall k: Key ensures TextOf(k) in cur <==> TextOf(k) in spec && !ForeignAt(reg, cfg, k) {
      ManagedIsMine(instances, reg', cfg, k);
      ManagedPointwise(reg, reg', spec, svc, cfg, k);
    }
    forall x ensures !Superfluous(spec, cur, x) {
      assert TextOf(KeyOf(x)) == AddressKey(x.host, x.port);
    }
    EmptyOrNot(deletes);
    forall a ensures a in adds <==> Wants(spec, a) && ForeignAt(reg, cfg, Key(a.ip, a.port)) {
      assert KeyFor(a) == TextOf(Key(a.ip, a.port));
    }
  }

  // ---- Reconciling again ---------------------------------------------------------------------

  /** The custom metadata check that no refresh can satisfy: without custom metadata, more than four
      entries in all; with it, a custom entry that a pod label overrides. */
  predicate Unsettled(svc: Annotations, cfg: Config, a: Address) {
    if Meta(svc, METADATA) == "" then |Merged(svc, cfg, a)| > 4
    else
      var want := cfg.json(Meta(svc, METADATA));
      var labels := a.labels.GetOr(map[]);
      !want.failed && exists k <- want.entries ::
        k != CLUSTER_NAME && k != SOURCE && k in labels && labels[k] != want.entries[k]
  }

  /** A refreshed instance is refreshed again exactly when its protocol differs, which no update
      carries, or the metadata check can never be satisfied. */
  lemma StillDiffers(svc: Annotations, cfg: Config, a: Address, x: Instance)
    ensures NeedsUpdate(svc, cfg, a, Changed(x, ChangeTo(svc, cfg, a))) <==>
            x.protocol != a.protocol || Unsettled(svc, cfg, a)
  {
    FourDefaults();
    if Meta(svc, METADATA) != "" {
      var want, m := cfg.json(Meta(svc, METADATA)), Merged(svc, cfg, a);
      var labels := a.labels.GetOr(map[]);
      forall k | k in want.entries && k != CLUSTER_NAME && k != SOURCE
        ensures EntryDiffers(m, k, want.entries[k]) <==> k in labels && labels[k] != want.entries[k]
      {
      }
    }
  }

  /** An instance just added is refreshed on the next pass exactly when it has a heartbeat, which makes it
      start unhealthy, or the metadata check can never be satisfied; in all else it is as asked for. */
  lemma FreshDiffers(svc: Annotations, cfg: Config, a: Address)
    ensures NeedsUpdate(svc, cfg, a, NewInstance(svc, cfg, a)) <==> HealthChecked(svc) || Unsettled(svc, cfg, a)
    ensures KeyOf(NewInstance(svc, cfg, a)) == Key(a.ip, a.port)
  {
    StillDiffers(svc, cfg, a, NewInstance(svc, cfg, a));
    ChangeNew(svc, cfg, a);
  }

  /** Three labels are enough: together with the two marks they make a fifth entry. */
  lemma ThreeLabelsUnsettle(cfg: Config, ip: string, port: nat)
    ensures Unsettled(map[], cfg, Address(ip, port, 100, false, "/TCP", Some(map["a" := "", "b" := "", "c" := ""])))
  {
    var m := Merged(map[], cfg, Address(ip, port, 100, false, "/TCP", Some(map["a" := "", "b" := "", "c" := ""])));
    assert m.Keys == {SOURCE, CLUSTER_NAME, "a", "b", "c"};
    assert |CLUSTER_NAME| == 11 && |SOURCE| == 6 && "a"[0] == 'a' && "b"[0] == 'b' && "c"[0] == 'c';
    FiveKeys(SOURCE, CLUSTER_NAME, "a", "b", "c");
    assert |m| == |m.Keys|;
  }

  lemma FiveKeys(a: string, b: string, c: string, d: string, e: string)
    requires a != b && a != c && a != d && a != e && b != c && b != d && b != e && c != d && c != e && d != e
    ensures |{a, b, c, d, e}| == 5
  {
    assert {a, b, c, d, e} == {a} + {b} + {c} + {d} + {e};
  }

  /** A pod label that names another cluster makes the controller lose its own instance. */
  lemma LabelLosesInstance(cfg: Config, ip: string, port: nat)
    requires cfg.cluster != "other"
    ensures var a := Address(ip, port, 100, false, "/TCP", Some(map[CLUSTER_NAME := "other"]));
            var after := Outcome(map[], map[AddressKey(ip, port) := a], map[], cfg, true, Key(ip, port));
            after.Some? && !IsManaged(after.value.metadata, cfg.cluster)
  {
  }

  lemma FourDefaults()
    ensures |DEFAULT_META| == 4
  {
    assert |CLUSTER_NAME| == 11 && |SOURCE| == 6 && |VERSION| == 7 && |PROTOCOL| == 8;
    assert |{CLUSTER_NAME, SOURCE}| == 2 && |{CLUSTER_NAME, SOURCE, VERSION}| == 3;
    assert DEFAULT_META == {CLUSTER_NAME, SOURCE, VERSION} + {PROTOCOL};
  }

  /** Reconciling twice: the second time changes nothing, except that with a heartbeat the instances
      the first one added are marked healthy. From then on nothing changes. */
  lemma ReconcileSettles(reg: Content, reg1: Content, reg2: Content, reg3: Content,
                         spec: map<string, Address>, svc: Annotations, cfg: Config)
    requires IsOutcome(reg, reg1, spec, svc, cfg, true)
    requires IsOutcome(reg1, reg2, spec, svc, cfg, true)
    requires IsOutcome(reg2, reg3, spec, svc, cfg, true)
    ensures !HealthChecked(svc) ==> reg2 == reg1
    ensures reg3 == reg2
  {
    forall k
      ensures Lookup(reg3, k) == Lookup(reg2, k)
      ensures !HealthChecked(svc) ==> Lookup(reg2, k) == Lookup(reg1, k)
    {
      assert Lookup(reg1, k) == Outcome(reg, spec, svc, cfg, true, k);
      assert Lookup(reg2, k) == Outcome(reg1, spec, svc, cfg, true, k);
      assert Lookup(reg3, k) == Outcome(reg2, spec, svc, cfg, true, k);
      Again(reg, reg1, reg2, reg3, spec, svc, cfg, k);
    }
    SameContent(reg3, reg2);
    if !HealthChecked(svc) {
      SameContent(reg2, reg1);
    }
  }

  lemma Again(reg: Content, reg1: Content, reg2: Content, reg3: Content,
              spec: map<string, Address>, svc: Annotations, cfg: Config, k: Key)
    requires Lookup(reg1, k) == Outcome(reg, spec, svc, cfg, true, k)
    requires Lookup(reg2, k) == Outcome(reg1, spec, svc, cfg, true, k)
    requires Lookup(reg3, k) == Outcome(reg2, spec, svc, cfg, true, k)
    ensures Lookup(reg3, k) == Lookup(reg2, k)
    ensures !HealthChecked(svc) ==> Lookup(reg2, k) == Lookup(reg1, k)
  {
    if TextOf(k) in spec && Registers(svc) {
      var a := spec[TextOf(k)];
      ChangeTwice(if k in reg then reg[k] else NewInstance(svc, cfg, a), ChangeTo(svc, cfg, a));
      ChangeNew(svc, cfg, a);
    }
  }

  lemma ChangeTwice(x: Instance, c: Change)
    ensures Changed(Changed(x, c), c) == Changed(x, c)
  {
  }

  lemma ChangeNew(svc: Annotations, cfg: Config, a: Address)
    ensures !HealthChecked(svc) ==> Changed(NewInstance(svc, cfg, a), ChangeTo(svc, cfg, a)) == NewInstance(svc, cfg, a)
  {
  }

  /** A failed query costs nothing but a pass: nothing is changed or removed, only missing endpoints
      are added. */
  lemma UnansweredOnlyAdds(reg: Content, reg': Content, spec: map<string, Address>, svc: Annotations, cfg: Config)
    requires IsOutcome(reg, reg', spec, svc, cfg, false)
    ensures forall k <- reg :: k in reg' && reg'[k] == reg[k]
    ensures forall k <- reg' :: k in reg || (Registers(svc) && TextOf(k) in spec)
  {
    forall k | k in reg ensures k in reg' && reg'[k] == reg[k] {
      assert Lookup(reg', k) == Outcome(reg, spec, svc, cfg, false, k);
    }
    forall k | k in reg' ensures k in reg || (Registers(svc) && TextOf(k) in spec) {
      assert Lookup(reg', k) == Outcome(reg, spec, svc, cfg, false, k);
    }
  }

  // ---- Whole repairs -------------------------------------------------------------------------

  /** The operations a repair asks for. */
  function Asked(svc: Annotations, cfg: Config, r: Repairs): seq<RegOp> {
    GatedAdds(svc, cfg, r.adds) + GatedUpdates(svc, cfg, r.updates) + DeleteOps(r.deletes)
  }

  /** Those that were carried out. */
  function CarriedOut(r: Repairs): seq<RegOp> {
    OpsIn(r.added.trace) + OpsIn(r.updated.trace) + OpsIn(r.deleted.trace)
  }

  /** What a repair does to a registry is what the operations carried out of it do in turn. */
  lemma RepairIs(reg: Content, svc: Annotations, cfg: Config, spec: map<string, Address>, answered: bool, r: Repairs)
    requires cfg.size >= 1 && IsRepair(reg, svc, cfg, spec, answered, r)
    ensures AfterRepair(reg, r) == ApplyOps(reg, CarriedOut(r))
    ensures forall op <- CarriedOut(r) :: IsAskedFor(op, svc, cfg, r.adds, r.deletes, r.updates)
    ensures forall op <- CarriedOut(r) :: op in Asked(svc, cfg, r)
  {
    var a, u, d := OpsIn(r.added.trace), OpsIn(r.updated.trace), OpsIn(r.deleted.trace);
    BatchCarries(reg, r.added, Adding, GatedAdds(svc, cfg, r.adds), cfg.size);
    BatchCarries(Sent(reg, r.added), r.updated, Updating, GatedUpdates(svc, cfg, r.updates), cfg.size);
    BatchCarries(Sent(Sent(reg, r.added), r.updated), r.deleted, Deleting, DeleteOps(r.deletes), cfg.size);
    ApplyOpsConcat(reg, a, u);
    ApplyOpsConcat(reg, a + u, d);
  }

  /** Whatever the server answers, a repair leaves the instances of others as they are. */
  lemma RepairKeepsOthers(reg: Content, svc: Annotations, cfg: Config, subsets: seq<Subset>, answered: bool,
                          r: Repairs, k: Key)
    requires cfg.size >= 1 && IsContent(reg) && ForeignAt(reg, cfg, k)
    requires IsRepair(reg, svc, cfg, Wanted(subsets, svc, cfg), answered, r)
    ensures Lookup(AfterRepair(reg, r), k) == Lookup(reg, k)
  {
    TableLast(Written(subsets, WeightsOf(svc, cfg)));
    RepairIs(reg, svc, cfg, Wanted(subsets, svc, cfg), answered, r);
    OthersUntouched(reg, svc, cfg, Wanted(subsets, svc, cfg), r.instances, r.adds, r.deletes, r.updates,
                    CarriedOut(r), k);
  }

  /** The keys a repair is about: additions are not in the table of its own instances, updates are in it
      and wanted, deletions are in it and not wanted. */
  lemma AskedKeys(svc: Annotations, cfg: Config, spec: map<string, Address>, cur: map<string, Instance>, r: Repairs)
    requires IsDifference(svc, cfg, spec, cur, r.adds, r.deletes, r.updates)
    ensures forall op <- GatedAdds(svc, cfg, r.adds) :: TextOf(op.On()) !in cur
    ensures forall op <- GatedUpdates(svc, cfg, r.updates) :: TextOf(op.On()) in cur && TextOf(op.On()) in spec
    ensures forall op <- DeleteOps(r.deletes) :: TextOf(op.On()) in cur && TextOf(op.On()) !in spec
  {
    forall op | op in GatedAdds(svc, cfg, r.adds) ensures TextOf(op.On()) !in cur {
      var i :| 0 <= i < |r.adds| && op == AddOp(svc, cfg, r.adds[i]);
      assert r.adds[i] in r.adds;
    }
    forall op | op in GatedUpdates(svc, cfg, r.updates) ensures TextOf(op.On()) in cur && TextOf(op.On()) in spec {
      var i :| 0 <= i < |r.updates| && op == UpdateOp(svc, cfg, r.updates[i]);
      assert r.updates[i] in r.updates;
    }
    forall op | op in DeleteOps(r.deletes) ensures TextOf(op.On()) in cur && TextOf(op.On()) !in spec {
      var i :| 0 <= i < |r.deletes| && op == DeleteInstance(KeyOf(r.deletes[i]));
      assert r.deletes[i] in r.deletes;
    }
  }

  lemma DistinctAppend(a: seq<RegOp>, b: seq<RegOp>)
    requires Distinct(a) && Distinct(b) && forall x, y :: x in a && y in b ==> x.On() != y.On()
    ensures Distinct(a + b)
  {
    forall i, j | 0 <= i < j < |a + b| ensures (a + b)[i].On() != (a + b)[j].On() {
      if i < |a| <= j {
        assert a[i] in a && b[j - |a|] in b;
      }
    }
  }

  lemma AskedDistinct(svc: Annotations, cfg: Config, spec: map<string, Address>, cur: map<string, Instance>,
                      r: Repairs)
    requires IsDifference(svc, cfg, spec, cur, r.adds, r.deletes, r.updates)
    ensures Distinct(Asked(svc, cfg, r))
    ensures Distinct(GatedAdds(svc, cfg, r.adds)) && Distinct(GatedUpdates(svc, cfg, r.updates))
    ensures Distinct(DeleteOps(r.deletes))
  {
    DistinctOps(svc, cfg, r.adds);
    DistinctOps(svc, cfg, r.updates);
    AskedKeys(svc, cfg, spec, cur, r);
    DistinctAppend(GatedAdds(svc, cfg, r.adds), GatedUpdates(svc, cfg, r.updates));
    DistinctAppend(GatedAdds(svc, cfg, r.adds) + GatedUpdates(svc, cfg, r.updates), DeleteOps(r.deletes));
  }

  /** Carrying out all that a repair asks for has the pointwise outcome, and nothing else has it. */
  lemma OutcomeIsAsked(reg: Content, reg': Content, spec: map<string, Address>, svc: Annotations, cfg: Config,
                       answered: bool, r: Repairs)
    requires cfg.size >= 1 && IsContent(reg) && WellKeyed(spec) && IsRepair(reg, svc, cfg, spec, answered, r)
    ensures IsOutcome(reg, reg', spec, svc, cfg, answered) <==> reg' == ApplyOps(reg, Asked(svc, cfg, r))
  {
    var adds, updates := GatedAdds(svc, cfg, r.adds), GatedUpdates(svc, cfg, r.updates);
    DifferenceApplied(reg, svc, cfg, spec, r.instances, answered, r.adds, r.deletes, r.updates);
    ApplyOpsConcat(reg, adds, updates);
    ApplyOpsConcat(reg, adds + updates, DeleteOps(r.deletes));
    if IsOutcome(reg, reg', spec, svc, cfg, answered) {
      SameContent(reg', ApplyOps(reg, Asked(svc, cfg, r)));
    }
  }

  /** A reconcile whose three batches are split into pages and sent concurrently has the outcome of one
      that makes its calls one by one exactly if every operation was carried out or had nothing to do,
      however each batch is split and its pages interleave. */
  lemma PagedReconcile(reg: Content, spec: map<string, Address>, svc: Annotations, cfg: Config, answered: bool,
                       r: Repairs)
    requires cfg.size >= 1 && IsContent(reg) && WellKeyed(spec) && IsRepair(reg, svc, cfg, spec, answered, r)
    ensures IsOutcome(reg, AfterRepair(reg, r), spec, svc, cfg, answered) <==>
            forall op <- Asked(svc, cfg, r) :: op in CarriedOut(r) || NothingToDo(reg, op)
  {
    AskedDistinct(svc, cfg, spec, Managed(r.instances, cfg.cluster), r);
    RepairIs(reg, svc, cfg, spec, answered, r);
    OutcomeIsAsked(reg, AfterRepair(reg, r), spec, svc, cfg, answered, r);
    LeavingOut(reg, Asked(svc, cfg, r), CarriedOut(r));
  }

  // ---- What the replies say ------------------------------------------------------------------

  /** An operation of a batch is about a key that the earlier batches leave alone. */
  lemma SameBefore(reg: Content, done: seq<RegOp>, op: RegOp)
    requires forall o <- done :: o.On() != op.On()
    ensures NothingToDo(ApplyOps(reg, done), op) <==> NothingToDo(reg, op)
  {
    Untouched(reg, done, op.On());
  }

  /** All three batches start from the registry of the repair, as far as their keys go. */
  lemma TruthfulAtStart(reg: Content, svc: Annotations, cfg: Config, spec: map<string, Address>, answered: bool,
                        r: Repairs)
    requires cfg.size >= 1 && IsRepair(reg, svc, cfg, spec, answered, r)
    ensures IsTruthful(reg, r.updated, Updating) && IsTruthful(reg, r.deleted, Deleting)
  {
    AskedKeys(svc, cfg, spec, Managed(r.instances, cfg.cluster), r);
    BatchCarries(reg, r.added, Adding, GatedAdds(svc, cfg, r.adds), cfg.size);
    forall i, op | 0 <= i < |r.updated.pages| && op in r.updated.pages[i]
      ensures NothingToDo(Sent(reg, r.added), op) <==> NothingToDo(reg, op)
    {
      InConcat(r.updated.pages, op);
      SameBefore(reg, OpsIn(r.added.trace), op);
    }
    TruthfulElsewhere(Sent(reg, r.added), reg, r.updated, Updating);
    DeletionTruthful(reg, r.deleted);
  }

  lemma TruthfulElsewhere(reg: Content, reg': Content, b: Batch, kind: Kind)
    requires IsTruthful(reg, b, kind)
    requires forall i, op :: 0 <= i < |b.pages| && op in b.pages[i] ==>
               (NothingToDo(reg, op) <==> NothingToDo(reg', op))
    ensures IsTruthful(reg', b, kind)
  {
  }

  /** Every deletion asked for has something to delete. */
  lemma DeletionsMatter(reg: Content, svc: Annotations, cfg: Config, spec: map<string, Address>, answered: bool,
                        r: Repairs, op: RegOp)
    requires cfg.size >= 1 && IsContent(reg) && IsRepair(reg, svc, cfg, spec, answered, r) && op in DeleteOps(r.deletes)
    ensures !NothingToDo(reg, op)
  {
    AskedKeys(svc, cfg, spec, Managed(r.instances, cfg.cluster), r);
    ManagedIsMine(r.instances, reg, cfg, op.On());
    var i :| 0 <= i < |r.deletes| && op == DeleteInstance(KeyOf(r.deletes[i]));
  }

  /** Of an operation that only one of the three batches asks for, that batch decides. */
  lemma BatchesApart(reg: Content, svc: Annotations, cfg: Config, spec: map<string, Address>, answered: bool,
                     r: Repairs)
    requires cfg.size >= 1 && IsRepair(reg, svc, cfg, spec, answered, r)
    ensures forall op <- GatedAdds(svc, cfg, r.adds) :: op in CarriedOut(r) <==> op in OpsIn(r.added.trace)
    ensures forall op <- GatedUpdates(svc, cfg, r.updates) :: op in CarriedOut(r) <==> op in OpsIn(r.updated.trace)
    ensures forall op <- DeleteOps(r.deletes) :: op in CarriedOut(r) <==> op in OpsIn(r.deleted.trace)
  {
    AskedKeys(svc, cfg, spec, Managed(r.instances, cfg.cluster), r);
    BatchCarries(reg, r.added, Adding, GatedAdds(svc, cfg, r.adds), cfg.size);
    BatchCarries(reg, r.updated, Updating, GatedUpdates(svc, cfg, r.updates), cfg.size);
    BatchCarries(reg, r.deleted, Deleting, DeleteOps(r.deletes), cfg.size);
  }

  lemma DeletionsGranted(reg: Content, svc: Annotations, cfg: Config, spec: map<string, Address>, answered: bool,
                         r: Repairs)
    requires cfg.size >= 1 && IsContent(reg) && IsRepair(reg, svc, cfg, spec, answered, r)
    ensures WithholdsNothing(reg, r.deleted, Deleting) <==> AllGranted(r.deleted, Deleting)
  {
    forall i, j | 0 <= i < |r.deleted.pages| && 0 <= j < |r.deleted.pages[i]|
      ensures !NothingToDo(reg, r.deleted.pages[i][j])
    {
      InConcat(r.deleted.pages, r.deleted.pages[i][j]);
      DeletionsMatter(reg, svc, cfg, spec, answered, r, r.deleted.pages[i][j]);
    }
  }

  lemma AskedDone(reg: Content, svc: Annotations, cfg: Config, spec: map<string, Address>, answered: bool, r: Repairs)
    requires cfg.size >= 1 && IsRepair(reg, svc, cfg, spec, answered, r)
    ensures (forall op <- Asked(svc, cfg, r) :: op in CarriedOut(r) || NothingToDo(reg, op)) <==>
            && (forall op <- GatedAdds(svc, cfg, r.adds) :: op in OpsIn(r.added.trace) || NothingToDo(reg, op))
            && (forall op <- GatedUpdates(svc, cfg, r.updates) :: op in OpsIn(r.updated.trace) || NothingToDo(reg, op))
            && (forall op <- DeleteOps(r.deletes) :: op in OpsIn(r.deleted.trace) || NothingToDo(reg, op))
  {
    BatchesApart(reg, svc, cfg, spec, answered, r);
    assert forall op :: op in Asked(svc, cfg, r) <==>
             op in GatedAdds(svc, cfg, r.adds) || op in GatedUpdates(svc, cfg, r.updates) || op in DeleteOps(r.deletes);
  }

  /** If every reply tells what became of its page, the reconcile has its outcome exactly if the replies
      withhold no deletion, no addition of an absent key and no update that would change something. */
  lemma RepliedReconcile(reg: Content, spec: map<string, Address>, svc: Annotations, cfg: Config, answered: bool,
                         r: Repairs)
    requires cfg.size >= 1 && IsContent(reg) && WellKeyed(spec) && IsRepair(reg, svc, cfg, spec, answered, r)
    requires AllTell(r.added, Adding) && AllTell(r.updated, Updating) && AllTell(r.deleted, Deleting)
    ensures IsOutcome(reg, AfterRepair(reg, r), spec, svc, cfg, answered) <==>
            && WithholdsNothing(reg, r.added, Adding) && WithholdsNothing(reg, r.updated, Updating)
            && AllGranted(r.deleted, Deleting)
  {
    DeletionsGranted(reg, svc, cfg, spec, answered, r);
    AskedDistinct(svc, cfg, spec, Managed(r.instances, cfg.cluster), r);
    TruthfulAtStart(reg, svc, cfg, spec, answered, r);
    RepliesDecide(reg, r.added, Adding, GatedAdds(svc, cfg, r.adds), cfg.size);
    RepliesDecide(reg, r.updated, Updating, GatedUpdates(svc, cfg, r.updates), cfg.size);
    RepliesDecide(reg, r.deleted, Deleting, DeleteOps(r.deletes), cfg.size);
    AskedDone(reg, svc, cfg, spec, answered, r);
    PagedReconcile(reg, spec, svc, cfg, answered, r);
  }
  lemma ExistingBatch(reg: Content, x: Instance, status: nat, code: nat, size: nat) returns (b: Batch)
    requires size >= 1 && KeyOf(x) in reg && code != SUCCESS && code != UNAUTHORIZED
    ensures IsBatch(b, Adding, [AddInstance(x)], size) && b.replies == [Replied(status, code, [EXISTS])]
    ensures !Fails(b) && IsTruthful(reg, b, Adding) && Fulfils(Adding, b.replies[0]) && Sent(reg, b) == reg
  {
    var op, reply := AddInstance(x), Replied(status, code, [EXISTS]);
    b := OneBatch(op, false, reply);
    ExistingReply(op, status, code);
    OneBatchIs(reg, Adding, op, false, reply, size);
    ExistingTruthful(reg, x, reply);
    assert b.pages[0] == [op];
  }

  lemma ExistingReply(op: RegOp, status: nat, code: nat)
    requires code != SUCCESS && code != UNAUTHORIZED
    ensures var reply := Replied(status, code, [EXISTS]);
            && Carried(Adding, [op], PageOutcome(reply, [])) && Recorded(Adding, reply) == [] && Fulfils(Adding, reply)
  {
    assert [op][..0] == [] && [EXISTS][..0] == [];
    assert Succeeded([op][..0], [EXISTS][..0]) == [] && Rejected(Adding, [EXISTS][..0]) == [];
  }

  lemma ExistingTruthful(reg: Content, x: Instance, reply: Reply)
    requires KeyOf(x) in reg
    ensures Truthful(reg, Adding, [AddInstance(x)], reply)
  {
    AddsNothingIff(reg, x);
  }

  /** An addition whose key somebody holds is reported as existing, and that fulfils its page: the reply to
      every reconcile that meets a foreign instance at an endpoint. */
  lemma ExistingReported(reg: Content, svc: Annotations, cfg: Config, a: Address, status: nat, code: nat)
    returns (b: Batch)
    requires cfg.size >= 1 && Key(a.ip, a.port) in reg && code != SUCCESS && code != UNAUTHORIZED
    ensures IsBatch(b, Adding, AddOps(svc, cfg, [a]), cfg.size) && b.replies == [Replied(status, code, [EXISTS])]
    ensures !Fails(b) && IsTruthful(reg, b, Adding) && Fulfils(Adding, b.replies[0]) && Sent(reg, b) == reg
  {
    var op := AddOp(svc, cfg, a);
    b := ExistingBatch(reg, op.instance, status, code, cfg.size);
    assert AddOps(svc, cfg, [a]) == [op];
  }

  /** From any registry, foreign instances at endpoints included: after an answered reconcile whose replies
      report every operation as successful, existing or unchanged, and that keeps the marks, exactly the
      endpoints not held by others are managed, and the next comparison asks for nothing but to add what
      others hold and to update. */
  lemma ReconcileConverges(reg: Content, spec: map<string, Address>, svc: Annotations, cfg: Config, r: Repairs,
                           next: seq<Instance>, adds: seq<Address>, deletes: seq<Instance>, updates: seq<Address>)
    requires cfg.size >= 1 && IsContent(reg) && WellKeyed(spec) && Registers(svc)
    requires IsRepair(reg, svc, cfg, spec, true, r)
    requires AllFulfil(r.added, Adding) && AllFulfil(r.updated, Updating) && AllFulfil(r.deleted, Deleting)
    requires forall k :: WritesAt(reg, spec, svc, cfg, k) ==> KeepsMarks(svc, cfg, spec[TextOf(k)])
    requires Shows(true, next, AfterRepair(reg, r))
    requires IsDifference(svc, cfg, spec, Managed(next, cfg.cluster), adds, deletes, updates)
    ensures forall k :: ManagedAt(AfterRepair(reg, r), cfg, k) <==> TextOf(k) in spec && !ForeignAt(reg, cfg, k)
    ensures deletes == [] && forall a :: a in adds <==> Wants(spec, a) && ForeignAt(reg, cfg, Key(a.ip, a.port))
  {
    FulfilledOutcome(reg, spec, svc, cfg, true, r);
    RepairIs(reg, svc, cfg, spec, true, r);
    ApplyOpsKeeps(reg, CarriedOut(r));
    ManagedBecomeEndpoints(reg, AfterRepair(reg, r), spec, svc, cfg);
    NextComparison(reg, AfterRepair(reg, r), spec, svc, cfg, next, adds, deletes, updates);
  }

  lemma FulfilledOutcome(reg: Content, spec: map<string, Address>, svc: Annotations, cfg: Config, answered: bool,
                         r: Repairs)
    requires cfg.size >= 1 && IsContent(reg) && WellKeyed(spec) && IsRepair(reg, svc, cfg, spec, answered, r)
    requires AllFulfil(r.added, Adding) && AllFulfil(r.updated, Updating) && AllFulfil(r.deleted, Deleting)
    ensures IsOutcome(reg, AfterRepair(reg, r), spec, svc, cfg, answered)
  {
    FulfilledTells(reg, r.added, Adding);
    FulfilledTells(reg, r.updated, Updating);
    FulfilledTells(reg, r.deleted, Deleting);
    RepliedReconcile(reg, spec, svc, cfg, answered, r);
  }
}
