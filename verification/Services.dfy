/** The service objects of the cluster and the decisions the controller takes on them. */
module Services {
  import opened Wrappers
  import opened Text
  import opened Instances
  import opened Reconcile

  /** `valid` stands for a service that has ports and a selector and is in no ignored namespace. */
  datatype Service = Service(ns: string, name: string, annotations: Annotations, valid: bool)

  /** Whether the service's namespace is known and, if so, asks for synchronisation. */
  type NamespaceSync = Option<bool>

  /** IsNamespaceSyncEnable; `demand` is the synchronisation mode. */
  predicate NamespaceEnables(annotations: Annotations, demand: bool) {
    if SYNC in annotations then annotations[SYNC] == "true" else !demand
  }

  /** The annotations of the known namespaces, and the synchronisation mode. */
  datatype Namespaces = Namespaces(annotations: map<string, Annotations>, demand: bool)

  function SyncFor(svc: Service, nss: Namespaces): NamespaceSync {
    if svc.ns in nss.annotations then Some(NamespaceEnables(nss.annotations[svc.ns], nss.demand)) else None
  }

  /** IsPolarisService: the service's own annotation decides, then its namespace's. */
  predicate IsPolarisService(svc: Service, ns: NamespaceSync) {
    svc.valid && if SYNC in svc.annotations then svc.annotations[SYNC] == "true" else ns == Some(true)
  }

  datatype Change = NotPolaris | RegisterChanged | Other

  /** CompareServiceChange. The kinds that all lead to an instance synchronisation are one here. */
  function CompareServiceChange(was: Service, cur: Service, ns: NamespaceSync): Change {
    if !IsPolarisService(cur, ns) then NotPolaris
    else if Meta(was.annotations, TTL) != Meta(cur.annotations, TTL)
         || Meta(was.annotations, CUSTOM_WEIGHT) != Meta(cur.annotations, CUSTOM_WEIGHT)
         || Meta(was.annotations, METADATA) != Meta(cur.annotations, METADATA)
         || Meta(was.annotations, WEIGHT) != Meta(cur.annotations, WEIGHT) then Other
    else if Meta(was.annotations, ENABLE_REGISTER) != Meta(cur.annotations, ENABLE_REGISTER) then RegisterChanged
    else Other
  }

  // ---- Task keys -----------------------------------------------------------------------------

  datatype Name = Name(ns: string, name: string)

  /** Kubernetes names are DNS labels, so they hold no '|'. */
  predicate PipeFree(n: Name) {
    '|' !in n.ns && '|' !in n.name
  }

  function NameOf(svc: Service): Name {
    Name(svc.ns, svc.name)
  }

  /** Task.Key of a service task, whose object type prints as 2. */
  function TaskKey(n: Name): string {
    n.ns + "|" + n.name + "|" + "2"
  }

  function Pipes(s: string): nat {
    if s == "" then 0 else Pipes(s[..|s| - 1]) + (if s[|s| - 1] == '|' then 1 else 0)
  }

  lemma {:induction false} PipesConcat(a: string, b: string)
    ensures Pipes(a + b) == Pipes(a) + Pipes(b)
  {
    if b == "" {
      assert a + b == a;
    } else {
      assert (a + b)[..|a + b| - 1] == a + b[..|b| - 1];
      PipesConcat(a, b[..|b| - 1]);
    }
  }

  lemma {:induction false} NoPipes(s: string)
    requires '|' !in s
    ensures Pipes(s) == 0
  {
    if s != "" {
      NoPipes(s[..|s| - 1]);
    }
  }

  lemma PipesJoined(a: string, b: string)
    ensures Pipes(a + "|" + b) == Pipes(a) + 1 + Pipes(b)
  {
    PipesConcat(a, "|");
    PipesConcat(a + "|", b);
    assert (a + "|")[..|a|] == a;
  }

  lemma KeyPipes(n: Name)
    requires PipeFree(n)
    ensures Pipes(TaskKey(n)) == 2
  {
    NoPipes(n.ns);
    NoPipes(n.name);
    PipesJoined(n.ns, n.name);
    PipesJoined(n.ns + "|" + n.name, "2");
    NoPipes("2");
  }

  /** The text before and after the first '|'. */
  lemma SplitAtPipe(a: string, x: string, b: string, y: string)
    requires '|' !in a && '|' !in b && a + "|" + x == b + "|" + y
    ensures a == b && x == y
  {
    var s := a + "|" + x;
    assert s == b + "|" + y;
    assert s[|a|] == '|' && s[|b|] == '|';
    assert forall i :: 0 <= i < |a| ==> s[i] == a[i] != '|';
    assert forall i :: 0 <= i < |b| ==> s[i] == b[i] != '|';
    assert |a| == |b|;
    assert s[..|a|] == a && s[..|b|] == b;
    assert s[|a| + 1..] == x && s[|b| + 1..] == y;
  }

  lemma TaskKeyInjective(m: Name, n: Name)
    requires PipeFree(m) && PipeFree(n) && TaskKey(m) == TaskKey(n)
    ensures m == n
  {
    assert TaskKey(m) == m.ns + "|" + (m.name + "|" + "2");
    assert TaskKey(n) == n.ns + "|" + (n.name + "|" + "2");
    SplitAtPipe(m.ns, m.name + "|" + "2", n.ns, n.name + "|" + "2");
    SplitAtPipe(m.name, "2", n.name, "2");
  }
}
