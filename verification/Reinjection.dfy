/** Injecting again into a pod that already carries a sidecar: the status annotation written by
    addInjectStatusAnnotation (pod.go) and read back by injectionStatus (webhook.go). */
module Reinjection {
  import opened Wrappers
  import opened Text
  import opened JsonPatch
  import opened PodDocument
  import opened BasePatch
  import opened AnnotationPatch
  import opened Webhook

  const STATUS := "sidecar.polarismesh.cn/status"

  /** JSON encoding of the status. Only its round trip is used. */
  datatype Codec = Codec(encode: Status -> string, decode: string -> Option<Status>)

  ghost predicate RoundTrips(c: Codec) {
    forall s: Status :: c.encode(s) != "" && c.decode(c.encode(s)) == Some(s)
  }

  const LEGACY := Status("", ["istio-init", "enable-core-dump"], [PROXY_CONTAINER],
                         ["polaris-certs", "polaris-envoy"], [])

  /** injectionStatus: the recorded status if it names anything, else the legacy names. */
  function InjectionStatus(pod: Pod, c: Codec): Status {
    if pod.annotations.None? || STATUS !in pod.annotations.value then LEGACY
    else
      var s := c.decode(pod.annotations.value[STATUS]);
      if s.Some? && NamesAnything(s.value) then s.value else LEGACY
  }

  predicate NamesAnything(s: Status) {
    s.initContainers != [] || s.containers != [] || s.volumes != [] || s.imagePullSecrets != []
  }

  function NamesOf(items: seq<Item>): (names: seq<string>)
    ensures |names| == |items|
    ensures forall i :: 0 <= i < |items| ==> names[i] == items[i].name
  {
    seq(|items|, i requires 0 <= i < |items| => items[i].name)
  }

  function StatusOf(sic: Template, version: string): Status {
    Status(version, NamesOf(sic.initContainers), NamesOf(sic.containers), NamesOf(sic.volumes),
           NamesOf(sic.imagePullSecrets))
  }

  /** One of the four loops of addInjectStatusAnnotation. */
  method CollectNames(items: seq<Item>) returns (names: seq<string>)
    ensures names == NamesOf(items)
  {
    names := [];
    for i := 0 to |items|
      invariant names == NamesOf(items[..i])
    {
      names := names + [items[i].name];
    }
    assert items[..|items|] == items;
  }

  /** addInjectStatusAnnotation: the annotations to inject, with the status among them. */
  method AddInjectStatusAnnotation(sic: Template, version: string, injected: map<string, string>, c: Codec)
    returns (r: map<string, string>)
    ensures r == if c.encode(StatusOf(sic, version)) == "" then injected
                 else injected[STATUS := c.encode(StatusOf(sic, version))]
  {
    var initContainers := CollectNames(sic.initContainers);
    var containers := CollectNames(sic.containers);
    var volumes := CollectNames(sic.volumes);
    var imagePullSecrets := CollectNames(sic.imagePullSecrets);
    var value := c.encode(Status(version, initContainers, containers, volumes, imagePullSecrets));
    r := if |value| != 0 then injected[STATUS := value] else injected;
  }

  /** One whole injection; `extra` is whatever else this admission adds to the annotations. */
  function Inject(pod: Pod, sic: Template, version: string, extra: map<string, string>, c: Codec): Pod {
    InjectedPod(pod, InjectionStatus(pod, c), sic, extra[STATUS := c.encode(StatusOf(sic, version))])
  }

  predicate InjectsAnything(sic: Template) {
    exists l: ListName :: sic.Of(l) != []
  }

  /** The next injection reads back exactly the names this one injected. */
  lemma StatusReadBack(pod: Pod, sic: Template, version: string, extra: map<string, string>, c: Codec)
    requires RoundTrips(c) && InjectsAnything(sic)
    ensures InjectionStatus(Inject(pod, sic, version, extra, c), c) == StatusOf(sic, version)
    ensures forall l: ListName :: StatusOf(sic, version).Of(l) == Names(sic.Of(l))
  {
    var s := StatusOf(sic, version);
    var added := extra[STATUS := c.encode(s)];
    assert c.encode(s) != "";
    assert STATUS in NonEmpty(added);
    var l: ListName :| sic.Of(l) != [];
    assert NamesAnything(s);
    forall l: ListName ensures s.Of(l) == Names(sic.Of(l)) {
      NamesAgree(sic.Of(l));
    }
  }

  lemma NamesAgree(items: seq<Item>)
    ensures (set n | n in NamesOf(items)) == Names(items)
  {
    forall n | n in Names(items) ensures n in NamesOf(items) {
      var i :| 0 <= i < |items| && items[i].name == n;
      assert NamesOf(items)[i] == n;
    }
  }

  // ---- Keeping and counting ------------------------------------------------------------------

  lemma {:induction false} KeepConcat(a: seq<Item>, b: seq<Item>, names: set<string>)
    ensures Keep(a + b, names) == Keep(a, names) + Keep(b, names)
  {
    if b == [] {
      assert a + b == a;
    } else {
      var n := |b| - 1;
      assert (a + b)[..|a + b| - 1] == a + b[..n];
      KeepConcat(a, b[..n], names);
    }
  }

  predicate Clear(items: seq<Item>, names: set<string>) {
    forall x <- items :: x.name !in names
  }

  lemma {:induction false} KeepLength(items: seq<Item>, names: set<string>)
    ensures |Keep(items, names)| <= |items|
    ensures |Keep(items, names)| == |items| <==> Clear(items, names)
    ensures Clear(items, names) ==> Keep(items, names) == items
    ensures Clear(Keep(items, names), names)
    ensures forall x <- Keep(items, names) :: x in items
  {
    if items != [] {
      var n := |items| - 1;
      assert items == items[..n] + [items[n]];
      KeepLength(items[..n], names);
    }
  }

  lemma {:induction false} KeepNothing(items: seq<Item>, names: set<string>)
    requires forall x <- items :: x.name in names
    ensures Keep(items, names) == []
  {
    if items != [] {
      KeepNothing(items[..|items| - 1], names);
    }
  }

  /** Injecting again first takes out exactly what the first injection put in, and any kept item that
      happens to bear an injected name. */
  lemma SecondInjection(pod: Pod, sic: Template, v1: string, v2: string,
                        extra1: map<string, string>, extra2: map<string, string>, c: Codec, l: ListName)
    requires RoundTrips(c) && InjectsAnything(sic)
    ensures var once := Inject(pod, sic, v1, extra1, c);
            && once.Of(l) == Keep(pod.Of(l), InjectionStatus(pod, c).Of(l)) + sic.For(l, pod)
            && Inject(once, sic, v2, extra2, c).Of(l) ==
                 Keep(Keep(pod.Of(l), InjectionStatus(pod, c).Of(l)), Names(sic.Of(l))) + sic.For(l, once)
  {
    var kept := Keep(pod.Of(l), InjectionStatus(pod, c).Of(l));
    StatusReadBack(pod, sic, v1, extra1, c);
    KeepInjected(kept, sic, pod, l);
  }

  lemma KeepInjected(kept: seq<Item>, sic: Template, pod: Pod, l: ListName)
    ensures Keep(kept + sic.For(l, pod), Names(sic.Of(l))) == Keep(kept, Names(sic.Of(l)))
  {
    KeepConcat(kept, sic.For(l, pod), Names(sic.Of(l)));
    forall x | x in sic.For(l, pod) ensures x.name in Names(sic.Of(l)) {
      var i :| 0 <= i < |sic.For(l, pod)| && sic.For(l, pod)[i] == x;
      assert sic.Of(l)[i].name == x.name;
    }
    KeepNothing(sic.For(l, pod), Names(sic.Of(l)));
  }

  /** Two injections leave the same names in the same order as one exactly when no item the first
      injection kept bears an injected name. */
  lemma ReinjectionKeepsNames(pod: Pod, sic: Template, v1: string, v2: string,
                              extra1: map<string, string>, extra2: map<string, string>, c: Codec, l: ListName)
    requires RoundTrips(c) && InjectsAnything(sic)
    ensures var once := Inject(pod, sic, v1, extra1, c);
            var twice := Inject(once, sic, v2, extra2, c);
            NamesOf(twice.Of(l)) == NamesOf(once.Of(l)) <==>
            Clear(Keep(pod.Of(l), InjectionStatus(pod, c).Of(l)), Names(sic.Of(l)))
  {
    var once := Inject(pod, sic, v1, extra1, c);
    var twice := Inject(once, sic, v2, extra2, c);
    var kept := Keep(pod.Of(l), InjectionStatus(pod, c).Of(l));
    SecondInjection(pod, sic, v1, v2, extra1, extra2, c, l);
    KeepLength(kept, Names(sic.Of(l)));
    SameNames(kept, Keep(kept, Names(sic.Of(l))), sic.For(l, pod), sic.For(l, once));
  }

  /** Lists with equally named tails have the same names exactly if their heads are equally long, when
      one head is the other with items taken out. */
  lemma SameNames(a: seq<Item>, b: seq<Item>, x: seq<Item>, y: seq<Item>)
    requires |b| <= |a| && (|b| == |a| ==> a == b)
    requires |x| == |y| && forall i :: 0 <= i < |x| ==> x[i].name == y[i].name
    ensures NamesOf(b + y) == NamesOf(a + x) <==> |b| == |a|
  {
    assert |NamesOf(b + y)| == |b| + |y| && |NamesOf(a + x)| == |a| + |x|;
    if |b| == |a| {
      forall i | 0 <= i < |a + x| ensures (b + y)[i].name == (a + x)[i].name {
      }
    }
  }

  // ---- The proxy's service account mount -----------------------------------------------------

  predicate IsProxy(x: Item) {
    x.Container? && x.name == PROXY_CONTAINER
  }

  predicate HasProxy(items: seq<Item>) {
    exists x <- items :: IsProxy(x)
  }

  /** Only the two container lists hand the proxy a mount. */
  predicate MountMatters(l: ListName, sic: Template) {
    (l.InitContainers? || l.Containers?) && HasProxy(sic.Of(l))
  }

  lemma GiveMountsDecides(items: seq<Item>, a: Option<Mount>, b: Option<Mount>)
    ensures GiveMounts(items, a) == GiveMounts(items, b) <==> a == b || !HasProxy(items)
  {
    if HasProxy(items) && a != b {
      var x :| x in items && IsProxy(x);
      var i :| 0 <= i < |items| && items[i] == x;
      var p, q := GiveMounts(items, a)[i], GiveMounts(items, b)[i];
      if a.Some? && b.Some? {
        assert p.mounts[|x.mounts|] == a.value && q.mounts[|x.mounts|] == b.value;
      } else if a.Some? {
        assert |p.mounts| == |q.mounts| + 1;
      } else {
        assert |q.mounts| == |p.mounts| + 1;
      }
    }
    if !HasProxy(items) {
      assert forall i :: 0 <= i < |items| ==> items[i] in items && !IsProxy(items[i]);
      assert GiveMounts(items, a) == items == GiveMounts(items, b);
    }
  }

  /** The condition on mounts can fail: a proxy that brings a service account mount of its own gets the
      same mount a second time when it is injected again. */
  lemma ProxyMountDoubles(c: Codec)
    requires RoundTrips(c)
    ensures var token := Mount("token", SERVICE_ACCOUNT_PATH, "");
            var sic := Template([], [Container(PROXY_CONTAINER, [], [token], "")], [], [], None);
            var pod := Pod([], [], [], [], None, None, None);
            var once := Inject(pod, sic, "", map[], c);
            && MountsOf(once.containers[0]) == [token]
            && MountsOf(Inject(once, sic, "", map[], c).containers[0]) == [token, token]
  {
    var token := Mount("token", SERVICE_ACCOUNT_PATH, "");
    var proxy := Container(PROXY_CONTAINER, [], [token], "");
    var sic := Template([], [proxy], [], [], None);
    var pod := Pod([], [], [], [], None, None, None);
    var once := Inject(pod, sic, "", map[], c);
    assert sic.Of(Containers) != [];
    SecondInjection(pod, sic, "", "", map[], map[], c, Containers);
    assert once.containers == [proxy];
    assert ServiceAccountMount([proxy]) == Some(token) by {
      assert [proxy][..0] == [];
      assert LastMount([token], None) == Some(token);
    }
  }

  // ---- Injection settles ---------------------------------------------------------------------

  lemma {:induction false} LastMountBefore(mounts: seq<Mount>, b: Option<Mount>)
    ensures LastMount(mounts, b) == if LastMount(mounts, None).Some? then LastMount(mounts, None) else b
  {
    if mounts != [] {
      LastMountBefore(mounts[..|mounts| - 1], b);
    }
  }

  lemma {:induction false} LastMountOfBefore(items: seq<Item>, b: Option<Mount>)
    ensures LastMountOf(items, b) == if LastMountOf(items, None).Some? then LastMountOf(items, None) else b
  {
    if items != [] {
      var n := |items| - 1;
      LastMountOfBefore(items[..n], b);
      LastMountBefore(MountsOf(items[n]), LastMountOf(items[..n], b));
      LastMountBefore(MountsOf(items[n]), LastMountOf(items[..n], None));
    }
  }

  lemma {:induction false} LastMountOfConcat(a: seq<Item>, b: seq<Item>)
    ensures LastMountOf(a + b, None) == LastMountOf(b, LastMountOf(a, None))
  {
    if b == [] {
      assert a + b == a;
    } else {
      assert (a + b)[..|a + b| - 1] == a + b[..|b| - 1];
      LastMountOfConcat(a, b[..|b| - 1]);
    }
  }

  /** The containers after the last proxy: the only ones whose mounts can hide the proxy's. */
  function AfterProxy(items: seq<Item>): seq<Item> {
    if items == [] || IsProxy(items[|items| - 1]) then []
    else AfterProxy(items[..|items| - 1]) + [items[|items| - 1]]
  }

  /** What the scan finds last among the injected containers when the proxies were handed `m`. */
  lemma {:induction false} LastInjectedMount(items: seq<Item>, m: Mount, b: Option<Mount>)
    requires HasProxy(items) && m.mountPath == SERVICE_ACCOUNT_PATH
    ensures LastMountOf(GiveMounts(items, Some(m)), b) == LastMountOf(AfterProxy(items), Some(m))
  {
    var n := |items| - 1;
    var given := GiveMounts(items, Some(m));
    assert given[..n] == GiveMounts(items[..n], Some(m));
    if IsProxy(items[n]) {
      assert MountsOf(given[n])[..|MountsOf(items[n])|] == MountsOf(items[n]);
    } else {
      assert items == items[..n] + [items[n]];
      LastInjectedMount(items[..n], m, b);
      assert AfterProxy(items)[..|AfterProxy(items)| - 1] == AfterProxy(items[..n]);
    }
  }

  /** Whatever comes before the last proxy, what stands after it is seen last. */
  lemma {:induction false} LastAfterProxy(items: seq<Item>, m: Option<Mount>, b: Option<Mount>)
    requires LastMountOf(AfterProxy(items), None).Some?
    ensures LastMountOf(GiveMounts(items, m), b) == LastMountOf(AfterProxy(items), None)
  {
    var n := |items| - 1;
    var given := GiveMounts(items, m);
    assert given[..n] == GiveMounts(items[..n], m);
    assert AfterProxy(items)[..|AfterProxy(items)| - 1] == AfterProxy(items[..n]);
    LastMountBefore(MountsOf(items[n]), LastMountOf(AfterProxy(items[..n]), None));
    LastMountBefore(MountsOf(items[n]), LastMountOf(given[..n], b));
    if LastMount(MountsOf(items[n]), None).None? {
      LastAfterProxy(items[..n], m, b);
    }
  }

  /** The proxy is handed the same mount again: nothing injected after the last proxy hides a mount found
      among the pod's own items, or nothing kept or injected shows one when none was found. */
  predicate MountStays(items: seq<Item>, kept: seq<Item>, injected: seq<Item>) {
    var m := ServiceAccountMount(items);
    if m.Some? then LastMountOf(AfterProxy(injected), None) in {None, m}
    else ServiceAccountMount(kept + injected) == None
  }

  lemma MountStaysIff(items: seq<Item>, kept: seq<Item>, injected: seq<Item>)
    requires HasProxy(injected)
    ensures var m := ServiceAccountMount(items);
            ServiceAccountMount(kept + GiveMounts(injected, m)) == m <==> MountStays(items, kept, injected)
  {
    var m := ServiceAccountMount(items);
    if m.Some? {
      FoundAtPath(items);
      LastMountOfConcat(kept, GiveMounts(injected, m));
      LastInjectedMount(injected, m.value, LastMountOf(kept, None));
      LastMountOfBefore(AfterProxy(injected), m);
    } else {
      assert GiveMounts(injected, m) == injected;
    }
  }

  /** Two injections leave the very same list as one exactly when, besides, every proxy in the template
      is handed the same mount both times, which the pod and the template decide. */
  lemma ReinjectionKeepsList(pod: Pod, sic: Template, v1: string, v2: string,
                             extra1: map<string, string>, extra2: map<string, string>, c: Codec, l: ListName)
    requires RoundTrips(c) && InjectsAnything(sic)
    ensures var once := Inject(pod, sic, v1, extra1, c);
            var twice := Inject(once, sic, v2, extra2, c);
            var kept := Keep(pod.Of(l), InjectionStatus(pod, c).Of(l));
            twice.Of(l) == once.Of(l) <==>
            Clear(kept, Names(sic.Of(l))) && (MountMatters(l, sic) ==> MountStays(pod.Of(l), kept, sic.Of(l)))
  {
    var once := Inject(pod, sic, v1, extra1, c);
    var twice := Inject(once, sic, v2, extra2, c);
    var kept := Keep(pod.Of(l), InjectionStatus(pod, c).Of(l));
    SecondInjection(pod, sic, v1, v2, extra1, extra2, c, l);
    ReinjectionKeepsNames(pod, sic, v1, v2, extra1, extra2, c, l);
    if Clear(kept, Names(sic.Of(l))) {
      KeepLength(kept, Names(sic.Of(l)));
      GiveMountsDecides(sic.Of(l), ServiceAccountMount(once.Of(l)), ServiceAccountMount(pod.Of(l)));
      assert once.Of(l)[|kept|..] == sic.For(l, pod) && twice.Of(l)[|kept|..] == sic.For(l, once);
      if MountMatters(l, sic) {
        MountStaysIff(pod.Of(l), kept, sic.Of(l));
      }
    } else {
      assert NamesOf(twice.Of(l)) != NamesOf(once.Of(l));
    }
  }

  /** The mount found the second time around is the one found ever after. `k0` and `k1` are the items
      kept by two injections, the later ones being some of the earlier ones. */
  lemma MountSettles(items: seq<Item>, m0: Option<Mount>, k0: seq<Item>, k1: seq<Item>)
    requires HasProxy(items)
    requires m0.Some? ==> m0.value.name != "" && m0.value.mountPath == SERVICE_ACCOUNT_PATH
    requires m0.None? ==> LastMountOf(k0, None).None? && LastMountOf(k1, None).None?
    ensures var m1 := ServiceAccountMount(k0 + GiveMounts(items, m0));
            ServiceAccountMount(k1 + GiveMounts(items, m1)) == m1
  {
    var m1 := ServiceAccountMount(k0 + GiveMounts(items, m0));
    LastMountOfConcat(k0, GiveMounts(items, m0));
    LastMountOfConcat(k1, GiveMounts(items, m1));
    var after := AfterProxy(items);
    if LastMountOf(after, None).Some? {
      LastAfterProxy(items, m0, LastMountOf(k0, None));
      LastAfterProxy(items, m1, LastMountOf(k1, None));
    } else {
      if m1.Some? {
        FoundAtPath(k0 + GiveMounts(items, m0));
        LastInjectedMount(items, m1.value, LastMountOf(k1, None));
        LastMountOfBefore(after, m1);
      } else if m0.Some? {
        LastInjectedMount(items, m0.value, LastMountOf(k0, None));
        LastMountOfBefore(after, m0);
      }
    }
  }

  lemma {:induction false} FoundAtPath(items: seq<Item>)
    ensures LastMountOf(items, None).Some? ==> LastMountOf(items, None).value.mountPath == SERVICE_ACCOUNT_PATH
  {
    if items != [] {
      var n := |items| - 1;
      FoundAtPath(items[..n]);
      LastMountBefore(MountsOf(items[n]), LastMountOf(items[..n], None));
      FoundInMounts(MountsOf(items[n]));
    }
  }

  lemma {:induction false} FoundInMounts(mounts: seq<Mount>)
    ensures LastMount(mounts, None).Some? ==>
              LastMount(mounts, None).value.mountPath == SERVICE_ACCOUNT_PATH && LastMount(mounts, None).value in mounts
    ensures LastMount(mounts, None).None? ==> forall m <- mounts :: m.mountPath != SERVICE_ACCOUNT_PATH
  {
    if mounts != [] {
      assert mounts == mounts[..|mounts| - 1] + [mounts[|mounts| - 1]];
      FoundInMounts(mounts[..|mounts| - 1]);
    }
  }

  /** Every mount names its volume, as the Kubernetes API demands. */
  predicate MountsNamed(items: seq<Item>) {
    forall x <- items :: forall m <- MountsOf(x) :: m.name != ""
  }

  lemma {:induction false} NothingFound(items: seq<Item>, some: seq<Item>)
    requires MountsNamed(items) && ServiceAccountMount(items).None? && forall x <- some :: x in items
    ensures LastMountOf(some, None).None?
  {
    if some != [] {
      var n := |some| - 1;
      assert some[n] in items;
      NothingFound(items, some[..n]);
      NoSuchMount(items, some[n]);
      FoundInMounts(MountsOf(some[n]));
      LastMountBefore(MountsOf(some[n]), LastMountOf(some[..n], None));
    }
  }

  lemma {:induction false} NoSuchMount(items: seq<Item>, x: Item)
    requires MountsNamed(items) && ServiceAccountMount(items).None? && x in items
    ensures forall m <- MountsOf(x) :: m.mountPath != SERVICE_ACCOUNT_PATH
  {
    LastIsNamed(items);
    var n := |items| - 1;
    assert items == items[..n] + [items[n]];
    LastMountBefore(MountsOf(items[n]), LastMountOf(items[..n], None));
    FoundInMounts(MountsOf(items[n]));
    if x in items[..n] {
      NoSuchMount(items[..n], x);
    }
  }

  lemma {:induction false} LastIsNamed(items: seq<Item>)
    requires MountsNamed(items)
    ensures LastMountOf(items, None).Some? ==> LastMountOf(items, None).value.name != ""
  {
    if items != [] {
      var n := |items| - 1;
      assert items[n] in items;
      assert forall x <- items[..n] :: x in items;
      LastIsNamed(items[..n]);
      LastMountBefore(MountsOf(items[n]), LastMountOf(items[..n], None));
      FoundInMounts(MountsOf(items[n]));
    }
  }

  /** From the second injection on, the same items are kept. */
  lemma ThirdInjection(pod: Pod, sic: Template, vs: seq<string>, extras: seq<map<string, string>>, c: Codec,
                       l: ListName)
    requires RoundTrips(c) && InjectsAnything(sic) && |vs| == |extras| == 3
    ensures var once := Inject(pod, sic, vs[0], extras[0], c);
            var twice := Inject(once, sic, vs[1], extras[1], c);
            var kept := Keep(Keep(pod.Of(l), InjectionStatus(pod, c).Of(l)), Names(sic.Of(l)));
            && twice.Of(l) == kept + sic.For(l, once)
            && Inject(twice, sic, vs[2], extras[2], c).Of(l) == kept + sic.For(l, twice)
  {
    var once := Inject(pod, sic, vs[0], extras[0], c);
    var twice := Inject(once, sic, vs[1], extras[1], c);
    var kept := Keep(Keep(pod.Of(l), InjectionStatus(pod, c).Of(l)), Names(sic.Of(l)));
    var kept' := Keep(once.Of(l), InjectionStatus(once, c).Of(l));
    SecondInjection(pod, sic, vs[0], vs[1], extras[0], extras[1], c, l);
    SecondInjection(once, sic, vs[1], vs[2], extras[1], extras[2], c, l);
    assert kept + sic.For(l, once) == kept' + sic.For(l, once);
    SamePrefix(kept, kept', sic.For(l, once));
    KeepLength(Keep(pod.Of(l), InjectionStatus(pod, c).Of(l)), Names(sic.Of(l)));
    KeepLength(kept, Names(sic.Of(l)));
  }

  lemma SamePrefix<T>(a: seq<T>, b: seq<T>, tail: seq<T>)
    requires a + tail == b + tail
    ensures a == b
  {
    assert |a| == |b|;
    assert (a + tail)[..|a|] == a && (b + tail)[..|b|] == b;
  }

  /** However a pod came about, its lists stop changing after the second injection of a template. */
  lemma InjectionSettles(pod: Pod, sic: Template, vs: seq<string>, extras: seq<map<string, string>>, c: Codec,
                         l: ListName)
    requires RoundTrips(c) && InjectsAnything(sic) && MountsNamed(pod.Of(l))
    requires |vs| == |extras| == 3
    ensures var once := Inject(pod, sic, vs[0], extras[0], c);
            var twice := Inject(once, sic, vs[1], extras[1], c);
            Inject(twice, sic, vs[2], extras[2], c).Of(l) == twice.Of(l)
  {
    var once := Inject(pod, sic, vs[0], extras[0], c);
    var twice := Inject(once, sic, vs[1], extras[1], c);
    ThirdInjection(pod, sic, vs, extras, c, l);
    var k0 := Keep(pod.Of(l), InjectionStatus(pod, c).Of(l));
    var k1 := Keep(k0, Names(sic.Of(l)));
    assert once.Of(l) == k0 + sic.For(l, pod) by {
      SecondInjection(pod, sic, vs[0], vs[1], extras[0], extras[1], c, l);
    }
    if MountMatters(l, sic) {
      MountsAgree(pod.Of(l), InjectionStatus(pod, c).Of(l), sic.Of(l));
    } else {
      GiveMountsDecides(sic.Of(l), ServiceAccountMount(once.Of(l)), ServiceAccountMount(twice.Of(l)));
    }
  }

  lemma MountsAgree(items: seq<Item>, prev: set<string>, injected: seq<Item>)
    requires MountsNamed(items) && HasProxy(injected)
    ensures var k0 := Keep(items, prev);
            var m1 := ServiceAccountMount(k0 + GiveMounts(injected, ServiceAccountMount(items)));
            ServiceAccountMount(Keep(k0, Names(injected)) + GiveMounts(injected, m1)) == m1
  {
    var k0 := Keep(items, prev);
    var k1 := Keep(k0, Names(injected));
    KeepLength(items, prev);
    KeepLength(k0, Names(injected));
    FoundAtPath(items);
    if ServiceAccountMount(items).None? {
      NothingFound(items, k0);
      NothingFound(items, k1);
    }
    MountSettles(injected, ServiceAccountMount(items), k0, k1);
  }
}
