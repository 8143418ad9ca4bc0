/** util/address/address.go: the two tables a reconcile compares, both keyed by the text "ip-port". */
module Instances {
  import opened Wrappers
  import opened Text

  const CLUSTER_NAME := "clusterName"
  const SOURCE := "source"
  const OLD_SOURCE := "platform"
  const CONTROLLER := "polaris-controller"
  const DEFAULT_WEIGHT := 100

  /** A registered instance, as the registry reports it. */
  datatype Instance = Instance(
    host: string,
    port: nat,
    weight: int,
    healthy: bool,
    isolate: bool,
    healthCheck: bool,
    protocol: string,
    version: string,
    metadata: map<string, string>)

  /** What a service's endpoints ask for at one host and port. `labels` is absent when the pod could
      not be found. */
  datatype Address = Address(
    ip: string,
    port: nat,
    weight: int,
    isolate: bool,
    protocol: string,
    labels: Option<map<string, string>>)

  function AddressKey(ip: string, port: nat): string {
    ip + "-" + Itoa(port)
  }

  /** Different host and port pairs never share a key, whatever the host looks like. */
  lemma AddressKeyInjective(a: string, m: nat, b: string, n: nat)
    requires AddressKey(a, m) == AddressKey(b, n)
    ensures a == b && m == n
  {
    DigitsSplit(a, Itoa(m), b, Itoa(n), '-');
    ItoaInjective(m, n);
  }

  // ---- From endpoints ------------------------------------------------------------------------

  datatype Port = Port(name: string, number: nat, protocol: string)

  /** An endpoint address with the labels of the pod behind it, if the pod lister knows it. */
  datatype Endpoint = Endpoint(ip: string, podName: string, labels: Option<map<string, string>>)

  datatype Subset = Subset(ready: seq<Endpoint>, notReady: seq<Endpoint>, ports: seq<Port>)

  /** What a service says about weights: the default, and the custom ones by "index-port". */
  datatype Weights = Weights(standard: int, custom: map<string, int>, indexed: bool)

  function AfterLastDash(s: string): string {
    if s == "" || s[|s| - 1] == '-' then "" else AfterLastDash(s[..|s| - 1]) + [s[|s| - 1]]
  }

  /** The ordinal of a stateful set's pod, empty when the name has no dash. */
  function OrdinalOf(w: Weights, podName: string): string {
    if w.indexed && '-' in podName then AfterLastDash(podName) else ""
  }

  /** A custom weight wins whatever its value: the range test in the source joins its two bounds with
      "or" and so accepts every number. */
  function WeightOf(w: Weights, podName: string, port: nat): int {
    var k := AddressKey(OrdinalOf(w, podName), port);
    if k in w.custom then w.custom[k] else w.standard
  }

  function Offer(e: Endpoint, p: Port, w: Weights, isolate: bool): Address {
    Address(e.ip, p.number, WeightOf(w, e.podName, p.number), isolate, p.name + "/" + p.protocol, e.labels)
  }

  function Offers(e: Endpoint, ports: seq<Port>, w: Weights, isolate: bool): seq<Address> {
    seq(|ports|, i requires 0 <= i < |ports| => Offer(e, ports[i], w, isolate))
  }

  function AllOffers(es: seq<Endpoint>, ports: seq<Port>, w: Weights, isolate: bool): seq<Address> {
    if es == [] then []
    else AllOffers(es[..|es| - 1], ports, w, isolate) + Offers(es[|es| - 1], ports, w, isolate)
  }

  /** Everything the endpoints offer, in the order in which the tables are written. */
  function Written(subsets: seq<Subset>, w: Weights): seq<Address> {
    if subsets == [] then []
    else
      var s := subsets[|subsets| - 1];
      Written(subsets[..|subsets| - 1], w) + AllOffers(s.ready, s.ports, w, false) + AllOffers(s.notReady, s.ports,
                                                                                               w, true)
  }

  /** The table after writing `xs` in order. */
  function Table(xs: seq<Address>): map<string, Address> {
    if xs == [] then map[]
    else
      var x := xs[|xs| - 1];
      Table(xs[..|xs| - 1])[AddressKey(x.ip, x.port) := x]
  }

  lemma {:induction false} TableConcat(a: seq<Address>, b: seq<Address>)
    ensures Table(a + b) == Table(a) + Table(b)
  {
    if b == [] {
      assert a + b == a;
    } else {
      assert (a + b)[..|a + b| - 1] == a + b[..|b| - 1];
      TableConcat(a, b[..|b| - 1]);
    }
  }

  /** Range over one table, writing every entry into another. The order does not matter. */
  method Merge(a: map<string, Address>, b: map<string, Address>) returns (r: map<string, Address>)
    ensures r == a + b
  {
    r := a;
    var todo := b.Keys;
    while todo != {}
      invariant todo <= b.Keys
      invariant forall k :: k in r <==> k in a || (k in b && k !in todo)
      invariant forall k <- r :: r[k] == if k in b && k !in todo then b[k] else a[k]
      decreases |todo|
    {
      var k :| k in todo;
      r := r[k := b[k]];
      todo := todo - {k};
    }
  }

  /** buildAddresses. */
  method BuildAddresses(e: Endpoint, ports: seq<Port>, w: Weights, isolate: bool) returns (r: map<string, Address>)
    ensures r == Table(Offers(e, ports, w, isolate))
  {
    r := map[];
    var ordinal := OrdinalOf(w, e.podName);
    ghost var all := Offers(e, ports, w, isolate);
    for i := 0 to |ports|
      invariant r == Table(all[..i])
    {
      var port := ports[i];
      var weight := w.standard;
      var indexPort := AddressKey(ordinal, port.number);
      if indexPort in w.custom {
        weight := w.custom[indexPort];
      }
      var a := Address(e.ip, port.number, weight, isolate, port.name + "/" + port.protocol, e.labels);
      r := r[AddressKey(e.ip, port.number) := a];
      assert all[..i + 1][..i] == all[..i] && all[i] == a;
    }
    assert all[..|all|] == all;
  }

  lemma OneMoreEndpoint(table: map<string, Address>, es: seq<Endpoint>, i: nat, ports: seq<Port>, w: Weights,
                        isolate: bool)
    requires i < |es|
    ensures table + Table(AllOffers(es[..i], ports, w, isolate)) + Table(Offers(es[i], ports, w, isolate)) ==
            table + Table(AllOffers(es[..i + 1], ports, w, isolate))
  {
    var a, b, c := AllOffers(es[..i], ports, w, isolate), Offers(es[i], ports, w, isolate), AllOffers(es[..i + 1],
        ports, w, isolate);
    assert c == a + b by { assert es[..i + 1][..i] == es[..i]; }
    TableConcat(a, b);
    MergeTwice(table, Table(a), Table(b));
  }

  lemma MergeTwice(a: map<string, Address>, b: map<string, Address>, c: map<string, Address>)
    ensures a + b + c == a + (b + c)
  {
  }

  /** The loop over one list of addresses of a subset. */
  method AddAll(table: map<string, Address>, es: seq<Endpoint>, ports: seq<Port>, w: Weights, isolate: bool)
    returns (r: map<string, Address>)
    ensures r == table + Table(AllOffers(es, ports, w, isolate))
  {
    r := table;
    for i := 0 to |es|
      invariant r == table + Table(AllOffers(es[..i], ports, w, isolate))
    {
      var addresses := BuildAddresses(es[i], ports, w, isolate);
      OneMoreEndpoint(table, es, i, ports, w, isolate);
      r := Merge(r, addresses);
    }
    assert es[..|es|] == es;
  }

  /** GetAddressMapFromEndpoints: ready addresses, then those not ready, which enter isolated. */
  method SpecTable(subsets: seq<Subset>, w: Weights) returns (r: map<string, Address>)
    ensures r == Table(Written(subsets, w))
  {
    r := map[];
    for i := 0 to |subsets|
      invariant r == Table(Written(subsets[..i], w))
    {
      var s := subsets[i];
      ghost var ready, notReady := AllOffers(s.ready, s.ports, w, false), AllOffers(s.notReady, s.ports, w, true);
      r := AddAll(r, s.ready, s.ports, w, false);
      r := AddAll(r, s.notReady, s.ports, w, true);
      assert subsets[..i + 1][..i] == subsets[..i];
      TableConcat(Written(subsets[..i], w), ready);
      TableConcat(Written(subsets[..i], w) + ready, notReady);
    }
    assert subsets[..|subsets|] == subsets;
  }

  /** Every entry stands under its own key, and is the last one offered for its host and port. */
  ghost predicate WellKeyed(t: map<string, Address>) {
    forall k <- t :: k == AddressKey(t[k].ip, t[k].port)
  }

  /** Address `i` is the last one offered under the key. */
  predicate IsLast(xs: seq<Address>, k: string, i: nat) {
    i < |xs| && AddressKey(xs[i].ip, xs[i].port) == k
    && forall j :: i < j < |xs| ==> AddressKey(xs[j].ip, xs[j].port) != k
  }

  lemma LastSnoc(xs: seq<Address>, x: Address, k: string, i: nat)
    ensures IsLast(xs + [x], k, i) <==>
            if AddressKey(x.ip, x.port) == k then i == |xs| else IsLast(xs, k, i)
  {
    var ys := xs + [x];
    assert ys[|xs|] == x;
    assert forall j :: 0 <= j < |xs| ==> ys[j] == xs[j];
  }

  lemma {:induction false} TableAt(xs: seq<Address>, k: string)
    ensures k in Table(xs) <==> exists i: nat :: IsLast(xs, k, i)
    ensures forall i: nat :: IsLast(xs, k, i) ==> k in Table(xs) && Table(xs)[k] == xs[i]
  {
    if xs != [] {
      var n := |xs| - 1;
      var init, x := xs[..n], xs[n];
      assert xs == init + [x];
      TableAt(init, k);
      forall i: nat ensures IsLast(xs, k, i) <==> if AddressKey(x.ip, x.port) == k then i == n else IsLast(init, k, i) {
        LastSnoc(init, x, k, i);
      }
      if AddressKey(x.ip, x.port) == k {
        assert IsLast(xs, k, n);
      }
    }
  }

  /** A table holds exactly the keys offered, each with the last address offered under it, and stands
      under its own keys. */
  lemma TableLast(xs: seq<Address>)
    ensures WellKeyed(Table(xs))
    ensures forall k :: k in Table(xs) <==> exists i: nat :: IsLast(xs, k, i)
    ensures forall k, i: nat :: IsLast(xs, k, i) ==> k in Table(xs) && Table(xs)[k] == xs[i]
  {
    forall k
      ensures k in Table(xs) <==> exists i: nat :: IsLast(xs, k, i)
      ensures forall i: nat :: IsLast(xs, k, i) ==> k in Table(xs) && Table(xs)[k] == xs[i]
      ensures k in Table(xs) ==> k == AddressKey(Table(xs)[k].ip, Table(xs)[k].port)
    {
      TableAt(xs, k);
      if k in Table(xs) {
        var i: nat :| IsLast(xs, k, i);
      }
    }
  }

  lemma {:induction false} AllOffersAre(es: seq<Endpoint>, ports: seq<Port>, w: Weights, isolate: bool)
    ensures forall a <- AllOffers(es, ports, w, isolate) :: a.isolate == isolate
    ensures forall e, p :: e in es && p in ports ==> Offer(e, p, w, isolate) in AllOffers(es, ports, w, isolate)
  {
    if es != [] {
      var last := es[|es| - 1];
      assert es == es[..|es| - 1] + [last];
      AllOffersAre(es[..|es| - 1], ports, w, isolate);
      forall p | p in ports ensures Offer(last, p, w, isolate) in Offers(last, ports, w, isolate) {
        var i :| 0 <= i < |ports| && ports[i] == p;
        assert Offers(last, ports, w, isolate)[i] == Offer(last, p, w, isolate);
      }
    }
  }

  /** An address that is not ready in the last subset ends up isolated, even if the same subset or an
      earlier one also lists it as ready. */
  lemma NotReadyIsolated(subsets: seq<Subset>, w: Weights, e: Endpoint, p: Port)
    requires subsets != [] && e in subsets[|subsets| - 1].notReady && p in subsets[|subsets| - 1].ports
    ensures var t, k := Table(Written(subsets, w)), AddressKey(e.ip, p.number);
            k in t && t[k].isolate
  {
    var s, k := subsets[|subsets| - 1], AddressKey(e.ip, p.number);
    var before := Written(subsets[..|subsets| - 1], w) + AllOffers(s.ready, s.ports, w, false);
    var last := AllOffers(s.notReady, s.ports, w, true);
    AllOffersAre(s.notReady, s.ports, w, true);
    TableConcat(before, last);
    OfferedIsIn(last, Offer(e, p, w, true));
    TableAt(last, k);
    var i: nat :| IsLast(last, k, i);
    assert last[i] in last;
  }

  lemma {:induction false} OfferedIsIn(xs: seq<Address>, a: Address)
    requires a in xs
    ensures AddressKey(a.ip, a.port) in Table(xs)
  {
    var n := |xs| - 1;
    assert xs == xs[..n] + [xs[n]];
    if a in xs[..n] {
      OfferedIsIn(xs[..n], a);
    }
  }

  // ---- From the registry ---------------------------------------------------------------------

  function Meta(m: map<string, string>, key: string): string {
    if key in m then m[key] else ""
  }

  /** Registered by this cluster's controller; the old source key is still honoured. */
  predicate IsManaged(m: map<string, string>, cluster: string) {
    Meta(m, CLUSTER_NAME) == cluster && (Meta(m, SOURCE) == CONTROLLER || Meta(m, OLD_SOURCE) == CONTROLLER)
  }

  /** The managed instances among `instances`, under their keys. */
  function Managed(instances: seq<Instance>, cluster: string): map<string, Instance> {
    if instances == [] then map[]
    else
      var x := instances[|instances| - 1];
      var rest := Managed(instances[..|instances| - 1], cluster);
      if IsManaged(x.metadata, cluster) then rest[AddressKey(x.host, x.port) := x] else rest
  }

  /** GetAddressMapFromPolarisInstance. */
  method CurrentTable(instances: seq<Instance>, cluster: string) returns (r: map<string, Instance>)
    ensures r == Managed(instances, cluster)
  {
    r := map[];
    for i := 0 to |instances|
      invariant r == Managed(instances[..i], cluster)
    {
      var x := instances[i];
      if IsManaged(x.metadata, cluster) {
        r := r[AddressKey(x.host, x.port) := x];
      }
      assert instances[..i + 1][..i] == instances[..i];
    }
    assert instances[..|instances|] == instances;
  }
}
