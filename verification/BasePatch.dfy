/** apply/base/patch.go: the operations that remove items by name and append new ones. The Go code
    repeats the same two loops for containers, volumes and pull secrets; here they are written once. */
module BasePatch {
  import opened Wrappers
  import opened Text
  import opened JsonPatch
  import opened PodDocument

  const PROXY_CONTAINER := "polaris-proxy"
  const SERVICE_ACCOUNT_PATH := "/var/run/secrets/kubernetes.io/serviceaccount"

  function Names(items: seq<Item>): set<string> {
    set x | x in items :: x.name
  }

  /** The items whose name is not in `names`, in order. */
  function Keep(items: seq<Item>, names: set<string>): seq<Item> {
    if items == [] then []
    else
      var last := items[|items| - 1];
      Keep(items[..|items| - 1], names) + (if last.name in names then [] else [last])
  }

  // ---- Removal -------------------------------------------------------------------------------

  /** The operations the removal loop emits: descending indices. */
  function RemoveOps(items: seq<Item>, names: set<string>, path: string): seq<PatchOp> {
    if items == [] then []
    else
      var n := |items| - 1;
      (if items[n].name in names then [Remove(path + "/" + Itoa(n))] else [])
      + RemoveOps(items[..n], names, path)
  }

  /** removeContainers, removeVolumes and removeImagePullSecrets. */
  method RemoveItems(items: seq<Item>, removed: seq<string>, path: string) returns (patch: seq<PatchOp>)
    ensures patch == RemoveOps(items, (set n | n in removed), path)
  {
    var names: set<string> := {};
    for i := 0 to |removed|
      invariant names == (set n | n in removed[..i])
    {
      assert removed[..i + 1] == removed[..i] + [removed[i]];
      names := names + {removed[i]};
    }
    assert removed[..|removed|] == removed;
    patch := RemoveNamed(items, names, path);
  }

  /** The descending loop over the items. */
  method RemoveNamed(items: seq<Item>, names: set<string>, path: string) returns (patch: seq<PatchOp>)
    ensures patch == RemoveOps(items, names, path)
  {
    patch := [];
    assert items[..|items|] == items;
    for i := |items| downto 0
      invariant patch + RemoveOps(items[..i], names, path) == RemoveOps(items, names, path)
    {
      assert items[..i + 1][..i] == items[..i];
      if items[i].name in names {
        patch := patch + [Remove(path + "/" + Itoa(i))];
      }
    }
  }

  lemma NodesWithout(a: seq<Item>, x: Item, b: seq<Item>)
    ensures Nodes(a + [x] + b)[..|a|] + Nodes(a + [x] + b)[|a| + 1..] == Nodes(a + b)
  {
  }

  lemma RemoveStep(
    top: map<string, Node>, md: map<string, Node>, sp: map<string, Node>, f: string,
    init: seq<Item>, last: Item, tail: seq<Item>)
    requires IsPlain(f) && f in sp && sp[f] == List(Nodes(init + [last] + tail))
    ensures Apply(PodDoc(top, md, sp), Remove(Path(f) + "/" + Itoa(|init|))) ==
            Ok(PodDoc(top, md, sp[f := List(Nodes(init + tail))]))
  {
    var n := |init|;
    NodesWithout(init, last, tail);
    IndexTokens(f, n);
    RemoveAtIndex(top, md, sp, f, Itoa(n), n, Path(f) + "/" + Itoa(n));
  }

  lemma SetTwice(sp: map<string, Node>, f: string, a: Node, b: Node)
    ensures sp[f := a][f := b] == sp[f := b]
  {
  }

  lemma OneMore(init: seq<Item>, last: Item, names: set<string>, path: string)
    ensures Keep(init + [last], names) == Keep(init, names) + (if last.name in names then [] else [last])
    ensures RemoveOps(init + [last], names, path) ==
            (if last.name in names then [Remove(path + "/" + Itoa(|init|))] else []) + RemoveOps(init, names, path)
  {
    assert (init + [last])[..|init|] == init;
  }

  /** One more named item at the end of what is still to be scanned. */
  lemma RemoveLast(top: map<string, Node>, md: map<string, Node>, sp: map<string, Node>, f: string,
                   init: seq<Item>, last: Item, tail: seq<Item>, rest: seq<PatchOp>, done: Node)
    requires IsPlain(f) && f in sp && sp[f] == List(Nodes(init + [last] + tail))
    requires ApplyAll(PodDoc(top, md, sp[f := List(Nodes(init + tail))]), rest) ==
             Ok(PodDoc(top, md, sp[f := List(Nodes(init + tail))][f := done]))
    ensures ApplyAll(PodDoc(top, md, sp), [Remove(Path(f) + "/" + Itoa(|init|))] + rest) ==
            Ok(PodDoc(top, md, sp[f := done]))
  {
    var sp1 := sp[f := List(Nodes(init + tail))];
    RemoveStep(top, md, sp, f, init, last, tail);
    SetTwice(sp, f, List(Nodes(init + tail)), done);
    ApplyFirst(PodDoc(top, md, sp), Remove(Path(f) + "/" + Itoa(|init|)), PodDoc(top, md, sp1), rest,
               PodDoc(top, md, sp1[f := done]));
  }

  /** Removing in descending index order takes out exactly the named items, whatever follows them. */
  lemma {:induction false} RemoveMeaning(
    top: map<string, Node>, md: map<string, Node>, sp: map<string, Node>, f: string,
    items: seq<Item>, tail: seq<Item>, names: set<string>)
    requires IsPlain(f) && f in sp && sp[f] == List(Nodes(items + tail))
    ensures ApplyAll(PodDoc(top, md, sp), RemoveOps(items, names, Path(f))) ==
            Ok(PodDoc(top, md, sp[f := List(Nodes(Keep(items, names) + tail))]))
    decreases |items|
  {
    if items == [] {
      assert items + tail == tail && Keep(items, names) + tail == tail;
      assert sp[f := List(Nodes(tail))] == sp;
    } else {
      var n := |items| - 1;
      var last := items[n];
      var init := items[..n];
      assert items == init + [last];
      OneMore(init, last, names, Path(f));
      var ops := RemoveOps(init, names, Path(f));
      if last.name in names {
        assert Keep(items, names) == Keep(init, names);
        RemoveMeaning(top, md, sp[f := List(Nodes(init + tail))], f, init, tail, names);
        RemoveLast(top, md, sp, f, init, last, tail, ops, List(Nodes(Keep(init, names) + tail)));
        assert RemoveOps(items, names, Path(f)) == [Remove(Path(f) + "/" + Itoa(|init|))] + ops;
      } else {
        assert Keep(items, names) + tail == Keep(init, names) + ([last] + tail);
        assert init + ([last] + tail) == items + tail;
        RemoveMeaning(top, md, sp, f, init, [last] + tail, names);
        assert RemoveOps(items, names, Path(f)) == ops by { assert [] + ops == ops; }
      }
    }
  }

  // ---- Addition ------------------------------------------------------------------------------

  /** The operations the adding loop emits: one that writes the array when the list was empty, then
      appends at "-". */
  function AddOps(first: bool, added: seq<Item>, path: string): seq<PatchOp> {
    if added == [] then [] else [AddOp(first, added[0], path)] + AddOps(false, added[1..], path)
  }

  function AddOp(first: bool, x: Item, path: string): PatchOp {
    if first then Add(path, List([Whole(x)])) else Add(path + "/-", Whole(x))
  }

  /** addVolume and addImagePullSecrets. */
  method AddItems(target: seq<Item>, added: seq<Item>, basePath: string) returns (patch: seq<PatchOp>)
    ensures patch == AddOps(target == [], added, basePath)
  {
    patch := [];
    var first := |target| == 0;
    for i := 0 to |added|
      invariant patch + AddOps(first, added[i..], basePath) == AddOps(target == [], added, basePath)
    {
      AddOpsHead(first, added, i, basePath);
      patch := patch + [AddOp(first, added[i], basePath)];
      first := false;
    }
  }

  function MountsOf(item: Item): seq<Mount> {
    if item.Container? then item.mounts else []
  }

  /** The last mount at `path`, as the scan over mounts leaves it. */
  function LastMount(mounts: seq<Mount>, before: Option<Mount>): Option<Mount> {
    if mounts == [] then before
    else
      var m := mounts[|mounts| - 1];
      if m.mountPath == SERVICE_ACCOUNT_PATH then Some(m) else LastMount(mounts[..|mounts| - 1], before)
  }

  function LastMountOf(items: seq<Item>, before: Option<Mount>): Option<Mount> {
    if items == [] then before
    else LastMount(MountsOf(items[|items| - 1]), LastMountOf(items[..|items| - 1], before))
  }

  /** The service account mount handed to the proxy; one without a volume name counts as absent. */
  function ServiceAccountMount(target: seq<Item>): Option<Mount> {
    var m := LastMountOf(target, None);
    if m.Some? && m.value.name != "" then m else None
  }

  function GiveMount(item: Item, mount: Option<Mount>): (r: Item)
    ensures r.name == item.name
  {
    if item.Container? && item.name == PROXY_CONTAINER && mount.Some?
    then item.(mounts := item.mounts + [mount.value]) else item
  }

  function GiveMounts(items: seq<Item>, mount: Option<Mount>): (r: seq<Item>)
    ensures |r| == |items| && forall i :: 0 <= i < |items| ==> r[i] == GiveMount(items[i], mount)
  {
    seq(|items|, i requires 0 <= i < |items| => GiveMount(items[i], mount))
  }

  /** The scan of addContainers for the service account mount. */
  method FindServiceAccountMount(target: seq<Item>) returns (mount: Option<Mount>)
    ensures mount == ServiceAccountMount(target)
  {
    var found: Option<Mount> := None;
    for i := 0 to |target|
      invariant found == LastMountOf(target[..i], None)
    {
      ghost var before := found;
      var mounts := MountsOf(target[i]);
      for j := 0 to |mounts|
        invariant found == LastMount(mounts[..j], before)
      {
        assert mounts[..j + 1][..j] == mounts[..j];
        if mounts[j].mountPath == SERVICE_ACCOUNT_PATH {
          found := Some(mounts[j]);
        }
      }
      assert mounts[..|mounts|] == mounts;
      assert target[..i + 1][..i] == target[..i];
    }
    assert target[..|target|] == target;
    mount := if found.Some? && found.value.name != "" then found else None;
  }

  lemma AddOpsHead(first: bool, all: seq<Item>, i: nat, path: string)
    requires i < |all|
    ensures AddOps(first, all[i..], path) == [AddOp(first, all[i], path)] + AddOps(false, all[i + 1..], path)
  {
    assert all[i..][0] == all[i] && all[i..][1..] == all[i + 1..];
  }

  /** addContainers. */
  method AddContainers(target: seq<Item>, added: seq<Item>, basePath: string) returns (patch: seq<PatchOp>)
    ensures patch == AddOps(target == [], GiveMounts(added, ServiceAccountMount(target)), basePath)
  {
    var mount := FindServiceAccountMount(target);
    patch := AppendContainers(|target| == 0, added, mount, basePath);
  }

  /** The loop of addContainers over what is added. */
  method AppendContainers(empty: bool, added: seq<Item>, mount: Option<Mount>, basePath: string)
    returns (patch: seq<PatchOp>)
    ensures patch == AddOps(empty, GiveMounts(added, mount), basePath)
  {
    patch := [];
    var first := empty;
    ghost var all := GiveMounts(added, mount);
    for i := 0 to |added|
      invariant patch + AddOps(first, all[i..], basePath) == AddOps(empty, all, basePath)
    {
      var add := GiveMount(added[i], mount);
      AddOpsHead(first, all, i, basePath);
      patch := patch + [AddOp(first, add, basePath)];
      first := false;
    }
  }

  lemma AddStep(
    top: map<string, Node>, md: map<string, Node>, sp: map<string, Node>, f: string,
    first: bool, cur: seq<Item>, add: Item)
    requires IsPlain(f) && (first ==> cur == [])
    requires !first ==> f in sp && sp[f] == List(Nodes(cur))
    ensures Apply(PodDoc(top, md, sp), AddOps(first, [add], Path(f))[0]) ==
            Ok(PodDoc(top, md, sp[f := List(Nodes(cur + [add]))]))
  {
    if first {
      SpecTokens(f);
      ApplyAtMember(top, md, sp, f, Add(Path(f), List([Whole(add)])));
      assert [Whole(add)] == Nodes(cur + [add]);
    } else {
      ElementTokens(f, "-");
      assert Path(f) + "/-" == Path(f) + "/" + "-";
      AddAtEnd(top, md, sp, f, Path(f) + "/-", Whole(add));
      assert Nodes(cur) + [Whole(add)] == Nodes(cur + [add]);
    }
  }

  lemma AddFirst(
    top: map<string, Node>, md: map<string, Node>, sp: map<string, Node>, f: string,
    first: bool, cur: seq<Item>, add: Item, rest: seq<PatchOp>, done: Node)
    requires IsPlain(f) && (first ==> cur == [])
    requires !first ==> f in sp && sp[f] == List(Nodes(cur))
    requires ApplyAll(PodDoc(top, md, sp[f := List(Nodes(cur + [add]))]), rest) ==
             Ok(PodDoc(top, md, sp[f := List(Nodes(cur + [add]))][f := done]))
    ensures ApplyAll(PodDoc(top, md, sp), AddOps(first, [add], Path(f)) + rest) == Ok(PodDoc(top, md, sp[f := done]))
  {
    var sp1 := sp[f := List(Nodes(cur + [add]))];
    AddStep(top, md, sp, f, first, cur, add);
    SetTwice(sp, f, List(Nodes(cur + [add])), done);
    ApplyFirst(PodDoc(top, md, sp), AddOps(first, [add], Path(f))[0], PodDoc(top, md, sp1), rest,
               PodDoc(top, md, sp1[f := done]));
  }

  /** The list `cur`, however it is written in the document, ends up as `cur` followed by `added`. */
  lemma {:induction false} AddMeaning(
    top: map<string, Node>, md: map<string, Node>, sp: map<string, Node>, f: string,
    first: bool, cur: seq<Item>, added: seq<Item>)
    requires IsPlain(f) && (first ==> cur == [])
    requires !first ==> f in sp && sp[f] == List(Nodes(cur))
    ensures ApplyAll(PodDoc(top, md, sp), AddOps(first, added, Path(f))) ==
            Ok(PodDoc(top, md, if added == [] then sp else sp[f := List(Nodes(cur + added))]))
    decreases |added|
  {
    if added != [] {
      var next := cur + [added[0]];
      var sp1 := sp[f := List(Nodes(next))];
      assert next + added[1..] == cur + added;
      AddMeaning(top, md, sp1, f, false, next, added[1..]);
      if added[1..] == [] {
        assert next == cur + added;
        SetTwice(sp, f, List(Nodes(next)), List(Nodes(next)));
      }
      AddFirst(top, md, sp, f, first, cur, added[0], AddOps(false, added[1..], Path(f)), List(Nodes(cur + added)));
    }
  }
}
