/** apply/javaagent/patch.go: the extra "replace" operations of java-agent mode, which rewrite the
    original containers at their original indices after removals and additions. */
module JavaAgent {
  import opened Wrappers
  import opened Text
  import opened JsonPatch
  import opened PodDocument
  import opened BasePatch
  import opened AnnotationPatch
  import opened Webhook
  import opened Reinjection

  const VERSION := "polarismesh.cn/javaagentVersion"
  const PLUGIN_CONFIG := "polarismesh.cn/javaagentConfig"
  const USE_WORKLOAD_NAMESPACE := "polarismesh.cn/workloadNamespaceAsServiceNamespace"
  const USE_WORKLOAD_NAME := "polarismesh.cn/workloadNameAsServiceName"
  const SERVICE_NAME := "spring.application.name"
  const SERVICE_NAMESPACE := "spring.cloud.polaris.discovery.namespace"
  const TOOL_OPTIONS := "JAVA_TOOL_OPTIONS"
  const AGENT_COMMAND := "-javaagent:/app/lib/.polaris/java_agent/polaris-java-agent/polaris-agent-core-bootstrap.jar"
  const AGENT_MOUNT := Mount("java-agent-dir", "/app/lib/.polaris/java_agent", "")

  const OLD_VERSIONS := {"1.7.0-RC5", "1.7.0-RC4", "1.7.0-RC3", "1.7.0-RC2", "1.7.0-RC1", "1.6.1", "1.6.0"}

  /** The workload the pod belongs to, and what the JSON decoder leaves of a custom configuration, be it
      well-formed or not. */
  datatype Context = Context(podNamespace: string, workloadName: string, decode: string -> map<string, string>)

  // ---- Version and properties ----------------------------------------------------------------

  /** The annotations as updateContainer leaves them behind: a missing or empty version is "latest". */
  function WithVersion(a: map<string, string>): map<string, string> {
    if VERSION in a && a[VERSION] != "" then a else a[VERSION := "latest"]
  }

  predicate IsTrue(a: map<string, string>, key: string) {
    key in a && a[key] == "true"
  }

  /** getDefaultProperties. */
  function DefaultProperties(a: map<string, string>, ctx: Context): map<string, string> {
    var p := if IsTrue(a, USE_WORKLOAD_NAMESPACE) then map[SERVICE_NAMESPACE := ctx.podNamespace] else map[];
    if IsTrue(a, USE_WORKLOAD_NAME) then p[SERVICE_NAME := ctx.workloadName] else p
  }

  function CustomProperties(a: map<string, string>, ctx: Context): map<string, string> {
    if PLUGIN_CONFIG !in a || a[PLUGIN_CONFIG] == "" then map[] else ctx.decode(a[PLUGIN_CONFIG])
  }

  function RenderOptions(keys: seq<string>, p: map<string, string>): string
    requires forall k <- keys :: k in p
  {
    if keys == [] then "" else
      RenderOptions(keys[..|keys| - 1], p) + " -D" + keys[|keys| - 1] + "=" + p[keys[|keys| - 1]]
  }

  /** Old agents get a versioned jar, newer ones the properties in key order. */
  function Command(version: string, properties: map<string, string>): string {
    if version in OLD_VERSIONS
    then "-javaagent:/app/lib/.polaris/java_agent/polaris-java-agent-" + version + "/polaris-agent-core-bootstrap.jar"
    else AGENT_COMMAND + RenderOptions(SortedKeys(properties.Keys), properties)
  }

  /** What is appended to JAVA_TOOL_OPTIONS, the same for every container; custom properties win. */
  function Suffix(a: map<string, string>, ctx: Context): string {
    Command(WithVersion(a)[VERSION], DefaultProperties(a, ctx) + CustomProperties(a, ctx))
  }

  // ---- Containers ----------------------------------------------------------------------------

  /** The first entry of that name, or -1. */
  function FirstNamed(env: seq<EnvVar>, name: string): (i: int)
    ensures -1 <= i < |env|
    ensures i >= 0 ==> env[i].name == name
    ensures forall j :: 0 <= j < (if i >= 0 then i else |env|) ==> env[j].name != name
  {
    if env == [] then -1
    else
      var i := FirstNamed(env[..|env| - 1], name);
      if i >= 0 then i else if env[|env| - 1].name == name then |env| - 1 else -1
  }

  function ExtendOptions(env: seq<EnvVar>, suffix: string): seq<EnvVar> {
    var i := FirstNamed(env, TOOL_OPTIONS);
    if i >= 0 then env[i := EnvVar(TOOL_OPTIONS, env[i].value + " " + suffix)]
    else env + [EnvVar(TOOL_OPTIONS, " " + suffix)]
  }

  function WithAgent(x: Item, suffix: string): (r: Item)
    ensures r.name == x.name
  {
    if x.Container? then x.(env := ExtendOptions(x.env, suffix), mounts := x.mounts + [AGENT_MOUNT]) else x
  }

  function AllWithAgent(items: seq<Item>, suffix: string): (r: seq<Item>)
    ensures |r| == |items| && forall i :: 0 <= i < |items| ==> r[i] == WithAgent(items[i], suffix)
  {
    seq(|items|, i requires 0 <= i < |items| => WithAgent(items[i], suffix))
  }

  function UpdateOps(items: seq<Item>, path: string): seq<PatchOp> {
    if items == [] then []
    else
      var n := |items| - 1;
      UpdateOps(items[..n], path) + [Replace(path + "/" + Itoa(n), Whole(items[n]))]
  }

  datatype UpdateResult = Panic | Updated(patch: seq<PatchOp>, annotations: map<string, string>)

  /** updateContainer: assigning into a nil annotation map panics; otherwise every container gets a
      replace operation and the pod's annotations a version. */
  method UpdateContainer(pod: Pod, ctx: Context, basePath: string) returns (r: UpdateResult)
    ensures pod.annotations.None? ==> r == Panic
    ensures pod.annotations.Some? ==>
              r == Updated(UpdateOps(AllWithAgent(pod.containers, Suffix(pod.annotations.value, ctx)), basePath),
                           WithVersion(pod.annotations.value))
  {
    if pod.annotations.None? {
      return Panic;
    }
    var annotations := pod.annotations.value;
    if !(VERSION in annotations && annotations[VERSION] != "") {
      annotations := annotations[VERSION := "latest"];
    }
    VersionAside(pod.annotations.value, ctx);
    var patch := UpdateAll(pod.containers, annotations[VERSION], DefaultProperties(annotations, ctx),
                           CustomProperties(annotations, ctx), basePath);
    r := Updated(patch, annotations);
  }

  /** The version the loop reads is the one written; the properties do not depend on it. */
  lemma VersionAside(a: map<string, string>, ctx: Context)
    ensures DefaultProperties(WithVersion(a), ctx) == DefaultProperties(a, ctx)
    ensures CustomProperties(WithVersion(a), ctx) == CustomProperties(a, ctx)
  {
    assert |VERSION| == 31 && |PLUGIN_CONFIG| == 30 && |USE_WORKLOAD_NAMESPACE| == 50 && |USE_WORKLOAD_NAME| == 40;
  }

  /** The loop of updateContainer; the properties collect the custom ones anew for every container. */
  method UpdateAll(containers: seq<Item>, version: string, defaults: map<string, string>, custom: map<string, string>,
                   basePath: string)
    returns (patch: seq<PatchOp>)
    ensures patch == UpdateOps(AllWithAgent(containers, Command(version, defaults + custom)), basePath)
  {
    patch := [];
    var properties := defaults;
    ghost var all := AllWithAgent(containers, Command(version, defaults + custom));
    for index := 0 to |containers|
      invariant properties == defaults || properties == defaults + custom
      invariant patch == UpdateOps(all[..index], basePath)
    {
      properties := properties + custom;
      assert properties == defaults + custom;
      var container := MountAgent(containers[index], Command(version, properties));
      assert all[..index + 1][..index] == all[..index];
      patch := patch + [Replace(basePath + "/" + Itoa(index), Whole(container))];
    }
    assert all[..|all|] == all;
  }

  /** One container of the loop. */
  method MountAgent(container: Item, command: string) returns (r: Item)
    ensures r == WithAgent(container, command)
  {
    r := container;
    if container.Container? {
      var env := AppendOption(container.env, command);
      r := container.(env := env, mounts := container.mounts + [AGENT_MOUNT]);
    }
  }

  /** The search for JAVA_TOOL_OPTIONS and the two ways of extending it. */
  method AppendOption(env: seq<EnvVar>, suffix: string) returns (r: seq<EnvVar>)
    ensures r == ExtendOptions(env, suffix)
  {
    var javaEnvIndex := -1;
    for i := 0 to |env|
      invariant javaEnvIndex == -1 && FirstNamed(env[..i], TOOL_OPTIONS) == -1
    {
      assert env[..i + 1][..i] == env[..i];
      if env[i].name == TOOL_OPTIONS {
        javaEnvIndex := i;
        break;
      }
    }
    if javaEnvIndex != -1 {
      FirstIs(env, TOOL_OPTIONS, javaEnvIndex);
      r := env[javaEnvIndex := EnvVar(TOOL_OPTIONS, env[javaEnvIndex].value + " " + suffix)];
    } else {
      assert env[..|env|] == env;
      r := env + [EnvVar(TOOL_OPTIONS, " " + suffix)];
    }
  }

  lemma FirstIs(env: seq<EnvVar>, name: string, i: nat)
    requires i < |env| && env[i].name == name && FirstNamed(env[..i], name) == -1
    ensures FirstNamed(env, name) == i
  {
    assert forall k :: 0 <= k < i ==> env[..i][k].name != name;
  }

  // ---- What the replace operations do --------------------------------------------------------

  lemma ReplaceStep(top: map<string, Node>, md: map<string, Node>, sp: map<string, Node>, f: string,
                    items: seq<Item>, i: nat, x: Item)
    requires IsPlain(f) && f in sp && sp[f] == List(Nodes(items))
    ensures Apply(PodDoc(top, md, sp), Replace(Path(f) + "/" + Itoa(i), Whole(x))) ==
            if i < |items| then Ok(PodDoc(top, md, sp[f := List(Nodes(items[i := x]))])) else Err(NoTarget)
  {
    var op := Replace(Path(f) + "/" + Itoa(i), Whole(x));
    IndexTokens(f, i);
    ApplyAtElement(top, md, sp, f, Itoa(i), op);
    if i < |items| {
      assert Nodes(items)[i := Whole(x)] == Nodes(items[i := x]);
    }
  }

  /** The list after the first |us| elements were replaced by `us`. */
  function Overwrite(items: seq<Item>, us: seq<Item>): seq<Item>
    requires |us| <= |items|
  {
    us + items[|us|..]
  }

  /** One more replacement while the list is long enough for it. */
  lemma ReplaceNext(top: map<string, Node>, md: map<string, Node>, sp: map<string, Node>, f: string,
                    items: seq<Item>, us: seq<Item>, x: Item)
    requires IsPlain(f) && |us| < |items|
    ensures Apply(PodDoc(top, md, sp[f := List(Nodes(Overwrite(items, us)))]),
                  Replace(Path(f) + "/" + Itoa(|us|), Whole(x))) ==
            Ok(PodDoc(top, md, sp[f := List(Nodes(Overwrite(items, us + [x])))]))
  {
    var mid := Overwrite(items, us);
    OverwriteSnoc(items, us, x);
    ReplaceStep(top, md, sp[f := List(Nodes(mid))], f, mid, |us|, x);
    SetTwice(sp, f, List(Nodes(mid)), List(Nodes(mid[|us| := x])));
  }

  lemma OverwriteSnoc(items: seq<Item>, us: seq<Item>, x: Item)
    requires |us| < |items|
    ensures Overwrite(items, us)[|us| := x] == Overwrite(items, us + [x])
  {
  }

  /** One more replacement when the list is used up. */
  lemma ReplaceBeyond(top: map<string, Node>, md: map<string, Node>, sp: map<string, Node>, f: string,
                      items: seq<Item>, us: seq<Item>, x: Item)
    requires IsPlain(f) && |us| == |items|
    ensures Apply(PodDoc(top, md, sp[f := List(Nodes(Overwrite(items, us)))]),
                  Replace(Path(f) + "/" + Itoa(|us|), Whole(x))) ==
            Err(NoTarget)
  {
    var mid := Overwrite(items, us);
    ReplaceStep(top, md, sp[f := List(Nodes(mid))], f, mid, |us|, x);
  }

  lemma ApplyLast(doc: Node, ops: seq<PatchOp>, mid: Node, op: PatchOp)
    requires ApplyAll(doc, ops) == Ok(mid)
    ensures ApplyAll(doc, ops + [op]) == Apply(mid, op)
  {
    ApplyAllConcat(doc, ops, [op]);
    ApplyAllCons(mid, op, []);
    assert [op] + [] == [op];
  }

  lemma ReplaceLast(top: map<string, Node>, md: map<string, Node>, sp: map<string, Node>, f: string,
                    items: seq<Item>, us: seq<Item>, x: Item, ops: seq<PatchOp>)
    requires IsPlain(f)
    requires ApplyAll(PodDoc(top, md, sp), ops) ==
             if |us| <= |items| then Ok(PodDoc(top, md, sp[f := List(Nodes(Overwrite(items, us)))])) else Err(NoTarget)
    ensures ApplyAll(PodDoc(top, md, sp), ops + [Replace(Path(f) + "/" + Itoa(|us|), Whole(x))]) ==
            if |us| < |items| then Ok(PodDoc(top, md, sp[f := List(Nodes(Overwrite(items, us + [x])))]))
            else Err(NoTarget)
  {
    var op := Replace(Path(f) + "/" + Itoa(|us|), Whole(x));
    if |us| > |items| {
      FailsEarly(PodDoc(top, md, sp), ops, [op], NoTarget);
    } else {
      ApplyLast(PodDoc(top, md, sp), ops, PodDoc(top, md, sp[f := List(Nodes(Overwrite(items, us)))]), op);
      if |us| < |items| {
        ReplaceNext(top, md, sp, f, items, us, x);
      } else {
        ReplaceBeyond(top, md, sp, f, items, us, x);
      }
    }
  }

  /** Replacing at the original indices overwrites a prefix, and misses a target exactly when the list
      has become shorter than it was. */
  lemma {:induction false} UpdateMeaning(top: map<string, Node>, md: map<string, Node>, sp: map<string, Node>,
                                         f: string, items: seq<Item>, us: seq<Item>)
    requires IsPlain(f) && f in sp && sp[f] == List(Nodes(items))
    ensures ApplyAll(PodDoc(top, md, sp), UpdateOps(us, Path(f))) ==
            if |us| <= |items| then Ok(PodDoc(top, md, sp[f := List(Nodes(Overwrite(items, us)))])) else Err(NoTarget)
    decreases |us|
  {
    if us == [] {
      assert Overwrite(items, us) == items;
      assert sp[f := List(Nodes(items))] == sp;
    } else {
      var n := |us| - 1;
      UpdateMeaning(top, md, sp, f, items, us[..n]);
      ReplaceLast(top, md, sp, f, items, us[..n], us[n], UpdateOps(us[..n], Path(f)));
      assert us[..n] + [us[n]] == us;
      assert UpdateOps(us, Path(f)) ==
             UpdateOps(us[..n], Path(f)) + [Replace(Path(f) + "/" + Itoa(|us[..n]|), Whole(us[n]))];
    }
  }

  // ---- The whole patch of java-agent mode ----------------------------------------------------

  /** The replacements for the original containers. */
  function Rewritten(pod: Pod, ctx: Context): seq<Item>
    requires pod.annotations.Some?
  {
    AllWithAgent(pod.containers, Suffix(pod.annotations.value, ctx))
  }

  function JavaPatchOps(pod: Pod, prev: Status, sic: Template, added: map<string, string>, ctx: Context): seq<PatchOp>
    requires pod.annotations.Some?
  {
    PatchOps(pod, prev, sic, added, UpdateOps(Rewritten(pod, ctx), Path(Member(Containers))),
             Some(WithVersion(pod.annotations.value)))
  }

  datatype PatchResult = PatchPanic | Patched(patch: seq<PatchOp>)

  /** createPatch in java-agent mode: updateContainer has written the version into the annotation map
      by the time updateAnnotation consults it. */
  method CreateJavaPatch(pod: Pod, prev: Status, sic: Template, annotations: map<string, string>, ctx: Context)
    returns (r: PatchResult)
    ensures r == if pod.annotations.None? then PatchPanic
                 else Patched(JavaPatchOps(pod, prev, sic, annotations, ctx))
  {
    var update := UpdateContainer(pod, ctx, Path(Member(Containers)));
    match update
    case Panic => r := PatchPanic;
    case Updated(ops, target) =>
      var patch := CreatePatch(pod, prev, sic, annotations, ops, Some(target));
      r := Patched(patch);
  }

  /** The containers in the document when the replacements run. */
  function Surroundings(pod: Pod, prev: Status, sic: Template): seq<Item> {
    Keep(pod.containers, prev.Of(Containers)) + sic.For(Containers, pod)
  }

  /** The version key is replaced in a map that only seems to hold it. */
  predicate VersionClash(pod: Pod, added: map<string, string>)
    requires pod.annotations.Some?
  {
    VERSION !in pod.annotations.value && VERSION in added && added[VERSION] != ""
  }

  function JavaPod(pod: Pod, prev: Status, sic: Template, added: map<string, string>, ctx: Context): Pod
    requires pod.annotations.Some? && |pod.containers| <= |Surroundings(pod, prev, sic)|
  {
    InjectedPod(pod, prev, sic, added).(containers := Overwrite(Surroundings(pod, prev, sic), Rewritten(pod, ctx)))
  }

  /** The replacements after the additions; they fail exactly when fewer containers are left. */
  lemma ReplacementsApplied(doc: Node, ops: seq<PatchOp>, top: map<string, Node>, md: map<string, Node>,
                            sp: map<string, Node>, sp0: map<string, Node>, ls: Lists, us: seq<Item>)
    returns (sp': map<string, Node>)
    requires ApplyAll(doc, ops) == Ok(PodDoc(top, md, sp)) && At(sp0, sp, ls)
    requires ls.containers.written || us == []
    ensures |us| > |ls.containers.items| ==>
              ApplyAll(doc, ops + UpdateOps(us, Path(Member(Containers)))) == Err(NoTarget)
    ensures |us| <= |ls.containers.items| ==>
              && ApplyAll(doc, ops + UpdateOps(us, Path(Member(Containers)))) == Ok(PodDoc(top, md, sp'))
              && At(sp0, sp', ls.With(Containers, ListState(Overwrite(ls.containers.items, us), ls.containers.written)))
  {
    var items, f := ls.containers.items, Member(Containers);
    assert HoldsState(sp, f, ls.Of(Containers));
    ApplyAllConcat(doc, ops, UpdateOps(us, Path(f)));
    sp' := sp;
    if us == [] {
      assert Overwrite(items, us) == items;
      assert ls.With(Containers, ls.containers) == ls;
    } else {
      UpdateMeaning(top, md, sp, f, items, us);
      if |us| <= |items| {
        sp' := sp[f := List(Nodes(Overwrite(items, us)))];
        ListWritten(sp0, sp, ls, Containers, Overwrite(items, us));
      }
    }
  }

  lemma FailsEarly(doc: Node, a: seq<PatchOp>, b: seq<PatchOp>, e: PatchError)
    requires ApplyAll(doc, a) == Err(e)
    ensures ApplyAll(doc, a + b) == Err(e)
  {
    ApplyAllConcat(doc, a, b);
  }

  /** Java-agent mode edits the lists with the first |pod.containers| of them overwritten, and fails
      exactly when the removals took out more containers than were injected. */
  lemma JavaListsMeaning(top: map<string, Node>, md: map<string, Node>, sp: map<string, Node>,
                         pod: Pod, prev: Status, sic: Template, us: seq<Item>)
    returns (sp': map<string, Node>)
    requires At(sp, sp, StartLists(pod)) && |us| == |pod.containers|
    ensures var ops := ListOps(pod, prev, sic, UpdateOps(us, Path(Member(Containers))));
            var items := Surroundings(pod, prev, sic);
            if |us| > |items| then ApplyAll(PodDoc(top, md, sp), ops) == Err(NoTarget)
            else && ApplyAll(PodDoc(top, md, sp), ops) == Ok(PodDoc(top, md, sp'))
                 && At(sp, sp', GrownLists(pod, prev, sic,
                         ListState(Overwrite(items, us), Grown(pod, prev, sic, Containers).written)))
  {
    var doc, ops := PodDoc(top, md, sp), ContainerOps(pod, prev, sic);
    var update := UpdateOps(us, Path(Member(Containers)));
    var ls := HalfGrownLists(pod, prev, sic);
    var sp1 := ContainersMeaning(top, md, sp, pod, prev, sic);
    var sp2 := ReplacementsApplied(doc, ops, top, md, sp1, sp, ls, us);
    if |us| > |Surroundings(pod, prev, sic)| {
      sp' := sp;
      FailsEarly(doc, ops + update, AdditionsOf(pod, sic, Volumes), NoTarget);
      FailsEarly(doc, ops + update + AdditionsOf(pod, sic, Volumes), AdditionsOf(pod, sic, ImagePullSecrets), NoTarget);
    } else {
      var containers := ListState(Overwrite(Surroundings(pod, prev, sic), us), ls.containers.written);
      sp' := RemainderMeaning(doc, ops + update, top, md, sp, sp2, pod, prev, sic, containers);
    }
  }

  /** The main result for java-agent mode, without a version clash: the exact outcome. */
  lemma JavaPatchMeaning(top: map<string, Node>, md: map<string, Node>, sp: map<string, Node>,
                         pod: Pod, prev: Status, sic: Template, added: map<string, string>, ctx: Context)
    returns (md': map<string, Node>, sp': map<string, Node>)
    requires Represents(md, sp, pod) && pod.annotations.Some? && !VersionClash(pod, added)
    ensures var ops := JavaPatchOps(pod, prev, sic, added, ctx);
            if |pod.containers| > |Surroundings(pod, prev, sic)|
            then ApplyAll(PodDoc(top, md, sp), ops) == Err(NoTarget)
            else Delivers(top, md, sp, ops, md', sp', JavaPod(pod, prev, sic, added, ctx))
  {
    var doc, us := PodDoc(top, md, sp), Rewritten(pod, ctx);
    var update, target := UpdateOps(us, Path(Member(Containers))), WithVersion(pod.annotations.value);
    RepresentsStart(md, sp, pod);
    var sp1 := JavaListsMeaning(top, md, sp, pod, prev, sic, us);
    sp' := WithSettings(sp1, pod, sic);
    if |us| > |Surroundings(pod, prev, sic)| {
      md' := md;
      PatchFailsEarly(doc, pod, prev, sic, added, update, Some(target));
    } else {
      md' := OpsApplied(doc, top, md, sp1, pod, prev, sic, added, update, Some(target));
      FinalInjected(md, sp, md', sp1, pod, prev, sic, added,
                    ListState(Overwrite(Surroundings(pod, prev, sic), us), Grown(pod, prev, sic, Containers).written));
    }
  }

  lemma PatchFailsEarly(doc: Node, pod: Pod, prev: Status, sic: Template, added: map<string, string>,
                        update: seq<PatchOp>, target: Option<map<string, string>>)
    requires ApplyAll(doc, ListOps(pod, prev, sic, update)) == Err(NoTarget)
    ensures ApplyAll(doc, PatchOps(pod, prev, sic, added, update, target)) == Err(NoTarget)
  {
    var ops := ListOps(pod, prev, sic, update);
    var a, b := SettingOps(DNS, sic.dnsConfig), SettingOps(SECURITY, pod.securityContext);
    FailsEarly(doc, ops, a, NoTarget);
    FailsEarly(doc, ops + a, b, NoTarget);
    FailsEarly(doc, ops + a + b, AnnotationOps(target, SortedKeys(added.Keys), added), NoTarget);
  }

  // ---- The version clash ---------------------------------------------------------------------

  lemma {:induction false} AnnotationOpsConcat(target: map<string, string>, a: seq<string>, b: seq<string>,
                                               added: map<string, string>)
    requires forall k :: k in a + b ==> k in added
    requires forall k :: k in a || k in b ==> k in added
    ensures AnnotationOps(Some(target), a + b, added) ==
            AnnotationOps(Some(target), a, added) + AnnotationOps(Some(target), b, added)
    decreases |a|
  {
    if a == [] {
      assert a + b == b;
    } else {
      assert (a + b)[1..] == a[1..] + b && (a + b)[0] == a[0];
      assert forall k :: k in a[1..] + b ==> k in a + b;
      AnnotationOpsConcat(target, a[1..], b, added);
    }
  }

  /** A replace of a version the document does not have fails the annotation operations. */
  lemma ClashFails(top: map<string, Node>, md: map<string, Node>, sp: map<string, Node>,
                   a: map<string, string>, keys: seq<string>, i: nat, added: map<string, string>)
    requires (forall k :: k in keys ==> k in added) && i < |keys| && keys[i] == VERSION && VERSION !in keys[..i]
    requires HoldsAnnotations(md, Some(a)) && VERSION !in a && added[VERSION] != ""
    ensures ApplyAll(PodDoc(top, md, sp), AnnotationOps(Some(WithVersion(a)), keys, added)) == Err(NoTarget)
  {
    var target, pre, post := WithVersion(a), keys[..i], keys[i..];
    assert keys == pre + post && post[0] == VERSION;
    AnnotationOpsConcat(target, pre, post, added);
    var md' := AnnotationMeaning(top, md, sp, Some(target), Some(a), pre, added);
    var a' := Overlay(Some(a), Entries(pre, added)).value;
    assert VERSION !in a';
    var op := AnnotationOp(target, VERSION, added[VERSION]);
    AnnotationTokens(VERSION);
    AnnotationStep(top, md', sp, ANNOTATIONS + "/" + Escape(VERSION), VERSION, a', op, added[VERSION]);
    ApplyAllCons(PodDoc(top, md', sp), op, AnnotationOps(Some(target), post[1..], added));
    ApplyAllConcat(PodDoc(top, md, sp), AnnotationOps(Some(target), pre, added),
                   AnnotationOps(Some(target), post, added));
  }

  lemma ClashAtEnd(doc: Node, ops: seq<PatchOp>, top: map<string, Node>, md: map<string, Node>, sp: map<string, Node>,
                   a: map<string, string>, added: map<string, string>)
    requires ApplyAll(doc, ops) == Ok(PodDoc(top, md, sp)) && HoldsAnnotations(md, Some(a))
    requires VERSION !in a && VERSION in added && added[VERSION] != ""
    ensures ApplyAll(doc, ops + AnnotationOps(Some(WithVersion(a)), SortedKeys(added.Keys), added)) == Err(NoTarget)
  {
    var keys := SortedKeys(added.Keys);
    assert VERSION in keys;
    var i :| 0 <= i < |keys| && keys[i] == VERSION;
    ClashFails(top, md, sp, a, keys, i, added);
    ApplyAllConcat(doc, ops, AnnotationOps(Some(WithVersion(a)), keys, added));
  }

  /** If the injected annotations bring a version the pod lacks, the patch always fails. */
  lemma VersionClashFails(top: map<string, Node>, md: map<string, Node>, sp: map<string, Node>,
                          pod: Pod, prev: Status, sic: Template, added: map<string, string>, ctx: Context)
    requires Represents(md, sp, pod) && pod.annotations.Some? && VersionClash(pod, added)
    ensures ApplyAll(PodDoc(top, md, sp), JavaPatchOps(pod, prev, sic, added, ctx)) == Err(NoTarget)
  {
    var doc, us := PodDoc(top, md, sp), Rewritten(pod, ctx);
    var update, target := UpdateOps(us, Path(Member(Containers))), WithVersion(pod.annotations.value);
    RepresentsStart(md, sp, pod);
    var sp1 := JavaListsMeaning(top, md, sp, pod, prev, sic, us);
    if |us| > |Surroundings(pod, prev, sic)| {
      PatchFailsEarly(doc, pod, prev, sic, added, update, Some(target));
    } else {
      var ops := ListOps(pod, prev, sic, update);
      SettingsApplied(doc, ops, top, md, sp1, pod, sic);
      ops := ops + SettingOps(DNS, sic.dnsConfig) + SettingOps(SECURITY, pod.securityContext);
      ClashAtEnd(doc, ops, top, md, WithSettings(sp1, pod, sic), pod.annotations.value, added);
    }
  }

  // ---- What becomes of the containers --------------------------------------------------------

  /** The replacements bring back every removed container and bury as many injected ones. */
  lemma OverwriteBuries(pod: Pod, prev: Status, sic: Template, ctx: Context)
    requires pod.annotations.Some? && |pod.containers| <= |Surroundings(pod, prev, sic)|
    ensures var removed := |pod.containers| - |Keep(pod.containers, prev.Of(Containers))|;
            && 0 <= removed <= |sic.For(Containers, pod)|
            && Overwrite(Surroundings(pod, prev, sic), Rewritten(pod, ctx)) ==
                 Rewritten(pod, ctx) + sic.For(Containers, pod)[removed..]
  {
    KeepShortens(pod.containers, prev.Of(Containers));
    OverwriteConcat(Keep(pod.containers, prev.Of(Containers)), sic.For(Containers, pod), Rewritten(pod, ctx));
  }

  lemma OverwriteConcat(a: seq<Item>, b: seq<Item>, us: seq<Item>)
    requires |a| <= |us| <= |a| + |b|
    ensures Overwrite(a + b, us) == us + b[|us| - |a|..]
  {
  }

  lemma {:induction false} KeepShortens(items: seq<Item>, names: set<string>)
    ensures |Keep(items, names)| <= |items|
    ensures forall x <- Keep(items, names) :: x.name !in names
    ensures |Keep(items, names)| == |items| ==> Keep(items, names) == items
    ensures |Keep(items, names)| < |items| ==> exists x <- items :: x.name in names
  {
    if items != [] {
      assert items == items[..|items| - 1] + [items[|items| - 1]];
      KeepShortens(items[..|items| - 1], names);
    }
  }

  /** Java-agent mode delivers what is intended, every kept container with the agent and then the
      injected ones as added, exactly when nothing was removed; no template container may bring the
      agent mount itself. */
  lemma JavaIntended(pod: Pod, prev: Status, sic: Template, added: map<string, string>, ctx: Context)
    requires pod.annotations.Some? && |pod.containers| <= |Surroundings(pod, prev, sic)|
    requires forall x <- pod.containers :: x.Container?
    requires forall x <- sic.containers :: AGENT_MOUNT !in MountsOf(x)
    ensures var kept := Keep(pod.containers, prev.Of(Containers));
            JavaPod(pod, prev, sic, added, ctx).containers ==
              AllWithAgent(kept, Suffix(pod.annotations.value, ctx)) + sic.For(Containers, pod)
            <==> kept == pod.containers
  {
    var kept, inj := Keep(pod.containers, prev.Of(Containers)), sic.For(Containers, pod);
    var us := Rewritten(pod, ctx);
    var intended := AllWithAgent(kept, Suffix(pod.annotations.value, ctx)) + inj;
    var n := |kept|;
    KeepShortens(pod.containers, prev.Of(Containers));
    if n == |pod.containers| {
      assert Overwrite(kept + inj, us) == intended;
    } else {
      var x := pod.containers[n];
      assert x in pod.containers && us[n] == WithAgent(x, Suffix(pod.annotations.value, ctx));
      assert us[n].mounts[|x.mounts|] == AGENT_MOUNT;
      assert Overwrite(kept + inj, us)[n] == us[n] && intended[n] == inj[0];
      assert sic.containers[0] in sic.containers;
      FoundAtPath(pod.containers);
      GivenMounts(sic.containers[0], ServiceAccountMount(pod.containers));
    }
  }

  /** What a proxy is handed is not the agent mount. */
  lemma GivenMounts(x: Item, m: Option<Mount>)
    requires AGENT_MOUNT !in MountsOf(x) && (m.Some? ==> m.value.mountPath == SERVICE_ACCOUNT_PATH)
    ensures AGENT_MOUNT !in MountsOf(GiveMount(x, m))
  {
    assert AGENT_MOUNT.mountPath[1] == 'a' && SERVICE_ACCOUNT_PATH[1] == 'v';
  }

  // ---- Injecting again -----------------------------------------------------------------------

  function InjectJava(pod: Pod, sic: Template, version: string, extra: map<string, string>, c: Codec, ctx: Context): Pod
    requires pod.annotations.Some? && |pod.containers| <= |Surroundings(pod, InjectionStatus(pod, c), sic)|
  {
    JavaPod(pod, InjectionStatus(pod, c), sic, extra[STATUS := c.encode(StatusOf(sic, version))], ctx)
  }

  /** An injection that removes nothing. */
  lemma JavaFirstInjection(pod: Pod, sic: Template, version: string, extra: map<string, string>, c: Codec, ctx: Context)
    requires RoundTrips(c) && InjectsAnything(sic) && pod.annotations.Some?
    requires Clear(pod.containers, InjectionStatus(pod, c).Of(Containers))
    ensures |pod.containers| <= |Surroundings(pod, InjectionStatus(pod, c), sic)|
    ensures var once := InjectJava(pod, sic, version, extra, c, ctx);
            && once.containers == Rewritten(pod, ctx) + sic.For(Containers, pod)
            && once.annotations.Some? && InjectionStatus(once, c) == StatusOf(sic, version)
  {
    KeepLength(pod.containers, InjectionStatus(pod, c).Of(Containers));
    OverwriteBuries(pod, InjectionStatus(pod, c), sic, ctx);
    StatusReadBack(pod, sic, version, extra, c);
    assert InjectJava(pod, sic, version, extra, c, ctx).annotations == Inject(pod, sic, version, extra, c).annotations;
  }

  lemma RewrittenStay(pod: Pod, sic: Template, ctx: Context)
    requires pod.annotations.Some? && Clear(pod.containers, Names(sic.containers))
    ensures Keep(Rewritten(pod, ctx) + sic.For(Containers, pod), Names(sic.containers)) == Rewritten(pod, ctx)
  {
    var us := Rewritten(pod, ctx);
    KeepInjected(us, sic, pod, Containers);
    forall x | x in us ensures x.name !in Names(sic.containers) {
      var i :| 0 <= i < |us| && us[i] == x;
      assert pod.containers[i] in pod.containers;
    }
    KeepLength(us, Names(sic.containers));
  }

  /** The injection of a pod whose last injection was `sic` into `pod`. */
  lemma JavaNextInjection(once: Pod, pod: Pod, sic: Template, v1: string, v2: string,
                          extra: map<string, string>, c: Codec, ctx: Context)
    requires once.annotations.Some? && pod.annotations.Some? && Clear(pod.containers, Names(sic.containers))
    requires InjectionStatus(once, c) == StatusOf(sic, v1) && StatusOf(sic, v1).Of(Containers) == Names(sic.containers)
    requires once.containers == Rewritten(pod, ctx) + sic.For(Containers, pod)
    ensures |once.containers| <= |Surroundings(once, InjectionStatus(once, c), sic)|
    ensures InjectJava(once, sic, v2, extra, c, ctx).containers == Rewritten(once, ctx)
  {
    RewrittenStay(pod, sic, ctx);
    var items := Surroundings(once, InjectionStatus(once, c), sic);
    assert items == Rewritten(pod, ctx) + sic.For(Containers, once);
    assert |items| == |once.containers|;
    assert Overwrite(items, Rewritten(once, ctx)) == Rewritten(once, ctx);
  }

  /** Java-agent mode is not idempotent: after an injection that removed nothing, a second one gives
      every container, injected or not, the agent mount and options once more. */
  lemma JavaReinjectionDoubles(pod: Pod, sic: Template, v1: string, v2: string,
                               extra1: map<string, string>, extra2: map<string, string>, c: Codec, ctx: Context)
    requires RoundTrips(c) && InjectsAnything(sic) && pod.annotations.Some?
    requires Clear(pod.containers, InjectionStatus(pod, c).Of(Containers)) && Clear(pod.containers,
                                                                                    Names(sic.containers))
    ensures |pod.containers| <= |Surroundings(pod, InjectionStatus(pod, c), sic)|
    ensures var once := InjectJava(pod, sic, v1, extra1, c, ctx);
            && once.annotations.Some?
            && |once.containers| <= |Surroundings(once, InjectionStatus(once, c), sic)|
            && InjectJava(once, sic, v2, extra2, c, ctx).containers ==
                 AllWithAgent(once.containers, Suffix(once.annotations.value, ctx))
  {
    JavaFirstInjection(pod, sic, v1, extra1, c, ctx);
    StatusReadBack(pod, sic, v1, extra1, c);
    JavaNextInjection(InjectJava(pod, sic, v1, extra1, c, ctx), pod, sic, v1, v2, extra2, c, ctx);
  }
}
