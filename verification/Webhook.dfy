/** webhook.go: the patch an admission request is answered with, and what it does to the pod. */
module Webhook {
  import opened Wrappers
  import opened Text
  import opened JsonPatch
  import opened PodDocument
  import opened BasePatch
  import opened AnnotationPatch

  // ---- Pods, templates, statuses -------------------------------------------------------------

  datatype Pod = Pod(
    initContainers: seq<Item>,
    containers: seq<Item>,
    volumes: seq<Item>,
    imagePullSecrets: seq<Item>,
    dnsConfig: Option<Node>,
    securityContext: Option<Node>,
    annotations: Option<map<string, string>>)
  {
    function Of(l: ListName): seq<Item> {
      match l
      case InitContainers => initContainers
      case Containers => containers
      case Volumes => volumes
      case ImagePullSecrets => imagePullSecrets
    }
  }

  /** SidecarInjectionSpec, as the mode's patch builder completed it. */
  datatype Template = Template(
    initContainers: seq<Item>,
    containers: seq<Item>,
    volumes: seq<Item>,
    imagePullSecrets: seq<Item>,
    dnsConfig: Option<Node>)
  {
    function Of(l: ListName): seq<Item> {
      match l
      case InitContainers => initContainers
      case Containers => containers
      case Volumes => volumes
      case ImagePullSecrets => imagePullSecrets
    }

    /** What is appended to list `l` of `pod`: proxies also get the pod's service account mount. */
    function For(l: ListName, pod: Pod): seq<Item> {
      if l.InitContainers? || l.Containers?
      then GiveMounts(Of(l), ServiceAccountMount(pod.Of(l))) else Of(l)
    }
  }

  /** The names a previous injection recorded. */
  datatype Status = Status(
    version: string,
    initContainers: seq<string>,
    containers: seq<string>,
    volumes: seq<string>,
    imagePullSecrets: seq<string>)
  {
    function Of(l: ListName): set<string> {
      var names := match l
        case InitContainers => initContainers
        case Containers => containers
        case Volumes => volumes
        case ImagePullSecrets => imagePullSecrets;
      set n | n in names
    }
  }

  /** The document spells out the pod; unlisted members are free. */
  ghost predicate Represents(md: map<string, Node>, sp: map<string, Node>, pod: Pod) {
    && (forall l: ListName :: Holds(sp, Member(l), pod.Of(l)))
    && (pod.dnsConfig.Some? ==> DNS in sp && sp[DNS] == pod.dnsConfig.value)
    && (pod.securityContext.Some? ==> SECURITY in sp && sp[SECURITY] == pod.securityContext.value)
    && HoldsAnnotations(md, pod.annotations)
  }

  const DNS := "dnsConfig"
  const SECURITY := "securityContext"

  lemma MembersDiffer(l: ListName, k: ListName)
    ensures Member(l) != DNS && Member(l) != SECURITY
    ensures Member(l) == Member(k) ==> l == k
    ensures DNS != SECURITY && IsPlain(DNS) && IsPlain(SECURITY)
  {
    assert |Member(l)| == match l
      case InitContainers => 14
      case Containers => 10
      case Volumes => 7
      case ImagePullSecrets => 16;
    assert |DNS| == 9 && |SECURITY| == 15;
  }

  // ---- createPatch ---------------------------------------------------------------------------

  function RemovalsOf(pod: Pod, prev: Status, l: ListName): seq<PatchOp> {
    RemoveOps(pod.Of(l), prev.Of(l), Path(Member(l)))
  }

  /** A list is created exactly when it was empty before the removals. */
  function AdditionsOf(pod: Pod, sic: Template, l: ListName): seq<PatchOp> {
    AddOps(pod.Of(l) == [], sic.For(l, pod), Path(Member(l)))
  }

  function SettingOps(f: string, v: Option<Node>): seq<PatchOp> {
    if v.Some? then [Add(Path(f), v.value)] else []
  }

  /** All removals, then the additions to the two container lists. */
  function ContainerOps(pod: Pod, prev: Status, sic: Template): seq<PatchOp> {
    RemovalsOf(pod, prev, InitContainers) + RemovalsOf(pod, prev, Containers)
    + RemovalsOf(pod, prev, Volumes) + RemovalsOf(pod, prev, ImagePullSecrets)
    + AdditionsOf(pod, sic, InitContainers) + AdditionsOf(pod, sic, Containers)
  }

  /** The edits of the four lists. `update` holds the operations of the mode's patch builder on the
      original containers; mesh and dns mode have none. */
  function ListOps(pod: Pod, prev: Status, sic: Template, update: seq<PatchOp>): seq<PatchOp> {
    ContainerOps(pod, prev, sic) + update + AdditionsOf(pod, sic, Volumes) + AdditionsOf(pod, sic, ImagePullSecrets)
  }

  /** The whole patch. `target` is the annotation map updateAnnotation consults. */
  function PatchOps(pod: Pod, prev: Status, sic: Template, added: map<string, string>,
                    update: seq<PatchOp>, target: Option<map<string, string>>): seq<PatchOp>
  {
    ListOps(pod, prev, sic, update) + SettingOps(DNS, sic.dnsConfig) + SettingOps(SECURITY, pod.securityContext)
    + AnnotationOps(target, SortedKeys(added.Keys), added)
  }

  /** createPatch, for a patch builder whose update operations are `update` and that leaves the
      pod's annotation map as `target`. */
  method CreatePatch(pod: Pod, prev: Status, sic: Template, annotations: map<string, string>,
                     update: seq<PatchOp>, target: Option<map<string, string>>)
    returns (patch: seq<PatchOp>)
    ensures patch == PatchOps(pod, prev, sic, annotations, update, target)
  {
    patch := PatchLists(pod, prev, sic, update);
    ghost var lists := patch;
    if sic.dnsConfig.Some? {
      patch := patch + [Add(Path(DNS), sic.dnsConfig.value)];
    }
    assert patch == lists + SettingOps(DNS, sic.dnsConfig);
    ghost var settled := patch;
    if pod.securityContext.Some? {
      patch := patch + [Add(Path(SECURITY), pod.securityContext.value)];
    }
    assert patch == settled + SettingOps(SECURITY, pod.securityContext);
    var annotate := UpdateAnnotation(target, annotations);
    patch := patch + annotate;
  }

  /** The part of createPatch that edits the four lists: all removals before all additions. */
  method PatchLists(pod: Pod, prev: Status, sic: Template, update: seq<PatchOp>) returns (patch: seq<PatchOp>)
    ensures patch == ListOps(pod, prev, sic, update)
  {
    var removeInit := RemoveItems(pod.initContainers, prev.initContainers, Path(Member(InitContainers)));
    var remove := RemoveItems(pod.containers, prev.containers, Path(Member(Containers)));
    var removeVolumes := RemoveItems(pod.volumes, prev.volumes, Path(Member(Volumes)));
    var removeSecrets := RemoveItems(pod.imagePullSecrets, prev.imagePullSecrets, Path(Member(ImagePullSecrets)));
    var addInit := AddContainers(pod.initContainers, sic.initContainers, Path(Member(InitContainers)));
    var add := AddContainers(pod.containers, sic.containers, Path(Member(Containers)));
    var addVolumes := AddItems(pod.volumes, sic.volumes, Path(Member(Volumes)));
    var addSecrets := AddItems(pod.imagePullSecrets, sic.imagePullSecrets, Path(Member(ImagePullSecrets)));
    patch := removeInit + remove + removeVolumes + removeSecrets;
    patch := patch + addInit + add + update + addVolumes + addSecrets;
  }

  // ---- What the patch means ------------------------------------------------------------------

  /** The pod the injection aims at. */
  function InjectedPod(pod: Pod, prev: Status, sic: Template, added: map<string, string>): Pod {
    Pod(Keep(pod.initContainers, prev.Of(InitContainers)) + sic.For(InitContainers, pod),
        Keep(pod.containers, prev.Of(Containers)) + sic.For(Containers, pod),
        Keep(pod.volumes, prev.Of(Volumes)) + sic.For(Volumes, pod),
        Keep(pod.imagePullSecrets, prev.Of(ImagePullSecrets)) + sic.For(ImagePullSecrets, pod),
        if sic.dnsConfig.Some? then sic.dnsConfig else pod.dnsConfig,
        pod.securityContext,
        Overlay(pod.annotations, NonEmpty(added)))
  }

  function NonEmpty(added: map<string, string>): map<string, string> {
    map k | k in added && added[k] != "" :: added[k]
  }

  // ---- The four lists along the way ----------------------------------------------------------

  /** What a list holds, and whether it is known to be written out in the document. */
  datatype ListState = ListState(items: seq<Item>, written: bool)

  predicate HoldsState(sp: map<string, Node>, f: string, s: ListState) {
    Holds(sp, f, s.items) && (s.written ==> f in sp && sp[f] == List(Nodes(s.items)))
  }

  datatype Lists = Lists(
    initContainers: ListState, containers: ListState, volumes: ListState, imagePullSecrets: ListState)
  {
    function Of(l: ListName): ListState {
      match l
      case InitContainers => initContainers
      case Containers => containers
      case Volumes => volumes
      case ImagePullSecrets => imagePullSecrets
    }

    function With(l: ListName, s: ListState): (r: Lists)
      ensures forall k :: r.Of(k) == if k == l then s else Of(k)
    {
      match l
      case InitContainers => this.(initContainers := s)
      case Containers => this.(containers := s)
      case Volumes => this.(volumes := s)
      case ImagePullSecrets => this.(imagePullSecrets := s)
    }
  }

  ghost predicate Elsewhere(sp0: map<string, Node>, sp: map<string, Node>) {
    forall f :: (forall l: ListName :: Member(l) != f) ==> Same(sp0, sp, f)
  }

  /** The spec `sp` holds the lists `ls` and is otherwise as in `sp0`. */
  ghost predicate At(sp0: map<string, Node>, sp: map<string, Node>, ls: Lists) {
    Elsewhere(sp0, sp) && forall l: ListName :: HoldsState(sp, Member(l), ls.Of(l))
  }

  /** An operation that rewrites one list leaves the other lists and the rest of the spec alone. */
  lemma ListWritten(sp0: map<string, Node>, sp: map<string, Node>, ls: Lists, l: ListName, items: seq<Item>)
    requires At(sp0, sp, ls)
    ensures At(sp0, sp[Member(l) := List(Nodes(items))], ls.With(l, ListState(items, true)))
  {
    var sp' := sp[Member(l) := List(Nodes(items))];
    var ls' := ls.With(l, ListState(items, true));
    forall k: ListName ensures HoldsState(sp', Member(k), ls'.Of(k)) {
      if k != l {
        MembersDiffer(k, l);
        assert HoldsState(sp, Member(k), ls.Of(k));
      }
    }
    forall f | forall k: ListName :: Member(k) != f ensures Same(sp0, sp', f) {
      assert Member(l) != f && Same(sp0, sp, f);
    }
  }

  lemma ListUnchanged(sp0: map<string, Node>, sp: map<string, Node>, ls: Lists, l: ListName, s: ListState)
    requires At(sp0, sp, ls) && HoldsState(sp, Member(l), s)
    ensures At(sp0, sp, ls.With(l, s))
  {
    forall k: ListName ensures HoldsState(sp, Member(k), ls.With(l, s).Of(k)) {
      assert HoldsState(sp, Member(k), ls.Of(k));
    }
  }

  function StartLists(pod: Pod): Lists {
    Lists(ListState(pod.initContainers, false), ListState(pod.containers, false),
          ListState(pod.volumes, false), ListState(pod.imagePullSecrets, false))
  }

  /** After its removals a list is written out whenever it was not empty before. */
  function Stripped(pod: Pod, prev: Status, l: ListName): ListState {
    ListState(Keep(pod.Of(l), prev.Of(l)), pod.Of(l) != [])
  }

  function Grown(pod: Pod, prev: Status, sic: Template, l: ListName): ListState {
    ListState(Keep(pod.Of(l), prev.Of(l)) + sic.For(l, pod), pod.Of(l) != [] || sic.For(l, pod) != [])
  }

  /** One more list stripped, after the operations `ops` have been applied to `doc`. */
  lemma RemovalsMeaning(
    doc: Node, ops: seq<PatchOp>, top: map<string, Node>, md: map<string, Node>, sp0: map<string, Node>,
    sp: map<string, Node>, ls: Lists, pod: Pod, prev: Status, l: ListName)
    returns (sp': map<string, Node>)
    requires ApplyAll(doc, ops) == Ok(PodDoc(top, md, sp))
    requires At(sp0, sp, ls) && ls.Of(l).items == pod.Of(l)
    ensures ApplyAll(doc, ops + RemovalsOf(pod, prev, l)) == Ok(PodDoc(top, md, sp'))
    ensures At(sp0, sp', ls.With(l, Stripped(pod, prev, l)))
  {
    var f, items, names := Member(l), pod.Of(l), prev.Of(l);
    assert HoldsState(sp, f, ls.Of(l));
    if items == [] {
      sp' := sp;
      ListUnchanged(sp0, sp, ls, l, Stripped(pod, prev, l));
    } else {
      assert items + [] == items && Keep(items, names) + [] == Keep(items, names);
      RemoveMeaning(top, md, sp, f, items, [], names);
      sp' := sp[f := List(Nodes(Keep(items, names)))];
      ListWritten(sp0, sp, ls, l, Keep(items, names));
    }
    ApplyInTurn(doc, ops, PodDoc(top, md, sp), RemovalsOf(pod, prev, l), PodDoc(top, md, sp'));
  }

  /** One more list grown. */
  lemma AdditionsMeaning(
    doc: Node, ops: seq<PatchOp>, top: map<string, Node>, md: map<string, Node>, sp0: map<string, Node>,
    sp: map<string, Node>, ls: Lists, pod: Pod, prev: Status, sic: Template, l: ListName)
    returns (sp': map<string, Node>)
    requires ApplyAll(doc, ops) == Ok(PodDoc(top, md, sp))
    requires At(sp0, sp, ls) && ls.Of(l) == Stripped(pod, prev, l)
    ensures ApplyAll(doc, ops + AdditionsOf(pod, sic, l)) == Ok(PodDoc(top, md, sp'))
    ensures At(sp0, sp', ls.With(l, Grown(pod, prev, sic, l)))
  {
    var kept, extra := Keep(pod.Of(l), prev.Of(l)), sic.For(l, pod);
    assert HoldsState(sp, Member(l), ls.Of(l));
    AddMeaning(top, md, sp, Member(l), pod.Of(l) == [], kept, extra);
    if extra == [] {
      sp' := sp;
      assert kept + extra == kept;
      ListUnchanged(sp0, sp, ls, l, Grown(pod, prev, sic, l));
    } else {
      sp' := sp[Member(l) := List(Nodes(kept + extra))];
      ListWritten(sp0, sp, ls, l, kept + extra);
    }
    ApplyInTurn(doc, ops, PodDoc(top, md, sp), AdditionsOf(pod, sic, l), PodDoc(top, md, sp'));
  }

  /** The four removals in a row. */
  lemma StripMeaning(top: map<string, Node>, md: map<string, Node>, sp: map<string, Node>, pod: Pod, prev: Status)
    returns (sp': map<string, Node>)
    requires At(sp, sp, StartLists(pod))
    ensures ApplyAll(PodDoc(top, md, sp),
                     RemovalsOf(pod, prev, InitContainers) + RemovalsOf(pod, prev, Containers)
                     + RemovalsOf(pod, prev, Volumes) + RemovalsOf(pod, prev, ImagePullSecrets))
            == Ok(PodDoc(top, md, sp'))
    ensures At(sp, sp', StrippedLists(pod, prev))
  {
    var doc, ops, ls := PodDoc(top, md, sp), RemovalsOf(pod, prev, InitContainers), StartLists(pod);
    var sp1 := RemovalsMeaning(doc, [], top, md, sp, sp, ls, pod, prev, InitContainers);
    assert [] + ops == ops;
    ls := ls.With(InitContainers, Stripped(pod, prev, InitContainers));
    var sp2 := RemovalsMeaning(doc, ops, top, md, sp, sp1, ls, pod, prev, Containers);
    ops, ls := ops + RemovalsOf(pod, prev, Containers), ls.With(Containers, Stripped(pod, prev, Containers));
    var sp3 := RemovalsMeaning(doc, ops, top, md, sp, sp2, ls, pod, prev, Volumes);
    ops, ls := ops + RemovalsOf(pod, prev, Volumes), ls.With(Volumes, Stripped(pod, prev, Volumes));
    sp' := RemovalsMeaning(doc, ops, top, md, sp, sp3, ls, pod, prev, ImagePullSecrets);
  }

  function StrippedLists(pod: Pod, prev: Status): Lists {
    Lists(Stripped(pod, prev, InitContainers), Stripped(pod, prev, Containers),
          Stripped(pod, prev, Volumes), Stripped(pod, prev, ImagePullSecrets))
  }

  /** The lists once the containers have been added. */
  function HalfGrownLists(pod: Pod, prev: Status, sic: Template): Lists {
    Lists(Grown(pod, prev, sic, InitContainers), Grown(pod, prev, sic, Containers),
          Stripped(pod, prev, Volumes), Stripped(pod, prev, ImagePullSecrets))
  }

  /** All the lists, with `containers` for what the update operations made of the containers. */
  function GrownLists(pod: Pod, prev: Status, sic: Template, containers: ListState): Lists {
    Lists(Grown(pod, prev, sic, InitContainers), containers,
          Grown(pod, prev, sic, Volumes), Grown(pod, prev, sic, ImagePullSecrets))
  }

  lemma ContainersMeaning(top: map<string, Node>, md: map<string, Node>, sp: map<string, Node>,
                          pod: Pod, prev: Status, sic: Template)
    returns (sp': map<string, Node>)
    requires At(sp, sp, StartLists(pod))
    ensures ApplyAll(PodDoc(top, md, sp), ContainerOps(pod, prev, sic)) == Ok(PodDoc(top, md, sp'))
    ensures At(sp, sp', HalfGrownLists(pod, prev, sic))
  {
    var doc, ls := PodDoc(top, md, sp), StrippedLists(pod, prev);
    var sp0 := StripMeaning(top, md, sp, pod, prev);
    var ops := RemovalsOf(pod, prev, InitContainers) + RemovalsOf(pod, prev, Containers)
      + RemovalsOf(pod, prev, Volumes) + RemovalsOf(pod, prev, ImagePullSecrets);
    var sp1 := AdditionsMeaning(doc, ops, top, md, sp, sp0, ls, pod, prev, sic, InitContainers);
    ops, ls := ops + AdditionsOf(pod, sic, InitContainers), ls.With(InitContainers,
                                                                    Grown(pod, prev, sic, InitContainers));
    sp' := AdditionsMeaning(doc, ops, top, md, sp, sp1, ls, pod, prev, sic, Containers);
  }

  /** The additions to volumes and pull secrets, after whatever was done to the containers. */
  lemma RemainderMeaning(doc: Node, ops: seq<PatchOp>, top: map<string, Node>, md: map<string, Node>,
                         sp0: map<string, Node>, sp: map<string, Node>,
                         pod: Pod, prev: Status, sic: Template, containers: ListState)
    returns (sp': map<string, Node>)
    requires ApplyAll(doc, ops) == Ok(PodDoc(top, md, sp))
    requires At(sp0, sp, HalfGrownLists(pod, prev, sic).With(Containers, containers))
    ensures ApplyAll(doc, ops + AdditionsOf(pod, sic, Volumes) + AdditionsOf(pod, sic, ImagePullSecrets)) ==
            Ok(PodDoc(top, md, sp'))
    ensures At(sp0, sp', GrownLists(pod, prev, sic, containers))
  {
    var ls := HalfGrownLists(pod, prev, sic).With(Containers, containers);
    var sp1 := AdditionsMeaning(doc, ops, top, md, sp0, sp, ls, pod, prev, sic, Volumes);
    ls := ls.With(Volumes, Grown(pod, prev, sic, Volumes));
    sp' := AdditionsMeaning(doc, ops + AdditionsOf(pod, sic, Volumes), top, md, sp0, sp1, ls, pod, prev, sic,
                            ImagePullSecrets);
  }

  /** The list edits without updates: each list ends up stripped of the old injection and followed by
      the new one, and nothing else in the spec changes. */
  lemma ListsMeaning(top: map<string, Node>, md: map<string, Node>, sp: map<string, Node>,
                     pod: Pod, prev: Status, sic: Template)
    returns (sp': map<string, Node>)
    requires At(sp, sp, StartLists(pod))
    ensures ApplyAll(PodDoc(top, md, sp), ListOps(pod, prev, sic, [])) == Ok(PodDoc(top, md, sp'))
    ensures At(sp, sp', GrownLists(pod, prev, sic, Grown(pod, prev, sic, Containers)))
  {
    var doc, ops := PodDoc(top, md, sp), ContainerOps(pod, prev, sic);
    var sp1 := ContainersMeaning(top, md, sp, pod, prev, sic);
    assert ops + [] == ops;
    var grown := Grown(pod, prev, sic, Containers);
    assert HalfGrownLists(pod, prev, sic).With(Containers, grown) == HalfGrownLists(pod, prev, sic);
    sp' := RemainderMeaning(doc, ops, top, md, sp, sp1, pod, prev, sic, grown);
  }

  // ---- Settings and annotations --------------------------------------------------------------

  lemma SettingMeaning(top: map<string, Node>, md: map<string, Node>, sp: map<string, Node>, f: string, v: Option<Node>)
    requires IsPlain(f)
    ensures ApplyAll(PodDoc(top, md, sp), SettingOps(f, v)) ==
            Ok(PodDoc(top, md, if v.Some? then sp[f := v.value] else sp))
  {
    if v.Some? {
      SpecTokens(f);
      ApplyAtMember(top, md, sp, f, Add(Path(f), v.value));
      ApplyAllCons(PodDoc(top, md, sp), Add(Path(f), v.value), []);
    }
  }

  /** The members createPatch may write to. */
  ghost predicate IsTouched(f: string) {
    f == DNS || exists l: ListName :: Member(l) == f
  }

  function WithSettings(sp: map<string, Node>, pod: Pod, sic: Template): map<string, Node> {
    var sp1 := if sic.dnsConfig.Some? then sp[DNS := sic.dnsConfig.value] else sp;
    if pod.securityContext.Some? then sp1[SECURITY := pod.securityContext.value] else sp1
  }

  /** Writing the two settings leaves the lists alone, and the security context is the pod's own. */
  lemma SettingsMeaning(md: map<string, Node>, sp: map<string, Node>, sp1: map<string, Node>,
                        pod: Pod, sic: Template, ls: Lists)
    requires Represents(md, sp, pod) && At(sp, sp1, ls)
    ensures var sp' := WithSettings(sp1, pod, sic);
            var dns := if sic.dnsConfig.Some? then sic.dnsConfig else pod.dnsConfig;
            && (forall l: ListName :: HoldsState(sp', Member(l), ls.Of(l)))
            && (dns.Some? ==> DNS in sp' && sp'[DNS] == dns.value)
            && (pod.securityContext.Some? ==> SECURITY in sp' && sp'[SECURITY] == pod.securityContext.value)
            && (forall f :: !IsTouched(f) ==> Same(sp, sp', f))
  {
    var sp' := WithSettings(sp1, pod, sic);
    forall l: ListName ensures HoldsState(sp', Member(l), ls.Of(l)) && Member(l) != DNS && Member(l) != SECURITY {
      MembersDiffer(l, l);
      assert HoldsState(sp1, Member(l), ls.Of(l));
    }
    MembersDiffer(Volumes, Volumes);
    assert Same(sp, sp1, DNS) && Same(sp, sp1, SECURITY);
    forall f | !IsTouched(f) ensures Same(sp, sp', f) {
      assert forall l: ListName :: Member(l) != f;
      assert Same(sp, sp1, f);
    }
  }

  /** What the finished document represents, from what its parts hold. */
  lemma FinalDocument(md: map<string, Node>, sp: map<string, Node>, md': map<string, Node>, sp1: map<string, Node>,
                      pod: Pod, sic: Template, ls: Lists, final: Pod)
    requires Represents(md, sp, pod) && At(sp, sp1, ls)
    requires forall l: ListName :: final.Of(l) == ls.Of(l).items
    requires final.dnsConfig == if sic.dnsConfig.Some? then sic.dnsConfig else pod.dnsConfig
    requires final.securityContext == pod.securityContext && HoldsAnnotations(md', final.annotations)
    ensures Represents(md', WithSettings(sp1, pod, sic), final)
    ensures forall f :: !IsTouched(f) ==> Same(sp, WithSettings(sp1, pod, sic), f)
  {
    SettingsMeaning(md, sp, sp1, pod, sic, ls);
    forall l: ListName ensures Holds(WithSettings(sp1, pod, sic), Member(l), final.Of(l)) {
      assert HoldsState(WithSettings(sp1, pod, sic), Member(l), ls.Of(l));
    }
  }

  lemma SettingsApplied(doc: Node, ops: seq<PatchOp>, top: map<string, Node>, md: map<string, Node>,
                        sp: map<string, Node>, pod: Pod, sic: Template)
    requires ApplyAll(doc, ops) == Ok(PodDoc(top, md, sp))
    ensures ApplyAll(doc, ops + SettingOps(DNS, sic.dnsConfig) + SettingOps(SECURITY, pod.securityContext)) ==
            Ok(PodDoc(top, md, WithSettings(sp, pod, sic)))
  {
    var sp1 := if sic.dnsConfig.Some? then sp[DNS := sic.dnsConfig.value] else sp;
    MembersDiffer(Volumes, Volumes);
    SettingMeaning(top, md, sp, DNS, sic.dnsConfig);
    ApplyInTurn(doc, ops, PodDoc(top, md, sp), SettingOps(DNS, sic.dnsConfig), PodDoc(top, md, sp1));
    SettingMeaning(top, md, sp1, SECURITY, pod.securityContext);
    ApplyInTurn(doc, ops + SettingOps(DNS, sic.dnsConfig), PodDoc(top, md, sp1),
                SettingOps(SECURITY, pod.securityContext), PodDoc(top, md, WithSettings(sp, pod, sic)));
  }

  lemma AllEntries(added: map<string, string>)
    ensures Entries(SortedKeys(added.Keys), added) == NonEmpty(added)
  {
  }

  /** The annotation operations come last. */
  lemma AnnotationsApplied(doc: Node, ops: seq<PatchOp>, top: map<string, Node>, md: map<string, Node>,
                           sp: map<string, Node>, target: Option<map<string, string>>,
                           current: Option<map<string, string>>, added: map<string, string>)
    returns (md': map<string, Node>)
    requires ApplyAll(doc, ops) == Ok(PodDoc(top, md, sp)) && HoldsAnnotations(md, current)
    requires target.Some? <==> current.Some?
    requires target.Some? ==> forall k :: k in added && k in target.value && target.value[k] != "" ==>
                                             added[k] == "" || k in current.value
    ensures ApplyAll(doc, ops + AnnotationOps(target, SortedKeys(added.Keys), added)) == Ok(PodDoc(top, md', sp))
    ensures HoldsAnnotations(md', Overlay(current, NonEmpty(added)))
    ensures forall f :: f != "annotations" ==> Same(md, md', f)
  {
    var keys := SortedKeys(added.Keys);
    md' := AnnotationMeaning(top, md, sp, target, current, keys, added);
    AllEntries(added);
    ApplyInTurn(doc, ops, PodDoc(top, md, sp), AnnotationOps(target, keys, added), PodDoc(top, md', sp));
  }

  lemma RepresentsStart(md: map<string, Node>, sp: map<string, Node>, pod: Pod)
    requires Represents(md, sp, pod)
    ensures At(sp, sp, StartLists(pod))
  {
    forall l: ListName ensures HoldsState(sp, Member(l), StartLists(pod).Of(l)) {
      assert Holds(sp, Member(l), pod.Of(l));
    }
  }

  lemma InjectedLists(pod: Pod, prev: Status, sic: Template, added: map<string, string>, l: ListName)
    ensures InjectedPod(pod, prev, sic, added).Of(l) ==
            GrownLists(pod, prev, sic, Grown(pod, prev, sic, Containers)).Of(l).items
  {
    match l
    case InitContainers =>
    case Containers =>
    case Volumes =>
    case ImagePullSecrets =>
  }

  /** What the finished document represents; `containers` is what has become of the containers. */
  lemma FinalInjected(md: map<string, Node>, sp: map<string, Node>, md': map<string, Node>, sp1: map<string, Node>,
                      pod: Pod, prev: Status, sic: Template, added: map<string, string>, containers: ListState)
    requires Represents(md, sp, pod) && At(sp, sp1, GrownLists(pod, prev, sic, containers))
    requires HoldsAnnotations(md', Overlay(pod.annotations, NonEmpty(added)))
    ensures Represents(md', WithSettings(sp1, pod, sic),
                       InjectedPod(pod, prev, sic, added).(containers := containers.items))
    ensures forall f :: !IsTouched(f) ==> Same(sp, WithSettings(sp1, pod, sic), f)
  {
    var final := InjectedPod(pod, prev, sic, added).(containers := containers.items);
    forall l: ListName ensures final.Of(l) == GrownLists(pod, prev, sic, containers).Of(l).items {
      InjectedLists(pod, prev, sic, added, l);
    }
    FinalDocument(md, sp, md', sp1, pod, sic, GrownLists(pod, prev, sic, containers), final);
  }

  /** From the edited lists to the end of the patch. */
  lemma OpsApplied(doc: Node, top: map<string, Node>, md: map<string, Node>, sp1: map<string, Node>,
                   pod: Pod, prev: Status, sic: Template, added: map<string, string>,
                   update: seq<PatchOp>, target: Option<map<string, string>>)
    returns (md': map<string, Node>)
    requires ApplyAll(doc, ListOps(pod, prev, sic, update)) == Ok(PodDoc(top, md, sp1))
    requires HoldsAnnotations(md, pod.annotations)
    requires target.Some? <==> pod.annotations.Some?
    requires target.Some? ==>
               forall k :: k in added && k in target.value && target.value[k] != "" ==>
                             added[k] == "" || k in pod.annotations.value
    ensures ApplyAll(doc, PatchOps(pod, prev, sic, added, update, target)) == Ok(PodDoc(top, md',
                                                                                        WithSettings(sp1, pod, sic)))
    ensures HoldsAnnotations(md', Overlay(pod.annotations, NonEmpty(added)))
    ensures forall f :: f != "annotations" ==> Same(md, md', f)
  {
    var ops := ListOps(pod, prev, sic, update);
    SettingsApplied(doc, ops, top, md, sp1, pod, sic);
    ops := ops + SettingOps(DNS, sic.dnsConfig) + SettingOps(SECURITY, pod.securityContext);
    md' := AnnotationsApplied(doc, ops, top, md, WithSettings(sp1, pod, sic), target, pod.annotations, added);
  }

  /** The operations take the document to one of the pod `final` and leave everything else alone. */
  ghost predicate Delivers(top: map<string, Node>, md: map<string, Node>, sp: map<string, Node>, ops: seq<PatchOp>,
                           md': map<string, Node>, sp': map<string, Node>, final: Pod)
  {
    && ApplyAll(PodDoc(top, md, sp), ops) == Ok(PodDoc(top, md', sp'))
    && Represents(md', sp', final)
    && (forall f :: !IsTouched(f) ==> Same(sp, sp', f))
    && (forall f :: f != "annotations" ==> Same(md, md', f))
  }

  /** The main result for mesh and dns mode: applied to a document of the pod, the patch never misses a
      target, yields a document of the injected pod, and changes nothing else. */
  lemma PatchMeaning(top: map<string, Node>, md: map<string, Node>, sp: map<string, Node>,
                     pod: Pod, prev: Status, sic: Template, added: map<string, string>)
    returns (md': map<string, Node>, sp': map<string, Node>)
    requires Represents(md, sp, pod)
    ensures Delivers(top, md, sp, PatchOps(pod, prev, sic, added, [], pod.annotations), md', sp',
                     InjectedPod(pod, prev, sic, added))
  {
    RepresentsStart(md, sp, pod);
    var sp1 := ListsMeaning(top, md, sp, pod, prev, sic);
    sp' := WithSettings(sp1, pod, sic);
    md' := OpsApplied(PodDoc(top, md, sp), top, md, sp1, pod, prev, sic, added, [], pod.annotations);
    FinalInjected(md, sp, md', sp1, pod, prev, sic, added, Grown(pod, prev, sic, Containers));
    InjectedLists(pod, prev, sic, added, Containers);
  }
}
