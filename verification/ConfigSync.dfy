/** controller/configmap.go and polarisapi/config_api.go: ConfigMaps go up to Polaris as configuration
    files, and files come down as ConfigMaps. Marks on both sides keep an item from going round. */
module ConfigSync {
  import opened Wrappers

  const SYNC := "polarismesh.cn/sync"
  const GROUP := "polarismesh.cn/configGroup"
  const ENCRYPT := "polarismesh.cn/enableEncrypt"
  const ENCRYPT_ALGO := "polarismesh.cn/enableEncryptAlog"
  const SYNC_SOURCE := "internal-sync-source"
  const SOURCE_CLUSTER := "internal-sync-sourcecluster"
  const TO_KUBERNETES := "internal-sync-to-kubernetes"
  const FROM_KUBERNETES := "kubernetes"
  const FROM_POLARIS := "polaris"

  type Marks = map<string, string>

  /** `ignored` stands for an object in an ignored namespace; `data` for its content. */
  datatype ConfigMap = ConfigMap(ns: string, name: string, annotations: Marks, labels: Marks, data: string,
                                 ignored: bool)

  datatype Tag = Tag(key: string, value: string)

  datatype ConfigFile = ConfigFile(
    ns: string, group: string, name: string, content: string, encrypted: bool, algo: string, tags: seq<Tag>)

  datatype Config = Config(cluster: string, defaultGroup: string)

  // ---- Going up ------------------------------------------------------------------------------

  /** IsPolarisConfigMap: never what came from Polaris, then the object's own annotation, then its
      namespace's wish. */
  predicate IsPolarisConfigMap(cm: ConfigMap, ns: Option<bool>) {
    && !cm.ignored
    && !(SYNC_SOURCE in cm.annotations && cm.annotations[SYNC_SOURCE] == FROM_POLARIS)
    && if SYNC in cm.annotations then cm.annotations[SYNC] == "true" else ns == Some(true)
  }

  /** The marks syncConfigMap puts on the object before it goes up. */
  function Prepared(cm: ConfigMap, cfg: Config, adding: bool, ns: Option<bool>): ConfigMap {
    var a := if adding && IsPolarisConfigMap(cm, ns) then cm.annotations[SYNC := "true"] else cm.annotations;
    var group := if cfg.defaultGroup != "" then cfg.defaultGroup else cfg.cluster;
    cm.(annotations := if GROUP in a then a else a[GROUP := group], labels := cm.labels[SOURCE_CLUSTER := cfg.cluster])
  }

  predicate IsSetting(k: string, v: string) {
    (k == ENCRYPT && v == "true") || k == ENCRYPT_ALGO || k == GROUP
  }

  /** The tags of an uploaded object: its annotations but for the settings, its labels, and where it
      came from unless an annotation says so already. */
  predicate HasTag(cm: ConfigMap, t: Tag) {
    || (t.key in cm.annotations && cm.annotations[t.key] == t.value && !IsSetting(t.key, t.value))
    || (t.key in cm.labels && cm.labels[t.key] == t.value)
    || (SYNC_SOURCE !in cm.annotations && t == Tag(SYNC_SOURCE, FROM_KUBERNETES))
  }

  ghost predicate IsRequest(cm: ConfigMap, f: ConfigFile) {
    && f.ns == cm.ns && f.name == cm.name && f.content == cm.data
    && f.group == (if GROUP in cm.annotations then cm.annotations[GROUP] else "")
    && f.algo == (if ENCRYPT_ALGO in cm.annotations then cm.annotations[ENCRYPT_ALGO] else "")
    && f.encrypted == (ENCRYPT in cm.annotations && cm.annotations[ENCRYPT] == "true")
    && forall t :: t in f.tags <==> HasTag(cm, t)
  }

  lemma KeysDiffer()
    ensures ENCRYPT != ENCRYPT_ALGO && ENCRYPT != GROUP && ENCRYPT_ALGO != GROUP
    ensures SYNC_SOURCE != ENCRYPT && SYNC_SOURCE != ENCRYPT_ALGO && SYNC_SOURCE != GROUP && SYNC_SOURCE != SYNC
    ensures SYNC_SOURCE != SOURCE_CLUSTER
  {
    assert |ENCRYPT| == 28 && |ENCRYPT_ALGO| == 32 && |GROUP| == 26 && |SYNC_SOURCE| == 20 && |SYNC| == 19
           && |SOURCE_CLUSTER| == 27;
  }

  /** parseConfigFileRequest, whatever the order in which the two maps are walked. */
  method ParseConfigFileRequest(cm: ConfigMap) returns (f: ConfigFile)
    ensures IsRequest(cm, f)
  {
    f := ParseAnnotations(cm);
    var todo := cm.labels.Keys;
    ghost var before := f;
    while todo != {}
      invariant todo <= cm.labels.Keys
      invariant f == before.(tags := f.tags)
      invariant forall t :: t in f.tags <==>
                  t in before.tags || (t.key in cm.labels.Keys - todo && cm.labels[t.key] == t.value)
      decreases |todo|
    {
      var k :| k in todo;
      todo := todo - {k};
      f := f.(tags := f.tags + [Tag(k, cm.labels[k])]);
    }
    if SYNC_SOURCE !in cm.annotations {
      f := f.(tags := f.tags + [Tag(SYNC_SOURCE, FROM_KUBERNETES)]);
    }
  }

  /** The loop over the annotations. */
  method ParseAnnotations(cm: ConfigMap) returns (f: ConfigFile)
    ensures f.ns == cm.ns && f.name == cm.name && f.content == cm.data
    ensures f.group == if GROUP in cm.annotations then cm.annotations[GROUP] else ""
    ensures f.algo == if ENCRYPT_ALGO in cm.annotations then cm.annotations[ENCRYPT_ALGO] else ""
    ensures f.encrypted == (ENCRYPT in cm.annotations && cm.annotations[ENCRYPT] == "true")
    ensures forall t :: t in f.tags <==>
              t.key in cm.annotations && cm.annotations[t.key] == t.value && !IsSetting(t.key, t.value)
  {
    KeysDiffer();
    f := ConfigFile(cm.ns, "", cm.name, cm.data, false, "", []);
    var todo := cm.annotations.Keys;
    while todo != {}
      invariant todo <= cm.annotations.Keys
      invariant f.ns == cm.ns && f.name == cm.name && f.content == cm.data
      invariant f.group == if GROUP in cm.annotations.Keys - todo then cm.annotations[GROUP] else ""
      invariant f.algo == if ENCRYPT_ALGO in cm.annotations.Keys - todo then cm.annotations[ENCRYPT_ALGO] else ""
      invariant f.encrypted == (ENCRYPT in cm.annotations.Keys - todo && cm.annotations[ENCRYPT] == "true")
      invariant forall t :: t in f.tags <==>
                  t.key in cm.annotations.Keys - todo && cm.annotations[t.key] == t.value && !IsSetting(t.key, t.value)
      decreases |todo|
    {
      var k :| k in todo;
      todo := todo - {k};
      var v := cm.annotations[k];
      if k == ENCRYPT && v == "true" {
        f := f.(encrypted := true);
      } else if k == ENCRYPT_ALGO {
        f := f.(algo := v);
      } else if k == GROUP {
        f := f.(group := v);
      } else {
        f := f.(tags := f.tags + [Tag(k, v)]);
      }
    }
  }

  // ---- Coming down ---------------------------------------------------------------------------

  /** A file comes down if it is marked for it, is not from Kubernetes, and not from this cluster. */
  predicate Allowed(tags: seq<Tag>, cluster: string) {
    && Tag(TO_KUBERNETES, "true") in tags
    && Tag(SYNC_SOURCE, FROM_KUBERNETES) !in tags
    && Tag(SOURCE_CLUSTER, cluster) !in tags
  }

  /** allowSyncToConfigMap. */
  method AllowSyncToConfigMap(tags: seq<Tag>, cluster: string) returns (allowed: bool)
    ensures allowed <==> Allowed(tags, cluster)
  {
    var allowSync, isSourceFromK8s, isCycleSync := false, false, false;
    for i := 0 to |tags|
      invariant allowSync <==> Tag(TO_KUBERNETES, "true") in tags[..i]
      invariant isSourceFromK8s <==> Tag(SYNC_SOURCE, FROM_KUBERNETES) in tags[..i]
      invariant isCycleSync <==> Tag(SOURCE_CLUSTER, cluster) in tags[..i]
    {
      if tags[i].key == TO_KUBERNETES && tags[i].value == "true" {
        allowSync := true;
      }
      if tags[i].key == SYNC_SOURCE && tags[i].value == FROM_KUBERNETES {
        isSourceFromK8s := true;
      }
      if tags[i].key == SOURCE_CLUSTER && tags[i].value == cluster {
        isCycleSync := true;
      }
      assert tags[..i + 1] == tags[..i] + [tags[i]];
    }
    assert tags[..|tags|] == tags;
    allowed := allowSync && !isSourceFromK8s && !isCycleSync;
  }

  /** What fetchConfigFile writes, whatever labels the file brings. */
  function Downloaded(f: ConfigFile, labels: Marks): ConfigMap {
    ConfigMap(f.ns, f.group + "-" + f.name, map[SYNC_SOURCE := FROM_POLARIS], labels, f.content, false)
  }

  // ---- Refusals ------------------------------------------------------------------------------

  /** What a cluster uploads it refuses itself, whatever tags are added; if the object did not claim a
      source, every cluster refuses it. */
  lemma UploadRefused(cm: ConfigMap, cfg: Config, adding: bool, ns: Option<bool>, f: ConfigFile, extra: seq<Tag>,
                      cluster: string)
    requires IsRequest(Prepared(cm, cfg, adding, ns), f)
    ensures Tag(SOURCE_CLUSTER, cfg.cluster) in f.tags
    ensures !Allowed(f.tags + extra, cfg.cluster)
    ensures SYNC_SOURCE !in cm.annotations ==> !Allowed(f.tags + extra, cluster)
  {
    KeysDiffer();
    var p := Prepared(cm, cfg, adding, ns);
    assert HasTag(p, Tag(SOURCE_CLUSTER, cfg.cluster));
    if SYNC_SOURCE !in cm.annotations {
      assert HasTag(p, Tag(SYNC_SOURCE, FROM_KUBERNETES));
    }
  }

  predicate Says(m: Marks, k: string, v: string) {
    k in m && m[k] == v
  }

  /** Exactly when a second crossing is possible: object or added tags mark the file to come down, the object
      claims a source other than Kubernetes, and neither names Kubernetes as a source or the other cluster
      as an origin. */
  lemma UploadAllowedIff(cm: ConfigMap, cfg: Config, adding: bool, ns: Option<bool>, f: ConfigFile, extra: seq<Tag>,
                         cluster: string)
    requires IsRequest(Prepared(cm, cfg, adding, ns), f)
    ensures Allowed(f.tags + extra, cluster) <==>
            && (|| Says(cm.annotations, TO_KUBERNETES, "true") || Says(cm.labels, TO_KUBERNETES, "true")
                || Tag(TO_KUBERNETES, "true") in extra)
            && SYNC_SOURCE in cm.annotations && cm.annotations[SYNC_SOURCE] != FROM_KUBERNETES
            && !Says(cm.labels, SYNC_SOURCE, FROM_KUBERNETES) && Tag(SYNC_SOURCE, FROM_KUBERNETES) !in extra
            && cluster != cfg.cluster && !Says(cm.annotations, SOURCE_CLUSTER, cluster)
            && Tag(SOURCE_CLUSTER, cluster) !in extra
  {
    KeysDiffer();
    MoreKeysDiffer();
    var p := Prepared(cm, cfg, adding, ns);
    assert Tag(TO_KUBERNETES, "true") in f.tags <==> HasTag(p, Tag(TO_KUBERNETES, "true"));
    assert Tag(SYNC_SOURCE, FROM_KUBERNETES) in f.tags <==> HasTag(p, Tag(SYNC_SOURCE, FROM_KUBERNETES));
    assert Tag(SOURCE_CLUSTER, cluster) in f.tags <==> HasTag(p, Tag(SOURCE_CLUSTER, cluster));
  }

  lemma MoreKeysDiffer()
    ensures TO_KUBERNETES != SYNC && TO_KUBERNETES != GROUP && TO_KUBERNETES != ENCRYPT && TO_KUBERNETES != ENCRYPT_ALGO
    ensures TO_KUBERNETES != SOURCE_CLUSTER && TO_KUBERNETES != SYNC_SOURCE
    ensures SOURCE_CLUSTER != SYNC && SOURCE_CLUSTER != GROUP
    ensures SOURCE_CLUSTER != ENCRYPT && SOURCE_CLUSTER != ENCRYPT_ALGO
  {
    assert TO_KUBERNETES[0] == SOURCE_CLUSTER[0] == SYNC_SOURCE[0] == 'i';
    assert SYNC[0] == GROUP[0] == ENCRYPT[0] == ENCRYPT_ALGO[0] == 'p';
    assert TO_KUBERNETES[14] == 't' && SOURCE_CLUSTER[14] == 's' && SYNC_SOURCE[14] == 's';
  }

  /** What comes down never goes up again. */
  lemma DownloadRefused(f: ConfigFile, labels: Marks, ns: Option<bool>)
    ensures !IsPolarisConfigMap(Downloaded(f, labels), ns)
  {
  }

  // ---- Runs over many clusters ---------------------------------------------------------------

  datatype Place = Polaris | Cluster(name: string)

  /** A ConfigMap or file together with the places its content has come through. */
  datatype Object = Map(cm: ConfigMap, path: seq<Place>) | File(f: ConfigFile, path: seq<Place>)

  type World = set<Object>

  datatype Event =
    | WriteMap(cluster: string, cm: ConfigMap)
    | WriteFile(f: ConfigFile)
    | EditMap(map_: Object, cm: ConfigMap)
    | AddTags(file: Object, extra: seq<Tag>)
    | Upload(map_: Object, cfg: Config, adding: bool, ns: Option<bool>, f: ConfigFile)
    | Download(file: Object, cluster: string, labels: Marks)

  /** The object an event brings into the world. */
  function Product(e: Event): Object
    requires (e.EditMap? || e.Upload? ==> e.map_.Map?) && (e.AddTags? || e.Download? ==> e.file.File?)
  {
    match e
    case WriteMap(c, cm) => Map(cm, [Cluster(c)])
    case WriteFile(f) => File(f, [Polaris])
    case EditMap(m, cm) => Map(cm, m.path)
    case AddTags(o, extra) => File(o.f.(tags := o.f.tags + extra), o.path)
    case Upload(m, _, _, _, f) => File(f, m.path + [Polaris])
    case Download(o, c, labels) => Map(Downloaded(o.f, labels), o.path + [Cluster(c)])
  }

  function SourceMark(cm: ConfigMap): Option<string> {
    if SYNC_SOURCE in cm.annotations then Some(cm.annotations[SYNC_SOURCE]) else None
  }

  /** Users write what they like and edit what they like, except for the source mark of an object; tags
      are only added. The controllers act as their code does. */
  ghost predicate Legal(w: World, e: Event) {
    match e
    case WriteMap(_, _) => true
    case WriteFile(_) => true
    case EditMap(m, cm) => m in w && m.Map? && SourceMark(cm) == SourceMark(m.cm)
    case AddTags(o, _) => o in w && o.File?
    case Upload(m, cfg, adding, ns, f) =>
      && m in w && m.Map? && m.path != [] && m.path[|m.path| - 1] == Cluster(cfg.cluster)
      && IsPolarisConfigMap(Prepared(m.cm, cfg, adding, ns), ns) && IsRequest(Prepared(m.cm, cfg, adding, ns), f)
    case Download(o, c, _) => o in w && o.File? && Allowed(o.f.tags, c)
  }

  /** Users leave the reserved source annotation alone altogether. */
  predicate Unmarked(e: Event) {
    e.WriteMap? ==> SYNC_SOURCE !in e.cm.annotations
  }

  ghost predicate IsRun(worlds: seq<World>, events: seq<Event>) {
    && |worlds| == |events| + 1 && worlds[0] == {}
    && forall i :: 0 <= i < |events| ==>
         Legal(worlds[i], events[i]) && worlds[i + 1] == worlds[i] + {Product(events[i])}
  }

  /** Where an object can have come from, and the marks it then carries. */
  predicate Traced(o: Object) {
    match o
    case Map(cm, path) =>
      || (|path| == 1 && path[0].Cluster?)
      || (|path| == 2 && path[0] == Polaris && path[1].Cluster? && SourceMark(cm) == Some(FROM_POLARIS))
      || (|path| == 3 && path[0].Cluster? && path[1] == Polaris && path[2].Cluster? && path[0] != path[2]
          && SourceMark(cm) == Some(FROM_POLARIS))
    case File(f, path) =>
      || path == [Polaris]
      || (|path| == 2 && path[0].Cluster? && path[1] == Polaris && Tag(SOURCE_CLUSTER, path[0].name) in f.tags)
  }

  lemma ProductTraced(w: World, e: Event)
    requires (forall o <- w :: Traced(o)) && Legal(w, e)
    ensures Traced(Product(e))
  {
    match e
    case WriteMap(_, _) =>
    case WriteFile(_) =>
    case EditMap(m, cm) => assert Traced(m);
    case AddTags(o, extra) => assert Traced(o);
    case Upload(m, cfg, adding, ns, f) =>
      assert Traced(m);
      UploadRefused(m.cm, cfg, adding, ns, f, [], cfg.cluster);
      UploadedIsOwn(m.cm, cfg, adding, ns);
      assert m.path == [Cluster(cfg.cluster)];
    case Download(o, c, _) => assert Traced(o);
  }

  /** Preparing an object leaves its source mark alone. */
  lemma UploadedIsOwn(cm: ConfigMap, cfg: Config, adding: bool, ns: Option<bool>)
    ensures SourceMark(Prepared(cm, cfg, adding, ns)) == SourceMark(cm)
  {
    KeysDiffer();
  }

  /** In every run over any clusters, no content crosses between a cluster and Polaris more than twice,
      and content that crosses twice ends in another cluster than it started from. */
  lemma {:induction false} NoCycle(worlds: seq<World>, events: seq<Event>, i: nat)
    requires IsRun(worlds, events) && i < |worlds|
    ensures forall o <- worlds[i] :: Traced(o)
    ensures forall o <- worlds[i] :: |o.path| <= 3 && (|o.path| == 3 ==> o.path[0] != o.path[2])
  {
    if i > 0 {
      NoCycle(worlds, events, i - 1);
      ProductTraced(worlds[i - 1], events[i - 1]);
    }
  }

  /** A file that came up carries the Kubernetes mark. */
  predicate FromKubernetes(o: Object) {
    match o
    case Map(cm, path) => |path| == 1 ==> SourceMark(cm) == None
    case File(f, path) => |path| == 2 ==> Tag(SYNC_SOURCE, FROM_KUBERNETES) in f.tags
  }

  lemma ProductMarked(w: World, e: Event)
    requires (forall o <- w :: Traced(o) && FromKubernetes(o) && |o.path| <= 2) && Legal(w, e) && Unmarked(e)
    ensures FromKubernetes(Product(e)) && |Product(e).path| <= 2
  {
    match e
    case WriteMap(_, _) =>
    case WriteFile(_) =>
    case EditMap(m, cm) => assert FromKubernetes(m);
    case AddTags(o, extra) => assert FromKubernetes(o);
    case Upload(m, cfg, adding, ns, f) =>
      assert Traced(m) && FromKubernetes(m);
      UploadedIsOwn(m.cm, cfg, adding, ns);
      assert HasTag(Prepared(m.cm, cfg, adding, ns), Tag(SYNC_SOURCE, FROM_KUBERNETES));
    case Download(o, c, _) => assert Traced(o) && FromKubernetes(o);
  }

  /** If users leave the reserved annotation alone, nothing ever crosses twice. */
  lemma {:induction false} CrossesOnce(worlds: seq<World>, events: seq<Event>, i: nat)
    requires IsRun(worlds, events) && i < |worlds| && forall e <- events :: Unmarked(e)
    ensures forall o <- worlds[i] :: FromKubernetes(o) && |o.path| <= 2
  {
    if i > 0 {
      CrossesOnce(worlds, events, i - 1);
      NoCycle(worlds, events, i - 1);
      assert events[i - 1] in events;
      ProductMarked(worlds[i - 1], events[i - 1]);
    }
  }

  // ---- Two crossings do happen ---------------------------------------------------------------

  lemma Listed(s: set<Tag>) returns (ts: seq<Tag>)
    ensures forall t :: t in ts <==> t in s
  {
    ts := [];
    var todo := s;
    while todo != {}
      invariant todo <= s
      invariant forall t :: t in ts <==> t in s && t !in todo
      decreases |todo|
    {
      var t :| t in todo;
      ts, todo := ts + [t], todo - {t};
    }
  }

  /** Every object has a request. */
  lemma RequestExists(cm: ConfigMap) returns (f: ConfigFile)
    ensures IsRequest(cm, f)
  {
    var a := set k | k in cm.annotations && !IsSetting(k, cm.annotations[k]) :: Tag(k, cm.annotations[k]);
    var l := set k | k in cm.labels :: Tag(k, cm.labels[k]);
    var tags := Listed(a + l + if SYNC_SOURCE in cm.annotations then {} else {Tag(SYNC_SOURCE, FROM_KUBERNETES)});
    f := ConfigFile(cm.ns, if GROUP in cm.annotations then cm.annotations[GROUP] else "", cm.name, cm.data,
                    ENCRYPT in cm.annotations && cm.annotations[ENCRYPT] == "true",
                    if ENCRYPT_ALGO in cm.annotations then cm.annotations[ENCRYPT_ALGO] else "", tags);
    forall t ensures t in tags <==> HasTag(cm, t) {
      assert t in a <==> t.key in cm.annotations && cm.annotations[t.key] == t.value && !IsSetting(t.key, t.value);
      assert t in l <==> t.key in cm.labels && cm.labels[t.key] == t.value;
    }
  }

  /** A ConfigMap that claims a source of its own and asks to come down. */
  const CLAIMED := ConfigMap(
    "", "", map[SYNC_SOURCE := "elsewhere", SYNC := "true", TO_KUBERNETES := "true"], map[], "", false)

  lemma ClaimedGoesUp(cfg: Config, f: ConfigFile, cluster: string)
    requires IsRequest(Prepared(CLAIMED, cfg, false, None), f) && cluster != cfg.cluster
    ensures IsPolarisConfigMap(Prepared(CLAIMED, cfg, false, None), None) && Allowed(f.tags, cluster)
  {
    KeysDiffer();
    MoreKeysDiffer();
    assert SYNC != GROUP by { assert |SYNC| == 19 && |GROUP| == 26; }
    assert "elsewhere"[0] == 'e' && FROM_KUBERNETES[0] == 'k' && FROM_POLARIS[0] == 'p';
    UploadAllowedIff(CLAIMED, cfg, false, None, f, [], cluster);
    assert f.tags + [] == f.tags;
  }

  /** The bound is reached: such an object goes up from one cluster and comes down in another. */
  lemma CrossesTwice(a: string, b: string) returns (worlds: seq<World>, events: seq<Event>)
    requires a != b
    ensures IsRun(worlds, events)
    ensures exists o :: o in worlds[|events|] && o.path == [Cluster(a), Polaris, Cluster(b)]
  {
    var cfg := Config(a, "");
    var f := RequestExists(Prepared(CLAIMED, cfg, false, None));
    ClaimedGoesUp(cfg, f, b);
    var cm := Map(CLAIMED, [Cluster(a)]);
    var file := File(f, [Cluster(a), Polaris]);
    var e0, e1, e2 := WriteMap(a, CLAIMED), Upload(cm, cfg, false, None, f), Download(file, b, map[]);
    assert Product(e0) == cm && Product(e1) == file;
    events := [e0, e1, e2];
    worlds := [{}, {} + {cm}, {} + {cm} + {file}, {} + {cm} + {file} + {Product(e2)}];
    assert Legal(worlds[0], e0) && Legal(worlds[1], e1) && Legal(worlds[2], e2);
    assert Product(e2) in worlds[3];
  }
}
