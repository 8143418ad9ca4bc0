/** controller/configmap.go, PolarisConfigWatcher: the index of files to bring down, three levels deep,
    filled by a fetching and a receiving goroutine. */
module ConfigWatcher {
  import opened Wrappers
  import opened ConfigSync

  /** File versions by namespace, group and file name. */
  type Bucket = map<string, nat>
  type Index = map<string, map<string, Bucket>>
  type Groups = map<string, set<string>>

  /** One file mentioned in a response. */
  datatype Mention = Mention(ns: string, group: string, name: string, tags: seq<Tag>, version: nat)

  datatype FileId = FileId(ns: string, group: string, name: string)

  predicate HasBucket(index: Index, ns: string, group: string) {
    ns in index && group in index[ns]
  }

  function Find(index: Index, f: FileId): Option<nat> {
    if HasBucket(index, f.ns, f.group) && f.name in index[f.ns][f.group]
    then Some(index[f.ns][f.group][f.name]) else None
  }

  predicate About(m: Mention, f: FileId) {
    m.ns == f.ns && m.group == f.group && m.name == f.name
  }

  /** What one mention makes of a bucket: an allowed file is entered, or raised to a version that is not
      older; any other is dropped. */
  function Heard(bucket: Bucket, m: Mention, cluster: string): Bucket {
    if !Allowed(m.tags, cluster) then bucket - {m.name}
    else if m.name !in bucket || bucket[m.name] <= m.version then bucket[m.name := m.version]
    else bucket
  }

  function HeardAt(index: Index, m: Mention, cluster: string): Index
    requires HasBucket(index, m.ns, m.group)
  {
    index[m.ns := index[m.ns][m.group := Heard(index[m.ns][m.group], m, cluster)]]
  }

  /** After all the mentions of a history. */
  function HeardAll(index: Index, history: seq<Mention>, cluster: string): (r: Index)
    requires forall m <- history :: HasBucket(index, m.ns, m.group)
    ensures forall ns, g :: HasBucket(r, ns, g) <==> HasBucket(index, ns, g)
  {
    if history == [] then index
    else
      var m := history[|history| - 1];
      assert m in history;
      HeardAt(HeardAll(index, history[..|history| - 1], cluster), m, cluster)
  }

  function WithGroup(groups: Groups, ns: string, g: string): Groups
    requires ns in groups
  {
    groups[ns := groups[ns] + {g}]
  }

  function WithBucket(index: Index, ns: string, g: string): Index
    requires ns in index
  {
    if g in index[ns] then index else index[ns := index[ns][g := map[]]]
  }

  function WithGroups(groups: Groups, ns: string, names: seq<string>): (r: Groups)
    requires ns in groups
    ensures r.Keys == groups.Keys && (forall m <- groups :: m != ns ==> r[m] == groups[m])
    ensures forall g :: g in r[ns] <==> g in groups[ns] || g in names
  {
    if names == [] then groups
    else
      assert names == names[..|names| - 1] + [names[|names| - 1]];
      WithGroup(WithGroups(groups, ns, names[..|names| - 1]), ns, names[|names| - 1])
  }

  function WithBuckets(index: Index, ns: string, names: seq<string>): (r: Index)
    requires ns in index
    ensures r.Keys == index.Keys
    ensures forall m, g :: HasBucket(r, m, g) <==> HasBucket(index, m, g) || (m == ns && g in names)
    ensures forall f :: Find(r, f) == Find(index, f)
  {
    if names == [] then index
    else
      var last := names[|names| - 1];
      assert forall g :: g in names <==> g in names[..|names| - 1] || g == last by {
        assert names == names[..|names| - 1] + [last];
      }
      var before := WithBuckets(index, ns, names[..|names| - 1]);
      BucketAdded(before, ns, last);
      WithBucket(before, ns, last)
  }

  lemma BucketAdded(index: Index, ns: string, g: string)
    requires ns in index
    ensures forall m, h :: HasBucket(WithBucket(index, ns, g), m, h) <==> HasBucket(index, m, h) || (m == ns && h == g)
    ensures forall f :: Find(WithBucket(index, ns, g), f) == Find(index, f)
  {
  }

  class Watcher {
    const cluster: string
    var groups: Groups
    var needSyncFiles: Index

    constructor (cluster: string)
      ensures this.cluster == cluster && groups == map[] && needSyncFiles == map[]
    {
      this.cluster := cluster;
      groups := map[];
      needSyncFiles := map[];
    }

    /** What fetchGroups does before it sends its request. */
    method PrepareNamespace(ns: string)
      modifies this
      ensures groups == if ns in old(groups) then old(groups) else old(groups)[ns := {}]
      ensures needSyncFiles == if ns in old(needSyncFiles) then old(needSyncFiles) else old(needSyncFiles)[ns := map[]]
    {
      if ns !in groups {
        groups := groups[ns := {}];
      }
      if ns !in needSyncFiles {
        needSyncFiles := needSyncFiles[ns := map[]];
      }
    }

    /** receiveGroups; a namespace that was never prepared would be a nil dereference. */
    method ReceiveGroups(ns: string, names: seq<string>)
      requires ns in groups && ns in needSyncFiles
      modifies this
      ensures groups == WithGroups(old(groups), ns, names)
      ensures needSyncFiles == WithBuckets(old(needSyncFiles), ns, names)
    {
      for i := 0 to |names|
        invariant groups == WithGroups(old(groups), ns, names[..i])
        invariant needSyncFiles == WithBuckets(old(needSyncFiles), ns, names[..i])
      {
        assert names[..i + 1][..i] == names[..i];
        groups := WithGroup(groups, ns, names[i]);
        needSyncFiles := WithBucket(needSyncFiles, ns, names[i]);
      }
      assert names[..|names|] == names;
    }

    /** receiveConfigFiles, as far as the index goes; a missing bucket would be a nil dereference. */
    method ReceiveConfigFiles(files: seq<Mention>)
      requires forall m <- files :: HasBucket(needSyncFiles, m.ns, m.group)
      modifies `needSyncFiles
      ensures needSyncFiles == HeardAll(old(needSyncFiles), files, cluster)
    {
      for i := 0 to |files|
        invariant forall m <- files :: HasBucket(needSyncFiles, m.ns, m.group)
        invariant needSyncFiles == HeardAll(old(needSyncFiles), files[..i], cluster)
      {
        var item := files[i];
        var bucket := ReceiveFile(needSyncFiles[item.ns][item.group], item);
        assert files[..i + 1][..i] == files[..i];
        needSyncFiles := needSyncFiles[item.ns := needSyncFiles[item.ns][item.group := bucket]];
      }
      assert files[..|files|] == files;
    }

    /** The loop's body for one file. */
    method ReceiveFile(bucket: Bucket, item: Mention) returns (r: Bucket)
      ensures r == Heard(bucket, item, cluster)
    {
      r := bucket;
      var allowed := AllowSyncToConfigMap(item.tags, cluster);
      if allowed {
        if item.name !in r || r[item.name] <= item.version {
          r := r[item.name := item.version];
        }
      } else {
        r := r - {item.name};
      }
    }
  }

  // ---- What the index says about a history ---------------------------------------------------

  /** The last mention of the file is an allowed one. */
  ghost predicate LastAllowed(history: seq<Mention>, f: FileId, cluster: string) {
    exists i: nat :: IsLast(history, f, i) && Allowed(history[i].tags, cluster)
  }

  ghost predicate IsLast(history: seq<Mention>, f: FileId, i: nat) {
    i < |history| && About(history[i], f) && forall j :: i < j < |history| ==> !About(history[j], f)
  }

  /** Mention `i` is about the file, and neither it nor any later one drops it. */
  ghost predicate Counts(history: seq<Mention>, f: FileId, cluster: string, i: nat) {
    i < |history| && About(history[i], f)
    && forall j :: i <= j < |history| && About(history[j], f) ==> Allowed(history[j].tags, cluster)
  }

  lemma FindAfter(index: Index, m: Mention, cluster: string, f: FileId)
    requires HasBucket(index, m.ns, m.group)
    ensures Find(HeardAt(index, m, cluster), f) ==
            if !About(m, f) then Find(index, f)
            else if !Allowed(m.tags, cluster) then None
            else match Find(index, f)
              case None => Some(m.version)
              case Some(r) => Some(if r <= m.version then m.version else r)
  {
  }

  /** Which mentions count once one more has come. */
  lemma CountsSnoc(history: seq<Mention>, f: FileId, cluster: string)
    requires history != []
    ensures var n := |history| - 1;
            forall i: nat :: i < n ==>
              (Counts(history, f, cluster, i) <==>
               Counts(history[..n], f, cluster, i) && (About(history[n], f) ==> Allowed(history[n].tags, cluster)))
  {
    var n := |history| - 1;
    forall i: nat | i < n
      ensures Counts(history, f, cluster, i) <==>
              Counts(history[..n], f, cluster, i) && (About(history[n], f) ==> Allowed(history[n].tags, cluster))
    {
      assert forall j :: 0 <= j < n ==> history[..n][j] == history[j];
    }
  }

  /** A file is in the index exactly if its last mention was allowed, and then in the highest version
      mentioned since it was last dropped. */
  ghost predicate Reflects(r: Option<nat>, history: seq<Mention>, f: FileId, cluster: string) {
    && (r.Some? <==> LastAllowed(history, f, cluster))
    && (r.Some? ==> forall i: nat :: Counts(history, f, cluster, i) ==> history[i].version <= r.value)
    && (r.Some? ==> exists i: nat :: Counts(history, f, cluster, i) && history[i].version == r.value)
  }

  /** One more mention. */
  lemma ReflectsSnoc(index: Index, history: seq<Mention>, m: Mention, cluster: string, f: FileId)
    requires HasBucket(index, m.ns, m.group) && Reflects(Find(index, f), history, f, cluster)
    ensures Reflects(Find(HeardAt(index, m, cluster), f), history + [m], f, cluster)
  {
    var n, all := |history|, history + [m];
    assert all[..n] == history;
    FindAfter(index, m, cluster, f);
    LastSnoc(all, f, cluster);
    CountsSnoc(all, f, cluster);
    var r := Find(HeardAt(index, m, cluster), f);
    if r.Some? {
      if About(m, f) && (Find(index, f).None? || Find(index, f).value <= m.version) {
        assert Counts(all, f, cluster, n);
      } else {
        var i: nat :| Counts(history, f, cluster, i) && history[i].version == r.value;
        assert Counts(all, f, cluster, i);
      }
      if Find(index, f).None? {
        NoneCounts(history, f, cluster);
      }
    }
  }

  /** After any further mentions, whatever was heard before. */
  lemma {:induction false} IndexIs(index: Index, before: seq<Mention>, heard: seq<Mention>, cluster: string, f: FileId)
    requires forall m <- heard :: HasBucket(index, m.ns, m.group)
    requires Reflects(Find(index, f), before, f, cluster)
    ensures Reflects(Find(HeardAll(index, heard, cluster), f), before + heard, f, cluster)
  {
    if heard == [] {
      assert before + heard == before;
    } else {
      var n := |heard| - 1;
      assert heard[n] in heard;
      IndexIs(index, before, heard[..n], cluster, f);
      ReflectsSnoc(HeardAll(index, heard[..n], cluster), before + heard[..n], heard[n], cluster, f);
      assert before + heard == before + heard[..n] + [heard[n]];
    }
  }

  lemma LastSnoc(history: seq<Mention>, f: FileId, cluster: string)
    requires history != []
    ensures var n := |history| - 1;
            LastAllowed(history, f, cluster) <==>
              if About(history[n], f) then Allowed(history[n].tags, cluster) else LastAllowed(history[..n], f, cluster)
  {
    var n := |history| - 1;
    assert forall j :: 0 <= j < n ==> history[..n][j] == history[j];
    forall i: nat | i < n ensures IsLast(history, f, i) <==> IsLast(history[..n], f, i) && !About(history[n], f) {
    }
    assert IsLast(history, f, n) <==> About(history[n], f);
    forall i: nat | IsLast(history, f, i) && About(history[n], f) ensures i == n {
    }
  }

  /** Without an allowed last mention no mention counts. */
  lemma {:induction false} NoneCounts(history: seq<Mention>, f: FileId, cluster: string)
    requires !LastAllowed(history, f, cluster)
    ensures forall i: nat :: !Counts(history, f, cluster, i)
  {
    if history != [] {
      var n := |history| - 1;
      LastSnoc(history, f, cluster);
      CountsSnoc(history, f, cluster);
      if !About(history[n], f) {
        NoneCounts(history[..n], f, cluster);
      }
    }
  }

  /** While a file stays in the index its version never goes back. */
  lemma NeverBack(index: Index, m: Mention, cluster: string, f: FileId)
    requires HasBucket(index, m.ns, m.group)
    requires Find(index, f).Some? && Find(HeardAt(index, m, cluster), f).Some?
    ensures Find(index, f).value <= Find(HeardAt(index, m, cluster), f).value
  {
    FindAfter(index, m, cluster, f);
  }

  // ---- The two goroutines --------------------------------------------------------------------

  datatype Request = GroupsOf(ns: string) | FilesOf(ns: string, group: string)

  /** Where the fetching goroutine stands within fetchGroups. */
  datatype Fetcher = Resting | GroupsMade(ns: string) | BothMade(ns: string)

  /** Where the receiving goroutine stands within receiveGroups. */
  datatype Receiver = Waiting | NextGroup(ns: string, rest: seq<string>) | GroupAdded(ns: string, group: string,
                                                                                      rest: seq<string>)

  datatype State = State(groups: Groups, index: Index, sent: set<Request>, fetcher: Fetcher, receiver: Receiver)

  datatype Step =
    | MakeGroups(ns: string)
    | MakeIndex
    | SendGroups
    | SendFiles(ns: string, group: string)
    | AnswerGroups(ns: string, names: seq<string>)
    | AddGroup
    | AddBucket
    | AnswerFiles(ns: string, group: string, files: seq<Mention>)

  /** The steps each goroutine may take. The receiver is one goroutine: it takes the next response only
      when it is done with the last, and responses answer requests that were sent, about the namespace
      and group they asked for. */
  predicate Enabled(s: State, step: Step) {
    match step
    case MakeGroups(_) => s.fetcher.Resting?
    case MakeIndex => s.fetcher.GroupsMade?
    case SendGroups => s.fetcher.BothMade?
    case SendFiles(ns, g) => s.fetcher.Resting? && ns in s.groups && g in s.groups[ns]
    case AnswerGroups(ns, names) => s.receiver.Waiting? && GroupsOf(ns) in s.sent && names != []
    case AddGroup => s.receiver.NextGroup? && s.receiver.rest != []
    case AddBucket => s.receiver.GroupAdded?
    case AnswerFiles(ns, g, files) =>
      s.receiver.Waiting? && FilesOf(ns, g) in s.sent && forall m <- files :: m.ns == ns && m.group == g
  }

  /** The step would dereference a nil bucket. */
  predicate Panics(s: State, step: Step)
    requires Enabled(s, step)
  {
    match step
    case AddGroup => s.receiver.ns !in s.groups
    case AddBucket => s.receiver.ns !in s.index
    case AnswerFiles(_, _, files) => exists m <- files :: !HasBucket(s.index, m.ns, m.group)
    case _ => false
  }

  function AfterRest(ns: string, rest: seq<string>): Receiver {
    if rest == [] then Waiting else NextGroup(ns, rest)
  }

  function Next(s: State, step: Step, cluster: string): State
    requires Enabled(s, step) && !Panics(s, step)
  {
    match step
    case MakeGroups(ns) => s.(groups := if ns in s.groups then s.groups else s.groups[ns := {}],
                              fetcher := GroupsMade(ns))
    case MakeIndex =>
      var ns := s.fetcher.ns;
      s.(index := if ns in s.index then s.index else s.index[ns := map[]], fetcher := BothMade(ns))
    case SendGroups => s.(sent := s.sent + {GroupsOf(s.fetcher.ns)}, fetcher := Resting)
    case SendFiles(ns, g) => s.(sent := s.sent + {FilesOf(ns, g)})
    case AnswerGroups(ns, names) => s.(receiver := NextGroup(ns, names))
    case AddGroup =>
      var r := s.receiver;
      s.(groups := WithGroup(s.groups, r.ns, r.rest[0]), receiver := GroupAdded(r.ns, r.rest[0], r.rest[1..]))
    case AddBucket =>
      var r := s.receiver;
      s.(index := WithBucket(s.index, r.ns, r.group), receiver := AfterRest(r.ns, r.rest))
    case AnswerFiles(_, _, files) => s.(index := HeardAll(s.index, files, cluster))
  }

  /** The group the receiver has announced but not yet given a bucket. */
  predicate InFlight(s: State, ns: string, g: string) {
    s.receiver.GroupAdded? && s.receiver.ns == ns && s.receiver.group == g
  }

  /** The two indexes agree, up to the one entry each goroutine is about to make. */
  ghost predicate Agree(s: State) {
    && (forall ns :: ns in s.index ==> ns in s.groups)
    && (forall ns :: ns in s.groups ==> ns in s.index || s.fetcher == GroupsMade(ns))
    && (forall ns, g :: HasBucket(s.index, ns, g) ==> ns in s.groups && g in s.groups[ns])
    && (forall ns, g :: ns in s.groups && g in s.groups[ns] ==> HasBucket(s.index, ns, g) || InFlight(s, ns, g))
    && (s.fetcher.GroupsMade? ==> s.fetcher.ns in s.groups)
    && (s.fetcher.BothMade? ==> s.fetcher.ns in s.index)
    && (s.receiver.NextGroup? || s.receiver.GroupAdded? ==> s.receiver.ns in s.index)
    && (s.receiver.GroupAdded? ==> s.receiver.ns in s.groups && s.receiver.group in s.groups[s.receiver.ns])
    && (forall ns :: GroupsOf(ns) in s.sent ==> ns in s.index)
    && (forall ns, g :: FilesOf(ns, g) in s.sent ==> ns in s.groups && g in s.groups[ns])
  }

  lemma AgreeNeverPanics(s: State, step: Step)
    requires Agree(s) && Enabled(s, step)
    ensures !Panics(s, step)
  {
    if step.AnswerFiles? {
      forall m | m in step.files ensures HasBucket(s.index, m.ns, m.group) {
        assert !InFlight(s, m.ns, m.group);
      }
    }
  }

  lemma StepAgrees(s: State, step: Step, cluster: string)
    requires Agree(s) && Enabled(s, step) && !Panics(s, step)
    ensures Agree(Next(s, step, cluster))
  {
    match step
    case MakeGroups(ns) => MakeGroupsAgrees(s, ns, cluster);
    case MakeIndex => MakeIndexAgrees(s, cluster);
    case SendGroups =>
    case SendFiles(ns, g) =>
    case AnswerGroups(ns, names) =>
    case AddGroup => AddGroupAgrees(s, cluster);
    case AddBucket => AddBucketAgrees(s, cluster);
    case AnswerFiles(ns, g, files) => AnswerFilesAgrees(s, step, cluster);
  }

  lemma MakeGroupsAgrees(s: State, ns: string, cluster: string)
    requires Agree(s) && Enabled(s, MakeGroups(ns))
    ensures Agree(Next(s, MakeGroups(ns), cluster))
  {
  }

  lemma MakeIndexAgrees(s: State, cluster: string)
    requires Agree(s) && Enabled(s, MakeIndex)
    ensures Agree(Next(s, MakeIndex, cluster))
  {
  }

  lemma AddGroupAgrees(s: State, cluster: string)
    requires Agree(s) && Enabled(s, AddGroup) && !Panics(s, AddGroup)
    ensures Agree(Next(s, AddGroup, cluster))
  {
  }

  lemma AddBucketAgrees(s: State, cluster: string)
    requires Agree(s) && Enabled(s, AddBucket) && !Panics(s, AddBucket)
    ensures Agree(Next(s, AddBucket, cluster))
  {
    BucketAdded(s.index, s.receiver.ns, s.receiver.group);
  }

  lemma AnswerFilesAgrees(s: State, step: Step, cluster: string)
    requires step.AnswerFiles? && Agree(s) && Enabled(s, step) && !Panics(s, step)
    ensures Agree(Next(s, step, cluster))
  {
    SameNamespaces(s.index, step.files, cluster);
  }

  lemma {:induction false} SameNamespaces(index: Index, history: seq<Mention>, cluster: string)
    requires forall m <- history :: HasBucket(index, m.ns, m.group)
    ensures HeardAll(index, history, cluster).Keys == index.Keys
  {
    if history != [] {
      var m := history[|history| - 1];
      assert m in history;
      SameNamespaces(index, history[..|history| - 1], cluster);
      assert HasBucket(HeardAll(index, history[..|history| - 1], cluster), m.ns, m.group);
    }
  }

  ghost predicate IsRun(states: seq<State>, steps: seq<Step>, cluster: string) {
    && |states| == |steps| + 1
    && states[0] == State(map[], map[], {}, Resting, Waiting)
    && forall i :: 0 <= i < |steps| ==>
         Enabled(states[i], steps[i]) && (!Panics(states[i], steps[i]) ==> states[i + 1] == Next(states[i], steps[i],
                                                                                                 cluster))
  }

  /** In every interleaving of the two goroutines, no response to a sent request meets a missing bucket,
      and whenever both rest the groups are exactly the groups of the index. */
  lemma {:induction false} NeverMissing(states: seq<State>, steps: seq<Step>, cluster: string, i: nat)
    requires IsRun(states, steps, cluster) && i < |states|
    ensures Agree(states[i]) && (i < |steps| ==> !Panics(states[i], steps[i]))
    ensures states[i].fetcher.Resting? && states[i].receiver.Waiting? ==>
              && states[i].groups.Keys == states[i].index.Keys
              && forall ns <- states[i].groups :: states[i].groups[ns] == states[i].index[ns].Keys
  {
    if i > 0 {
      NeverMissing(states, steps, cluster, i - 1);
      StepAgrees(states[i - 1], steps[i - 1], cluster);
    }
    if i < |steps| {
      AgreeNeverPanics(states[i], steps[i]);
    }
    Settled(states[i]);
  }

  lemma Settled(s: State)
    requires Agree(s)
    ensures s.fetcher.Resting? && s.receiver.Waiting? ==>
              s.groups.Keys == s.index.Keys && forall ns <- s.groups :: s.groups[ns] == s.index[ns].Keys
  {
    if s.fetcher.Resting? && s.receiver.Waiting? {
      forall ns | ns in s.groups ensures ns in s.index && s.groups[ns] == s.index[ns].Keys {
        forall g ensures g in s.groups[ns] <==> g in s.index[ns] {
          assert HasBucket(s.index, ns, g) <==> g in s.index[ns];
        }
      }
    }
  }
  // ---- The index over whole runs -------------------------------------------------------------

  function MentionsOf(step: Step): seq<Mention> {
    if step.AnswerFiles? then step.files else []
  }

  /** Every mention of a run, in the order in which the responses were taken. */
  function Mentions(steps: seq<Step>): seq<Mention> {
    if steps == [] then []
    else Mentions(steps[..|steps| - 1]) + MentionsOf(steps[|steps| - 1])
  }

  lemma NothingHeard(f: FileId, cluster: string)
    ensures Reflects(None, [], f, cluster)
  {
  }

  /** Only a files response changes what is found in the index; buckets come and go empty. */
  lemma FindKept(s: State, step: Step, cluster: string, f: FileId)
    requires Agree(s) && Enabled(s, step) && !Panics(s, step) && !step.AnswerFiles?
    ensures Find(Next(s, step, cluster).index, f) == Find(s.index, f)
  {
    if step.AddBucket? {
      BucketAdded(s.index, s.receiver.ns, s.receiver.group);
    }
  }

  lemma StepReflects(s: State, step: Step, heard: seq<Mention>, cluster: string, f: FileId)
    requires Agree(s) && Enabled(s, step) && !Panics(s, step) && Reflects(Find(s.index, f), heard, f, cluster)
    ensures Reflects(Find(Next(s, step, cluster).index, f), heard + MentionsOf(step), f, cluster)
  {
    if step.AnswerFiles? {
      IndexIs(s.index, heard, step.files, cluster, f);
    } else {
      FindKept(s, step, cluster, f);
      assert heard + [] == heard;
    }
  }

  /** In every interleaving of the two goroutines, while namespaces and buckets are still being made: a file
      is in the index exactly if its last mention in the run so far was allowed, and then in the highest
      version mentioned since it was last dropped. */
  lemma {:induction false} IndexInRuns(states: seq<State>, steps: seq<Step>, cluster: string, f: FileId, i: nat)
    requires IsRun(states, steps, cluster) && i < |states|
    ensures Reflects(Find(states[i].index, f), Mentions(steps[..i]), f, cluster)
  {
    if i == 0 {
      assert Mentions(steps[..0]) == [];
      NothingHeard(f, cluster);
    } else {
      IndexInRuns(states, steps, cluster, f, i - 1);
      NeverMissing(states, steps, cluster, i - 1);
      StepReflects(states[i - 1], steps[i - 1], Mentions(steps[..i - 1]), cluster, f);
      assert steps[..i][..i - 1] == steps[..i - 1];
    }
  }
}
