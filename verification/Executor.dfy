/** util/scheduler.go: the worker pool that runs configuration downloads. A worker has a queue of at most
    128 tasks; senders hold its read lock while they wait for room, its loop takes the write lock to
    close. */
module Executor {
  import opened Wrappers

  const CAPACITY := 128

  datatype Task = Task(key: Option<string>, id: int)

  // ---- One worker ----------------------------------------------------------------------------

  datatype Phase = Running | Closing | Closed

  /** `holders` are the senders that hold the read lock and have not sent yet; `accepted` and `executed`
      record what went into the queue and what was taken out and run. */
  datatype Worker = Worker(
    phase: Phase, queue: seq<Task>, holders: seq<Task>, accepted: seq<Task>, executed: seq<Task>)

  datatype Step =
    | Enter(task: Task)
    | Refused(task: Task)
    | Send(index: nat)
    | Execute
    | Cancel
    | Close

  /** A waiting writer keeps new readers out, so nobody enters while the loop is closing. */
  predicate Enabled(w: Worker, s: Step) {
    match s
    case Enter(_) => w.phase.Running?
    case Refused(_) => w.phase.Closed?
    case Send(i) => i < |w.holders| && |w.queue| < CAPACITY
    case Execute => w.phase.Running? && w.queue != []
    case Cancel => w.phase.Running?
    case Close => w.phase.Closing? && w.holders == []
  }

  function Next(w: Worker, s: Step): Worker
    requires Enabled(w, s)
  {
    match s
    case Enter(t) => w.(holders := w.holders + [t])
    case Refused(_) => w
    case Send(i) =>
      var t := w.holders[i];
      w.(holders := w.holders[..i] + w.holders[i + 1..], queue := w.queue + [t], accepted := w.accepted + [t])
    case Execute => w.(queue := w.queue[1..], executed := w.executed + [w.queue[0]])
    case Cancel => w.(phase := Closing)
    case Close => w.(phase := Closed)
  }

  const FRESH := Worker(Running, [], [], [], [])

  predicate Sound(w: Worker) {
    && w.executed + w.queue == w.accepted
    && |w.queue| <= CAPACITY
    && (w.phase.Closed? ==> w.holders == [])
  }

  lemma StepSound(w: Worker, s: Step)
    requires Sound(w) && Enabled(w, s)
    ensures Sound(Next(w, s))
    ensures w.phase.Closed? ==> Next(w, s) == w
  {
    if s.Execute? {
      assert w.executed + w.queue == w.executed + [w.queue[0]] + w.queue[1..];
    }
  }

  ghost predicate IsRun(ws: seq<Worker>, steps: seq<Step>) {
    && |ws| == |steps| + 1
    && forall i :: 0 <= i < |steps| ==> Enabled(ws[i], steps[i]) && ws[i + 1] == Next(ws[i], steps[i])
  }

  /** In every run of a worker and any number of senders: what was executed, then what is pending, is
      exactly what was accepted; at most 128 are pending; nothing changes once it is closed, and no
      sender is left that could send on the closed queue. */
  lemma {:induction false} WorkerSound(ws: seq<Worker>, steps: seq<Step>, i: nat, j: nat)
    requires IsRun(ws, steps) && ws[0] == FRESH && i <= j < |ws|
    ensures Sound(ws[j])
    ensures ws[i].phase.Closed? ==> ws[j] == ws[i]
    decreases j
  {
    if j > 0 {
      WorkerSound(ws, steps, if i < j then i else j - 1, j - 1);
      StepSound(ws[j - 1], steps[j - 1]);
    }
  }

  // ---- Closing -------------------------------------------------------------------------------

  /** Once the loop is closing it takes nothing out, so pending tasks and waiting senders together
      neither grow nor shrink until it is closed. */
  lemma ClosingKeeps(w: Worker, s: Step)
    requires w.phase.Closing? && Enabled(w, s)
    ensures Next(w, s).phase.Closed? ==> w.holders == []
    ensures |Next(w, s).queue| + |Next(w, s).holders| == |w.queue| + |w.holders|
    ensures Next(w, s).phase.Closing? || Next(w, s).phase.Closed?
  {
  }

  /** With more waiting senders than room the worker never gets to close: every run from there on stays
      closing. */
  lemma {:induction false} NeverCloses(ws: seq<Worker>, steps: seq<Step>, i: nat)
    requires IsRun(ws, steps) && i < |ws|
    requires ws[0].phase.Closing? && |ws[0].queue| <= CAPACITY < |ws[0].queue| + |ws[0].holders|
    ensures ws[i].phase.Closing? && |ws[i].queue| <= CAPACITY < |ws[i].queue| + |ws[i].holders|
  {
    if i > 0 {
      NeverCloses(ws, steps, i - 1);
      ClosingKeeps(ws[i - 1], steps[i - 1]);
    }
  }

  /** With room for all of them it can: the senders finish one by one and then it closes. */
  lemma {:induction false} Closes(w: Worker) returns (ws: seq<Worker>, steps: seq<Step>)
    requires w.phase.Closing? && |w.queue| + |w.holders| <= CAPACITY
    ensures IsRun(ws, steps) && ws[0] == w && ws[|ws| - 1].phase.Closed?
    decreases |w.holders|
  {
    if w.holders == [] {
      ws, steps := [w, Next(w, Close)], [Close];
    } else {
      var w' := Next(w, Send(0));
      var ws', steps' := Closes(w');
      ws, steps := [w] + ws', [Send(0)] + steps';
      forall i | 0 <= i < |steps| ensures Enabled(ws[i], steps[i]) && ws[i + 1] == Next(ws[i], steps[i]) {
        if i > 0 {
          assert Enabled(ws'[i - 1], steps'[i - 1]) && ws'[i] == Next(ws'[i - 1], steps'[i - 1]);
        }
      }
    }
  }

  ghost predicate CanClose(w: Worker) {
    exists ws: seq<Worker>, steps: seq<Step> :: IsRun(ws, steps) && ws[0] == w && ws[|ws| - 1].phase.Closed?
  }

  /** Exactly when stopping a worker ends: there is room for every sender that already holds the lock. */
  lemma ClosesIff(w: Worker)
    requires w.phase.Closing? && |w.queue| <= CAPACITY
    ensures CanClose(w) <==> |w.queue| + |w.holders| <= CAPACITY
  {
    if |w.queue| + |w.holders| <= CAPACITY {
      var ws, steps := Closes(w);
    } else {
      forall ws: seq<Worker>, steps: seq<Step> | IsRun(ws, steps) && ws[0] == w ensures !ws[|ws| - 1].phase.Closed? {
        NeverCloses(ws, steps, |ws| - 1);
      }
    }
  }

  /** While the loop is closing, every step is a send or the close. */
  lemma {:induction false} ClosingShrinks(ws: seq<Worker>, steps: seq<Step>, i: nat)
    requires IsRun(ws, steps) && i < |ws| && ws[0].phase.Closing?
    requires |ws[0].queue| + |ws[0].holders| <= CAPACITY
    ensures ws[i].phase.Closing? || ws[i].phase.Closed?
    ensures ws[i].phase.Closing? ==>
              && i + |ws[i].holders| == |ws[0].holders|
              && |ws[i].queue| + |ws[i].holders| == |ws[0].queue| + |ws[0].holders|
  {
    if i > 0 {
      ClosingShrinks(ws, steps, i - 1);
      if ws[i - 1].phase.Closing? {
        ClosingKeeps(ws[i - 1], steps[i - 1]);
      }
    }
  }

  /** With room for the waiting senders every run closes: it can always go on until then, and it is closed
      after one step for each of them and one more. */
  lemma EveryRunCloses(ws: seq<Worker>, steps: seq<Step>)
    requires IsRun(ws, steps) && ws[0].phase.Closing? && |ws[0].queue| + |ws[0].holders| <= CAPACITY
    ensures |steps| > |ws[0].holders| ==> ws[|steps|].phase.Closed?
    ensures !ws[|steps|].phase.Closed? ==> Enabled(ws[|steps|], Send(0)) || Enabled(ws[|steps|], Close)
  {
    ClosingShrinks(ws, steps, |steps|);
  }

  lemma RunSnoc(ws: seq<Worker>, steps: seq<Step>, s: Step)
    requires IsRun(ws, steps) && Enabled(ws[|ws| - 1], s)
    ensures IsRun(ws + [Next(ws[|ws| - 1], s)], steps + [s])
  {
    var ws', steps' := ws + [Next(ws[|ws| - 1], s)], steps + [s];
    forall i | 0 <= i < |steps'| ensures Enabled(ws'[i], steps'[i]) && ws'[i + 1] == Next(ws'[i], steps'[i]) {
      if i < |steps| {
        assert ws'[i] == ws[i] && ws'[i + 1] == ws[i + 1] && steps'[i] == steps[i];
      }
    }
  }

  lemma {:induction false} Filled(n: nat, t: Task) returns (ws: seq<Worker>, steps: seq<Step>)
    requires n <= CAPACITY
    ensures IsRun(ws, steps) && ws[0] == FRESH
    ensures var w := ws[|ws| - 1]; w.phase.Running? && w.holders == [] && |w.queue| == n
  {
    if n == 0 {
      ws, steps := [FRESH], [];
    } else {
      ws, steps := Filled(n - 1, t);
      var entered := Next(ws[|ws| - 1], Enter(t));
      RunSnoc(ws, steps, Enter(t));
      ws, steps := ws + [entered], steps + [Enter(t)];
      RunSnoc(ws, steps, Send(0));
      ws, steps := ws + [Next(entered, Send(0))], steps + [Send(0)];
    }
  }

  /** Stopping can hang: 129 tasks submitted before the loop is told to stop bring a worker into a state
      from which it never closes. */
  lemma StopCanHang(t: Task) returns (ws: seq<Worker>, steps: seq<Step>)
    ensures IsRun(ws, steps) && ws[0] == FRESH
    ensures ws[|ws| - 1].phase.Closing? && !CanClose(ws[|ws| - 1])
  {
    ws, steps := Filled(CAPACITY, t);
    var entered := Next(ws[|ws| - 1], Enter(t));
    RunSnoc(ws, steps, Enter(t));
    ws, steps := ws + [entered], steps + [Enter(t)];
    RunSnoc(ws, steps, Cancel);
    ws, steps := ws + [Next(entered, Cancel)], steps + [Cancel];
    ClosesIff(ws[|ws| - 1]);
  }

  // ---- The pool ------------------------------------------------------------------------------

  /** The worker for a key: the modulus is one less than the number of workers. */
  function AffinityIndex(hash: nat, workers: nat): (i: nat)
    requires workers >= 2
    ensures i < workers - 1
  {
    hash % (workers - 1)
  }

  datatype PoolStep = PoolStep(worker: nat, step: Step)

  /** Tasks with a key only go to its worker. */
  predicate PoolEnabled(ws: seq<Worker>, s: PoolStep, hash: string -> nat)
    requires |ws| >= 2
  {
    && s.worker < |ws| && Enabled(ws[s.worker], s.step)
    && (s.step.Enter? && s.step.task.key.Some? ==> s.worker == AffinityIndex(hash(s.step.task.key.value), |ws|))
  }

  ghost predicate IsPoolRun(pool: seq<seq<Worker>>, steps: seq<PoolStep>, hash: string -> nat, size: nat) {
    && |pool| == |steps| + 1 && size >= 2
    && (forall i :: 0 <= i < |pool| ==> |pool[i]| == size)
    && (forall k :: 0 <= k < size ==> pool[0][k] == FRESH)
    && forall i :: 0 <= i < |steps| ==>
         && PoolEnabled(pool[i], steps[i], hash)
         && pool[i + 1] == pool[i][steps[i].worker := Next(pool[i][steps[i].worker], steps[i].step)]
  }

  predicate Knows(w: Worker, t: Task) {
    t in w.accepted || t in w.holders
  }

  /** Every worker is sound and knows of a key only if the key is its own. */
  ghost predicate PoolSound(ws: seq<Worker>, hash: string -> nat)
    requires |ws| >= 2
  {
    forall i :: 0 <= i < |ws| ==>
      && Sound(ws[i])
      && forall t :: Knows(ws[i], t) && t.key.Some? ==> i == AffinityIndex(hash(t.key.value), |ws|)
  }

  lemma StepKnows(w: Worker, s: Step, t: Task)
    requires Enabled(w, s) && Knows(Next(w, s), t)
    ensures Knows(w, t) || s == Enter(t)
  {
    if s.Send? {
      assert w.holders[s.index] in w.holders;
    }
  }

  lemma {:induction false} PoolAlwaysSound(pool: seq<seq<Worker>>, steps: seq<PoolStep>, hash: string -> nat,
                                           size: nat, i: nat)
    requires IsPoolRun(pool, steps, hash, size) && i < |pool|
    ensures PoolSound(pool[i], hash)
  {
    if i > 0 {
      PoolAlwaysSound(pool, steps, hash, size, i - 1);
      var ws, s := pool[i - 1], steps[i - 1];
      StepSound(ws[s.worker], s.step);
      forall t | Knows(Next(ws[s.worker], s.step), t) && t.key.Some?
        ensures s.worker == AffinityIndex(hash(t.key.value), |ws|)
      {
        StepKnows(ws[s.worker], s.step, t);
      }
    }
  }

  /** The tasks under `key`, in order. */
  function Under(ts: seq<Task>, key: string): seq<Task> {
    if ts == [] then []
    else Under(ts[..|ts| - 1], key) + (if ts[|ts| - 1].key == Some(key) then [ts[|ts| - 1]] else [])
  }

  lemma {:induction false} UnderConcat(a: seq<Task>, b: seq<Task>, key: string)
    ensures Under(a + b, key) == Under(a, key) + Under(b, key)
  {
    if b == [] {
      assert a + b == a;
    } else {
      assert (a + b)[..|a + b| - 1] == a + b[..|b| - 1];
      UnderConcat(a, b[..|b| - 1], key);
    }
  }

  lemma {:induction false} UnderNothing(ts: seq<Task>, key: string)
    requires forall t <- ts :: t.key != Some(key)
    ensures Under(ts, key) == []
  {
    if ts != [] {
      assert ts[|ts| - 1] in ts;
      UnderNothing(ts[..|ts| - 1], key);
    }
  }

  /** In every run of a pool of at least two workers, the tasks under one key run on one worker, in the
      order in which they were accepted, and no other worker ever has any of them. */
  lemma AffinityInOrder(pool: seq<seq<Worker>>, steps: seq<PoolStep>, hash: string -> nat, size: nat, i: nat,
                        key: string)
    requires IsPoolRun(pool, steps, hash, size) && i < |pool|
    ensures var own := AffinityIndex(hash(key), size);
            && Under(pool[i][own].executed, key) <= Under(pool[i][own].accepted, key)
            && forall k :: 0 <= k < size && k != own ==> Under(pool[i][k].accepted, key) == []
  {
    var own := AffinityIndex(hash(key), size);
    PoolAlwaysSound(pool, steps, hash, size, i);
    assert Sound(pool[i][own]);
    UnderConcat(pool[i][own].executed, pool[i][own].queue, key);
    forall k | 0 <= k < size && k != own ensures Under(pool[i][k].accepted, key) == [] {
      forall t | t in pool[i][k].accepted ensures t.key != Some(key) {
        assert Knows(pool[i][k], t);
      }
      UnderNothing(pool[i][k].accepted, key);
    }
  }

  /** The last worker of a pool never has a keyed task. */
  lemma LastWorkerIdle(pool: seq<seq<Worker>>, steps: seq<PoolStep>, hash: string -> nat, size: nat, i: nat,
                       key: string)
    requires IsPoolRun(pool, steps, hash, size) && i < |pool|
    ensures Under(pool[i][size - 1].accepted, key) == []
  {
    AffinityInOrder(pool, steps, hash, size, i, key);
  }

  // ---- Delayed tasks -------------------------------------------------------------------------

  datatype Delayed = Delayed(task: Task, interval: bool)

  ghost predicate NoRepeats(ks: seq<nat>) {
    forall i, j :: 0 <= i < j < |ks| ==> ks[i] != ks[j]
  }

  lemma Append(ks: seq<nat>, k: nat)
    requires k !in ks && NoRepeats(ks)
    ensures NoRepeats(ks + [k]) && forall x :: x in ks + [k] <==> x in ks || x == k
  {
  }

  /** The delay queue of a worker with the counter its entries are numbered by. */
  class DelayQueue {
    var closed: bool
    var id: nat
    var entries: map<nat, Delayed>
    var fired: seq<nat>

    ghost predicate Valid()
      reads this
    {
      && (forall k <- entries :: 0 < k <= id)
      && (forall k <- fired :: 0 < k <= id && k !in entries)
      && NoRepeats(fired)
    }

    constructor ()
      ensures Valid() && !closed && entries == map[] && fired == []
    {
      closed, id, entries, fired := false, 0, map[], [];
    }

    method AddDelay(task: Task, interval: bool)
      requires Valid()
      modifies this
      ensures Valid() && closed == old(closed) && fired == old(fired)
      ensures entries == if closed then old(entries) else old(entries)[id := Delayed(task, interval)]
      ensures id == old(id) + if closed then 0 else 1
    {
      if closed {
        return;
      }
      id := id + 1;
      entries := entries[id := Delayed(task, interval)];
    }

    /** One tick, with the entries whose time has come: each runs and is removed, an interval task like
        any other. Validity says that no entry ever runs twice. */
    method Tick(due: set<nat>)
      requires Valid()
      modifies this
      ensures Valid() && closed == old(closed) && id == old(id)
      ensures entries == old(entries) - due
      ensures old(fired) <= fired && forall k :: k in fired <==> k in old(fired) || (k in old(entries) && k in due)
    {
      var waitDel := FireAll(entries.Keys * due);
      entries := entries - waitDel;
      assert entries == old(entries) - due;
    }

    /** The loop over the entries that are due. */
    method FireAll(due: set<nat>) returns (waitDel: set<nat>)
      requires Valid() && due <= entries.Keys
      modifies `fired
      ensures waitDel == due && NoRepeats(fired)
      ensures old(fired) <= fired && forall k :: k in fired <==> k in old(fired) || k in due
    {
      waitDel := {};
      var todo := due;
      while todo != {}
        invariant waitDel + todo == due && waitDel !! todo
        invariant NoRepeats(fired) && old(fired) <= fired
        invariant forall k :: k in fired <==> k in old(fired) || k in waitDel
        decreases |todo|
      {
        var k :| k in todo;
        Append(fired, k);
        fired := fired + [k];
        todo, waitDel := todo - {k}, waitDel + {k};
      }
    }
  }
}
