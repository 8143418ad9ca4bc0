/** controller/controller.go handleTask on the rate limiting work queue. Tasks are pointers, so every
    inserted task is an item of its own; here they are numbers. */
module TaskQueue {
  const MAX_RETRIES := 10

  type Task = int

  datatype Queue = Queue(
    queue: seq<Task>,
    dirty: set<Task>,
    processing: set<Task>,
    waiting: seq<Task>,
    failures: map<Task, nat>)
  {
    function Add(x: Task): Queue {
      if x in dirty then this
      else if x in processing then this.(dirty := dirty + {x})
      else this.(dirty := dirty + {x}, queue := queue + [x])
    }

    function Get(): Queue
      requires queue != []
    {
      this.(queue := queue[1..], processing := processing + {queue[0]}, dirty := dirty - {queue[0]})
    }

    function Done(x: Task): Queue {
      this.(processing := processing - {x}, queue := if x in dirty then queue + [x] else queue)
    }

    function NumRequeues(x: Task): nat {
      if x in failures then failures[x] else 0
    }

    /** Counts a failure and adds the task once its delay is over; a task already waiting is not entered
        twice. */
    function AddRateLimited(x: Task): Queue {
      this.(failures := failures[x := NumRequeues(x) + 1], waiting := if x in waiting then waiting else waiting + [x])
    }

    function Forget(x: Task): Queue {
      this.(failures := failures - {x})
    }

    /** The delay of the `i`-th waiting task is over. */
    function Fire(i: nat): Queue
      requires i < |waiting|
    {
      this.(waiting := waiting[..i] + waiting[i + 1..]).Add(waiting[i])
    }

    /** handleTask from the return of the processing function on. */
    function Finish(x: Task, failed: bool): Queue {
      if failed && NumRequeues(x) < MAX_RETRIES then AddRateLimited(x).Done(x) else Forget(x).Done(x)
    }

    /** The rest of handleTask, where `again` says that the processing function inserted its own task. */
    function Process(x: Task, failed: bool, again: bool): Queue {
      (if again then Add(x) else this).Finish(x, failed)
    }

    predicate Alive(x: Task) {
      x in queue || x in processing || x in waiting
    }

    /** What is left of a task's tries. */
    function Tries(x: Task): int {
      if Alive(x) then MAX_RETRIES + 1 - NumRequeues(x) else 0
    }

    /** What is left of a task's steps: three for every try, namely the end of its delay, the start and
        the end of its processing. */
    function Weight(x: Task): int {
      if x in waiting then 3 * Tries(x)
      else if x in queue then 3 * Tries(x) - 1
      else if x in processing then 3 * Tries(x) - 2
      else 0
    }
  }

  /** The queue object of client-go, as far as handleTask uses it. */
  class WorkQueue {
    var state: Queue

    constructor (initial: Queue)
      ensures state == initial
    {
      state := initial;
    }

    method Get() returns (x: Task)
      requires state.queue != []
      modifies this
      ensures x == old(state.queue[0]) && state == old(state).Get()
    {
      x := state.queue[0];
      state := state.Get();
    }

    /** handleTask, without shutdown; `failed` is what the processing function returns for the task, and
        `again` whether it inserts the task. */
    method HandleTask(failed: bool, again: bool) returns (more: bool)
      requires state.queue != []
      modifies this
      ensures more && state == old(state).Get().Process(old(state.queue[0]), failed, again)
    {
      var val := Get();
      if again {
        state := state.Add(val);
      }
      if !failed {
        state := state.Forget(val);
        state := state.Done(val);
        return true;
      }
      if state.NumRequeues(val) < MAX_RETRIES {
        state := state.AddRateLimited(val);
        state := state.Done(val);
        return true;
      }
      state := state.Forget(val);
      state := state.Done(val);
      return true;
    }
  }

  // ---- Runs of any number of workers ---------------------------------------------------------

  datatype Step = Begin | End(task: Task, failed: bool, again: bool) | Fired(index: nat) | Insert(task: Task)

  predicate Enabled(q: Queue, s: Step) {
    match s
    case Begin => q.queue != []
    case End(x, _, _) => x in q.processing
    case Fired(i) => i < |q.waiting|
    case Insert(_) => true
  }

  function Next(q: Queue, s: Step): Queue
    requires Enabled(q, s)
  {
    match s
    case Begin => q.Get()
    case End(x, failed, again) => q.Process(x, failed, again)
    case Fired(i) => q.Fire(i)
    case Insert(x) => q.Add(x)
  }

  ghost predicate IsRun(qs: seq<Queue>, steps: seq<Step>) {
    && |qs| == |steps| + 1
    && forall i :: 0 <= i < |steps| ==> Enabled(qs[i], steps[i]) && qs[i + 1] == Next(qs[i], steps[i])
  }

  ghost predicate NoDuplicates(xs: seq<Task>) {
    forall i, j :: 0 <= i < j < |xs| ==> xs[i] != xs[j]
  }

  /** What the queue itself guarantees: nothing is queued or waiting twice, or queued while it is processed. */
  ghost predicate Sound(q: Queue) {
    && NoDuplicates(q.queue) && NoDuplicates(q.waiting)
    && (forall x <- q.queue :: x in q.dirty && x !in q.processing)
    && (forall x <- q.dirty :: x in q.queue || x in q.processing)
  }

  /** The start: `tasks` queued, nothing else going on. */
  function Start(tasks: seq<Task>): Queue {
    Queue(tasks, set x | x in tasks, {}, [], map[])
  }

  lemma Fires(q: Queue, i: nat)
    requires i < |q.waiting|
    ensures forall y :: y != q.waiting[i] ==> (y in q.Fire(i).waiting <==> y in q.waiting)
    ensures NoDuplicates(q.waiting) ==> NoDuplicates(q.Fire(i).waiting) && q.waiting[i] !in q.Fire(i).waiting
  {
    var x, rest := q.waiting[i], q.waiting[..i] + q.waiting[i + 1..];
    assert q.waiting == q.waiting[..i] + [x] + q.waiting[i + 1..];
    assert q.Fire(i).waiting == rest;
    assert forall j :: 0 <= j < |rest| ==> rest[j] == q.waiting[if j < i then j else j + 1];
  }

  lemma AddSound(q: Queue, x: Task)
    requires Sound(q)
    ensures Sound(q.Add(x))
  {
  }

  lemma WaitSound(q: Queue, x: Task)
    requires Sound(q)
    ensures Sound(q.AddRateLimited(x)) && Sound(q.Forget(x))
  {
  }

  lemma DoneSound(q: Queue, x: Task)
    requires Sound(q) && x in q.processing
    ensures Sound(q.Done(x))
  {
  }

  lemma StepSound(q: Queue, s: Step)
    requires Sound(q) && Enabled(q, s)
    ensures Sound(Next(q, s))
  {
    match s
    case Begin => assert q.queue == [q.queue[0]] + q.queue[1..];
    case End(x, failed, again) =>
      var added := if again then q.Add(x) else q;
      AddSound(q, x);
      WaitSound(added, x);
      DoneSound(if failed && added.NumRequeues(x) < MAX_RETRIES then added.AddRateLimited(x) else added.Forget(x), x);
    case Fired(i) =>
      Fires(q, i);
      AddSound(q.(waiting := q.waiting[..i] + q.waiting[i + 1..]), q.waiting[i]);
    case Insert(x) => AddSound(q, x);
  }

  lemma {:induction false} RunSound(qs: seq<Queue>, steps: seq<Step>, i: nat)
    requires IsRun(qs, steps) && Sound(qs[0]) && i < |qs|
    ensures Sound(qs[i])
  {
    if i > 0 {
      RunSound(qs, steps, i - 1);
      StepSound(qs[i - 1], steps[i - 1]);
    }
  }

  // ---- Eleven tries --------------------------------------------------------------------------

  /** The step inserts the task, from outside or from its own processing. */
  predicate Inserts(s: Step, x: Task) {
    s == Insert(x) || (s.End? && s.task == x && s.again)
  }

  /** The task is in at most one place, and has not failed more often than it may be retried. */
  ghost predicate Single(q: Queue, x: Task) {
    && Sound(q)
    && (x in q.dirty ==> x in q.queue)
    && (x in q.waiting ==> x !in q.queue && x !in q.processing)
    && (x in q.failures ==> q.Alive(x) && q.failures[x] <= MAX_RETRIES)
  }

  /** How often `x` has been processed. */
  function Ends(steps: seq<Step>, x: Task): nat {
    if steps == [] then 0
    else
      var last := steps[|steps| - 1];
      Ends(steps[..|steps| - 1], x) + (if last.End? && last.task == x then 1 else 0)
  }

  /** Every time `x` was processed, it failed. */
  predicate AllFailed(steps: seq<Step>, x: Task) {
    forall s <- steps :: s.End? && s.task == x ==> s.failed
  }

  lemma BeginStep(q: Queue, x: Task)
    requires Single(q, x) && q.queue != []
    ensures Single(q.Get(), x) && (q.Get().Alive(x) <==> q.Alive(x)) && q.Get().NumRequeues(x) == q.NumRequeues(x)
    ensures q.Get().Weight(x) == q.Weight(x) - (if x == q.queue[0] then 1 else 0)
  {
    StepSound(q, Begin);
    assert q.queue == [q.queue[0]] + q.queue[1..];
  }

  lemma FireStep(q: Queue, i: nat, x: Task)
    requires Single(q, x) && i < |q.waiting|
    ensures Single(q.Fire(i), x) && (q.Fire(i).Alive(x) <==> q.Alive(x)) && q.Fire(i).NumRequeues(x) == q.NumRequeues(x)
    ensures q.Fire(i).Weight(x) == q.Weight(x) - (if x == q.waiting[i] then 1 else 0)
  {
    StepSound(q, Fired(i));
    Fires(q, i);
  }

  lemma InsertStep(q: Queue, y: Task, x: Task)
    requires Single(q, x) && y != x
    ensures Single(q.Add(y), x) && (q.Add(y).Alive(x) <==> q.Alive(x)) && q.Add(y).NumRequeues(x) == q.NumRequeues(x)
    ensures q.Add(y).Weight(x) == q.Weight(x)
  {
    StepSound(q, Insert(y));
  }

  lemma OtherEnds(q: Queue, y: Task, failed: bool, again: bool, x: Task)
    requires Single(q, x) && y in q.processing && y != x
    ensures var q' := q.Process(y, failed, again);
            && Single(q', x) && (q'.Alive(x) <==> q.Alive(x))
            && q'.NumRequeues(x) == q.NumRequeues(x) && q'.Weight(x) == q.Weight(x)
  {
    StepSound(q, End(y, failed, again));
  }

  /** The task that ends is alive afterwards exactly if it failed and may be retried. */
  lemma OwnEnd(q: Queue, x: Task, failed: bool)
    requires Single(q, x) && x in q.processing
    ensures var q' := q.Process(x, failed, false);
            && Single(q', x) && q.Alive(x)
            && (q'.Alive(x) <==> failed && q.NumRequeues(x) < MAX_RETRIES)
            && (q'.Alive(x) ==> q'.NumRequeues(x) == q.NumRequeues(x) + 1)
            && q'.Weight(x) < q.Weight(x) && q'.Tries(x) < q.Tries(x)
  {
    StepSound(q, End(x, failed, false));
  }

  /** What one step does to one task that it does not insert. */
  lemma StepTries(q: Queue, s: Step, x: Task)
    requires Single(q, x) && Enabled(q, s) && !Inserts(s, x)
    ensures Single(Next(q, s), x)
    ensures s.End? && s.task == x ==>
              && q.Alive(x)
              && (Next(q, s).Alive(x) <==> s.failed && q.NumRequeues(x) < MAX_RETRIES)
              && (Next(q, s).Alive(x) ==> Next(q, s).NumRequeues(x) == q.NumRequeues(x) + 1)
              && Next(q, s).Weight(x) < q.Weight(x) && Next(q, s).Tries(x) < q.Tries(x)
    ensures !(s.End? && s.task == x) ==>
              && (Next(q, s).Alive(x) <==> q.Alive(x)) && Next(q, s).NumRequeues(x) == q.NumRequeues(x)
              && Next(q, s).Weight(x) <= q.Weight(x)
    ensures (s.Begin? && x == q.queue[0]) || (s.Fired? && x == q.waiting[s.index]) ==>
              Next(q, s).Weight(x) < q.Weight(x)
  {
    match s
    case Begin => BeginStep(q, x);
    case End(y, failed, again) => if y == x { OwnEnd(q, x, failed); } else { OtherEnds(q, y, failed, again, x); }
    case Fired(i) => FireStep(q, i, x);
    case Insert(y) => InsertStep(q, y, x);
  }

  lemma EndsSnoc(steps: seq<Step>, i: nat, x: Task)
    requires 0 < i <= |steps|
    ensures var s := steps[i - 1];
            && Ends(steps[..i], x) == Ends(steps[..i - 1], x) + (if s.End? && s.task == x then 1 else 0)
            && (AllFailed(steps[..i], x) <==> AllFailed(steps[..i - 1], x) && (s.End? && s.task == x ==> s.failed))
  {
    assert steps[..i][..i - 1] == steps[..i - 1];
    assert steps[..i] == steps[..i - 1] + [steps[i - 1]];
  }

  /** Whatever other tasks are inserted, by events or by themselves: while a task that is not inserted
      again is alive its failures are counted exactly; once it is gone it was processed at most eleven
      times and is forgotten, and exactly eleven times if it always failed. */
  lemma {:induction false} TriesCounted(qs: seq<Queue>, steps: seq<Step>, x: Task, i: nat)
    requires IsRun(qs, steps) && i < |qs| && forall j :: 0 <= j < i ==> !Inserts(steps[j], x)
    requires Single(qs[0], x) && qs[0].Alive(x) && qs[0].NumRequeues(x) == 0
    ensures Single(qs[i], x)
    ensures qs[i].Alive(x) ==> qs[i].NumRequeues(x) == Ends(steps[..i], x) <= MAX_RETRIES && AllFailed(steps[..i], x)
    ensures !qs[i].Alive(x) ==> Ends(steps[..i], x) <= MAX_RETRIES + 1 && x !in qs[i].failures
    ensures !qs[i].Alive(x) && AllFailed(steps[..i], x) ==> Ends(steps[..i], x) == MAX_RETRIES + 1
  {
    if i > 0 {
      TriesCounted(qs, steps, x, i - 1);
      EndsSnoc(steps, i, x);
      StepTries(qs[i - 1], steps[i - 1], x);
    } else {
      assert steps[..0] == [];
    }
  }

  // ---- Draining ------------------------------------------------------------------------------

  function Sum(f: Task -> int, tasks: seq<Task>): int {
    if tasks == [] then 0 else Sum(f, tasks[..|tasks| - 1]) + f(tasks[|tasks| - 1])
  }

  lemma {:induction false} SumKept(f: Task -> int, g: Task -> int, tasks: seq<Task>)
    requires forall x <- tasks :: g(x) <= f(x)
    ensures Sum(g, tasks) <= Sum(f, tasks)
  {
    if tasks != [] {
      var last := tasks[|tasks| - 1];
      SumKept(f, g, tasks[..|tasks| - 1]);
      assert last in tasks && g(last) <= f(last);
    }
  }

  lemma {:induction false} SumShrinks(f: Task -> int, g: Task -> int, tasks: seq<Task>, x: Task)
    requires x in tasks && g(x) < f(x) && forall y <- tasks :: g(y) <= f(y)
    ensures Sum(g, tasks) < Sum(f, tasks)
  {
    var n := |tasks| - 1;
    assert tasks == tasks[..n] + [tasks[n]];
    var last := tasks[n];
    assert last in tasks && g(last) <= f(last);
    if x in tasks[..n] {
      SumShrinks(f, g, tasks[..n], x);
    } else {
      SumKept(f, g, tasks[..n]);
    }
  }

  lemma {:induction false} SumBounds(f: Task -> int, tasks: seq<Task>, lo: int, hi: int)
    requires forall x <- tasks :: lo <= f(x) <= hi
    ensures lo * |tasks| <= Sum(f, tasks) <= hi * |tasks|
  {
    if tasks != [] {
      var last := tasks[|tasks| - 1];
      SumBounds(f, tasks[..|tasks| - 1], lo, hi);
      assert last in tasks && lo <= f(last) <= hi;
      OneMore(lo, |tasks| - 1);
      OneMore(hi, |tasks| - 1);
    }
  }

  lemma OneMore(a: int, n: nat)
    ensures a * (n + 1) == a * n + a
  {
  }

  function TotalEnds(steps: seq<Step>): nat {
    if steps == [] then 0
    else TotalEnds(steps[..|steps| - 1]) + (if steps[|steps| - 1].End? then 1 else 0)
  }

  /** Nothing is inserted, from outside or by the tasks themselves. */
  predicate InsertsNothing(steps: seq<Step>) {
    forall s <- steps :: !s.Insert? && !(s.End? && s.again)
  }

  ghost predicate AllSingle(q: Queue, tasks: seq<Task>) {
    (forall x :: Single(q, x)) && (forall x :: q.Alive(x) ==> x in tasks)
  }

  /** The task a step is about. */
  function Moved(q: Queue, s: Step): Task
    requires Enabled(q, s) && !s.Insert?
  {
    match s
    case Begin => q.queue[0]
    case End(x, _, _) => x
    case Fired(i) => q.waiting[i]
  }

  /** Every step uses up weight, and the end of a processing a try. */
  lemma StepDrains(q: Queue, s: Step, tasks: seq<Task>)
    requires AllSingle(q, tasks) && Enabled(q, s) && !s.Insert? && !(s.End? && s.again)
    ensures AllSingle(Next(q, s), tasks)
    ensures Sum(x => Next(q, s).Weight(x), tasks) < Sum(x => q.Weight(x), tasks)
    ensures Sum(x => Next(q, s).Tries(x), tasks) + (if s.End? then 1 else 0) <= Sum(x => q.Tries(x), tasks)
  {
    var q', m := Next(q, s), Moved(q, s);
    forall x
      ensures Single(q', x) && (q'.Alive(x) ==> q.Alive(x))
      ensures q'.Weight(x) <= q.Weight(x) && q'.Tries(x) <= q.Tries(x)
      ensures x == m ==> q'.Weight(x) < q.Weight(x) && (s.End? ==> q'.Tries(x) < q.Tries(x))
    {
      StepTries(q, s, x);
    }
    assert q.Alive(m);
    SumShrinks(x => q.Weight(x), x => q'.Weight(x), tasks, m);
    if s.End? {
      SumShrinks(x => q.Tries(x), x => q'.Tries(x), tasks, m);
    } else {
      SumKept(x => q.Tries(x), x => q'.Tries(x), tasks);
    }
  }

  lemma StartSingle(tasks: seq<Task>)
    requires NoDuplicates(tasks)
    ensures AllSingle(Start(tasks), tasks)
    ensures Sum(x => Start(tasks).Weight(x), tasks) <= 32 * |tasks|
    ensures Sum(x => Start(tasks).Tries(x), tasks) <= (MAX_RETRIES + 1) * |tasks|
  {
    var q := Start(tasks);
    assert forall x :: Single(q, x);
    SumBounds(x => q.Weight(x), tasks, 0, 32);
    SumBounds(x => q.Tries(x), tasks, 0, 11);
  }

  lemma {:induction false} Drains(qs: seq<Queue>, steps: seq<Step>, tasks: seq<Task>, i: nat)
    requires IsRun(qs, steps) && qs[0] == Start(tasks) && NoDuplicates(tasks) && InsertsNothing(steps) && i < |qs|
    ensures AllSingle(qs[i], tasks)
    ensures i + Sum(x => qs[i].Weight(x), tasks) <= 32 * |tasks|
    ensures TotalEnds(steps[..i]) + Sum(x => qs[i].Tries(x), tasks) <= (MAX_RETRIES + 1) * |tasks|
  {
    if i == 0 {
      StartSingle(tasks);
      assert steps[..0] == [];
    } else {
      Drains(qs, steps, tasks, i - 1);
      assert steps[i - 1] in steps;
      assert steps[..i][..i - 1] == steps[..i - 1];
      StepDrains(qs[i - 1], steps[i - 1], tasks);
    }
  }

  /** No step but an insertion is possible. */
  ghost predicate Stuck(q: Queue) {
    forall s :: Enabled(q, s) ==> s.Insert?
  }

  /** A queue is stuck exactly when it is empty. */
  lemma StuckIsEmpty(q: Queue)
    ensures Stuck(q) <==> q.queue == [] && q.processing == {} && q.waiting == []
  {
    if Stuck(q) {
      assert !Enabled(q, Begin) && !Enabled(q, Fired(0));
      forall x ensures x !in q.processing {
        assert !Enabled(q, End(x, true, false));
      }
    }
  }

  /** From n queued tasks without insertions, every run has at most 32n steps, 11n of them calls of
      handleTask, and a run that cannot go on has emptied the queue. */
  lemma DrainsEmpty(qs: seq<Queue>, steps: seq<Step>, tasks: seq<Task>)
    requires IsRun(qs, steps) && qs[0] == Start(tasks) && NoDuplicates(tasks) && InsertsNothing(steps)
    ensures |steps| <= 32 * |tasks| && TotalEnds(steps) <= (MAX_RETRIES + 1) * |tasks|
    ensures var q := qs[|steps|];
            Stuck(q) <==> q.queue == [] && q.processing == {} && q.waiting == []
  {
    var q := qs[|steps|];
    Drains(qs, steps, tasks, |steps|);
    assert steps[..|steps|] == steps;
    forall x ensures q.Weight(x) >= 0 && q.Tries(x) >= 0 {
      assert Single(q, x);
    }
    SumNonNegative(x => q.Weight(x), tasks);
    SumNonNegative(x => q.Tries(x), tasks);
    StuckIsEmpty(q);
  }

  lemma {:induction false} SumNonNegative(f: Task -> int, tasks: seq<Task>)
    requires forall x <- tasks :: f(x) >= 0
    ensures Sum(f, tasks) >= 0
  {
    if tasks != [] {
      var last := tasks[|tasks| - 1];
      SumNonNegative(f, tasks[..|tasks| - 1]);
      assert last in tasks && f(last) >= 0;
    }
  }

  // ---- Tasks that insert themselves ----------------------------------------------------------

  /** In every interleaving, with any insertions and delays, a task that inserts itself whenever it is
      processed, as a failed deletion in syncService does, is never dropped. */
  lemma {:induction false} NeverDropped(qs: seq<Queue>, steps: seq<Step>, x: Task, i: nat)
    requires IsRun(qs, steps) && Sound(qs[0]) && qs[0].Alive(x) && i < |qs|
    requires forall j :: 0 <= j < i && steps[j].End? && steps[j].task == x ==> steps[j].again
    ensures qs[i].Alive(x)
  {
    if i > 0 {
      NeverDropped(qs, steps, x, i - 1);
      RunSound(qs, steps, i - 1);
      StaysAlive(qs[i - 1], steps[i - 1], x);
    }
  }

  lemma StaysAlive(q: Queue, s: Step, x: Task)
    requires Sound(q) && Enabled(q, s) && q.Alive(x) && (s.End? && s.task == x ==> s.again)
    ensures Next(q, s).Alive(x)
  {
    match s
    case Begin => assert q.queue == [q.queue[0]] + q.queue[1..];
    case End(y, _, _) =>
    case Fired(i) => Fires(q, i);
    case Insert(y) =>
  }

  /** How often `x` has failed since it last succeeded. */
  function FailuresInARow(steps: seq<Step>, x: Task): nat {
    if steps == [] then 0
    else
      var last := steps[|steps| - 1];
      var before := FailuresInARow(steps[..|steps| - 1], x);
      if last.End? && last.task == x then (if last.failed then before + 1 else 0) else before
  }

  lemma NextModulo(n: nat)
    ensures (n + 1) % 11 == if n % 11 == 10 then 0 else n % 11 + 1
  {
  }

  /** `row` are the failures in a row before the step. */
  lemma CountsOne(q: Queue, s: Step, x: Task, row: nat)
    requires Enabled(q, s) && q.NumRequeues(x) == row % (MAX_RETRIES + 1)
    ensures Next(q, s).NumRequeues(x) ==
            (if s.End? && s.task == x then (if s.failed then row + 1 else 0) else row) % (MAX_RETRIES + 1)
  {
    NextModulo(row);
  }

  lemma RowSnoc(steps: seq<Step>, i: nat, x: Task)
    requires 0 < i <= |steps|
    ensures var s, before := steps[i - 1], FailuresInARow(steps[..i - 1], x);
            FailuresInARow(steps[..i], x) ==
            if s.End? && s.task == x then (if s.failed then before + 1 else 0) else before
  {
    assert steps[..i][..i - 1] == steps[..i - 1];
  }

  /** In every run, however a task is inserted and however its processings end, its failure counter is the
      number of failures since its last success, and starts over after every eleventh. */
  lemma {:induction false} CountsToEleven(qs: seq<Queue>, steps: seq<Step>, x: Task, i: nat)
    requires IsRun(qs, steps) && qs[0].NumRequeues(x) == 0 && i < |qs|
    ensures qs[i].NumRequeues(x) == FailuresInARow(steps[..i], x) % (MAX_RETRIES + 1)
  {
    if i > 0 {
      CountsToEleven(qs, steps, x, i - 1);
      RowSnoc(steps, i, x);
      CountsOne(qs[i - 1], steps[i - 1], x, FailuresInARow(steps[..i - 1], x));
    } else {
      assert steps[..0] == [];
    }
  }

  /** Exactly when a task is gone after a processing, in any run: if it succeeded or failed for the eleventh
      time in a row, was meanwhile inserted neither by itself nor from outside, and no earlier copy of it
      is still waiting. */
  lemma DroppedIff(qs: seq<Queue>, steps: seq<Step>, x: Task, i: nat)
    requires IsRun(qs, steps) && Sound(qs[0]) && qs[0].NumRequeues(x) == 0 && i < |steps|
    requires steps[i].End? && steps[i].task == x
    ensures !qs[i + 1].Alive(x) <==>
            && FailuresInARow(steps[..i + 1], x) % (MAX_RETRIES + 1) == 0
            && !steps[i].again && x !in qs[i].dirty && x !in qs[i].waiting
  {
    RunSound(qs, steps, i);
    RowSnoc(steps, i + 1, x);
    CountsToEleven(qs, steps, x, i);
    NextModulo(FailuresInARow(steps[..i], x));
    GoneIff(qs[i], x, steps[i].failed, steps[i].again);
  }

  lemma GoneIff(q: Queue, x: Task, failed: bool, again: bool)
    requires Sound(q) && x in q.processing && q.NumRequeues(x) <= MAX_RETRIES
    ensures !q.Process(x, failed, again).Alive(x) <==>
            (failed ==> q.NumRequeues(x) == MAX_RETRIES) && !again && x !in q.dirty && x !in q.waiting
  {
  }

  /** For a failing task that was not inserted again before: exactly its eleventh failure without its own
      re-insertion drops it. */
  lemma DroppedAtEleventh(qs: seq<Queue>, steps: seq<Step>, x: Task, i: nat)
    requires IsRun(qs, steps) && i < |steps| && forall j :: 0 <= j < i ==> !Inserts(steps[j], x)
    requires Single(qs[0], x) && qs[0].Alive(x) && qs[0].NumRequeues(x) == 0
    requires steps[i].End? && steps[i].task == x && AllFailed(steps[..i + 1], x)
    ensures !qs[i + 1].Alive(x) <==> Ends(steps[..i + 1], x) == MAX_RETRIES + 1 && !steps[i].again
  {
    TriesCounted(qs, steps, x, i);
    EndsSnoc(steps, i + 1, x);
    GoneIff(qs[i], x, steps[i].failed, steps[i].again);
  }

  // ---- A leftover copy revives a task --------------------------------------------------------

  /** One more step at the end of a run. */
  lemma Extend(qs: seq<Queue>, steps: seq<Step>, s: Step) returns (qs': seq<Queue>, steps': seq<Step>)
    requires IsRun(qs, steps) && Enabled(qs[|steps|], s)
    ensures IsRun(qs', steps') && qs'[0] == qs[0] && steps' == steps + [s]
    ensures qs'[|steps'|] == Next(qs[|steps|], s) && qs'[|steps|] == qs[|steps|]
  {
    qs', steps' := qs + [Next(qs[|steps|], s)], steps + [s];
    forall i | 0 <= i < |steps'| ensures Enabled(qs'[i], steps'[i]) && qs'[i + 1] == Next(qs'[i], steps'[i]) {
      if i < |steps| {
        assert qs'[i] == qs[i] && qs'[i + 1] == qs[i + 1] && steps'[i] == steps[i];
      }
    }
  }

  /** A task that inserts itself at its first failure only keeps a copy waiting through the next ones: the
      copy fires while the task is being processed, and the failure enters it anew. */
  lemma {:induction false} Leftover(x: Task, n: nat) returns (qs: seq<Queue>, steps: seq<Step>)
    requires 1 <= n <= MAX_RETRIES
    ensures IsRun(qs, steps) && qs[0] == Start([x])
    ensures qs[|steps|] == Queue([x], {x}, {}, [x], map[x := n])
  {
    if n == 1 {
      qs, steps := [Start([x])], [];
      qs, steps := Extend(qs, steps, Begin);
      assert qs[|steps|] == Queue([], {}, {x}, [], map[]);
      qs, steps := Extend(qs, steps, End(x, true, true));
    } else {
      qs, steps := Leftover(x, n - 1);
      qs, steps := Extend(qs, steps, Begin);
      assert qs[|steps|] == Queue([], {}, {x}, [x], map[x := n - 1]);
      qs, steps := Extend(qs, steps, Fired(0));
      assert qs[|steps|] == Queue([], {x}, {x}, [], map[x := n - 1]);
      qs, steps := Extend(qs, steps, End(x, true, false));
    }
  }

  /** So an eleventh failure in a row without re-insertion is not enough to drop a task: one that inserted
      itself once before can still be waiting, and will be processed again. No state of the run holds a
      task twice. */
  lemma LeftoverRevives(x: Task) returns (qs: seq<Queue>, steps: seq<Step>)
    ensures IsRun(qs, steps) && qs[0] == Start([x]) && |steps| >= 1
    ensures forall i :: 0 <= i < |qs| ==> Sound(qs[i])
    ensures steps[|steps| - 1] == End(x, true, false) && qs[|steps| - 1].NumRequeues(x) == MAX_RETRIES
    ensures qs[|steps|].Alive(x)
  {
    qs, steps := Leftover(x, MAX_RETRIES);
    qs, steps := Extend(qs, steps, Begin);
    assert qs[|steps|] == Queue([], {}, {x}, [x], map[x := MAX_RETRIES]);
    qs, steps := Extend(qs, steps, End(x, true, false));
    forall i | 0 <= i < |qs| ensures Sound(qs[i]) {
      RunSound(qs, steps, i);
    }
  }
}
