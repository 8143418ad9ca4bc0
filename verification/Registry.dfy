/** The Polaris server as the controller sees it: instances by host and port, where adding is
    add-if-absent (code 400201) and updating does not touch protocol and version. */
module Registry {
  import opened Wrappers
  import opened Instances

  datatype Key = Key(host: string, port: nat)

  function KeyOf(x: Instance): Key {
    Key(x.host, x.port)
  }

  type Content = map<Key, Instance>

  ghost predicate IsContent(reg: Content) {
    forall k <- reg :: KeyOf(reg[k]) == k
  }

  function Lookup(reg: Content, k: Key): Option<Instance> {
    if k in reg then Some(reg[k]) else None
  }

  datatype Change = Change(
    weight: int, healthy: bool, isolate: bool, healthCheck: bool, metadata: map<string, string>)

  datatype RegOp =
    | AddInstance(instance: Instance)
    | UpdateInstance(target: Key, change: Change)
    | DeleteInstance(target: Key)
  {
    function On(): Key {
      if AddInstance? then KeyOf(instance) else target
    }
  }

  function Changed(x: Instance, c: Change): (r: Instance)
    ensures KeyOf(r) == KeyOf(x)
  {
    x.(weight := c.weight, healthy := c.healthy, isolate := c.isolate, healthCheck := c.healthCheck,
       metadata := c.metadata)
  }

  /** What an operation makes of the entry it is about. */
  function Effect(cur: Option<Instance>, op: RegOp): Option<Instance> {
    match op
    case AddInstance(x) => if cur.Some? then cur else Some(x)
    case UpdateInstance(_, c) => if cur.Some? then Some(Changed(cur.value, c)) else None
    case DeleteInstance(_) => None
  }

  function ApplyOp(reg: Content, op: RegOp): Content {
    match Effect(Lookup(reg, op.On()), op)
    case Some(x) => reg[op.On() := x]
    case None => reg - {op.On()}
  }

  function ApplyOps(reg: Content, ops: seq<RegOp>): Content {
    if ops == [] then reg else ApplyOp(ApplyOps(reg, ops[..|ops| - 1]), ops[|ops| - 1])
  }

  lemma {:induction false} ApplyOpsConcat(reg: Content, a: seq<RegOp>, b: seq<RegOp>)
    ensures ApplyOps(reg, a + b) == ApplyOps(ApplyOps(reg, a), b)
  {
    if b == [] {
      assert a + b == a;
    } else {
      assert (a + b)[..|a + b| - 1] == a + b[..|b| - 1];
      ApplyOpsConcat(reg, a, b[..|b| - 1]);
    }
  }

  lemma ApplyOpKeeps(reg: Content, op: RegOp)
    requires IsContent(reg)
    ensures IsContent(ApplyOp(reg, op))
  {
    assert op.On() in reg ==> KeyOf(reg[op.On()]) == op.On();
  }

  lemma {:induction false} ApplyOpsKeeps(reg: Content, ops: seq<RegOp>)
    requires IsContent(reg)
    ensures IsContent(ApplyOps(reg, ops))
  {
    if ops != [] {
      ApplyOpsKeeps(reg, ops[..|ops| - 1]);
      ApplyOpKeeps(ApplyOps(reg, ops[..|ops| - 1]), ops[|ops| - 1]);
    }
  }

  ghost predicate Distinct(ops: seq<RegOp>) {
    forall i, j :: 0 <= i < j < |ops| ==> ops[i].On() != ops[j].On()
  }

  /** Operations on other keys leave an entry alone. */
  lemma {:induction false} Untouched(reg: Content, ops: seq<RegOp>, k: Key)
    requires forall op <- ops :: op.On() != k
    ensures Lookup(ApplyOps(reg, ops), k) == Lookup(reg, k)
  {
    if ops != [] {
      assert ops[|ops| - 1] in ops;
      Untouched(reg, ops[..|ops| - 1], k);
    }
  }

  /** Carrying the operation out would change nothing. */
  predicate NothingToDo(reg: Content, op: RegOp) {
    Effect(Lookup(reg, op.On()), op) == Lookup(reg, op.On())
  }

  lemma EffectTwice(cur: Option<Instance>, op: RegOp)
    ensures Effect(Effect(cur, op), op) == Effect(cur, op)
  {
  }

  /** An operation acts once on its entry however often it is carried out, if no other is about it. */
  lemma {:induction false} TouchedOften(reg: Content, ops: seq<RegOp>, op: RegOp)
    requires op in ops && forall o <- ops :: o.On() == op.On() ==> o == op
    ensures Lookup(ApplyOps(reg, ops), op.On()) == Effect(Lookup(reg, op.On()), op)
  {
    var n := |ops| - 1;
    assert ops == ops[..n] + [ops[n]];
    if op in ops[..n] {
      TouchedOften(reg, ops[..n], op);
      EffectTwice(Lookup(reg, op.On()), op);
    } else {
      forall o | o in ops[..n] ensures o.On() != op.On() {
        assert o in ops;
      }
      Untouched(reg, ops[..n], op.On());
    }
  }

  lemma DistinctIsOne(ops: seq<RegOp>, op: RegOp)
    requires Distinct(ops) && op in ops
    ensures forall o <- ops :: o.On() == op.On() ==> o == op
  {
  }

  /** With distinct keys each operation acts on its entry as if it were the only one. */
  lemma Touched(reg: Content, ops: seq<RegOp>, op: RegOp)
    requires Distinct(ops) && op in ops
    ensures Lookup(ApplyOps(reg, ops), op.On()) == Effect(Lookup(reg, op.On()), op)
  {
    DistinctIsOne(ops, op);
    TouchedOften(reg, ops, op);
  }

  /** Leaving operations out, and repeating or reordering others, makes no difference exactly if those
      left out had nothing to do. */
  lemma LeavingOut(reg: Content, ops: seq<RegOp>, done: seq<RegOp>)
    requires Distinct(ops) && forall op <- done :: op in ops
    ensures ApplyOps(reg, done) == ApplyOps(reg, ops) <==> forall op <- ops :: op in done || NothingToDo(reg, op)
  {
    forall op | op in ops
      ensures Lookup(ApplyOps(reg, done), op.On()) == Lookup(ApplyOps(reg, ops), op.On()) <==>
              op in done || NothingToDo(reg, op)
    {
      DistinctIsOne(ops, op);
      Touched(reg, ops, op);
      if op in done {
        TouchedOften(reg, done, op);
      } else {
        Untouched(reg, done, op.On());
      }
    }
    if forall op <- ops :: op in done || NothingToDo(reg, op) {
      forall k ensures Lookup(ApplyOps(reg, done), k) == Lookup(ApplyOps(reg, ops), k) {
        if forall op <- ops :: op.On() != k {
          Untouched(reg, done, k);
          Untouched(reg, ops, k);
        }
      }
      SameContent(ApplyOps(reg, done), ApplyOps(reg, ops));
    }
  }

  /** The order of operations on distinct keys does not matter: any two lists of the same operations
      leave the same registry. */
  lemma OrderIrrelevant(reg: Content, a: seq<RegOp>, b: seq<RegOp>)
    requires Distinct(a) && Distinct(b)
    requires forall op :: op in a <==> op in b
    ensures ApplyOps(reg, a) == ApplyOps(reg, b)
  {
    forall k ensures Lookup(ApplyOps(reg, a), k) == Lookup(ApplyOps(reg, b), k) {
      if exists op :: op in a && op.On() == k {
        var op :| op in a && op.On() == k;
        Touched(reg, a, op);
        Touched(reg, b, op);
      } else {
        Untouched(reg, a, k);
        Untouched(reg, b, k);
      }
    }
    SameContent(ApplyOps(reg, a), ApplyOps(reg, b));
  }

  lemma SameContent(a: Content, b: Content)
    requires forall k :: Lookup(a, k) == Lookup(b, k)
    ensures a == b
  {
    forall k ensures k in a <==> k in b {
      assert Lookup(a, k) == Lookup(b, k);
    }
    forall k | k in a ensures a[k] == b[k] {
      assert Lookup(a, k) == Lookup(b, k);
    }
  }

  /** The server, reached through calls that take effect one at a time. */
  class Server {
    var content: Content

    ghost predicate Valid()
      reads this
    {
      IsContent(content)
    }

    constructor (initial: Content)
      requires IsContent(initial)
      ensures Valid() && content == initial
    {
      content := initial;
    }

    /** The instances of the service, in any order. */
    method GetAll() returns (instances: seq<Instance>)
      requires Valid()
      ensures Enumerates(instances, content)
    {
      instances := [];
      var todo := content.Keys;
      while todo != {}
        invariant todo <= content.Keys
        invariant forall x <- instances :: KeyOf(x) in content && KeyOf(x) !in todo && content[KeyOf(x)] == x
        invariant forall i, j :: 0 <= i < j < |instances| ==> KeyOf(instances[i]) != KeyOf(instances[j])
        invariant forall k <- content :: k !in todo ==> content[k] in instances
        decreases |todo|
      {
        var k :| k in todo;
        instances := instances + [content[k]];
        todo := todo - {k};
      }
    }

    method Do(op: RegOp)
      requires Valid()
      modifies this
      ensures Valid() && content == ApplyOp(old(content), op)
    {
      ApplyOpKeeps(content, op);
      match Effect(Lookup(content, op.On()), op)
      case Some(x) => content := content[op.On() := x];
      case None => content := content - {op.On()};
    }

    method DoAll(ops: seq<RegOp>)
      requires Valid()
      modifies this
      ensures Valid() && content == ApplyOps(old(content), ops)
    {
      for i := 0 to |ops|
        invariant Valid() && content == ApplyOps(old(content), ops[..i])
      {
        Do(ops[i]);
        assert ops[..i + 1][..i] == ops[..i];
      }
      assert ops[..|ops|] == ops;
    }
  }

  /** Every instance once. */
  ghost predicate Enumerates(instances: seq<Instance>, reg: Content) {
    Lists(instances, reg) && Different(instances)
  }

  ghost predicate Different(instances: seq<Instance>) {
    forall i, j :: 0 <= i < j < |instances| ==> KeyOf(instances[i]) != KeyOf(instances[j])
  }

  ghost predicate Lists(instances: seq<Instance>, reg: Content) {
    && (forall x <- instances :: KeyOf(x) in reg && reg[KeyOf(x)] == x)
    && (forall k <- reg :: reg[k] in instances)
  }
}
