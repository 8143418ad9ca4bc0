/** polarisapi/service_api.go: a batch of registry calls is split into pages that are sent concurrently,
    and the errors they record are joined at the end. */
module Paging {
  import opened Wrappers
  import opened Instances
  import opened Registry

  // ---- Splitting -----------------------------------------------------------------------------

  function Concat<T>(pages: seq<seq<T>>): seq<T> {
    if pages == [] then [] else Concat(pages[..|pages| - 1]) + pages[|pages| - 1]
  }

  function CeilDiv(n: nat, d: nat): nat
    requires d >= 1
  {
    (n + d - 1) / d
  }

  lemma CeilDivIs(n: nat, d: nat)
    requires d >= 1
    ensures CeilDiv(n, d) == 0 <==> n == 0
    ensures n > 0 ==> (CeilDiv(n, d) - 1) * d < n <= CeilDiv(n, d) * d
  {
  }

  /** splitArray: the fewest pages of at most `size`, none empty, all full but the last, and together
      the batch in order. */
  method SplitArray<T>(instances: seq<T>, size: nat) returns (pages: seq<seq<T>>)
    requires size >= 1
    ensures |pages| == CeilDiv(|instances|, size)
    ensures forall i :: 0 <= i < |pages| ==> 0 < |pages[i]| <= size
    ensures forall i :: 0 <= i < |pages| - 1 ==> |pages[i]| == size
    ensures Concat(pages) == instances
  {
    var length := |instances|;
    var page := CeilDiv(length, size);
    CeilDivIs(length, size);
    pages := [];
    for i := 0 to page
      invariant |pages| == i
      invariant forall j :: 0 <= j < i ==> 0 < |pages[j]| <= size
      invariant forall j :: 0 <= j < i && j < page - 1 ==> |pages[j]| == size
      invariant i * size <= length || i == page
      invariant Concat(pages) == instances[..if i == page then length else i * size]
    {
      PageBounds(i, page, size, length);
      var start := i * size;
      var end := if i == page - 1 then length else start + size;
      assert (pages + [instances[start..end]])[..|pages|] == pages;
      assert instances[..start] + instances[start..end] == instances[..end];
      pages := pages + [instances[start..end]];
    }
    assert instances[..length] == instances;
  }

  lemma PageBounds(i: nat, page: nat, size: nat, length: nat)
    requires size >= 1 && page == CeilDiv(length, size) && i < page
    ensures i * size < length
    ensures i == page - 1 ==> length - i * size <= size
    ensures i < page - 1 ==> (i + 1) * size == i * size + size < length
  {
    CeilDivIs(length, size);
    assert i * size <= (page - 1) * size by {
      Monotone(i, page - 1, size);
    }
    if i < page - 1 {
      Monotone(i + 1, page - 1, size);
    }
  }

  lemma Monotone(a: nat, b: nat, c: nat)
    requires a <= b
    ensures a * c <= b * c
  {
  }

  // ---- Replies -------------------------------------------------------------------------------

  datatype Kind = Adding | Updating | Deleting

  /** How the call for a page ends. */
  datatype Reply =
    | NoReply
    | Unreadable(status: nat)
    | Replied(status: nat, code: nat, entries: seq<nat>)

  const HTTP_OK := 200
  const SUCCESS := 200000
  const UNCHANGED := 200002
  const EXISTS := 400201
  const UNAUTHORIZED := 401000
  const FAILURE := 500

  /** The codes a page's reply may carry for one instance without counting as an error. */
  predicate Accepted(kind: Kind, code: nat) {
    match kind
    case Adding => code == EXISTS || code == SUCCESS || code == UNAUTHORIZED
    case Updating => code == UNCHANGED || code == SUCCESS
    case Deleting => code == SUCCESS || code == UNAUTHORIZED
  }

  function Rejected(kind: Kind, entries: seq<nat>): seq<nat> {
    if entries == [] then []
    else
      var last := entries[|entries| - 1];
      Rejected(kind, entries[..|entries| - 1]) + (if Accepted(kind, last) then [] else [last])
  }

  /** The errors the call for one page records. */
  function Recorded(kind: Kind, reply: Reply): seq<nat> {
    match reply
    case NoReply => [FAILURE]
    case Unreadable(status) => if kind != Adding && status == HTTP_OK then [] else [FAILURE]
    case Replied(status, code, entries) =>
      if kind != Adding && status == HTTP_OK then []
      else if code == SUCCESS || (kind != Updating && code == UNAUTHORIZED) then []
      else if entries != [] then Rejected(kind, entries)
      else [FAILURE]
  }

  /** dealAddInstanceResponse, dealUpdateInstanceResponse and dealDeleteInstanceResponse. */
  method DealResponse(kind: Kind, code: nat, entries: seq<nat>) returns (errors: seq<nat>)
    ensures errors == if code == SUCCESS || (kind != Updating && code == UNAUTHORIZED) then []
                      else if entries != [] then Rejected(kind, entries) else [FAILURE]
  {
    errors := [];
    if code == SUCCESS { return; }
    if kind != Updating && code == UNAUTHORIZED { return; }
    if |entries| == 0 { return [FAILURE]; }
    for i := 0 to |entries|
      invariant errors == Rejected(kind, entries[..i])
    {
      if !Accepted(kind, entries[i]) {
        errors := errors + [entries[i]];
      }
      assert entries[..i + 1][..i] == entries[..i];
    }
    assert entries[..|entries|] == entries;
  }

  /** The body of one page's goroutine once its request has been sent. */
  method DealReply(kind: Kind, reply: Reply) returns (errors: seq<nat>)
    ensures errors == Recorded(kind, reply)
  {
    if reply.NoReply? { return [FAILURE]; }
    if kind != Adding && reply.status == HTTP_OK { return []; }
    if reply.Unreadable? { return [FAILURE]; }
    errors := DealResponse(kind, reply.code, reply.entries);
  }

  /** A page is silent exactly if the reply says so as a whole or for every instance in it; being
      denied access is silent for adding and deleting, not for updating. */
  lemma {:induction false} SilentIff(kind: Kind, reply: Reply)
    ensures Recorded(kind, reply) == [] <==>
            || (kind != Adding && !reply.NoReply? && reply.status == HTTP_OK)
            || (reply.Replied?
                && (|| reply.code == SUCCESS
                    || (reply.code == UNAUTHORIZED && kind != Updating)
                    || (reply.entries != [] && forall c <- reply.entries :: Accepted(kind, c))))
  {
    if reply.Replied? {
      RejectedNone(kind, reply.entries);
    }
  }

  lemma {:induction false} RejectedNone(kind: Kind, entries: seq<nat>)
    ensures Rejected(kind, entries) == [] <==> forall c <- entries :: Accepted(kind, c)
  {
    if entries != [] {
      assert entries == entries[..|entries| - 1] + [entries[|entries| - 1]];
      RejectedNone(kind, entries[..|entries| - 1]);
    }
  }

  // ---- Fork and join -------------------------------------------------------------------------

  /** What a page's call does, one atomic action at a time. */
  datatype Action = Do(op: RegOp) | Fail(code: nat)

  datatype Joined = Joined(reg: Content, errors: seq<nat>)

  function Act(s: Joined, a: Action): Joined {
    match a
    case Do(op) => s.(reg := ApplyOp(s.reg, op))
    case Fail(code) => s.(errors := s.errors + [code])
  }

  function Run(s: Joined, trace: seq<Action>): Joined {
    if trace == [] then s else Act(Run(s, trace[..|trace| - 1]), trace[|trace| - 1])
  }

  /** The operations the server carries out for a page, then the errors recorded for it. */
  function PageActions(effective: seq<RegOp>, errors: seq<nat>): seq<Action> {
    seq(|effective|, i requires 0 <= i < |effective| => Do(effective[i]))
    + seq(|errors|, i requires 0 <= i < |errors| => Fail(errors[i]))
  }

  /** `trace` interleaves the pages: every action of every page, each page's in order. */
  ghost predicate Interleaves<T(!new)>(pages: seq<seq<T>>, trace: seq<T>)
    decreases |trace|
  {
    if trace == [] then forall i :: 0 <= i < |pages| ==> pages[i] == []
    else exists i :: NextOf(pages, i, trace[0]) && Interleaves(pages[i := pages[i][1..]], trace[1..])
  }

  predicate NextOf<T(==)>(pages: seq<seq<T>>, i: int, x: T) {
    0 <= i < |pages| && pages[i] != [] && pages[i][0] == x
  }

  lemma {:induction false} ConcatEmpty<T>(pages: seq<seq<T>>)
    requires forall i :: 0 <= i < |pages| ==> pages[i] == []
    ensures Concat(pages) == []
  {
    if pages != [] {
      ConcatEmpty(pages[..|pages| - 1]);
    }
  }

  lemma HeadAndTail<T>(s: seq<T>)
    requires s != []
    ensures multiset(s) == multiset{s[0]} + multiset(s[1..])
  {
    assert s == [s[0]] + s[1..];
  }

  lemma {:induction false} ConcatWithout<T(!new)>(pages: seq<seq<T>>, i: nat)
    requires i < |pages| && pages[i] != []
    ensures multiset(Concat(pages)) == multiset{pages[i][0]} + multiset(Concat(pages[i := pages[i][1..]]))
  {
    var n := |pages| - 1;
    var less := pages[i := pages[i][1..]];
    if i == n {
      assert less[..n] == pages[..n];
      HeadAndTail(pages[n]);
    } else {
      assert less[..n] == pages[..n][i := pages[i][1..]];
      ConcatWithout(pages[..n], i);
    }
  }

  lemma {:induction false} SameActions<T(!new)>(pages: seq<seq<T>>, trace: seq<T>)
    requires Interleaves(pages, trace)
    ensures multiset(trace) == multiset(Concat(pages))
    decreases |trace|
  {
    if trace == [] {
      ConcatEmpty(pages);
    } else {
      var i :| NextOf(pages, i, trace[0]) && Interleaves(pages[i := pages[i][1..]], trace[1..]);
      SameActions(pages[i := pages[i][1..]], trace[1..]);
      ConcatWithout(pages, i);
      HeadAndTail(trace);
    }
  }

  ghost predicate DistinctActions(trace: seq<Action>) {
    forall i, j :: 0 <= i < j < |trace| && trace[i].Do? && trace[j].Do? ==> trace[i].op.On() != trace[j].op.On()
  }

  lemma {:induction false} CountTwice<T>(s: seq<T>, i: nat, j: nat)
    requires i < j < |s| && s[i] == s[j]
    ensures multiset(s)[s[i]] >= 2
  {
    assert s == s[..j] + [s[j]] + s[j + 1..];
    assert s[..j][i] == s[i] && s[i] in multiset(s[..j]);
  }

  lemma {:induction false} CountOnce(s: seq<Action>, a: Action)
    requires DistinctActions(s) && a.Do?
    ensures multiset(s)[a] <= 1
  {
    if s != [] {
      var n := |s| - 1;
      assert s == s[..n] + [s[n]];
      CountOnce(s[..n], a);
      if s[n] == a {
        forall i | 0 <= i < n ensures s[..n][i] != a {
        }
        assert a !in multiset(s[..n]);
      }
    }
  }

  /** Distinctness does not depend on the order. */
  lemma DistinctPermuted(s: seq<Action>, t: seq<Action>)
    requires DistinctActions(s) && multiset(s) == multiset(t)
    ensures DistinctActions(t)
  {
    forall i, j | 0 <= i < j < |t| && t[i].Do? && t[j].Do? ensures t[i].op.On() != t[j].op.On() {
      if t[i] == t[j] {
        CountTwice(t, i, j);
        CountOnce(s, t[i]);
      } else {
        assert t[i] in multiset(s) && t[j] in multiset(s);
        var x :| 0 <= x < |s| && s[x] == t[i];
        var y :| 0 <= y < |s| && s[y] == t[j];
      }
    }
  }

  function OpsIn(trace: seq<Action>): seq<RegOp> {
    if trace == [] then []
    else OpsIn(trace[..|trace| - 1]) + (if trace[|trace| - 1].Do? then [trace[|trace| - 1].op] else [])
  }

  lemma {:induction false} RunContent(s: Joined, trace: seq<Action>)
    ensures Run(s, trace).reg == ApplyOps(s.reg, OpsIn(trace))
  {
    if trace != [] {
      var n := |trace| - 1;
      RunContent(s, trace[..n]);
      if trace[n].Do? {
        assert OpsIn(trace)[..|OpsIn(trace)| - 1] == OpsIn(trace[..n]);
      } else {
        assert OpsIn(trace) == OpsIn(trace[..n]);
      }
    }
  }

  lemma {:induction false} RunErrors(s: Joined, trace: seq<Action>)
    ensures Run(s, trace).errors == [] <==> s.errors == [] && forall a <- trace :: a.Do?
  {
    if trace != [] {
      var n := |trace| - 1;
      RunErrors(s, trace[..n]);
      assert trace == trace[..n] + [trace[n]];
    }
  }

  lemma RunIs(s: Joined, trace: seq<Action>)
    ensures Run(s, trace).reg == ApplyOps(s.reg, OpsIn(trace))
    ensures s.errors == [] ==> (Run(s, trace).errors == [] <==> forall a <- trace :: a.Do?)
  {
    RunContent(s, trace);
    RunErrors(s, trace);
  }

  lemma {:induction false} OpsInIs(trace: seq<Action>)
    ensures forall op :: op in OpsIn(trace) <==> Do(op) in trace
  {
    if trace != [] {
      var n := |trace| - 1;
      assert trace == trace[..n] + [trace[n]];
      OpsInIs(trace[..n]);
    }
  }

  lemma {:induction false} OpsInDistinct(trace: seq<Action>)
    requires DistinctActions(trace)
    ensures Distinct(OpsIn(trace))
  {
    if trace != [] {
      var n := |trace| - 1;
      var ops := OpsIn(trace[..n]);
      OpsInDistinct(trace[..n]);
      OpsInIs(trace[..n]);
      if trace[n].Do? {
        forall i | 0 <= i < |ops| ensures ops[i].On() != trace[n].op.On() {
          assert ops[i] in ops;
          var j :| 0 <= j < n && trace[j] == Do(ops[i]);
        }
      }
    }
  }

  /** However the pages interleave, the registry ends up as if their operations had been carried out in
      one sequence, and an error comes back exactly if some page recorded one. */
  lemma ForkJoin(reg: Content, pages: seq<seq<Action>>, trace: seq<Action>)
    requires Interleaves(pages, trace) && DistinctActions(Concat(pages))
    ensures Run(Joined(reg, []), trace).reg == ApplyOps(reg, OpsIn(Concat(pages)))
    ensures Run(Joined(reg, []), trace).errors == [] <==> forall a <- Concat(pages) :: a.Do?
  {
    var whole := Concat(pages);
    SameActions(pages, trace);
    assert forall a :: a in trace <==> a in multiset(trace);
    assert forall a :: a in whole <==> a in multiset(whole);
    DistinctPermuted(whole, trace);
    RunIs(Joined(reg, []), trace);
    OpsInIs(trace);
    OpsInIs(whole);
    OpsInDistinct(trace);
    OpsInDistinct(whole);
    OrderIrrelevant(reg, OpsIn(trace), OpsIn(whole));
  }

  // ---- A batch of calls ----------------------------------------------------------------------

  /** What each page's call does: `effective` are the operations the server carries out. */
  function Calls(kind: Kind, effective: seq<seq<RegOp>>, replies: seq<Reply>): seq<seq<Action>>
    requires |effective| == |replies|
  {
    seq(|effective|, i requires 0 <= i < |effective| => PageActions(effective[i], Recorded(kind, replies[i])))
  }

  lemma {:induction false} OpsInConcat(a: seq<Action>, b: seq<Action>)
    ensures OpsIn(a + b) == OpsIn(a) + OpsIn(b)
  {
    if b == [] {
      assert a + b == a;
    } else {
      assert (a + b)[..|a + b| - 1] == a + b[..|b| - 1];
      OpsInConcat(a, b[..|b| - 1]);
    }
  }

  lemma {:induction false} OpsInPage(effective: seq<RegOp>, errors: seq<nat>)
    ensures OpsIn(PageActions(effective, errors)) == effective
    decreases |effective| + |errors|
  {
    var t := PageActions(effective, errors);
    if errors != [] {
      assert t[..|t| - 1] == PageActions(effective, errors[..|errors| - 1]);
      OpsInPage(effective, errors[..|errors| - 1]);
    } else if effective != [] {
      assert t[..|t| - 1] == PageActions(effective[..|effective| - 1], errors);
      OpsInPage(effective[..|effective| - 1], errors);
      assert effective == effective[..|effective| - 1] + [effective[|effective| - 1]];
    }
  }

  lemma CallsInit(kind: Kind, effective: seq<seq<RegOp>>, replies: seq<Reply>)
    requires |effective| == |replies| > 0
    ensures var n := |effective| - 1;
            Calls(kind, effective, replies) ==
            Calls(kind, effective[..n], replies[..n]) + [PageActions(effective[n], Recorded(kind, replies[n]))]
  {
  }

  lemma ConcatSnoc<T>(pages: seq<seq<T>>, last: seq<T>)
    ensures Concat(pages + [last]) == Concat(pages) + last
  {
    assert (pages + [last])[..|pages|] == pages;
  }

  lemma {:induction false} OpsInCalls(kind: Kind, effective: seq<seq<RegOp>>, replies: seq<Reply>)
    requires |effective| == |replies|
    ensures OpsIn(Concat(Calls(kind, effective, replies))) == Concat(effective)
  {
    if effective != [] {
      var n := |effective| - 1;
      var init, last := Calls(kind, effective[..n], replies[..n]), PageActions(effective[n],
                                                                               Recorded(kind, replies[n]));
      CallsInit(kind, effective, replies);
      OpsInCalls(kind, effective[..n], replies[..n]);
      ConcatSnoc(init, last);
      OpsInConcat(Concat(init), last);
      OpsInPage(effective[n], Recorded(kind, replies[n]));
    }
  }

  lemma {:induction false} CallsSilent(kind: Kind, effective: seq<seq<RegOp>>, replies: seq<Reply>)
    requires |effective| == |replies|
    ensures (forall a <- Concat(Calls(kind, effective, replies)) :: a.Do?) <==>
            forall i :: 0 <= i < |replies| ==> Recorded(kind, replies[i]) == []
  {
    if effective != [] {
      var n := |effective| - 1;
      var init, last := Calls(kind, effective[..n], replies[..n]), PageActions(effective[n],
                                                                               Recorded(kind, replies[n]));
      CallsInit(kind, effective, replies);
      CallsSilent(kind, effective[..n], replies[..n]);
      ConcatSnoc(init, last);
      PageSilent(effective[n], Recorded(kind, replies[n]));
      SilentInit(kind, replies);
      AllDo(Concat(init), last);
    }
  }

  lemma SilentInit(kind: Kind, replies: seq<Reply>)
    requires replies != []
    ensures var n := |replies| - 1;
            (forall i :: 0 <= i < |replies| ==> Recorded(kind, replies[i]) == []) <==>
            (forall i :: 0 <= i < n ==> Recorded(kind, replies[..n][i]) == []) && Recorded(kind, replies[n]) == []
  {
    var n := |replies| - 1;
    if forall i :: 0 <= i < n ==> Recorded(kind, replies[..n][i]) == [] {
      forall i | 0 <= i < n ensures Recorded(kind, replies[i]) == [] {
        assert Recorded(kind, replies[..n][i]) == [];
      }
    }
  }

  lemma AllDo(a: seq<Action>, b: seq<Action>)
    ensures (forall x <- a + b :: x.Do?) <==> (forall x <- a :: x.Do?) && forall x <- b :: x.Do?
  {
    assert forall x :: x in a + b <==> x in a || x in b;
  }

  lemma PageSilent(effective: seq<RegOp>, errors: seq<nat>)
    ensures (forall a <- PageActions(effective, errors) :: a.Do?) <==> errors == []
  {
    var t := PageActions(effective, errors);
    if errors != [] {
      assert t[|effective|] == Fail(errors[0]) && t[|effective|] in t;
    }
  }

  lemma {:induction false} DistinctFromOps(trace: seq<Action>)
    requires Distinct(OpsIn(trace))
    ensures DistinctActions(trace)
  {
    if trace != [] {
      var n := |trace| - 1;
      var ops, init := OpsIn(trace), OpsIn(trace[..n]);
      assert forall i :: 0 <= i < |init| ==> ops[i] == init[i];
      DistinctFromOps(trace[..n]);
      if trace[n].Do? {
        OpsInIs(trace[..n]);
        forall i | 0 <= i < n && trace[i].Do? ensures trace[i].op.On() != trace[n].op.On() {
          assert trace[..n][i] == Do(trace[i].op);
          var j :| 0 <= j < |init| && init[j] == trace[i].op;
          assert ops[j].On() != ops[|ops| - 1].On();
        }
      }
    }
  }

  // ---- Which operations a reply stands for ---------------------------------------------------

  /** The reply says that the whole page was carried out. For updates and deletions the HTTP status alone
      does. */
  predicate Whole(kind: Kind, reply: Reply) {
    (kind != Adding && !reply.NoReply? && reply.status == HTTP_OK) || (reply.Replied? && reply.code == SUCCESS)
  }

  /** The operations whose entries report success. */
  function Succeeded(page: seq<RegOp>, entries: seq<nat>): seq<RegOp>
    requires |page| == |entries|
  {
    if page == [] then []
    else
      var n := |page| - 1;
      Succeeded(page[..n], entries[..n]) + (if entries[n] == SUCCESS then [page[n]] else [])
  }

  datatype PageOutcome = PageOutcome(reply: Reply, effective: seq<RegOp>)

  /** What the server may have carried out of a page it answered with `reply`: everything, nothing when
      access is denied, exactly the successful entries, and anything when the reply does not tell. */
  ghost predicate Carried(kind: Kind, page: seq<RegOp>, o: PageOutcome) {
    if Whole(kind, o.reply) then o.effective == page
    else if o.reply.Replied? && o.reply.code == UNAUTHORIZED then o.effective == []
    else if o.reply.Replied? && o.reply.entries != [] then
      |o.reply.entries| == |page| && o.effective == Succeeded(page, o.reply.entries)
    else forall op <- o.effective :: op in page
  }

  /** Access was denied for the page or for an instance in it. */
  predicate Denied(kind: Kind, reply: Reply) {
    reply.Replied? && !Whole(kind, reply) && (reply.code == UNAUTHORIZED || UNAUTHORIZED in reply.entries)
  }

  /** The entry's code says that its operation has nothing to do: what is to be added exists, or what is to
      be updated needs no change. */
  predicate Spared(kind: Kind, code: nat) {
    (kind == Adding && code == EXISTS) || (kind == Updating && code == UNCHANGED)
  }

  /** The reply speaks for every instance of its page. */
  predicate Itemized(kind: Kind, reply: Reply) {
    !Whole(kind, reply) && reply.Replied? && reply.code != UNAUTHORIZED && reply.entries != []
  }

  /** What the reply reports to have nothing to do has nothing to do; an addition is reported to exist only
      if its key is present (AddsNothingIff). */
  ghost predicate Truthful(reg: Content, kind: Kind, page: seq<RegOp>, reply: Reply) {
    Itemized(kind, reply) && |reply.entries| == |page| ==>
      forall j :: 0 <= j < |page| && Spared(kind, reply.entries[j]) ==> NothingToDo(reg, page[j])
  }

  lemma AddsNothingIff(reg: Content, x: Instance)
    ensures NothingToDo(reg, AddInstance(x)) <==> KeyOf(x) in reg
  {
  }

  /** The reply tells what became of every operation of its page. */
  predicate Tells(kind: Kind, reply: Reply) {
    Whole(kind, reply) || (reply.Replied? && (reply.code == UNAUTHORIZED || reply.entries != []))
  }

  /** The reply tells that operation `j` was not carried out, though it may have had something to do. */
  predicate Withheld(kind: Kind, reply: Reply, j: nat) {
    && !Whole(kind, reply) && reply.Replied?
    && (|| reply.code == UNAUTHORIZED
        || (j < |reply.entries| && reply.entries[j] != SUCCESS && !Spared(kind, reply.entries[j])))
  }

  /** The whole page was carried out, or every entry reports success or nothing to do. */
  predicate Fulfils(kind: Kind, reply: Reply) {
    || Whole(kind, reply)
    || (Itemized(kind, reply) && forall c <- reply.entries :: c == SUCCESS || Spared(kind, c))
  }

  ghost predicate IsPaging<T>(ops: seq<T>, size: nat, pages: seq<seq<T>>)
    requires size >= 1
  {
    && |pages| == CeilDiv(|ops|, size)
    && (forall i :: 0 <= i < |pages| ==> 0 < |pages[i]| <= size)
    && (forall i :: 0 <= i < |pages| - 1 ==> |pages[i]| == size)
    && Concat(pages) == ops
  }

  /** What was carried out of the pages answered so far. */
  ghost predicate AllCarried(kind: Kind, pages: seq<seq<RegOp>>, effective: seq<seq<RegOp>>, replies: seq<Reply>) {
    && |effective| == |replies| <= |pages|
    && forall i :: 0 <= i < |replies| ==> Carried(kind, pages[i], PageOutcome(replies[i], effective[i]))
  }

  /** A batch as it was sent: its pages, what was carried out of each, the replies, and how the pages'
      actions interleaved. */
  datatype Batch = Batch(
    pages: seq<seq<RegOp>>, effective: seq<seq<RegOp>>, replies: seq<Reply>, trace: seq<Action>)

  ghost predicate IsBatch(b: Batch, kind: Kind, ops: seq<RegOp>, size: nat)
    requires size >= 1
  {
    && IsPaging(ops, size, b.pages)
    && |b.pages| == |b.replies| && AllCarried(kind, b.pages, b.effective, b.replies)
    && Interleaves(Calls(kind, b.effective, b.replies), b.trace)
  }

  /** The replies of a batch tell the truth about the registry it starts from. Its operations are on
      distinct keys, so the moment at which one of them is looked at does not matter. */
  ghost predicate IsTruthful(reg: Content, b: Batch, kind: Kind) {
    |b.pages| == |b.replies| && forall i :: 0 <= i < |b.pages| ==> Truthful(reg, kind, b.pages[i], b.replies[i])
  }

  /** The batch withholds only operations that have nothing to do. */
  ghost predicate WithholdsNothing(reg: Content, b: Batch, kind: Kind) {
    |b.pages| == |b.replies| && forall i, j ::
      0 <= i < |b.pages| && 0 <= j < |b.pages[i]| && Withheld(kind, b.replies[i], j) ==> NothingToDo(reg, b.pages[i][j])
  }

  /** Nothing of the batch is withheld. */
  predicate AllGranted(b: Batch, kind: Kind) {
    |b.pages| == |b.replies|
    && forall i, j :: 0 <= i < |b.pages| && 0 <= j < |b.pages[i]| ==> !Withheld(kind, b.replies[i], j)
  }

  ghost predicate AllTell(b: Batch, kind: Kind) {
    forall r <- b.replies :: Tells(kind, r)
  }

  function Sent(reg: Content, b: Batch): Content {
    Run(Joined(reg, []), b.trace).reg
  }

  /** The batch returns an error. */
  predicate Fails(b: Batch) {
    Run(Joined(map[], []), b.trace).errors != []
  }

  /** A paged batch refines the unpaged one: whatever the interleaving, the registry is as after the
      carried-out operations one by one, and the caller gets an error exactly if some reply made its
      page record one. */
  lemma PagedCalls(reg: Content, kind: Kind, effective: seq<seq<RegOp>>, replies: seq<Reply>, trace: seq<Action>)
    requires |effective| == |replies| && Distinct(Concat(effective))
    requires Interleaves(Calls(kind, effective, replies), trace)
    ensures Run(Joined(reg, []), trace).reg == ApplyOps(reg, Concat(effective))
    ensures Run(Joined(reg, []), trace).errors == [] <==>
            forall i :: 0 <= i < |replies| ==> Recorded(kind, replies[i]) == []
  {
    OpsInCalls(kind, effective, replies);
    CallsSilent(kind, effective, replies);
    DistinctFromOps(Concat(Calls(kind, effective, replies)));
    ForkJoin(reg, Calls(kind, effective, replies), trace);
  }

  lemma {:induction false} InConcat<T(!new)>(pages: seq<seq<T>>, x: T)
    ensures x in Concat(pages) <==> exists i :: 0 <= i < |pages| && x in pages[i]
  {
    if pages != [] {
      var n := |pages| - 1;
      InConcat(pages[..n], x);
      if i :| 0 <= i < |pages| && x in pages[i] {
        assert if i == n then x in pages[n] else x in pages[..n][i];
      } else {
        assert forall i :: 0 <= i < n ==> pages[..n][i] == pages[i];
      }
    }
  }

  /** Operation `i` of the page is `op` and its entry reports success. */
  predicate SucceedsAt(page: seq<RegOp>, entries: seq<nat>, op: RegOp, i: nat) {
    i < |page| && i < |entries| && page[i] == op && entries[i] == SUCCESS
  }

  lemma {:induction false} SucceededIs(page: seq<RegOp>, entries: seq<nat>, op: RegOp)
    requires |page| == |entries|
    ensures op in Succeeded(page, entries) <==> exists i: nat :: SucceedsAt(page, entries, op, i)
  {
    if page != [] {
      var n := |page| - 1;
      SucceededIs(page[..n], entries[..n], op);
      if op in Succeeded(page[..n], entries[..n]) {
        var i: nat :| SucceedsAt(page[..n], entries[..n], op, i);
        assert SucceedsAt(page, entries, op, i);
      }
      if i: nat :| SucceedsAt(page, entries, op, i) {
        assert if i == n then op in Succeeded(page, entries) else SucceedsAt(page[..n], entries[..n], op, i);
      } else {
        assert !SucceedsAt(page, entries, op, n);
      }
    }
  }

  lemma {:induction false} SucceededWhole(page: seq<RegOp>, entries: seq<nat>)
    requires |page| == |entries| && forall i :: 0 <= i < |entries| ==> entries[i] == SUCCESS
    ensures Succeeded(page, entries) == page
  {
    if page != [] {
      var n := |page| - 1;
      assert page == page[..n] + [page[n]];
      SucceededWhole(page[..n], entries[..n]);
    }
  }

  lemma CarriedWithin(kind: Kind, page: seq<RegOp>, o: PageOutcome)
    requires Carried(kind, page, o)
    ensures forall op <- o.effective :: op in page
  {
    if Itemized(kind, o.reply) {
      forall op | op in o.effective ensures op in page {
        SucceededIs(page, o.reply.entries, op);
      }
    }
  }

  lemma SameMembers(pages: seq<seq<Action>>, trace: seq<Action>)
    requires Interleaves(pages, trace)
    ensures forall op :: op in OpsIn(trace) <==> op in OpsIn(Concat(pages))
    ensures (forall a <- trace :: a.Do?) <==> forall a <- Concat(pages) :: a.Do?
  {
    SameActions(pages, trace);
    assert forall a :: a in trace <==> a in multiset(trace);
    assert forall a :: a in Concat(pages) <==> a in multiset(Concat(pages));
    OpsInIs(trace);
    OpsInIs(Concat(pages));
  }

  /** What a batch does is what was carried out of its pages, and that is only what it was asked to do. */
  lemma BatchCarries(reg: Content, b: Batch, kind: Kind, ops: seq<RegOp>, size: nat)
    requires size >= 1 && IsBatch(b, kind, ops, size)
    ensures Sent(reg, b) == ApplyOps(reg, OpsIn(b.trace))
    ensures forall op :: op in OpsIn(b.trace) <==> exists i :: 0 <= i < |b.effective| && op in b.effective[i]
    ensures forall op <- OpsIn(b.trace) :: op in ops
    ensures !Fails(b) <==> forall i :: 0 <= i < |b.replies| ==> Recorded(kind, b.replies[i]) == []
  {
    RunIs(Joined(reg, []), b.trace);
    RunIs(Joined(map[], []), b.trace);
    SameMembers(Calls(kind, b.effective, b.replies), b.trace);
    OpsInCalls(kind, b.effective, b.replies);
    CallsSilent(kind, b.effective, b.replies);
    forall op ensures op in OpsIn(b.trace) <==> exists i :: 0 <= i < |b.effective| && op in b.effective[i] {
      InConcat(b.effective, op);
    }
    forall op | op in OpsIn(b.trace) ensures op in ops {
      var i :| 0 <= i < |b.effective| && op in b.effective[i];
      CarriedWithin(kind, b.pages[i], PageOutcome(b.replies[i], b.effective[i]));
      InConcat(b.pages, op);
    }
  }

  lemma {:induction false} PagesApart(pages: seq<seq<RegOp>>, i: nat)
    requires i < |pages| && Distinct(Concat(pages))
    ensures Distinct(pages[i])
    ensures forall j, op, o :: 0 <= j < |pages| && j != i && op in pages[i] && o in pages[j] ==> op.On() != o.On()
  {
    var n := |pages| - 1;
    var init, last := Concat(pages[..n]), pages[n];
    assert forall x :: 0 <= x < |init| ==> Concat(pages)[x] == init[x];
    assert forall x :: 0 <= x < |last| ==> Concat(pages)[|init| + x] == last[x];
    forall op, o | op in last && o in init ensures op.On() != o.On() {
      var x :| 0 <= x < |last| && last[x] == op;
      var y :| 0 <= y < |init| && init[y] == o;
      assert Concat(pages)[y].On() != Concat(pages)[|init| + x].On();
    }
    if i < n {
      PagesApart(pages[..n], i);
    }
    assert forall j :: 0 <= j < n ==> pages[..n][j] == pages[j];
    forall j, op, o | 0 <= j < |pages| && j != i && op in pages[i] && o in pages[j] ensures op.On() != o.On() {
      InConcat(pages[..n], op);
      InConcat(pages[..n], o);
    }
  }

  lemma OnOnePage(pages: seq<seq<RegOp>>, i: nat, j: nat, op: RegOp)
    requires i < |pages| && j < |pages| && i != j && Distinct(Concat(pages)) && op in pages[i]
    ensures op !in pages[j]
  {
    PagesApart(pages, i);
  }

  /** A deletion page that recorded no error was carried out completely, or was denied and left out an
      instance. */
  lemma SilentPage(page: seq<RegOp>, o: PageOutcome)
    requires Carried(Deleting, page, o) && Recorded(Deleting, o.reply) == [] && page != [] && Distinct(page)
    ensures !Denied(Deleting, o.reply) ==> o.effective == page
    ensures Denied(Deleting, o.reply) ==> exists op :: op in page && op !in o.effective
  {
    if !Whole(Deleting, o.reply) {
      var entries := o.reply.entries;
      if o.reply.code == UNAUTHORIZED {
        assert page[0] in page;
      } else {
        RejectedNone(Deleting, entries);
        if UNAUTHORIZED in entries {
          var x :| 0 <= x < |entries| && entries[x] == UNAUTHORIZED;
          SucceededIs(page, entries, page[x]);
          assert page[x] in page;
        } else {
          forall i | 0 <= i < |entries| ensures entries[i] == SUCCESS {
            assert entries[i] in entries;
          }
          SucceededWhole(page, entries);
        }
      }
    }
  }

  /** A deletion that returns no error has carried out everything exactly if access was denied nowhere. */
  lemma DeletionComplete(b: Batch, ops: seq<RegOp>, size: nat)
    requires size >= 1 && IsBatch(b, Deleting, ops, size) && Distinct(ops) && !Fails(b)
    ensures (forall op <- ops :: op in OpsIn(b.trace)) <==>
            forall i :: 0 <= i < |b.replies| ==> !Denied(Deleting, b.replies[i])
  {
    BatchCarries(map[], b, Deleting, ops, size);
    forall i | 0 <= i < |b.replies|
      ensures !Denied(Deleting, b.replies[i]) ==> b.effective[i] == b.pages[i]
      ensures Denied(Deleting, b.replies[i]) ==> exists op :: op in ops && op !in OpsIn(b.trace)
    {
      PagesApart(b.pages, i);
      SilentPage(b.pages[i], PageOutcome(b.replies[i], b.effective[i]));
      if Denied(Deleting, b.replies[i]) {
        var op :| op in b.pages[i] && op !in b.effective[i];
        InConcat(b.pages, op);
        MissedEverywhere(b, Deleting, ops, size, i, op);
      }
    }
    if forall i :: 0 <= i < |b.replies| ==> !Denied(Deleting, b.replies[i]) {
      forall op | op in ops ensures op in OpsIn(b.trace) {
        InConcat(b.pages, op);
        var i :| 0 <= i < |b.pages| && op in b.pages[i];
        assert op in b.effective[i];
      }
    }
  }

  /** What its own page leaves out no other page carries out. */
  lemma MissedEverywhere(b: Batch, kind: Kind, ops: seq<RegOp>, size: nat, i: nat, op: RegOp)
    requires size >= 1 && IsBatch(b, kind, ops, size) && Distinct(ops)
    requires i < |b.pages| && op in b.pages[i] && op !in b.effective[i]
    ensures op !in OpsIn(b.trace)
  {
    BatchCarries(map[], b, kind, ops, size);
    forall j | 0 <= j < |b.effective| ensures op !in b.effective[j] {
      if j != i {
        CarriedWithin(kind, b.pages[j], PageOutcome(b.replies[j], b.effective[j]));
        OnOnePage(b.pages, i, j, op);
      }
    }
  }

  /** What one reply decides about operation `j` of its page. */
  lemma PageTold(reg: Content, kind: Kind, page: seq<RegOp>, o: PageOutcome, j: nat)
    requires Carried(kind, page, o) && Tells(kind, o.reply) && Truthful(reg, kind, page, o.reply)
    requires Distinct(page) && j < |page|
    ensures page[j] in o.effective || NothingToDo(reg, page[j]) <==>
            (Withheld(kind, o.reply, j) ==> NothingToDo(reg, page[j]))
  {
    if Itemized(kind, o.reply) {
      SucceededIs(page, o.reply.entries, page[j]);
      if page[j] in o.effective {
        var i: nat :| SucceedsAt(page, o.reply.entries, page[j], i);
        assert i == j;
      } else {
        assert !SucceedsAt(page, o.reply.entries, page[j], j);
      }
    }
  }

  lemma EachTold(reg: Content, b: Batch, kind: Kind, ops: seq<RegOp>, size: nat, i: nat, j: nat)
    requires size >= 1 && IsBatch(b, kind, ops, size) && Distinct(ops) && IsTruthful(reg, b, kind) && AllTell(b, kind)
    requires i < |b.pages| && j < |b.pages[i]|
    ensures b.pages[i][j] in ops
    ensures b.pages[i][j] in OpsIn(b.trace) || NothingToDo(reg, b.pages[i][j]) <==>
            (Withheld(kind, b.replies[i], j) ==> NothingToDo(reg, b.pages[i][j]))
  {
    InConcat(b.pages, b.pages[i][j]);
    PagesApart(b.pages, i);
    PageTold(reg, kind, b.pages[i], PageOutcome(b.replies[i], b.effective[i]), j);
    if b.pages[i][j] in b.effective[i] {
      BatchCarries(reg, b, kind, ops, size);
    } else {
      MissedEverywhere(b, kind, ops, size, i, b.pages[i][j]);
    }
  }

  /** If every reply tells, the batch has done all it was asked to do exactly if what was withheld had
      nothing to do: then the registry is the one after the unpaged operations. */
  lemma RepliesDecide(reg: Content, b: Batch, kind: Kind, ops: seq<RegOp>, size: nat)
    requires size >= 1 && IsBatch(b, kind, ops, size) && Distinct(ops) && IsTruthful(reg, b, kind) && AllTell(b, kind)
    ensures (forall op <- ops :: op in OpsIn(b.trace) || NothingToDo(reg, op)) <==> WithholdsNothing(reg, b, kind)
    ensures Sent(reg, b) == ApplyOps(reg, ops) <==> WithholdsNothing(reg, b, kind)
  {
    BatchCarries(reg, b, kind, ops, size);
    LeavingOut(reg, ops, OpsIn(b.trace));
    if forall op <- ops :: op in OpsIn(b.trace) || NothingToDo(reg, op) {
      forall i, j | 0 <= i < |b.pages| && 0 <= j < |b.pages[i]|
        ensures Withheld(kind, b.replies[i], j) ==> NothingToDo(reg, b.pages[i][j])
      {
        EachTold(reg, b, kind, ops, size, i, j);
      }
    }
    if WithholdsNothing(reg, b, kind) {
      forall op | op in ops ensures op in OpsIn(b.trace) || NothingToDo(reg, op) {
        InConcat(b.pages, op);
        var i :| 0 <= i < |b.pages| && op in b.pages[i];
        var j :| 0 <= j < |b.pages[i]| && b.pages[i][j] == op;
        EachTold(reg, b, kind, ops, size, i, j);
      }
    }
  }

  ghost predicate AllFulfil(b: Batch, kind: Kind) {
    forall r <- b.replies :: Fulfils(kind, r)
  }

  lemma FulfilledTells(reg: Content, b: Batch, kind: Kind)
    requires |b.pages| == |b.replies| && AllFulfil(b, kind)
    ensures AllTell(b, kind) && AllGranted(b, kind) && WithholdsNothing(reg, b, kind)
  {
    forall i, j: nat | 0 <= i < |b.replies| ensures !Withheld(kind, b.replies[i], j) {
      assert b.replies[i] in b.replies && Fulfils(kind, b.replies[i]);
    }
  }

  /** A deletion is never reported to have nothing to do. */
  lemma DeletionTruthful(reg: Content, b: Batch)
    requires |b.pages| == |b.replies|
    ensures IsTruthful(reg, b, Deleting)
  {
  }

  // ---- Batches of one operation --------------------------------------------------------------

  function OneBatch(op: RegOp, done: bool, reply: Reply): Batch {
    if done then Batch([[op]], [[op]], [reply], [Do(op)]) else Batch([[op]], [[]], [reply], [])
  }

  lemma OneBatchIs(reg: Content, kind: Kind, op: RegOp, done: bool, reply: Reply, size: nat)
    requires size >= 1 && Recorded(kind, reply) == []
    requires Carried(kind, [op], PageOutcome(reply, if done then [op] else []))
    ensures IsBatch(OneBatch(op, done, reply), kind, [op], size) && !Fails(OneBatch(op, done, reply))
    ensures Sent(reg, OneBatch(op, done, reply)) == if done then ApplyOp(reg, op) else reg
  {
    var b := OneBatch(op, done, reply);
    OnePage(size);
    assert b.pages[..0] == [] && Concat(b.pages) == [] + b.pages[0];
    OneCall(kind, op, done, reply);
    RunIs(Joined(reg, []), b.trace);
    RunIs(Joined(map[], []), b.trace);
    assert b.trace[..0] == [];
  }

  lemma OneCall(kind: Kind, op: RegOp, done: bool, reply: Reply)
    requires Recorded(kind, reply) == []
    ensures var b := OneBatch(op, done, reply);
            Interleaves(Calls(kind, b.effective, b.replies), b.trace) && OpsIn(b.trace) == if done then [op] else []
  {
    var b := OneBatch(op, done, reply);
    assert PageActions(b.effective[0], []) == b.trace;
    assert Calls(kind, b.effective, b.replies) == [b.trace];
    OnlyCall(b.trace);
    OpsInPage(b.effective[0], []);
  }

  lemma OnlyCall<T(!new)>(trace: seq<T>)
    ensures Interleaves([trace], trace)
  {
    assert [trace][..0] == [];
    assert Concat([trace]) == Concat([trace][..0]) + trace == trace;
    InSequence([trace]);
  }

  lemma OnePage(size: nat)
    requires size >= 1
    ensures CeilDiv(1, size) == 1
  {
    assert (1 + size - 1) / size == 1;
  }

  // ---- Sending a batch -----------------------------------------------------------------------

  /** The network and server: how the `i`-th page of a batch ends when it meets the registry `reg`. */
  type Net = (Content, Kind, nat, seq<RegOp>) -> PageOutcome

  ghost predicate Honest(net: Net) {
    forall reg, kind, i, page ::
      Carried(kind, page, net(reg, kind, i, page)) && Truthful(reg, kind, page, net(reg, kind, i, page).reply)
  }

  lemma {:induction false} ConcatHead<T(!new)>(pages: seq<seq<T>>, i: nat)
    requires i < |pages| && pages[i] != [] && forall j :: 0 <= j < i ==> pages[j] == []
    ensures Concat(pages) == [pages[i][0]] + Concat(pages[i := pages[i][1..]])
  {
    var n := |pages| - 1;
    var less := pages[i := pages[i][1..]];
    if i == n {
      ConcatEmpty(pages[..n]);
      assert less[..n] == pages[..n];
    } else {
      assert less[..n] == pages[..n][i := pages[i][1..]];
      ConcatHead(pages[..n], i);
    }
  }

  /** One page after the other is one of the interleavings. */
  lemma {:induction false} InSequence<T(!new)>(pages: seq<seq<T>>)
    ensures Interleaves(pages, Concat(pages))
    decreases |Concat(pages)|
  {
    if forall i :: 0 <= i < |pages| ==> pages[i] == [] {
      ConcatEmpty(pages);
    } else {
      var i := FirstNonEmpty(pages);
      var less := pages[i := pages[i][1..]];
      ConcatHead(pages, i);
      InSequence(less);
      assert Concat(pages)[1..] == Concat(less) && NextOf(pages, i, Concat(pages)[0]);
    }
  }

  ghost function FirstNonEmpty<T(!new)>(pages: seq<seq<T>>): (i: nat)
    requires exists j :: 0 <= j < |pages| && pages[j] != []
    ensures i < |pages| && pages[i] != [] && forall j :: 0 <= j < i ==> pages[j] == []
  {
    if pages[0] != [] then 0
    else
      var j :| 0 <= j < |pages| && pages[j] != [];
      assert pages[1..][j - 1] == pages[j];
      1 + FirstNonEmpty(pages[1..])
  }

  /** AddInstances, UpdateInstances and DeleteInstances: split, send every page, join the errors. The
      pages are sent one by one here; ForkJoin and BatchCarries cover every other interleaving. */
  method SendBatch(server: Server, kind: Kind, ops: seq<RegOp>, size: nat, net: Net)
    returns (failed: bool, ghost b: Batch)
    requires server.Valid() && size >= 1 && Honest(net)
    modifies server
    ensures server.Valid() && IsBatch(b, kind, ops, size)
    ensures server.content == Sent(old(server.content), b) && failed == Fails(b)
    ensures Distinct(ops) ==> IsTruthful(old(server.content), b, kind)
  {
    ghost var before := server.content;
    var pages := SplitArray(ops, size);
    var errors: seq<nat>;
    ghost var effective, replies;
    errors, effective, replies := SendPages(server, kind, pages, net);
    failed := errors != [];
    ghost var trace := Concat(Calls(kind, effective, replies));
    b := Batch(pages, effective, replies, trace);
    InSequence(Calls(kind, effective, replies));
    RunIs(Joined(before, []), trace);
    OpsInCalls(kind, effective, replies);
    BatchCarries(before, b, kind, ops, size);
  }

  ghost predicate AllTruthful(reg: Content, kind: Kind, pages: seq<seq<RegOp>>, replies: seq<Reply>) {
    && |replies| <= |pages|
    && (Distinct(Concat(pages)) ==> forall i :: 0 <= i < |replies| ==> Truthful(reg, kind, pages[i], replies[i]))
  }

  /** The state of the loop over the pages. */
  ghost predicate Progress(before: Content, now: Content, kind: Kind, pages: seq<seq<RegOp>>,
                           effective: seq<seq<RegOp>>, replies: seq<Reply>, errors: seq<nat>)
  {
    && now == ApplyOps(before, Concat(effective))
    && AllCarried(kind, pages, effective, replies) && AllTruthful(before, kind, pages, replies)
    && (errors == [] <==> forall i :: 0 <= i < |replies| ==> Recorded(kind, replies[i]) == [])
  }

  lemma CarriedSnoc(kind: Kind, pages: seq<seq<RegOp>>, effective: seq<seq<RegOp>>, replies: seq<Reply>, o: PageOutcome)
    requires AllCarried(kind, pages, effective, replies)
    requires |effective| < |pages| && Carried(kind, pages[|effective|], o)
    ensures AllCarried(kind, pages, effective + [o.effective], replies + [o.reply])
  {
    var n := |effective|;
    forall i | 0 <= i <= n
      ensures Carried(kind, pages[i], PageOutcome((replies + [o.reply])[i], (effective + [o.effective])[i]))
    {
      assert i == n ==> PageOutcome((replies + [o.reply])[i], (effective + [o.effective])[i]) == o;
    }
  }

  lemma TruthfulSnoc(reg: Content, kind: Kind, pages: seq<seq<RegOp>>, effective: seq<seq<RegOp>>, replies: seq<Reply>,
                     reply: Reply)
    requires AllCarried(kind, pages, effective, replies) && AllTruthful(reg, kind, pages, replies)
    requires |effective| < |pages| && Truthful(ApplyOps(reg, Concat(effective)), kind, pages[|effective|], reply)
    ensures AllTruthful(reg, kind, pages, replies + [reply])
  {
    if Distinct(Concat(pages)) {
      forall j | 0 <= j < |effective| ensures forall op <- effective[j] :: op in pages[j] {
        CarriedWithin(kind, pages[j], PageOutcome(replies[j], effective[j]));
      }
      StillTruthful(reg, kind, pages, effective, reply);
    }
  }

  lemma ProgressSnoc(before: Content, now: Content, kind: Kind, pages: seq<seq<RegOp>>, effective: seq<seq<RegOp>>,
                     replies: seq<Reply>, errors: seq<nat>, o: PageOutcome)
    requires Progress(before, now, kind, pages, effective, replies, errors) && |effective| < |pages|
    requires Carried(kind, pages[|effective|], o) && Truthful(now, kind, pages[|effective|], o.reply)
    ensures Progress(before, ApplyOps(now, o.effective), kind, pages, effective + [o.effective], replies + [o.reply],
                     errors + Recorded(kind, o.reply))
  {
    ApplyOpsConcat(before, Concat(effective), o.effective);
    ConcatSnoc(effective, o.effective);
    CarriedSnoc(kind, pages, effective, replies, o);
    TruthfulSnoc(before, kind, pages, effective, replies, o.reply);
    ErrorsSnoc(kind, replies, errors, o.reply);
  }

  lemma ErrorsSnoc(kind: Kind, replies: seq<Reply>, errors: seq<nat>, reply: Reply)
    requires errors == [] <==> forall i :: 0 <= i < |replies| ==> Recorded(kind, replies[i]) == []
    ensures errors + Recorded(kind, reply) == [] <==>
            forall i :: 0 <= i < |replies + [reply]| ==> Recorded(kind, (replies + [reply])[i]) == []
  {
    assert (replies + [reply])[..|replies|] == replies;
    SilentInit(kind, replies + [reply]);
  }

  /** What a page finds in the registry is what the whole batch found at its start. */
  lemma StillTruthful(reg: Content, kind: Kind, pages: seq<seq<RegOp>>, effective: seq<seq<RegOp>>, reply: Reply)
    requires Distinct(Concat(pages)) && |effective| < |pages|
    requires forall j :: 0 <= j < |effective| ==> forall op <- effective[j] :: op in pages[j]
    requires Truthful(ApplyOps(reg, Concat(effective)), kind, pages[|effective|], reply)
    ensures Truthful(reg, kind, pages[|effective|], reply)
  {
    var i := |effective|;
    PagesApart(pages, i);
    forall op | op in pages[i] ensures NothingToDo(ApplyOps(reg, Concat(effective)), op) <==> NothingToDo(reg, op) {
      forall o | o in Concat(effective) ensures o.On() != op.On() {
        InConcat(effective, o);
      }
      Untouched(reg, Concat(effective), op.On());
    }
  }

  /** The goroutine of one page. */
  method SendPage(server: Server, kind: Kind, i: nat, page: seq<RegOp>, net: Net)
    returns (errors: seq<nat>, ghost o: PageOutcome)
    requires server.Valid() && Honest(net)
    modifies server
    ensures server.Valid() && server.content == ApplyOps(old(server.content), o.effective)
    ensures Carried(kind, page, o) && Truthful(old(server.content), kind, page, o.reply)
    ensures errors == Recorded(kind, o.reply)
  {
    var outcome := net(server.content, kind, i, page);
    server.DoAll(outcome.effective);
    errors := DealReply(kind, outcome.reply);
    o := outcome;
  }

  /** The loop over the pages. */
  method SendPages(server: Server, kind: Kind, pages: seq<seq<RegOp>>, net: Net)
    returns (errors: seq<nat>, ghost effective: seq<seq<RegOp>>, ghost replies: seq<Reply>)
    requires server.Valid() && Honest(net)
    modifies server
    ensures server.Valid() && |replies| == |pages|
    ensures Progress(old(server.content), server.content, kind, pages, effective, replies, errors)
  {
    errors, effective, replies := [], [], [];
    for i := 0 to |pages|
      invariant server.Valid() && |replies| == i
      invariant Progress(old(server.content), server.content, kind, pages, effective, replies, errors)
    {
      ghost var now := server.content;
      var recorded;
      ghost var o;
      recorded, o := SendPage(server, kind, i, pages[i], net);
      ProgressSnoc(old(server.content), now, kind, pages, effective, replies, errors, o);
      errors := errors + recorded;
      effective, replies := effective + [o.effective], replies + [o.reply];
    }
  }
}
