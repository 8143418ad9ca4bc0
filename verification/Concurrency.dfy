/** inject/concurrency.go: the proxy's concurrency flag, derived from its CPU resources when unset. */
module Concurrency {
  import opened Wrappers
  import opened Text

  const PROXY_CONTAINER := "polaris-proxy"
  const FLAG := "concurrency"
  const LONG_FLAG := "--concurrency"

  /** A container with the milli-CPUs of its limits and requests, 0 where unset. */
  datatype Sidecar = Sidecar(name: string, args: seq<string>, limits: int, requests: int)

  // ---- Reading the flag ----------------------------------------------------------------------

  predicate IsSpace(c: char) {
    || c in {'\t', '\n', '\U{000B}', '\U{000C}', '\r', ' ', '\U{0085}', '\U{00A0}', '\U{1680}'}
    || '\U{2000}' <= c <= '\U{200A}'
    || c in {'\U{2028}', '\U{2029}', '\U{202F}', '\U{205F}', '\U{3000}'}
  }

  function TrimLeft(s: string): string {
    if s != "" && IsSpace(s[0]) then TrimLeft(s[1..]) else s
  }

  function TrimRight(s: string): string {
    if s != "" && IsSpace(s[|s| - 1]) then TrimRight(s[..|s| - 1]) else s
  }

  function TrimSpace(s: string): string {
    TrimRight(TrimLeft(s))
  }

  /** The text after one or two dashes and the flag's name, if the argument starts so. */
  function AfterFlag(s: string): Option<string> {
    if |s| >= 12 && s[..12] == "-" + FLAG then Some(s[12..])
    else if |s| >= 13 && s[..13] == "--" + FLAG then Some(s[13..])
    else None
  }

  /** The match of the flag's pattern: None if it does not match, otherwise the digits after "=". */
  function Match(arg: string): Option<string> {
    var s := AfterFlag(TrimSpace(arg));
    if s.None? then None
    else if s.value == "" then Some("")
    else if |s.value| >= 2 && s.value[0] == '=' && AllDigits(s.value[1..]) then Some(s.value[1..])
    else None
  }

  /** extractConcurrency: the first flag decides; a bare one takes the next argument. */
  function Extract(args: seq<string>): int {
    if args == [] then 0
    else
      var m := Match(args[0]);
      if m.None? then Extract(args[1..])
      else if m.value != "" then Atoi(m.value).GetOr(0)
      else if |args| == 1 then 0
      else Atoi(args[1]).GetOr(0)
  }

  predicate HasFlag(args: seq<string>) {
    exists a <- args :: Match(a).Some?
  }

  /** The loop of extractConcurrency. */
  method ExtractConcurrency(args: seq<string>) returns (r: int)
    ensures r == Extract(args)
  {
    assert args[0..] == args;
    for i := 0 to |args|
      invariant Extract(args) == Extract(args[i..])
    {
      assert args[i..][1..] == args[i + 1..];
      var m := Match(args[i]);
      if m.Some? {
        var concurrency := m.value;
        if concurrency == "" {
          if |args| <= i + 1 { return 0; }
          concurrency := args[i + 1];
        }
        var c := Atoi(concurrency);
        return if c.Some? then c.value else 0;
      }
    }
    return 0;
  }

  // ---- Setting the flag ----------------------------------------------------------------------

  /** The number of whole cores that hold the milli-CPUs. */
  function Cores(millis: int): int {
    if millis <= 0 then 0 else (millis + 999) / 1000
  }

  /** Limits first, then requests. */
  function Wanted(c: Sidecar): int {
    if Cores(c.limits) > 0 then Cores(c.limits) else Cores(c.requests)
  }

  function Updated(c: Sidecar): Sidecar {
    if Extract(c.args) > 0 || Wanted(c) <= 0 then c
    else c.(args := c.args + [LONG_FLAG, Itoa(Wanted(c))])
  }

  /** The first proxy in the list. */
  function FirstProxy(cs: seq<Sidecar>): (i: nat)
    ensures i <= |cs| && (i < |cs| ==> cs[i].name == PROXY_CONTAINER)
    ensures forall j :: 0 <= j < i ==> cs[j].name != PROXY_CONTAINER
  {
    if cs == [] || cs[0].name == PROXY_CONTAINER then 0 else 1 + FirstProxy(cs[1..])
  }

  function Applied(cs: seq<Sidecar>): seq<Sidecar> {
    var i := FirstProxy(cs);
    if i < |cs| then cs[i := Updated(cs[i])] else cs
  }

  method UpdateConcurrency(c: Sidecar, millis: int) returns (r: Sidecar, done: bool)
    ensures done <==> Cores(millis) > 0
    ensures r == if done then c.(args := c.args + [LONG_FLAG, Itoa(Cores(millis))]) else c
  {
    var concurrency := Cores(millis);
    if concurrency > 0 {
      return c.(args := c.args + [LONG_FLAG, Itoa(concurrency)]), true;
    }
    return c, false;
  }

  lemma FirstProxyIs(cs: seq<Sidecar>, i: nat)
    requires i <= |cs| && forall j :: 0 <= j < i ==> cs[j].name != PROXY_CONTAINER
    requires i < |cs| ==> cs[i].name == PROXY_CONTAINER
    ensures FirstProxy(cs) == i
  {
  }

  /** applyConcurrency. */
  method ApplyConcurrency(containers: array<Sidecar>)
    modifies containers
    ensures containers[..] == Applied(old(containers[..]))
  {
    ghost var before := containers[..];
    for i := 0 to containers.Length
      invariant containers[..] == before
      invariant forall j :: 0 <= j < i ==> before[j].name != PROXY_CONTAINER
    {
      var c := containers[i];
      assert c == before[i];
      if c.name == PROXY_CONTAINER {
        FirstProxyIs(before, i);
        var concurrency := ExtractConcurrency(c.args);
        if concurrency > 0 {
          assert before[i := c] == before;
          return;
        }
        var r, done := UpdateConcurrency(c, c.limits);
        if !done {
          r, done := UpdateConcurrency(c, c.requests);
        }
        assert r == Updated(c);
        containers[i] := r;
        return;
      }
    }
    FirstProxyIs(before, |before|);
  }

  // ---- What setting achieves -----------------------------------------------------------------

  /** The wanted number of cores is the least that holds the limit, or the request if there is no limit. */
  lemma WantedHolds(c: Sidecar)
    ensures var millis, n := if c.limits > 0 then c.limits else c.requests, Wanted(c);
            if millis > 0 then n > 0 && 1000 * (n - 1) < millis <= 1000 * n else n <= 0
  {
  }

  lemma AtoiItoa(n: nat)
    requires n <= MAX_INT
    ensures Atoi(Itoa(n)) == Some(n)
  {
    ParseItoa(n);
    assert IsDigit(Itoa(n)[0]);
  }

  lemma LongFlagMatches()
    ensures Match(LONG_FLAG) == Some("")
    ensures Atoi(LONG_FLAG) == None
  {
    assert LONG_FLAG[0] == '-' && LONG_FLAG[|LONG_FLAG| - 1] == 'y' && |LONG_FLAG| == 13;
    assert TrimLeft(LONG_FLAG) == LONG_FLAG && TrimRight(LONG_FLAG) == LONG_FLAG;
    assert LONG_FLAG[1] == '-' && ("-" + FLAG)[1] == 'c';
    assert LONG_FLAG[..12][1] == '-';
    assert LONG_FLAG == "--" + FLAG && LONG_FLAG[..13] == LONG_FLAG && LONG_FLAG[13..] == "";
    assert LONG_FLAG[1..][0] == '-' && !IsDigit(LONG_FLAG[1..][0]);
  }

  /** What is read after appending: the appended value if there was no flag, and nothing positive if
      there was one that did not set anything. */
  lemma {:induction false} ExtractAppended(args: seq<string>, n: nat)
    requires n <= MAX_INT
    ensures !HasFlag(args) ==> Extract(args + [LONG_FLAG, Itoa(n)]) == n
    ensures HasFlag(args) && Extract(args) <= 0 ==> Extract(args + [LONG_FLAG, Itoa(n)]) <= 0
  {
    var all := args + [LONG_FLAG, Itoa(n)];
    LongFlagMatches();
    if args == [] {
      AtoiItoa(n);
      assert all == [LONG_FLAG, Itoa(n)];
    } else {
      assert all[0] == args[0] && all[1..] == args[1..] + [LONG_FLAG, Itoa(n)];
      assert args == [args[0]] + args[1..];
      if Match(args[0]).None? {
        ExtractAppended(args[1..], n);
      }
    }
  }

  /** Applying makes the proxy report the wanted number of cores exactly if it had no flag before; a flag
      that sets nothing keeps hiding the appended one. */
  lemma AppliedReads(c: Sidecar)
    requires Extract(c.args) <= 0 && 0 < Wanted(c) <= MAX_INT
    ensures Extract(Updated(c).args) == Wanted(c) <==> !HasFlag(c.args)
  {
    ExtractAppended(c.args, Wanted(c));
  }

  /** The flag "--concurrency=0" is such a one: it is there and sets nothing. */
  lemma ZeroHides(name: string, limits: int, requests: int)
    requires 0 < Wanted(Sidecar(name, [], limits, requests)) <= MAX_INT
    ensures var c := Sidecar(name, [LONG_FLAG + "=0"], limits, requests);
            && HasFlag(c.args) && Extract(c.args) == 0
            && Extract(Updated(c).args) <= 0 && |Updated(Updated(c)).args| == 5
  {
    var arg := LONG_FLAG + "=0";
    var c := Sidecar(name, [arg], limits, requests);
    ZeroMatches();
    ExtractAppended(c.args, Wanted(c));
    assert Extract(c.args) == Atoi("0").GetOr(0);
  }

  lemma ZeroMatches()
    ensures Match(LONG_FLAG + "=0") == Some("0") && Atoi("0") == Some(0)
  {
    var arg := LONG_FLAG + "=0";
    assert arg[0] == '-' && arg[|arg| - 1] == '0' && |arg| == 15;
    assert TrimLeft(arg) == arg && TrimRight(arg) == arg;
    assert arg[..12][1] == '-' && ("-" + FLAG)[1] == 'c';
    assert arg[..13] == "--" + FLAG && arg[13..] == "=0";
    assert "=0"[1..] == "0" && ParseNat("0") == 0;
  }

  /** Applying twice is applying once exactly if the flag is set, there is nothing to set, or there was no
      flag; otherwise every application appends once more. */
  lemma AppliesOnce(c: Sidecar)
    requires Wanted(c) <= MAX_INT
    ensures Updated(Updated(c)) == Updated(c) <==> Extract(c.args) > 0 || Wanted(c) <= 0 || !HasFlag(c.args)
  {
    if Extract(c.args) <= 0 && Wanted(c) > 0 {
      ExtractAppended(c.args, Wanted(c));
      assert Wanted(Updated(c)) == Wanted(c);
      if HasFlag(c.args) {
        assert |Updated(Updated(c)).args| == |Updated(c).args| + 2;
      }
    }
  }

  /** The whole list: applying again changes nothing under the same condition on the first proxy. */
  lemma ListAppliesOnce(cs: seq<Sidecar>)
    requires forall c <- cs :: Wanted(c) <= MAX_INT
    ensures var i := FirstProxy(cs);
            Applied(Applied(cs)) == Applied(cs) <==>
            i == |cs| || Extract(cs[i].args) > 0 || Wanted(cs[i]) <= 0 || !HasFlag(cs[i].args)
  {
    var i := FirstProxy(cs);
    if i < |cs| {
      assert cs[i] in cs;
      AppliesOnce(cs[i]);
      AppliedTwice(cs, i);
    }
  }

  lemma AppliedTwice(cs: seq<Sidecar>, i: nat)
    requires i == FirstProxy(cs) < |cs|
    ensures Applied(Applied(cs)) == Applied(cs) <==> Updated(Updated(cs[i])) == Updated(cs[i])
  {
    SetAt(cs, i, Updated(cs[i]), Updated(Updated(cs[i])));
    FirstProxyIs(Applied(cs), i);
  }

  lemma SetAt<T>(s: seq<T>, i: nat, a: T, b: T)
    requires i < |s|
    ensures s[i := a][i] == a && s[i := a][i := b] == s[i := b]
    ensures s[i := a] == s[i := b] <==> a == b
  {
    assert s[i := a][i] == a && s[i := b][i] == b;
  }
}
