/** String primitives of Go's standard library that the controller relies on: decimal rendering,
    strings.Replace, and the lexicographic order of sort.Strings. */
module Text {
  import opened Wrappers

  // ---- Decimal numbers -----------------------------------------------------------------------

  predicate IsDigit(c: char) {
    '0' <= c <= '9'
  }

  predicate AllDigits(s: string) {
    forall i :: 0 <= i < |s| ==> IsDigit(s[i])
  }

  /** fmt's %d of a non-negative integer. */
  function Itoa(n: nat): (s: string)
    ensures |s| > 0 && AllDigits(s)
    ensures |s| > 1 ==> s[0] != '0'
    ensures n != 0 ==> s[0] != '0'
  {
    if n < 10 then ['0' + n as char] else Itoa(n / 10) + ['0' + (n % 10) as char]
  }

  function ParseNat(s: string): nat
    requires |s| > 0 && AllDigits(s)
  {
    var last := (s[|s| - 1] - '0') as nat;
    if |s| == 1 then last else 10 * ParseNat(s[..|s| - 1]) + last
  }

  lemma {:induction false} ParseItoa(n: nat)
    ensures ParseNat(Itoa(n)) == n
  {
    if n >= 10 {
      ParseItoa(n / 10);
      assert Itoa(n)[..|Itoa(n)| - 1] == Itoa(n / 10);
    }
  }

  lemma ItoaInjective(m: nat, n: nat)
    requires Itoa(m) == Itoa(n)
    ensures m == n
  {
    ParseItoa(m);
    ParseItoa(n);
  }

  lemma DigitsSplit(a: string, m: string, b: string, n: string, c: char)
    requires !IsDigit(c) && AllDigits(m) && AllDigits(n)
    requires a + [c] + m == b + [c] + n
    ensures a == b && m == n
  {
    var x, y := a + [c] + m, b + [c] + n;
    assert x[|a|] == c && y[|b|] == c;
    assert forall j :: |a| < j < |x| ==> x[j] == m[j - |a| - 1];
    assert forall j :: |b| < j < |y| ==> y[j] == n[j - |b| - 1];
    assert |a| == |b|;
    assert x[..|a|] == a && y[..|b|] == b;
    assert x[|a| + 1..] == m && y[|b| + 1..] == n;
  }

  const MAX_INT := 0x7fff_ffff_ffff_ffff

  /** strconv.Atoi on a 64-bit platform. */
  function Atoi(s: string): Option<int> {
    var signed := |s| > 0 && (s[0] == '-' || s[0] == '+');
    var digits := if signed then s[1..] else s;
    if digits == "" || !AllDigits(digits) then None
    else
      var n := if signed && s[0] == '-' then -(ParseNat(digits) as int) else ParseNat(digits) as int;
      if -MAX_INT - 1 <= n <= MAX_INT then Some(n) else None
  }

  // ---- strings.Replace(s, old, new, -1) ------------------------------------------------------

  /** Leftmost, non-overlapping replacement of every occurrence. */
  function ReplaceAll(s: string, from: string, to: string): string
    requires |from| > 0
  {
    if |s| < |from| then s
    else if s[..|from|] == from then to + ReplaceAll(s[|from|..], from, to)
    else [s[0]] + ReplaceAll(s[1..], from, to)
  }

  /** Replacing a one-character pattern works character by character. */
  lemma {:induction false} ReplaceCharConcat(a: string, b: string, c: char, to: string)
    ensures ReplaceAll(a + b, [c], to) == ReplaceAll(a, [c], to) + ReplaceAll(b, [c], to)
  {
    if a == "" {
      assert a + b == b;
    } else {
      var x, rest := a[0], a[1..];
      ReplaceCharConcat(rest, b, c, to);
      ReplaceCharStep(x, rest, c, to);
      ReplaceCharStep(x, rest + b, c, to);
      assert a == [x] + rest && a + b == [x] + (rest + b);
      Associates(if x == c then to else [x], ReplaceAll(rest, [c], to), ReplaceAll(b, [c], to));
    }
  }

  lemma ReplaceCharStep(x: char, rest: string, c: char, to: string)
    ensures ReplaceAll([x] + rest, [c], to) == (if x == c then to else [x]) + ReplaceAll(rest, [c], to)
  {
    var s := [x] + rest;
    assert s[..1] == [x] && s[1..] == rest;
  }

  lemma Associates(a: string, b: string, c: string)
    ensures a + (b + c) == (a + b) + c
  {
  }

  // ---- sort.Strings --------------------------------------------------------------------------

  predicate LexLeq(a: string, b: string) {
    a == "" || (b != "" && (a[0] < b[0] || (a[0] == b[0] && LexLeq(a[1..], b[1..]))))
  }

  lemma {:induction false} LexTotal(a: string, b: string)
    ensures LexLeq(a, b) || LexLeq(b, a)
  {
    if a != "" && b != "" && a[0] == b[0] {
      LexTotal(a[1..], b[1..]);
    }
  }

  lemma {:induction false} LexAntisymmetric(a: string, b: string)
    requires LexLeq(a, b) && LexLeq(b, a)
    ensures a == b
  {
    if a != "" {
      LexAntisymmetric(a[1..], b[1..]);
      assert a == [a[0]] + a[1..] && b == [b[0]] + b[1..];
    }
  }

  lemma {:induction false} LexTransitive(a: string, b: string, c: string)
    requires LexLeq(a, b) && LexLeq(b, c)
    ensures LexLeq(a, c)
  {
    if a != "" && a[0] == b[0] == c[0] {
      LexTransitive(a[1..], b[1..], c[1..]);
    }
  }

  predicate IsLeast(k: string, s: set<string>) {
    k in s && forall x <- s :: LexLeq(k, x)
  }

  lemma {:induction false} LeastExists(s: set<string>)
    requires s != {}
    ensures exists k :: IsLeast(k, s)
  {
    var x :| x in s;
    var rest := s - {x};
    if rest == {} {
      LexTotal(x, x);
      assert s == {x};
      assert IsLeast(x, s);
    } else {
      LeastExists(rest);
      var k :| IsLeast(k, rest);
      LexTotal(x, k);
      if LexLeq(k, x) {
        assert IsLeast(k, s);
      } else {
        LexTotal(x, x);
        forall y | y in s ensures LexLeq(x, y) {
          if y != x {
            LexTransitive(x, k, y);
          }
        }
        assert IsLeast(x, s);
      }
    }
  }

  lemma LeastUnique(s: set<string>)
    ensures forall k, k' :: IsLeast(k, s) && IsLeast(k', s) ==> k == k'
  {
    forall k, k' | IsLeast(k, s) && IsLeast(k', s) ensures k == k' {
      LexAntisymmetric(k, k');
    }
  }

  /** The keys of a map in the order sort.Strings leaves them. */
  function SortedKeys(s: set<string>): (keys: seq<string>)
    ensures forall k :: k in keys <==> k in s
    ensures forall i, j :: 0 <= i < j < |keys| ==> keys[i] != keys[j] && LexLeq(keys[i], keys[j])
  {
    if s == {} then []
    else
      LeastExists(s);
      LeastUnique(s);
      var k :| IsLeast(k, s);
      [k] + SortedKeys(s - {k})
  }
}
