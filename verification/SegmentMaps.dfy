/** util/map.go: a map sharded into slots, each under its own lock. Every operation works on one slot
    under that slot's lock, so between operations the slots together are one plain map. */
module SegmentMaps {
  import opened Wrappers

  // ---- Slots ---------------------------------------------------------------------------------

  /** Go's remainder, which takes the sign of the dividend. */
  function GoRemainder(h: int, n: int): int
    requires n > 0
  {
    if h >= 0 then h % n else -((-h) % n)
  }

  /** A hash leads to a slot exactly if it is not negative or a multiple of the number of slots; any
      other negative hash is an index out of range. */
  lemma SlotExists(h: int, n: int)
    requires n > 0
    ensures 0 <= GoRemainder(h, n) < n <==> h >= 0 || (-h) % n == 0
    ensures h >= 0 ==> GoRemainder(h, n) == h % n
  {
  }

  function Union<K, V>(slots: seq<map<K, V>>): map<K, V> {
    if slots == [] then map[] else Union(slots[..|slots| - 1]) + slots[|slots| - 1]
  }

  /** Each key sits in its own slot only. */
  ghost predicate Placed<K(!new), V(!new)>(slots: seq<map<K, V>>, hash: K -> int) {
    forall i, k :: 0 <= i < |slots| && k in slots[i] ==> GoRemainder(hash(k), |slots|) == i
  }

  lemma {:induction false} InUnion<K(!new), V(!new)>(slots: seq<map<K, V>>, k: K)
    ensures k in Union(slots) <==> exists i :: 0 <= i < |slots| && k in slots[i]
  {
    if slots != [] {
      var n := |slots| - 1;
      InUnion(slots[..n], k);
      if exists i :: 0 <= i < |slots| && k in slots[i] {
        var i :| 0 <= i < |slots| && k in slots[i];
        assert i < n ==> k in slots[..n][i];
      }
      assert k in slots[n] ==> exists i :: 0 <= i < |slots| && k in slots[i];
    }
  }

  lemma {:induction false} ValueInUnion<K(!new), V(!new)>(slots: seq<map<K, V>>, k: K, i: nat)
    requires i < |slots| && k in slots[i] && forall j :: 0 <= j < |slots| && j != i ==> k !in slots[j]
    ensures k in Union(slots) && Union(slots)[k] == slots[i][k]
  {
    var n := |slots| - 1;
    if i < n {
      assert forall j :: 0 <= j < n ==> slots[..n][j] == slots[j];
      ValueInUnion(slots[..n], k, i);
    }
  }

  /** Looking a key up in its slot is looking it up in the union. */
  lemma SlotIsUnion<K(!new), V(!new)>(slots: seq<map<K, V>>, hash: K -> int, k: K)
    requires |slots| > 0 && Placed(slots, hash) && 0 <= GoRemainder(hash(k), |slots|) < |slots|
    ensures var i := GoRemainder(hash(k), |slots|);
            && (k in Union(slots) <==> k in slots[i])
            && (k in slots[i] ==> Union(slots)[k] == slots[i][k])
  {
    var i := GoRemainder(hash(k), |slots|);
    InUnion(slots, k);
    if k in slots[i] {
      ValueInUnion(slots, k, i);
    }
  }

  /** Changing a slot changes the union at the changed keys only. */
  lemma {:induction false} UnionElsewhere<K(!new), V(!new)>(slots: seq<map<K, V>>, i: nat, s: map<K, V>, k: K)
    requires i < |slots| && (k in s <==> k in slots[i]) && (k in s ==> s[k] == slots[i][k])
    ensures k in Union(slots[i := s]) <==> k in Union(slots)
    ensures k in Union(slots) ==> Union(slots[i := s])[k] == Union(slots)[k]
  {
    var n := |slots| - 1;
    if i < n {
      assert slots[i := s][..n] == slots[..n][i := s];
      UnionElsewhere(slots[..n], i, s, k);
    } else {
      assert slots[i := s][..n] == slots[..n];
    }
  }

  /** Writing a key in its slot writes it in the union. */
  lemma UnionPut<K(!new), V(!new)>(slots: seq<map<K, V>>, hash: K -> int, k: K, v: V)
    requires |slots| > 0 && Placed(slots, hash) && 0 <= GoRemainder(hash(k), |slots|) < |slots|
    ensures var i := GoRemainder(hash(k), |slots|);
            && Placed(slots[i := slots[i][k := v]], hash)
            && Union(slots[i := slots[i][k := v]]) == Union(slots)[k := v]
  {
    var i := GoRemainder(hash(k), |slots|);
    var after := slots[i := slots[i][k := v]];
    SlotIsUnion(after, hash, k);
    forall x | x != k
      ensures x in Union(after) <==> x in Union(slots)
      ensures x in Union(slots) ==> Union(after)[x] == Union(slots)[x]
    {
      UnionElsewhere(slots, i, slots[i][k := v], x);
    }
  }

  lemma UnionDelete<K(!new), V(!new)>(slots: seq<map<K, V>>, hash: K -> int, k: K)
    requires |slots| > 0 && Placed(slots, hash) && 0 <= GoRemainder(hash(k), |slots|) < |slots|
    ensures var i := GoRemainder(hash(k), |slots|);
            && Placed(slots[i := slots[i] - {k}], hash)
            && Union(slots[i := slots[i] - {k}]) == Union(slots) - {k}
  {
    var i := GoRemainder(hash(k), |slots|);
    var after := slots[i := slots[i] - {k}];
    SlotIsUnion(after, hash, k);
    forall x | x != k
      ensures x in Union(after) <==> x in Union(slots)
      ensures x in Union(slots) ==> Union(after)[x] == Union(slots)[x]
    {
      UnionElsewhere(slots, i, slots[i] - {k}, x);
    }
  }

  function TotalSize<K, V>(slots: seq<map<K, V>>): nat {
    if slots == [] then 0 else TotalSize(slots[..|slots| - 1]) + |slots[|slots| - 1]|
  }

  ghost predicate Apart<K(!new), V(!new)>(slots: seq<map<K, V>>) {
    forall i, j, k :: 0 <= i < j < |slots| && k in slots[i] ==> k !in slots[j]
  }

  lemma PlacedApart<K(!new), V(!new)>(slots: seq<map<K, V>>, hash: K -> int)
    requires |slots| > 0 && Placed(slots, hash)
    ensures Apart(slots)
  {
    forall i, j, k | 0 <= i < j < |slots| && k in slots[i] ensures k !in slots[j] {
      assert GoRemainder(hash(k), |slots|) == i;
    }
  }

  /** The slots' sizes add up to the number of keys. */
  lemma {:induction false} SizesAddUp<K(!new), V(!new)>(slots: seq<map<K, V>>)
    requires Apart(slots)
    ensures TotalSize(slots) == |Union(slots)|
  {
    if slots != [] {
      var n := |slots| - 1;
      assert forall j :: 0 <= j < n ==> slots[..n][j] == slots[j];
      SizesAddUp(slots[..n]);
      var a, b := Union(slots[..n]), slots[n];
      forall k | k in a ensures k !in b {
        InUnion(slots[..n], k);
      }
      assert (a + b).Keys == a.Keys + b.Keys;
      assert a.Keys !! b.Keys;
      assert |a| == |a.Keys| && |b| == |b.Keys| && |a + b| == |(a + b).Keys|;
    }
  }

  /** The entries of a plain map, each once, in some order. */
  ghost predicate Visits<K(!new), V(!new)>(visited: seq<(K, V)>, m: map<K, V>) {
    && (forall i, j :: 0 <= i < j < |visited| ==> visited[i].0 != visited[j].0)
    && (forall k, v :: (k, v) in visited <==> k in m && m[k] == v)
  }

  // ---- The map -------------------------------------------------------------------------------

  class SegmentMap<K(==, !new), V(==, !new)> {
    const soltNum: int
    const hashFunc: K -> int
    var solts: seq<map<K, V>>

    ghost predicate Valid()
      reads this
    {
      soltNum > 0 && |solts| == soltNum && Placed(solts, hashFunc)
    }

    ghost function Contents(): map<K, V>
      reads this
    {
      Union(solts)
    }

    /** The hash of the key leads to a slot. */
    predicate Reaches(k: K)
      requires soltNum > 0
    {
      0 <= GoRemainder(hashFunc(k), soltNum) < soltNum
    }

    constructor (soltNum: int, hashFunc: K -> int)
      requires soltNum > 0
      ensures Valid() && Contents() == map[] && this.soltNum == soltNum && this.hashFunc == hashFunc
    {
      this.soltNum := soltNum;
      this.hashFunc := hashFunc;
      var made: seq<map<K, V>> := [];
      for i := 0 to soltNum
        invariant |made| == i && (forall j :: 0 <= j < i ==> made[j] == map[]) && Union(made) == map[]
      {
        assert (made + [map[]])[..|made|] == made;
        made := made + [map[]];
      }
      solts := made;
    }

    method Put(k: K, v: V)
      requires Valid() && Reaches(k)
      modifies this
      ensures Valid() && Contents() == old(Contents())[k := v]
    {
      UnionPut(solts, hashFunc, k, v);
      var index := GoRemainder(hashFunc(k), soltNum);
      solts := solts[index := solts[index][k := v]];
    }

    method Get(k: K) returns (v: Option<V>)
      requires Valid() && Reaches(k)
      ensures v == if k in Contents() then Some(Contents()[k]) else None
    {
      SlotIsUnion(solts, hashFunc, k);
      var index := GoRemainder(hashFunc(k), soltNum);
      v := if k in solts[index] then Some(solts[index][k]) else None;
    }

    /** Reports whether the key was there. */
    method Del(k: K) returns (existed: bool)
      requires Valid() && Reaches(k)
      modifies this
      ensures Valid() && Contents() == old(Contents()) - {k} && existed == (k in old(Contents()))
    {
      SlotIsUnion(solts, hashFunc, k);
      UnionDelete(solts, hashFunc, k);
      var index := GoRemainder(hashFunc(k), soltNum);
      existed := k in solts[index];
      solts := solts[index := solts[index] - {k}];
    }

    /** Hands back the old value, which is Go's zero value (here None) when the new one was stored. */
    method PutIfAbsent(k: K, v: V) returns (was: Option<V>, stored: bool)
      requires Valid() && Reaches(k)
      modifies this
      ensures Valid() && stored == (k !in old(Contents()))
      ensures was == if stored then None else Some(old(Contents())[k])
      ensures Contents() == if stored then old(Contents())[k := v] else old(Contents())
    {
      SlotIsUnion(solts, hashFunc, k);
      var index := GoRemainder(hashFunc(k), soltNum);
      if k !in solts[index] {
        UnionPut(solts, hashFunc, k, v);
        solts := solts[index := solts[index][k := v]];
        return None, true;
      }
      return Some(solts[index][k]), false;
    }

    /** Hands back the value that is in the map afterwards; the supplier runs only if there was none. */
    method ComputeIfAbsent(k: K, supplier: K -> V) returns (v: V, computed: bool)
      requires Valid() && Reaches(k)
      modifies this
      ensures Valid() && computed == (k !in old(Contents()))
      ensures v == if computed then supplier(k) else old(Contents())[k]
      ensures Contents() == if computed then old(Contents())[k := supplier(k)] else old(Contents())
    {
      SlotIsUnion(solts, hashFunc, k);
      var index := GoRemainder(hashFunc(k), soltNum);
      if k !in solts[index] {
        v := supplier(k);
        UnionPut(solts, hashFunc, k, v);
        solts := solts[index := solts[index][k := v]];
        return v, true;
      }
      return solts[index][k], false;
    }

    /** Range: the entries handed to the visitor. */
    method Range() returns (visited: seq<(K, V)>)
      requires Valid()
      ensures Visits(visited, Contents())
    {
      visited := [];
      for i := 0 to soltNum
        invariant Visits(visited, Union(solts[..i]))
      {
        var part := RangeSlot(solts[i]);
        assert solts[..i + 1][..i] == solts[..i];
        VisitsJoin(visited, Union(solts[..i]), part, solts[i], solts, i);
        visited := visited + part;
      }
      assert solts[..soltNum] == solts;
    }

    /** The range over one slot. */
    method RangeSlot(slot: map<K, V>) returns (visited: seq<(K, V)>)
      ensures Visits(visited, slot)
    {
      visited := [];
      var todo := slot.Keys;
      while todo != {}
        invariant todo <= slot.Keys
        invariant forall i, j :: 0 <= i < j < |visited| ==> visited[i].0 != visited[j].0
        invariant forall k, v :: (k, v) in visited <==> k in slot.Keys - todo && slot[k] == v
        decreases |todo|
      {
        var k :| k in todo;
        assert forall i :: 0 <= i < |visited| ==> (visited[i].0, visited[i].1) in visited;
        todo := todo - {k};
        visited := visited + [(k, slot[k])];
      }
    }

    lemma VisitsJoin(a: seq<(K, V)>, m: map<K, V>, b: seq<(K, V)>, n: map<K, V>, slots: seq<map<K, V>>, i: nat)
      requires Visits(a, m) && Visits(b, n) && Placed(slots, hashFunc)
      requires i < |slots| && m == Union(slots[..i]) && n == slots[i]
      ensures Visits(a + b, m + n)
    {
      forall k | k in m ensures k !in n {
        InUnion(slots[..i], k);
        var j :| 0 <= j < i && k in slots[..i][j];
        PlacedApart(slots, hashFunc);
        assert k in slots[j];
      }
      forall x, y | 0 <= x < |a| && 0 <= y < |b| ensures a[x].0 != b[y].0 {
        assert (a[x].0, a[x].1) in a && (b[y].0, b[y].1) in b;
      }
    }

    method Count() returns (count: nat)
      requires Valid()
      ensures count == |Contents()|
    {
      count := 0;
      for i := 0 to soltNum
        invariant count == TotalSize(solts[..i])
      {
        assert solts[..i + 1][..i] == solts[..i];
        count := count + |solts[i]|;
      }
      assert solts[..soltNum] == solts;
      PlacedApart(solts, hashFunc);
      SizesAddUp(solts);
    }
  }
}
