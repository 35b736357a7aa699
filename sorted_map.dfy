/** `BTreeMap<String, V>` as an association list kept in increasing key order: iteration
    follows the list, and `Lookup` gives the map it stands for. */
module SortedMap {
  import opened Common
  import opened Sorting

  type Entries<V> = seq<(string, V)>

  function Keys<V>(e: Entries<V>): (ks: seq<string>)
    ensures |ks| == |e|
    ensures forall i :: 0 <= i < |e| ==> ks[i] == e[i].0
  {
    seq(|e|, i requires 0 <= i < |e| => e[i].0)
  }

  /** The invariant of the tree: keys strictly increasing, hence distinct. */
  predicate Sorted<V>(e: Entries<V>) {
    forall i, j :: 0 <= i < j < |e| ==> Less(e[i].0, e[j].0)
  }

  /** `map.get(k)`. */
  function Lookup<V>(e: Entries<V>, k: string): (r: Option<V>)
    ensures r.Some? ==> (k, r.value) in e
    ensures r.None? ==> forall i :: 0 <= i < |e| ==> e[i].0 != k
  {
    if e == [] then None
    else if e[0].0 == k then Some(e[0].1)
    else Lookup(e[1..], k)
  }

  /** In a sorted list the entry holding a key is the one `Lookup` finds. */
  lemma {:induction false} LookupAt<V>(e: Entries<V>, i: nat)
    requires Sorted(e) && i < |e|
    ensures Lookup(e, e[i].0) == Some(e[i].1)
    decreases i
  {
    if i > 0 {
      assert Less(e[0].0, e[i].0);
      LessIrreflexive(e[0].0);
      LookupAt(e[1..], i - 1);
    }
  }

  /** `map.insert(k, v)`: replaces the value of an existing key, otherwise adds the key in order. */
  function Insert<V>(e: Entries<V>, k: string, v: V): (r: Entries<V>)
    requires Sorted(e)
    ensures Sorted(r)
    ensures forall x :: x in Keys(r) <==> x in Keys(e) || x == k
  {
    if e == [] then
      assert Keys([(k, v)]) == [k];
      [(k, v)]
    else if k == e[0].0 then
      assert Keys([(k, v)] + e[1..]) == Keys(e);
      forall i, j | 0 <= i < j < |e| ensures Less(([(k, v)] + e[1..])[i].0, ([(k, v)] + e[1..])[j].0) {
        assert ([(k, v)] + e[1..])[i].0 == e[i].0 && ([(k, v)] + e[1..])[j].0 == e[j].0;
      }
      [(k, v)] + e[1..]
    else if Less(k, e[0].0) then
      forall j | 0 <= j < |e| ensures Less(k, e[j].0) {
        if j > 0 {
          LessTransitive(k, e[0].0, e[j].0);
        }
      }
      assert Keys([(k, v)] + e) == [k] + Keys(e);
      [(k, v)] + e
    else
      LessTotal(k, e[0].0);
      var rest := Insert(e[1..], k, v);
      ConsSorted(e, k, rest);
      [e[0]] + rest
  }

  /** The first entry, below the inserted key, followed by the insertion into the rest. */
  lemma ConsSorted<V>(e: Entries<V>, k: string, rest: Entries<V>)
    requires Sorted(e) && e != [] && Less(e[0].0, k) && Sorted(rest)
    requires forall x :: x in Keys(rest) <==> x in Keys(e[1..]) || x == k
    ensures Sorted([e[0]] + rest)
    ensures forall x :: x in Keys([e[0]] + rest) <==> x in Keys(e) || x == k
  {
    forall x | x in Keys(rest) ensures Less(e[0].0, x) {
      var j :| 0 <= j < |rest| && Keys(rest)[j] == x;
      assert x in Keys(e[1..]) || x == k;
      if x != k {
        var m :| 0 <= m < |e[1..]| && Keys(e[1..])[m] == x;
        assert e[m + 1].0 == x;
      }
    }
    var r := [e[0]] + rest;
    forall i, j | 0 <= i < j < |r| ensures Less(r[i].0, r[j].0) {
      if i == 0 {
        assert r[j] == rest[j - 1];
        assert Keys(rest)[j - 1] == r[j].0;
      } else {
        assert r[i] == rest[i - 1] && r[j] == rest[j - 1];
      }
    }
    forall x ensures x in Keys(e) <==> x in Keys(e[1..]) || x == e[0].0 {
      assert Keys(e) == [e[0].0] + Keys(e[1..]);
    }
    forall x ensures x in Keys(r) <==> x in Keys(rest) || x == e[0].0 {
      assert Keys(r) == [e[0].0] + Keys(rest);
    }
  }

  /** What `insert` means: the key now maps to `v`, every other key is unchanged. */
  lemma {:induction false} InsertLookup<V>(e: Entries<V>, k: string, v: V, x: string)
    requires Sorted(e)
    ensures Lookup(Insert(e, k, v), x) == if x == k then Some(v) else Lookup(e, x)
    decreases |e|
  {
    if e != [] && k != e[0].0 && !Less(k, e[0].0) {
      InsertLookup(e[1..], k, v, x);
    }
  }

  /** `map.remove(k)`. */
  function Remove<V>(e: Entries<V>, k: string): (r: Entries<V>)
    ensures |r| <= |e|
    ensures forall i :: 0 <= i < |r| ==> r[i] in e && r[i].0 != k
  {
    if e == [] then []
    else if e[0].0 == k then Remove(e[1..], k)
    else [e[0]] + Remove(e[1..], k)
  }

  /** Removing keeps the order of what remains. */
  lemma {:induction false} RemoveSorted<V>(e: Entries<V>, k: string)
    requires Sorted(e)
    ensures Sorted(Remove(e, k))
    decreases |e|
  {
    if e != [] {
      RemoveSorted(e[1..], k);
      var rest := Remove(e[1..], k);
      if e[0].0 != k {
        var r := [e[0]] + rest;
        forall i, j | 0 <= i < j < |r| ensures Less(r[i].0, r[j].0) {
          assert r[j] == rest[j - 1];
          var m :| 0 <= m < |e| && e[m] == r[j];
          if i == 0 {
            if m == 0 {
              assert r[j].0 == e[0].0;
              assert r[j] in e[1..];
              var n :| 0 <= n < |e[1..]| && e[1..][n] == r[j];
              assert Less(e[0].0, e[n + 1].0);
              LessIrreflexive(e[0].0);
            } else {
              assert Less(e[0].0, e[m].0);
            }
          } else {
            assert r[i] == rest[i - 1];
          }
        }
      }
    }
  }

  /** What `remove` means: the key is gone, every other key is unchanged. */
  lemma {:induction false} RemoveLookup<V>(e: Entries<V>, k: string, x: string)
    ensures Lookup(Remove(e, k), x) == if x == k then None else Lookup(e, x)
    decreases |e|
  {
    if e != [] {
      RemoveLookup(e[1..], k, x);
    }
  }

  /** The last `n` keys in increasing order: `keys().rev().take(n)` reversed. */
  function GreatestKeys<V>(e: Entries<V>, n: nat): (ks: seq<string>)
    ensures |ks| == if |e| <= n then |e| else n
    ensures forall i :: 0 <= i < |ks| ==> ks[i] == e[|e| - |ks| + i].0
  {
    var m := if |e| <= n then |e| else n;
    seq(m, i requires 0 <= i < m => e[|e| - m + i].0)
  }

  /** The keys `GreatestKeys` picks are the greatest ones: every key left behind is below each of them. */
  lemma GreatestKeysAreGreatest<V>(e: Entries<V>, n: nat, i: nat, j: nat)
    requires Sorted(e)
    requires i < |e| && j < |GreatestKeys(e, n)| && e[i].0 !in GreatestKeys(e, n)
    ensures Less(e[i].0, GreatestKeys(e, n)[j])
  {
    var ks := GreatestKeys(e, n);
    var start := |e| - |ks|;
    forall m | start <= m < |e| ensures e[m].0 in ks {
      assert ks[m - start] == e[m].0;
    }
    assert i < start;
    assert e[start + j].0 == ks[j];
    assert Less(e[i].0, e[start + j].0);
  }

  /** Each of the keys `GreatestKeys` picks is found by `Lookup`. */
  lemma GreatestKeysPresent<V>(e: Entries<V>, n: nat, i: nat)
    requires Sorted(e) && i < |GreatestKeys(e, n)|
    ensures Lookup(e, GreatestKeys(e, n)[i]).Some?
  {
    LookupAt(e, |e| - |GreatestKeys(e, n)| + i);
  }
}
