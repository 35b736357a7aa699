/** The bounded per-key sample histories the memory and disk monitors keep in a `HashMap`:
    every refresh pushes one sample onto the key's vector (created empty on first sight)
    and removes the front once the vector is longer than the cap. */
module SampleHistory {
  import opened Seqs

  /** `push(x)` followed by one `remove(0)` when the length exceeds `cap`. */
  function Pushed<T>(h: seq<T>, x: T, cap: nat): seq<T> {
    var g := h + [x];
    if |g| > cap then g[1..] else g
  }

  /** Within the cap, pushing keeps the newest `cap` samples and ends with the new one. */
  lemma PushedKeepsNewest<T>(h: seq<T>, x: T, cap: nat)
    ensures |h| <= cap ==> Pushed(h, x, cap) == KeepLast(h + [x], cap)
    ensures cap > 0 ==> Pushed(h, x, cap) != [] && Pushed(h, x, cap)[|Pushed(h, x, cap)| - 1] == x
    ensures |Pushed(h, x, cap)| <= |h| + 1
  {
  }

  /** A history within the cap stays within it and keeps every sample it had but the
      oldest, once full. */
  lemma PushedBounded<T>(h: seq<T>, x: T, cap: nat)
    requires cap > 0 && |h| <= cap
    ensures 1 <= |Pushed(h, x, cap)| <= cap
    ensures |h| < cap ==> Pushed(h, x, cap) == h + [x]
    ensures |h| == cap ==> Pushed(h, x, cap) == h[1..] + [x]
  {
    if |h| == cap {
      assert (h + [x])[1..] == h[1..] + [x];
    }
  }

  /** The history a key has before it is first recorded: an empty vector. */
  function Prior<K, T>(m: map<K, seq<T>>, k: K): seq<T> {
    if k in m then m[k] else []
  }

  /** The histories after recording `entries` one after the other. */
  function RecordAll<K, T>(m: map<K, seq<T>>, entries: seq<(K, T)>, cap: nat): map<K, seq<T>>
    decreases |entries|
  {
    if entries == [] then m
    else
      var before := RecordAll(m, entries[..|entries| - 1], cap);
      var e := entries[|entries| - 1];
      before[e.0 := Pushed(Prior(before, e.0), e.1, cap)]
  }

  /** The keys the entries name. */
  function KeysOf<K, T>(entries: seq<(K, T)>): set<K> {
    set i | 0 <= i < |entries| :: entries[i].0
  }

  /** The recorded keys are the earlier ones and those the entries name. */
  lemma {:induction false} RecordAllKeys<K, T>(m: map<K, seq<T>>, entries: seq<(K, T)>, cap: nat)
    ensures RecordAll(m, entries, cap).Keys == m.Keys + KeysOf(entries)
    decreases |entries|
  {
    if entries != [] {
      var n := |entries| - 1;
      RecordAllKeys(m, entries[..n], cap);
      KeysOfSnoc(entries[..n], entries[n]);
      assert entries == entries[..n] + [entries[n]];
    }
  }

  lemma KeysOfSnoc<K, T>(entries: seq<(K, T)>, e: (K, T))
    ensures KeysOf(entries + [e]) == KeysOf(entries) + {e.0}
  {
    var all := entries + [e];
    assert all[|entries|] == e;
    forall k | k in KeysOf(entries) ensures k in KeysOf(all) {
      var i :| 0 <= i < |entries| && entries[i].0 == k;
      assert all[i] == entries[i];
    }
  }

  /** One more entry of a prefix records it over the prefix's histories: the step of the
      refresh loops. */
  lemma RecordAllPrefix<K, T>(m: map<K, seq<T>>, entries: seq<(K, T)>, i: nat, cap: nat,
                              recorded: map<K, seq<T>>, h: seq<T>)
    requires i < |entries| && recorded == RecordAll(m, entries[..i], cap)
    requires h == Pushed(Prior(recorded, entries[i].0), entries[i].1, cap)
    ensures RecordAll(m, entries[..i + 1], cap) == recorded[entries[i].0 := h]
  {
    assert entries[..i + 1][..i] == entries[..i];
  }

  /** Every history stays non-empty and within the cap. */
  predicate Bounded<K, T>(m: map<K, seq<T>>, cap: nat) {
    forall k :: k in m ==> 1 <= |m[k]| <= cap
  }

  lemma {:induction false} RecordAllBounded<K, T>(m: map<K, seq<T>>, entries: seq<(K, T)>, cap: nat)
    requires cap > 0 && Bounded(m, cap)
    ensures Bounded(RecordAll(m, entries, cap), cap)
    decreases |entries|
  {
    if entries != [] {
      var before := RecordAll(m, entries[..|entries| - 1], cap);
      RecordAllBounded(m, entries[..|entries| - 1], cap);
      var e := entries[|entries| - 1];
      var pushed := Pushed(Prior(before, e.0), e.1, cap);
      PushedBounded(Prior(before, e.0), e.1, cap);
      BoundedUpdate(before, e.0, pushed, cap);
    }
  }

  lemma BoundedUpdate<K, T>(m: map<K, seq<T>>, k: K, h: seq<T>, cap: nat)
    requires Bounded(m, cap) && 1 <= |h| <= cap
    ensures Bounded(m[k := h], cap)
  {
  }

  /** No key repeats: what the keys of one `HashMap` or one refresh's mount points give. */
  predicate DistinctKeys<K(==), T>(entries: seq<(K, T)>) {
    forall i, j :: 0 <= i < j < |entries| ==> entries[i].0 != entries[j].0
  }

  /** When no key repeats, each recorded key's history is its prior history with its one
      new sample pushed. */
  lemma {:induction false} RecordAllDistinct<K, T>(m: map<K, seq<T>>, entries: seq<(K, T)>, cap: nat, i: nat)
    requires DistinctKeys(entries) && i < |entries|
    ensures Prior(RecordAll(m, entries, cap), entries[i].0) == Pushed(Prior(m, entries[i].0), entries[i].1, cap)
    decreases |entries|
  {
    var n := |entries| - 1;
    var front := entries[..n];
    var last := entries[n];
    if i < n {
      assert DistinctKeys(front) by {
        forall a, b | 0 <= a < b < n ensures front[a].0 != front[b].0 {
          assert front[a] == entries[a] && front[b] == entries[b];
        }
      }
      assert front[i] == entries[i];
      RecordAllDistinct(m, front, cap, i);
      var before := RecordAll(m, front, cap);
      PriorUpdateOther(before, last.0, Pushed(Prior(before, last.0), last.1, cap), entries[i].0);
    } else {
      assert last.0 !in KeysOf(front) by {
        forall j | 0 <= j < n ensures front[j].0 != last.0 {
          assert front[j] == entries[j];
        }
      }
      RecordAllUntouched(m, front, cap, last.0);
    }
  }

  lemma PriorUpdateOther<K, T>(m: map<K, seq<T>>, k: K, v: seq<T>, j: K)
    requires j != k
    ensures Prior(m[k := v], j) == Prior(m, j)
  {
  }

  /** A key no entry names keeps its history. */
  lemma {:induction false} RecordAllUntouched<K, T>(m: map<K, seq<T>>, entries: seq<(K, T)>, cap: nat, k: K)
    requires k !in KeysOf(entries)
    ensures Prior(RecordAll(m, entries, cap), k) == Prior(m, k)
    decreases |entries|
  {
    if entries != [] {
      var n := |entries| - 1;
      forall j | 0 <= j < n ensures entries[..n][j].0 != k {
        assert entries[..n][j] == entries[j];
      }
      RecordAllUntouched(m, entries[..n], cap, k);
    }
  }

  /** `HashMap::retain` keeping the keys in `live`. */
  function Retain<K, T>(m: map<K, seq<T>>, live: set<K>): (r: map<K, seq<T>>)
    ensures r.Keys == m.Keys * live
    ensures forall k :: k in r ==> r[k] == m[k]
  {
    map k | k in m && k in live :: m[k]
  }
}
