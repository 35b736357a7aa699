/** The sorts the monitors apply before reporting: a stable sort by a numeric key
    (`sort_by` with `partial_cmp`, `sort_by_key`) and `sort` + `dedup` on strings. */
module Sorting {

  predicate SortedDesc<T>(xs: seq<T>, key: T -> real) {
    forall i, j :: 0 <= i < j < |xs| ==> key(xs[i]) >= key(xs[j])
  }

  /** Inserts `x` in front of the first element whose key is not greater, so an element
      coming earlier in the input stays before later equal-keyed ones. */
  function InsertDesc<T>(x: T, xs: seq<T>, key: T -> real): (r: seq<T>)
    ensures multiset(r) == multiset(xs) + multiset{x}
    ensures |r| == |xs| + 1
    ensures forall i :: 0 <= i < |r| ==> r[i] == x || r[i] in xs
  {
    if xs == [] || key(xs[0]) <= key(x) then [x] + xs
    else
      assert xs == [xs[0]] + xs[1..];
      [xs[0]] + InsertDesc(x, xs[1..], key)
  }

  lemma {:induction false} InsertDescSorted<T>(x: T, xs: seq<T>, key: T -> real)
    requires SortedDesc(xs, key)
    ensures SortedDesc(InsertDesc(x, xs, key), key)
    decreases |xs|
  {
    if xs == [] || key(xs[0]) <= key(x) {
      forall k | 0 <= k < |xs| ensures key(xs[k]) <= key(x) {
        if k > 0 {
          assert key(xs[0]) >= key(xs[k]);
        }
      }
      ConsSortedDesc(x, xs, key);
    } else {
      var rest := InsertDesc(x, xs[1..], key);
      InsertDescSorted(x, xs[1..], key);
      forall k | 0 <= k < |rest| ensures key(rest[k]) <= key(xs[0]) {
        if rest[k] != x {
          var j :| 0 <= j < |xs[1..]| && xs[1..][j] == rest[k];
          assert xs[j + 1] == rest[k];
        }
      }
      ConsSortedDesc(xs[0], rest, key);
    }
  }

  /** A key at least every key of a sorted sequence can go in front of it. */
  lemma ConsSortedDesc<T>(y: T, rest: seq<T>, key: T -> real)
    requires SortedDesc(rest, key)
    requires forall k :: 0 <= k < |rest| ==> key(rest[k]) <= key(y)
    ensures SortedDesc([y] + rest, key)
  {
    var r := [y] + rest;
    forall i, j | 0 <= i < j < |r| ensures key(r[i]) >= key(r[j]) {
      if i == 0 {
        assert r[j] == rest[j - 1];
      } else {
        assert r[i] == rest[i - 1] && r[j] == rest[j - 1];
      }
    }
  }

  /** Stable sort by `key`, greatest first. */
  function SortDesc<T>(xs: seq<T>, key: T -> real): (r: seq<T>)
    ensures SortedDesc(r, key)
    ensures multiset(r) == multiset(xs)
    ensures |r| == |xs|
  {
    if xs == [] then []
    else
      assert xs == [xs[0]] + xs[1..];
      InsertDescSorted(xs[0], SortDesc(xs[1..], key), key);
      InsertDesc(xs[0], SortDesc(xs[1..], key), key)
  }

  /** The elements whose key is `v`, in their order in `xs`. */
  function WithKey<T>(xs: seq<T>, key: T -> real, v: real): seq<T> {
    if xs == [] then [] else (if key(xs[0]) == v then [xs[0]] else []) + WithKey(xs[1..], key, v)
  }

  /** `InsertDesc` puts `x` ahead of every element with its key and behind none. */
  lemma {:induction false} InsertDescStable<T>(x: T, xs: seq<T>, key: T -> real, v: real)
    ensures WithKey(InsertDesc(x, xs, key), key, v) == (if key(x) == v then [x] else []) + WithKey(xs, key, v)
    decreases |xs|
  {
    if xs == [] || key(xs[0]) <= key(x) {
      assert ([x] + xs)[1..] == xs;
    } else {
      var rest := InsertDesc(x, xs[1..], key);
      assert ([xs[0]] + rest)[1..] == rest;
      InsertDescStable(x, xs[1..], key, v);
    }
  }

  /** `SortDesc` is stable: the elements sharing a key keep their input order. */
  lemma {:induction false} SortDescStable<T>(xs: seq<T>, key: T -> real, v: real)
    ensures WithKey(SortDesc(xs, key), key, v) == WithKey(xs, key, v)
    decreases |xs|
  {
    if xs != [] {
      SortDescStable(xs[1..], key, v);
      InsertDescStable(xs[0], SortDesc(xs[1..], key), key, v);
    }
  }

  /** In a sorted sequence cut in two, every key of the front is at least every key of
      what was cut off. */
  lemma SortedFrontDominates<T>(xs: seq<T>, key: T -> real, n: nat, p: T, q: T)
    requires SortedDesc(xs, key) && n <= |xs|
    requires p in xs[..n] && q in multiset(xs) - multiset(xs[..n])
    ensures key(p) >= key(q)
  {
    var rest := xs[n..];
    assert xs == xs[..n] + rest;
    assert q in multiset(rest) by {
      assert multiset(xs) == multiset(xs[..n]) + multiset(rest);
    }
    var i :| 0 <= i < n && xs[..n][i] == p;
    var j :| 0 <= j < |rest| && rest[j] == q;
    assert xs[i] == p && xs[n + j] == q;
  }

  // ---------------------------------------------------------------------------
  // Strings in `Ord` order (code point by code point, a proper prefix first)

  predicate Less(a: string, b: string) {
    if a == [] then b != []
    else if b == [] then false
    else if a[0] != b[0] then a[0] < b[0]
    else Less(a[1..], b[1..])
  }

  lemma {:induction false} LessIrreflexive(a: string)
    ensures !Less(a, a)
  {
    if a != [] {
      LessIrreflexive(a[1..]);
    }
  }

  lemma {:induction false} LessTransitive(a: string, b: string, c: string)
    requires Less(a, b) && Less(b, c)
    ensures Less(a, c)
  {
    if a != [] && b != [] && c != [] && a[0] == b[0] && b[0] == c[0] {
      LessTransitive(a[1..], b[1..], c[1..]);
    }
  }

  lemma {:induction false} LessTotal(a: string, b: string)
    ensures a == b || Less(a, b) || Less(b, a)
  {
    if a != [] && b != [] && a[0] == b[0] {
      LessTotal(a[1..], b[1..]);
      if a[1..] == b[1..] {
        assert a == [a[0]] + a[1..] && b == [b[0]] + b[1..];
      }
    }
  }

  lemma LessAsymmetric(a: string, b: string)
    requires Less(a, b)
    ensures !Less(b, a)
  {
    if Less(b, a) {
      LessTransitive(a, b, a);
      LessIrreflexive(a);
    }
  }

  predicate StrictlyIncreasing(xs: seq<string>) {
    forall i, j :: 0 <= i < j < |xs| ==> Less(xs[i], xs[j])
  }

  function InsertUnique(x: string, xs: seq<string>): (r: seq<string>)
    requires StrictlyIncreasing(xs)
    ensures StrictlyIncreasing(r)
    ensures forall y :: y in r <==> y in xs || y == x
  {
    if xs == [] then [x]
    else if x == xs[0] then xs
    else if Less(x, xs[0]) then
      forall j | 0 <= j < |xs| ensures Less(x, xs[j]) {
        if j > 0 {
          LessTransitive(x, xs[0], xs[j]);
        }
      }
      [x] + xs
    else
      LessTotal(x, xs[0]);
      var rest := InsertUnique(x, xs[1..]);
      assert forall y :: y in xs <==> y in xs[1..] || y == xs[0];
      forall y | y in rest ensures Less(xs[0], y) {
        if y != x {
          var j :| 0 <= j < |xs[1..]| && xs[1..][j] == y;
          assert xs[j + 1] == y;
        }
      }
      var r := [xs[0]] + rest;
      forall i, j | 0 <= i < j < |r| ensures Less(r[i], r[j]) {
        if i == 0 {
          assert r[j] == rest[j - 1];
          assert r[j] in rest;
        } else {
          assert r[i] == rest[i - 1] && r[j] == rest[j - 1];
        }
      }
      r
  }

  /** `v.sort(); v.dedup();`: the distinct strings of `xs` in increasing order. */
  function SortDedup(xs: seq<string>): (r: seq<string>)
    ensures StrictlyIncreasing(r)
    ensures forall y :: y in r <==> y in xs
  {
    if xs == [] then []
    else
      var rest := SortDedup(xs[1..]);
      assert forall y :: y in xs <==> y in xs[1..] || y == xs[0];
      InsertUnique(xs[0], rest)
  }
}
