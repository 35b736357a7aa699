/** Iterator adaptors (`filter`, `filter_map`, `take`, sums) over sequences, with the
    lemmas the looping methods need to relate a prefix to the whole. */
module Seqs {
  import opened Common

  function OptionToSeq<B>(o: Option<B>): (r: seq<B>)
    ensures |r| <= 1
  {
    match o
    case Some(b) => [b]
    case None => []
  }

  /** Appending two runs one after the other appends their concatenation. */
  lemma AppendAssoc<A>(a: seq<A>, b: seq<A>, c: seq<A>)
    ensures a + b + c == a + (b + c)
  {
  }

  lemma AppendEmpty<A>(a: seq<A>)
    ensures [] + a == a && a + [] == a
  {
  }

  /** `iter().filter_map(f).collect()`. */
  function FilterMap<A, B>(xs: seq<A>, f: A -> Option<B>): (r: seq<B>)
    ensures |r| <= |xs|
  {
    if xs == [] then [] else OptionToSeq(f(xs[0])) + FilterMap(xs[1..], f)
  }

  lemma {:induction false} FilterMapAppend<A, B>(xs: seq<A>, ys: seq<A>, f: A -> Option<B>)
    ensures FilterMap(xs + ys, f) == FilterMap(xs, f) + FilterMap(ys, f)
    decreases |xs|
  {
    if xs == [] {
      assert xs + ys == ys;
    } else {
      assert (xs + ys)[1..] == xs[1..] + ys;
      FilterMapAppend(xs[1..], ys, f);
    }
  }

  /** One more element at the end adds its own image at the end. */
  lemma FilterMapSnoc<A, B>(xs: seq<A>, x: A, f: A -> Option<B>)
    ensures FilterMap(xs + [x], f) == FilterMap(xs, f) + OptionToSeq(f(x))
  {
    FilterMapAppend(xs, [x], f);
    assert FilterMap([x], f) == OptionToSeq(f(x)) + FilterMap([x][1..], f);
  }

  /** One more element of a prefix adds its own image at the end. */
  lemma FilterMapPrefix<A, B>(xs: seq<A>, i: nat, f: A -> Option<B>)
    requires i < |xs|
    ensures FilterMap(xs[..i + 1], f) == FilterMap(xs[..i], f) + OptionToSeq(f(xs[i]))
  {
    FilterMapSnoc(xs[..i], xs[i], f);
    assert xs[..i + 1] == xs[..i] + [xs[i]];
  }

  lemma {:induction false} FilterMapMember<A, B>(xs: seq<A>, f: A -> Option<B>, b: B)
    ensures b in FilterMap(xs, f) <==> exists i :: 0 <= i < |xs| && f(xs[i]) == Some(b)
    decreases |xs|
  {
    if xs != [] {
      FilterMapMember(xs[1..], f, b);
      if exists i :: 0 <= i < |xs| && f(xs[i]) == Some(b) {
        var i :| 0 <= i < |xs| && f(xs[i]) == Some(b);
        if i > 0 {
          assert f(xs[1..][i - 1]) == Some(b);
        }
      }
      if exists i :: 0 <= i < |xs[1..]| && f(xs[1..][i]) == Some(b) {
        var i :| 0 <= i < |xs[1..]| && f(xs[1..][i]) == Some(b);
        assert f(xs[i + 1]) == Some(b);
      }
    }
  }

  /** `iter().filter(p).collect()`. */
  function Filter<A>(xs: seq<A>, p: A -> bool): (r: seq<A>)
    ensures |r| <= |xs|
    ensures forall i :: 0 <= i < |r| ==> p(r[i]) && r[i] in xs
  {
    if xs == [] then [] else (if p(xs[0]) then [xs[0]] else []) + Filter(xs[1..], p)
  }

  lemma {:induction false} FilterAppend<A>(xs: seq<A>, ys: seq<A>, p: A -> bool)
    ensures Filter(xs + ys, p) == Filter(xs, p) + Filter(ys, p)
    decreases |xs|
  {
    if xs == [] {
      assert xs + ys == ys;
    } else {
      assert (xs + ys)[1..] == xs[1..] + ys;
      FilterAppend(xs[1..], ys, p);
    }
  }

  lemma FilterSnoc<A>(xs: seq<A>, x: A, p: A -> bool)
    ensures Filter(xs + [x], p) == Filter(xs, p) + (if p(x) then [x] else [])
  {
    FilterAppend(xs, [x], p);
    assert Filter([x], p) == (if p(x) then [x] else []) + Filter([x][1..], p);
  }

  /** Filtering keeps exactly the elements satisfying `p`. */
  lemma {:induction false} FilterMember<A>(xs: seq<A>, p: A -> bool, x: A)
    ensures x in Filter(xs, p) <==> x in xs && p(x)
    decreases |xs|
  {
    if xs != [] {
      FilterMember(xs[1..], p, x);
      assert xs == [xs[0]] + xs[1..];
    }
  }

  /** `Vec::truncate(n)`. */
  function Truncate<A>(xs: seq<A>, n: nat): (r: seq<A>)
    ensures |r| <= n && |r| <= |xs|
    ensures r == xs[..|r|]
    ensures |xs| <= n ==> r == xs
  {
    if |xs| <= n then xs else xs[..n]
  }

  /** Keeping the first `n` of `xs + ys` when `xs` is shorter than `n`. */
  lemma TruncateAppendShort<A>(xs: seq<A>, ys: seq<A>, n: nat)
    requires |xs| < n
    ensures Truncate(xs + ys, n) == xs + Truncate(ys, n - |xs|)
  {
    if |xs + ys| > n {
      assert (xs + ys)[..n] == xs + ys[..n - |xs|];
    }
  }

  /** Keeping the first `n` of `xs + ys` when `xs` has at least `n`. */
  lemma TruncateAppendLong<A>(xs: seq<A>, ys: seq<A>, n: nat)
    requires |xs| >= n
    ensures Truncate(xs + ys, n) == Truncate(xs, n)
  {
    if |xs + ys| > n {
      assert (xs + ys)[..n] == xs[..n];
    }
  }

  /** The newest `n` entries: what dropping from the front until at most `n` remain leaves. */
  function KeepLast<A>(xs: seq<A>, n: nat): (r: seq<A>)
    ensures |r| <= n && |r| <= |xs|
    ensures r == xs[|xs| - |r|..]
    ensures |xs| <= n ==> r == xs
    ensures |xs| > n ==> |r| == n
  {
    if |xs| <= n then xs else xs[|xs| - n..]
  }

  /** Sum of `f` over a sequence. */
  function SumBy<A>(xs: seq<A>, f: A -> real): real {
    if xs == [] then 0.0 else f(xs[0]) + SumBy(xs[1..], f)
  }

  lemma {:induction false} SumByAppend<A>(xs: seq<A>, ys: seq<A>, f: A -> real)
    ensures SumBy(xs + ys, f) == SumBy(xs, f) + SumBy(ys, f)
    decreases |xs|
  {
    if xs == [] {
      assert xs + ys == ys;
    } else {
      assert (xs + ys)[1..] == xs[1..] + ys;
      SumByAppend(xs[1..], ys, f);
    }
  }

  lemma SumBySnoc<A>(xs: seq<A>, x: A, f: A -> real)
    ensures SumBy(xs + [x], f) == SumBy(xs, f) + f(x)
  {
    SumByAppend(xs, [x], f);
    assert SumBy([x], f) == f(x) + SumBy([x][1..], f);
  }

  /** Sum of a sequence of naturals. */
  function SumNat<A>(xs: seq<A>, f: A -> nat): nat {
    if xs == [] then 0 else f(xs[0]) + SumNat(xs[1..], f)
  }

  lemma {:induction false} SumNatAppend<A>(xs: seq<A>, ys: seq<A>, f: A -> nat)
    ensures SumNat(xs + ys, f) == SumNat(xs, f) + SumNat(ys, f)
    decreases |xs|
  {
    if xs == [] {
      assert xs + ys == ys;
    } else {
      assert (xs + ys)[1..] == xs[1..] + ys;
      SumNatAppend(xs[1..], ys, f);
    }
  }

  lemma SumNatSnoc<A>(xs: seq<A>, x: A, f: A -> nat)
    ensures SumNat(xs + [x], f) == SumNat(xs, f) + f(x)
  {
    SumNatAppend(xs, [x], f);
    assert SumNat([x], f) == f(x) + SumNat([x][1..], f);
  }

  /** Removing the element at `j` and adding its value back gives the whole sum. */
  lemma SumNatRemove<A>(ys: seq<A>, j: nat, f: A -> nat)
    requires j < |ys|
    ensures SumNat(ys, f) == SumNat(ys[..j] + ys[j + 1..], f) + f(ys[j])
  {
    var a, b := ys[..j], ys[j + 1..];
    var rest := [ys[j]] + b;
    assert SumNat(ys, f) == SumNat(a, f) + SumNat(rest, f) by {
      assert ys == a + rest;
      SumNatAppend(a, rest, f);
    }
    assert SumNat(rest, f) == f(ys[j]) + SumNat(b, f) by {
      assert rest[1..] == b;
    }
    SumNatAppend(a, b, f);
  }

  /** A sum does not depend on the order of its terms. */
  lemma {:induction false} SumNatPermutation<A>(xs: seq<A>, ys: seq<A>, f: A -> nat)
    requires multiset(xs) == multiset(ys)
    ensures SumNat(xs, f) == SumNat(ys, f)
    decreases |xs|
  {
    if xs != [] {
      var x := xs[0];
      assert x in multiset(ys);
      var j :| 0 <= j < |ys| && ys[j] == x;
      var rest := ys[..j] + ys[j + 1..];
      PermutationRemove(xs, ys, j);
      SumNatPermutation(xs[1..], rest, f);
      SumNatRemove(ys, j, f);
    } else {
      assert |ys| == |multiset(ys)| == 0;
    }
  }

  lemma SumByRemove<A>(ys: seq<A>, j: nat, f: A -> real)
    requires j < |ys|
    ensures SumBy(ys, f) == SumBy(ys[..j] + ys[j + 1..], f) + f(ys[j])
  {
    var a, b := ys[..j], ys[j + 1..];
    var rest := [ys[j]] + b;
    assert SumBy(ys, f) == SumBy(a, f) + SumBy(rest, f) by {
      assert ys == a + rest;
      SumByAppend(a, rest, f);
    }
    assert SumBy(rest, f) == f(ys[j]) + SumBy(b, f) by {
      assert rest[1..] == b;
    }
    SumByAppend(a, b, f);
  }

  /** A real sum does not depend on the order of its terms. */
  lemma {:induction false} SumByPermutation<A>(xs: seq<A>, ys: seq<A>, f: A -> real)
    requires multiset(xs) == multiset(ys)
    ensures SumBy(xs, f) == SumBy(ys, f)
    decreases |xs|
  {
    if xs != [] {
      var x := xs[0];
      assert x in multiset(ys);
      var j :| 0 <= j < |ys| && ys[j] == x;
      var rest := ys[..j] + ys[j + 1..];
      PermutationRemove(xs, ys, j);
      SumByPermutation(xs[1..], rest, f);
      SumByRemove(ys, j, f);
    } else {
      assert |ys| == |multiset(ys)| == 0;
    }
  }

  /** Number of elements satisfying `p`. */
  function CountIf<A>(xs: seq<A>, p: A -> bool): (n: nat)
    ensures n <= |xs|
  {
    if xs == [] then 0 else (if p(xs[0]) then 1 else 0) + CountIf(xs[1..], p)
  }

  lemma {:induction false} CountIfAppend<A>(xs: seq<A>, ys: seq<A>, p: A -> bool)
    ensures CountIf(xs + ys, p) == CountIf(xs, p) + CountIf(ys, p)
    decreases |xs|
  {
    if xs == [] {
      assert xs + ys == ys;
    } else {
      assert (xs + ys)[1..] == xs[1..] + ys;
      CountIfAppend(xs[1..], ys, p);
    }
  }

  lemma CountIfSnoc<A>(xs: seq<A>, x: A, p: A -> bool)
    ensures CountIf(xs + [x], p) == CountIf(xs, p) + (if p(x) then 1 else 0)
  {
    CountIfAppend(xs, [x], p);
    assert CountIf([x], p) == (if p(x) then 1 else 0) + CountIf([x][1..], p);
  }

  /** `iter().map(f).collect()`. */
  function Map<A, B>(xs: seq<A>, f: A -> B): (r: seq<B>)
    ensures |r| == |xs| && forall i :: 0 <= i < |xs| ==> r[i] == f(xs[i])
  {
    seq(|xs|, i requires 0 <= i < |xs| => f(xs[i]))
  }

  lemma MapAppend<A, B>(xs: seq<A>, ys: seq<A>, f: A -> B)
    ensures Map(xs + ys, f) == Map(xs, f) + Map(ys, f)
  {
    assert forall i :: 0 <= i < |xs + ys| ==> Map(xs + ys, f)[i] == (Map(xs, f) + Map(ys, f))[i];
  }

  lemma MapRemove<A, B>(xs: seq<A>, x: A, ys: seq<A>, f: A -> B)
    ensures multiset(Map(xs + [x] + ys, f)) == multiset(Map(xs + ys, f)) + multiset{f(x)}
  {
    MapAppend(xs + [x], ys, f);
    MapAppend(xs, [x], f);
    MapAppend(xs, ys, f);
    assert Map([x], f) == [f(x)];
  }

  /** Mapping keeps a permutation a permutation. */
  lemma {:induction false} MapPermutation<A, B>(xs: seq<A>, ys: seq<A>, f: A -> B)
    requires multiset(xs) == multiset(ys)
    ensures multiset(Map(xs, f)) == multiset(Map(ys, f))
    decreases |xs|
  {
    if xs != [] {
      var x := xs[0];
      assert x in multiset(ys);
      var j :| 0 <= j < |ys| && ys[j] == x;
      PermutationRemove(xs, ys, j);
      var a, b := ys[..j], ys[j + 1..];
      assert ys == a + [x] + b;
      assert xs == [] + [x] + xs[1..];
      MapPermutation(xs[1..], a + b, f);
      MapRemove(a, x, b, f);
      MapRemove([], x, xs[1..], f);
      assert [] + xs[1..] == xs[1..];
    } else {
      assert |ys| == |multiset(ys)| == 0;
    }
  }

  /** Taking the first element out of one side and a copy of it out of the other keeps a
      permutation. */
  lemma PermutationRemove<A>(xs: seq<A>, ys: seq<A>, j: nat)
    requires multiset(xs) == multiset(ys) && xs != [] && j < |ys| && ys[j] == xs[0]
    ensures multiset(xs[1..]) == multiset(ys[..j] + ys[j + 1..])
  {
    MultisetWithout(ys, j);
    MultisetWithout(xs, 0);
    assert xs[..0] + xs[1..] == xs[1..];
    MultisetCancel(multiset(xs[1..]), multiset(ys[..j] + ys[j + 1..]), multiset{xs[0]});
  }

  lemma MultisetCancel<A>(a: multiset<A>, b: multiset<A>, c: multiset<A>)
    requires a + c == b + c
    ensures a == b
  {
    forall e ensures a[e] == b[e] {
      assert (a + c)[e] == (b + c)[e];
    }
  }

  /** The multiset of a sequence is that of the sequence without its `j`th element, plus
      that element. */
  lemma MultisetWithout<A>(ys: seq<A>, j: nat)
    requires j < |ys|
    ensures multiset(ys) == multiset(ys[..j] + ys[j + 1..]) + multiset{ys[j]}
  {
    assert ys == ys[..j] + [ys[j]] + ys[j + 1..];
  }

  /** `iter().rev()`. */
  function Reverse<A>(xs: seq<A>): (r: seq<A>)
    ensures |r| == |xs| && forall i :: 0 <= i < |xs| ==> r[i] == xs[|xs| - 1 - i]
  {
    seq(|xs|, i requires 0 <= i < |xs| => xs[|xs| - 1 - i])
  }

  /** The sequences of a list, one after the other (`flat_map`). */
  function Flatten<A>(xss: seq<seq<A>>): (r: seq<A>)
  {
    if xss == [] then [] else Flatten(xss[..|xss| - 1]) + xss[|xss| - 1]
  }
}
