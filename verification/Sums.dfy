/** Sums over finite maps and over sequences. */
module Sums {

  ghost function Pick<K>(m: map<K, nat>): K
    requires m != map[]
  {
    var k :| k in m;
    k
  }

  ghost function Sum<K>(m: map<K, nat>): nat
    decreases |m|
  {
    if m == map[] then 0
    else
      var k := Pick(m);
      assert |m - {k}| < |m| by { SmallerWithout(m, k); }
      m[k] + Sum(m - {k})
  }

  lemma SmallerWithout<K>(m: map<K, nat>, k: K)
    requires k in m
    ensures |m - {k}| < |m|
  {
    assert m.Keys == (m - {k}).Keys + {k};
    assert |m.Keys| == |(m - {k}).Keys| + 1;
  }

  /** Any entry may be taken out first. */
  lemma {:induction false} SumWithout<K>(m: map<K, nat>, k: K)
    requires k in m
    ensures Sum(m) == m[k] + Sum(m - {k})
    decreases |m|
  {
    var j := Pick(m);
    if j != k {
      SmallerWithout(m, j);
      SmallerWithout(m, k);
      SumWithout(m - {j}, k);
      SumWithout(m - {k}, j);
      assert m - {j} - {k} == m - {k} - {j};
    }
  }

  function At<K>(m: map<K, nat>, k: K): nat {
    if k in m then m[k] else 0
  }

  lemma SumUpdate<K>(m: map<K, nat>, k: K, x: nat)
    ensures Sum(m[k := x]) == Sum(m) - At(m, k) + x
    ensures At(m, k) <= Sum(m)
  {
    SumWithout(m[k := x], k);
    assert m[k := x] - {k} == m - {k};
    if k in m {
      SumWithout(m, k);
    } else {
      assert m - {k} == m;
    }
  }

  /** Renaming the keys one to one does not change the sum. */
  lemma {:induction false} SumRenamed<K, J>(m: map<K, nat>, n: map<J, nat>, f: K -> J)
    requires forall k :: k in m ==> f(k) in n && n[f(k)] == m[k]
    requires forall k, k' :: k in m && k' in m && f(k) == f(k') ==> k == k'
    requires forall j :: j in n ==> exists k :: k in m && f(k) == j
    ensures Sum(m) == Sum(n)
    decreases |m|
  {
    if m == map[] {
      assert n == map[];
    } else {
      var k := Pick(m);
      SumWithout(m, k);
      SumWithout(n, f(k));
      SmallerWithout(m, k);
      SumRenamed(m - {k}, n - {f(k)}, f);
    }
  }

  /** The sum of the elements' weights. */
  function Total<T(!new)>(xs: seq<T>, weight: T -> nat): nat {
    if xs == [] then 0 else Total(xs[..|xs| - 1], weight) + weight(xs[|xs| - 1])
  }

  lemma {:induction false} TotalWithout<T(!new)>(xs: seq<T>, weight: T -> nat, j: nat)
    requires j < |xs|
    ensures Total(xs, weight) == Total(xs[..j] + xs[j + 1..], weight) + weight(xs[j])
    decreases |xs|
  {
    var n := |xs| - 1;
    if j == n {
      assert xs[..j] + xs[j + 1..] == xs[..n];
    } else {
      var init, last, cut := xs[..n], xs[n], xs[..j] + xs[j + 1..];
      TotalWithout(init, weight, j);
      assert cut[..|cut| - 1] == init[..j] + init[j + 1..] && cut[|cut| - 1] == last;
    }
  }

  lemma BagWithout<T>(xs: seq<T>, j: nat)
    requires j < |xs|
    ensures multiset(xs[..j] + xs[j + 1..]) == multiset(xs) - multiset{xs[j]}
  {
    assert xs == xs[..j] + ([xs[j]] + xs[j + 1..]);
  }

  lemma FindIn<T>(xs: seq<T>, ys: seq<T>, x: T) returns (j: nat)
    requires multiset(xs) == multiset(ys) && x in xs
    ensures j < |ys| && ys[j] == x
  {
    assert x in multiset(ys);
    j :| j < |ys| && ys[j] == x;
  }

  lemma SameLength<T>(xs: seq<T>, ys: seq<T>)
    requires multiset(xs) == multiset(ys)
    ensures |xs| == |ys|
  {
    assert |xs| == |multiset(xs)| == |multiset(ys)| == |ys|;
  }

  /** The order of the elements does not matter. */
  lemma {:induction false} TotalReordered<T(!new)>(xs: seq<T>, ys: seq<T>, weight: T -> nat)
    requires multiset(xs) == multiset(ys)
    ensures Total(xs, weight) == Total(ys, weight)
    decreases |xs|
  {
    SameLength(xs, ys);
    if xs != [] {
      var n := |xs| - 1;
      var j := FindIn(xs, ys, xs[n]);
      var init, cut := xs[..n], ys[..j] + ys[j + 1..];
      BagWithout(xs, n);
      assert xs[..n] + xs[n + 1..] == init;
      BagWithout(ys, j);
      TotalWithout(ys, weight, j);
      TotalReordered(init, cut, weight);
    }
  }
}
