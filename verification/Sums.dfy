/** Finite sums over table rows, and the grouping law behind every aggregate in the model. */
module Sums {

  function Sum<T>(s: seq<T>, f: T -> int): int {
    if s == [] then 0 else Sum(s[..|s| - 1], f) + f(s[|s| - 1])
  }

  lemma {:induction false} SumAppend<T>(a: seq<T>, b: seq<T>, f: T -> int)
    ensures Sum(a + b, f) == Sum(a, f) + Sum(b, f)
  {
    if b == [] {
      assert a + b == a;
    } else {
      assert (a + b)[..|a + b| - 1] == a + b[..|b| - 1];
      SumAppend(a, b[..|b| - 1], f);
    }
  }

  /** Extending a prefix by one element, the step of every accumulating loop. */
  lemma SumStep<T>(s: seq<T>, f: T -> int, i: nat)
    requires i < |s|
    ensures Sum(s[..i + 1], f) == Sum(s[..i], f) + f(s[i])
  {
    assert s[..i + 1][..i] == s[..i];
  }

  lemma {:induction false} SumZero<T>(s: seq<T>, f: T -> int)
    requires forall x <- s :: f(x) == 0
    ensures Sum(s, f) == 0
  {
    if s != [] {
      SumZero(s[..|s| - 1], f);
    }
  }

  /** Two rows of columns that agree position by position have the same sum. */
  lemma {:induction false} SumZip<A, B>(a: seq<A>, f: A -> int, b: seq<B>, g: B -> int)
    requires |a| == |b|
    requires forall i | 0 <= i < |a| :: f(a[i]) == g(b[i])
    ensures Sum(a, f) == Sum(b, g)
  {
    if a != [] {
      var n := |a| - 1;
      forall i | 0 <= i < n ensures f(a[..n][i]) == g(b[..n][i]) {
        assert a[..n][i] == a[i] && b[..n][i] == b[i];
      }
      SumZip(a[..n], f, b[..n], g);
    }
  }

  lemma {:induction false} SumNonNegative<T>(s: seq<T>, f: T -> int)
    requires forall x <- s :: f(x) >= 0
    ensures Sum(s, f) >= 0
    ensures forall x <- s :: f(x) <= Sum(s, f)
  {
    if s != [] {
      SumNonNegative(s[..|s| - 1], f);
      assert s == s[..|s| - 1] + [s[|s| - 1]];
    }
  }

  /** The sum of a prefix of non-negative terms is at most the whole sum. */
  lemma PrefixAtMost<T>(s: seq<T>, f: T -> int, i: nat)
    requires i <= |s|
    requires forall x <- s :: f(x) >= 0
    ensures 0 <= Sum(s[..i], f) <= Sum(s, f)
  {
    assert s == s[..i] + s[i..];
    SumAppend(s[..i], s[i..], f);
    SumNonNegative(s[i..], f);
    SumNonNegative(s[..i], f);
  }

  lemma {:induction false} SumPlus<T>(s: seq<T>, f: T -> int, g: T -> int, h: T -> int)
    requires forall x <- s :: h(x) == f(x) + g(x)
    ensures Sum(s, h) == Sum(s, f) + Sum(s, g)
  {
    if s != [] {
      SumPlus(s[..|s| - 1], f, g, h);
    }
  }

  lemma {:induction false} SumScale<T>(s: seq<T>, c: int, f: T -> int, g: T -> int)
    requires forall x <- s :: g(x) == c * f(x)
    ensures Sum(s, g) == c * Sum(s, f)
  {
    if s != [] {
      SumScale(s[..|s| - 1], c, f, g);
    }
  }

  /** A sum does not depend on the order of its terms. */
  lemma {:induction false} SumPermutation<T>(a: seq<T>, b: seq<T>, f: T -> int)
    requires multiset(a) == multiset(b)
    ensures Sum(a, f) == Sum(b, f)
  {
    if a == [] {
      assert |b| == |multiset(b)| == 0;
    } else {
      var x, a' := a[|a| - 1], a[..|a| - 1];
      assert a == a' + [x];
      assert x in multiset(b);
      var i :| 0 <= i < |b| && b[i] == x;
      assert b == b[..i] + [x] + b[i + 1..];
      assert multiset(a') == multiset(a) - multiset{x};
      assert multiset(b[..i] + b[i + 1..]) == multiset(b) - multiset{x};
      SumPermutation(a', b[..i] + b[i + 1..], f);
      SumAppend(b[..i], b[i + 1..], f);
      SumAppend(b[..i], [x], f);
      SumAppend(b[..i] + [x], b[i + 1..], f);
      assert Sum([x], f) == f(x) by {
        assert [x][..0] == [];
      }
    }
  }

  /** 0 .. n-1, the ids of a table of n rows. */
  function Indices(n: nat): seq<int> {
    seq(n, i => i)
  }

  ghost predicate Distinct<T(!new)>(s: seq<T>) {
    forall i, j | 0 <= i < j < |s| :: s[i] != s[j]
  }

  /** The contribution of the rows with key `k`, other rows counting nothing. */
  function OnKey<T, K(==)>(key: T -> K, f: T -> int, k: K): T -> int {
    x => if key(x) == k then f(x) else 0
  }

  /** SELECT SUM(f) ... GROUP BY key, read off at one key. */
  function KeyTotal<T, K(==)>(s: seq<T>, key: T -> K, f: T -> int): K -> int {
    k => Sum(s, OnKey(key, f, k))
  }

  /** Appending rows of a group that had none: the group's total is theirs. */
  lemma NewGroup<T, K>(rows: seq<T>, added: seq<T>, key: T -> K, f: T -> int, k: K)
    requires (forall x <- rows :: key(x) != k) && (forall x <- added :: key(x) == k)
    ensures Sum(rows + added, OnKey(key, f, k)) == Sum(added, f)
  {
    SumAppend(rows, added, OnKey(key, f, k));
    SumZero(rows, OnKey(key, f, k));
    SumZip(added, OnKey(key, f, k), added, f);
  }

  /** Appending rows of other groups leaves a group's total alone. */
  lemma OtherGroup<T, K>(rows: seq<T>, added: seq<T>, key: T -> K, f: T -> int, k: K)
    requires forall x <- added :: key(x) != k
    ensures Sum(rows + added, OnKey(key, f, k)) == Sum(rows, OnKey(key, f, k))
  {
    SumAppend(rows, added, OnKey(key, f, k));
    SumZero(added, OnKey(key, f, k));
  }

  function At<K(==)>(k0: K, v: int): K -> int {
    k => if k == k0 then v else 0
  }

  lemma {:induction false} SumAt<K(!new)>(keys: seq<K>, k0: K, v: int)
    requires Distinct(keys)
    ensures Sum(keys, At(k0, v)) == if k0 in keys then v else 0
  {
    if keys != [] {
      var n := |keys| - 1;
      SumAt(keys[..n], k0, v);
      assert keys == keys[..n] + [keys[n]];
    }
  }

  /** The groups of any grouping add up to the ungrouped sum, provided every row that counts has its key listed. */
  lemma {:induction false} SumByKey<T, K(!new)>(s: seq<T>, key: T -> K, f: T -> int, keys: seq<K>)
    requires Distinct(keys)
    requires forall x <- s :: key(x) in keys || f(x) == 0
    ensures Sum(keys, KeyTotal(s, key, f)) == Sum(s, f)
  {
    if s == [] {
      SumZero(keys, KeyTotal(s, key, f));
    } else {
      var n := |s| - 1;
      var last := s[n];
      SumByKey(s[..n], key, f, keys);
      SumAt(keys, key(last), f(last));
      SumPlus(keys, KeyTotal(s[..n], key, f), At(key(last), f(last)), KeyTotal(s, key, f));
    }
  }

  /** The distinct keys of a table, in order of first appearance. */
  function KeysOf<T, K(==)>(s: seq<T>, key: T -> K): seq<K> {
    if s == [] then []
    else
      var ks := KeysOf(s[..|s| - 1], key);
      var k := key(s[|s| - 1]);
      if k in ks then ks else ks + [k]
  }

  lemma {:induction false} KeysOfComplete<T, K(!new)>(s: seq<T>, key: T -> K)
    ensures Distinct(KeysOf(s, key))
    ensures forall x <- s :: key(x) in KeysOf(s, key)
  {
    if s != [] {
      KeysOfComplete(s[..|s| - 1], key);
      assert s == s[..|s| - 1] + [s[|s| - 1]];
    }
  }

  /** Each row weighted by a price that depends on its key only. */
  function Weighted<T, K>(key: T -> K, f: T -> int, w: K -> int): T -> int {
    x => w(key(x)) * f(x)
  }

  function WeightedTotal<T, K(==)>(s: seq<T>, key: T -> K, f: T -> int, w: K -> int): K -> int {
    k => w(k) * Sum(s, OnKey(key, f, k))
  }

  lemma {:induction false} WeightedByKey<T, K(!new)>(s: seq<T>, key: T -> K, f: T -> int, w: K -> int, keys: seq<K>)
    requires Distinct(keys)
    requires forall x <- s :: key(x) in keys || f(x) == 0
    ensures Sum(s, Weighted(key, f, w)) == Sum(keys, WeightedTotal(s, key, f, w))
  {
    var wf := Weighted(key, f, w);
    assert forall x <- s :: key(x) in keys || wf(x) == 0;
    SumByKey(s, key, wf, keys);
    forall k <- keys ensures KeyTotal(s, key, wf)(k) == WeightedTotal(s, key, f, w)(k) {
      SumScale(s, w(k), OnKey(key, f, k), OnKey(key, wf, k));
    }
    SumZip(keys, KeyTotal(s, key, wf), keys, WeightedTotal(s, key, f, w));
  }

  /** Non-negative terms add up to zero only when each of them is zero. */
  lemma ZeroSum<T>(s: seq<T>, f: T -> int)
    requires forall x <- s :: f(x) >= 0
    ensures Sum(s, f) == 0 <==> forall x <- s :: f(x) == 0
  {
    SumNonNegative(s, f);
    if forall x <- s :: f(x) == 0 {
      SumZero(s, f);
    }
  }

  /** Terms that are pointwise at most others have at most their sum, and reach it only by being equal everywhere. */
  lemma {:induction false} SumGap<T>(s: seq<T>, part: T -> int, whole: T -> int)
    requires forall x <- s :: part(x) <= whole(x)
    ensures Sum(s, part) <= Sum(s, whole)
    ensures Sum(s, part) == Sum(s, whole) <==> forall x <- s :: part(x) == whole(x)
  {
    if s != [] {
      var n := |s| - 1;
      SumGap(s[..n], part, whole);
      assert s == s[..n] + [s[n]];
    }
  }
}
