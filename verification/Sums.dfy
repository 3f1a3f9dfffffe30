/** Sums of natural weights over finite maps, and the facts every byte account relies on. */
module Sums {

  /** Subtraction that stops at zero, as the program's counters subtract. */
  function SatSub(a: nat, b: nat): nat {
    if a >= b then a - b else 0
  }

  ghost function SumOf<K(!new)>(w: map<K, nat>): nat
    decreases |w|
  {
    if w == map[] then 0
    else
      var k :| k in w;
      w[k] + SumOf(w - {k})
  }

  lemma {:induction false} SumRemove<K(!new)>(w: map<K, nat>, k: K)
    requires k in w
    ensures SumOf(w) == w[k] + SumOf(w - {k})
    decreases |w|
  {
    var p :| p in w && SumOf(w) == w[p] + SumOf(w - {p});
    if p != k {
      SumRemove(w - {p}, k);
      SumRemove(w - {k}, p);
      assert w - {p} - {k} == w - {k} - {p};
    }
  }

  lemma {:induction false} SumPut<K(!new)>(w: map<K, nat>, k: K, n: nat)
    ensures SumOf(w[k := n]) == n + SumOf(w - {k})
    ensures k !in w ==> SumOf(w[k := n]) == n + SumOf(w)
    ensures k in w ==> SumOf(w[k := n]) + w[k] == n + SumOf(w)
  {
    SumRemove(w[k := n], k);
    assert w[k := n] - {k} == w - {k};
    if k in w {
      SumRemove(w, k);
    } else {
      assert w - {k} == w;
    }
  }

  lemma {:induction false} SumOfSums<K(!new)>(a: map<K, nat>, b: map<K, nat>, c: map<K, nat>)
    requires a.Keys == b.Keys == c.Keys
    requires forall k :: k in a ==> c[k] == a[k] + b[k]
    ensures SumOf(c) == SumOf(a) + SumOf(b)
    decreases |c|
  {
    if c == map[] {
      assert a == map[] && b == map[];
    } else {
      var k :| k in c;
      SumRemove(a, k);
      SumRemove(b, k);
      SumRemove(c, k);
      SumOfSums(a - {k}, b - {k}, c - {k});
    }
  }

  lemma {:induction false} SumMonotone<K(!new)>(a: map<K, nat>, b: map<K, nat>)
    requires a.Keys == b.Keys && forall k :: k in a ==> a[k] <= b[k]
    ensures SumOf(a) <= SumOf(b)
    decreases |a|
  {
    if a == map[] {
      assert b == map[];
    } else {
      var k :| k in a;
      SumRemove(a, k);
      SumRemove(b, k);
      SumMonotone(a - {k}, b - {k});
    }
  }

  lemma {:induction false} SumOfPart<K(!new)>(a: map<K, nat>, b: map<K, nat>)
    requires a.Keys <= b.Keys && forall k :: k in a ==> a[k] <= b[k]
    ensures SumOf(a) <= SumOf(b)
    decreases |b|
  {
    if b == map[] {
      assert a == map[];
    } else {
      var k :| k in b;
      SumRemove(b, k);
      if k in a {
        SumRemove(a, k);
        SumOfPart(a - {k}, b - {k});
      } else {
        SumOfPart(a, b - {k});
      }
    }
  }

  lemma {:induction false} SumBounded<K(!new)>(w: map<K, nat>, n: nat, most: nat)
    requires |w.Keys| <= n && forall k :: k in w ==> w[k] <= most
    ensures SumOf(w) <= n * most
    decreases n
  {
    if w != map[] {
      assert |w.Keys| > 0 by { assert w.Keys != {}; }
      var k :| k in w;
      KeysWithout(w, k);
      SumRemove(w, k);
      SumBounded(w - {k}, n - 1, most);
      assert n * most == (n - 1) * most + most;
    }
  }

  lemma {:induction false} KeysWithout<K, V>(w: map<K, V>, k: K)
    requires k in w
    ensures |(w - {k}).Keys| == |w.Keys| - 1
  {
    assert (w - {k}).Keys == w.Keys - {k};
  }
}
