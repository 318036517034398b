// Sums over the values of a finite map.

module Totals {
  ghost function Total<K, V>(m: map<K, V>, f: V -> int): int {
    if m.Keys == {} then 0
    else
      var k :| k in m;
      f(m[k]) + Total(m - {k}, f)
  }

  // The order in which the keys are visited does not matter.
  lemma {:induction false} TotalRemove<K, V>(m: map<K, V>, k: K, f: V -> int)
    requires k in m
    ensures Total(m, f) == f(m[k]) + Total(m - {k}, f)
    decreases |m|
  {
    var first :| first in m && Total(m, f) == f(m[first]) + Total(m - {first}, f);
    if first != k {
      TotalRemove(m - {first}, k, f);
      TotalRemove(m - {k}, first, f);
      assert m - {first} - {k} == m - {k} - {first};
    }
  }

  // Maps with the same keys and summands have the same total.
  lemma {:induction false} TotalSame<K, V, W>(m: map<K, V>, f: V -> int, n: map<K, W>, g: W -> int)
    requires m.Keys == n.Keys && forall k | k in m :: f(m[k]) == g(n[k])
    ensures Total(m, f) == Total(n, g)
    decreases |m|
  {
    if m.Keys != {} {
      var k :| k in m;
      TotalRemove(m, k, f);
      TotalRemove(n, k, g);
      assert (m - {k}).Keys == m.Keys - {k} && (n - {k}).Keys == n.Keys - {k};
      TotalSame(m - {k}, f, n - {k}, g);
    }
  }

  // Summing ones counts the keys.
  lemma {:induction false} TotalOfOnes<K, V>(m: map<K, V>, f: V -> int)
    requires forall k | k in m :: f(m[k]) == 1
    ensures Total(m, f) == |m.Keys|
    decreases |m|
  {
    if m.Keys != {} {
      var k :| k in m;
      TotalRemove(m, k, f);
      assert (m - {k}).Keys == m.Keys - {k};
      TotalOfOnes(m - {k}, f);
    }
  }

  lemma TotalUpdate<K, V>(m: map<K, V>, k: K, v: V, f: V -> int)
    ensures Total(m[k := v], f) == Total(m, f) + f(v) - (if k in m then f(m[k]) else 0)
  {
    TotalRemove(m[k := v], k, f);
    if k in m {
      TotalRemove(m, k, f);
      assert m[k := v] - {k} == m - {k};
    } else {
      assert m[k := v] - {k} == m;
    }
  }

  lemma RemoveBoth<K, V>(m: map<K, V>, part: map<K, V>, k: K)
    requires part.Keys <= m.Keys && k in part
    ensures (part - {k}).Keys <= (m - {k}).Keys
    ensures (m - {k}) - (part - {k}).Keys == m - part.Keys
  {
  }

  lemma {:induction false} TotalSplit<K, V>(m: map<K, V>, part: map<K, V>, f: V -> int)
    requires part.Keys <= m.Keys && forall k | k in part :: f(part[k]) == f(m[k])
    ensures Total(m, f) == Total(part, f) + Total(m - part.Keys, f)
    decreases |part|
  {
    if part.Keys == {} {
      assert m - part.Keys == m;
    } else {
      var k :| k in part;
      TotalRemove(m, k, f);
      TotalRemove(part, k, f);
      RemoveBoth(m, part, k);
      TotalSplit(m - {k}, part - {k}, f);
    }
  }
}
