/** Sums over the values of a finite map, and how one update changes them. */
module MapSums {

  function Get<K>(f: map<K, nat>, k: K): nat {
    if k in f then f[k] else 0
  }

  ghost function Sum<K>(f: map<K, nat>): nat
    decreases f.Keys
  {
    if f.Keys == {} then 0
    else
      var k :| k in f.Keys;
      assert (f - {k}).Keys == f.Keys - {k};
      f[k] + Sum(f - {k})
  }

  /** Any key may be taken out first. */
  lemma {:induction false} SumSplit<K>(f: map<K, nat>, k: K)
    requires k in f
    ensures Sum(f) == f[k] + Sum(f - {k})
    decreases f.Keys
  {
    var first :| first in f.Keys && Sum(f) == f[first] + Sum(f - {first});
    if first != k {
      assert (f - {first}).Keys == f.Keys - {first};
      assert (f - {k}).Keys == f.Keys - {k};
      SumSplit(f - {first}, k);
      SumSplit(f - {k}, first);
      assert f - {first} - {k} == f - {k} - {first};
    }
  }

  lemma SumUpdate<K>(f: map<K, nat>, k: K, v: nat)
    ensures Sum(f[k := v]) == Sum(f) - Get(f, k) + v
    ensures Get(f, k) <= Sum(f)
  {
    SumSplit(f[k := v], k);
    if k in f {
      SumSplit(f, k);
      assert f[k := v] - {k} == f - {k};
    } else {
      assert f[k := v] - {k} == f;
    }
  }

  lemma {:induction false} SumPair<K>(f: map<K, nat>, a: K, b: K)
    requires a != b
    ensures Get(f, a) + Get(f, b) <= Sum(f)
  {
    if a in f && b in f {
      SumSplit(f, a);
      SumSplit(f - {a}, b);
    } else {
      SumUpdate(f, a, 0);
      SumUpdate(f, b, 0);
    }
  }

  lemma {:induction false} SumOfZeros<K>(f: map<K, nat>)
    requires forall k :: k in f ==> f[k] == 0
    ensures Sum(f) == 0
    decreases f.Keys
  {
    if k :| k in f {
      assert (f - {k}).Keys == f.Keys - {k};
      SumSplit(f, k);
      SumOfZeros(f - {k});
    }
  }
}
