/** Sums over finite maps: the multiset union and the numeric total of a map's
    values.  Page conservation and size accounting are stated with them. */
module Bags {

  ghost function Union<K, V>(m: map<K, multiset<V>>): multiset<V>
    decreases |m|
  {
    if m == map[] then multiset{}
    else var k :| k in m; m[k] + Union(m - {k})
  }

  lemma {:induction false} UnionExtract<K, V>(m: map<K, multiset<V>>, k: K)
    requires k in m
    ensures Union(m) == m[k] + Union(m - {k})
    decreases |m|
  {
    var j :| j in m && Union(m) == m[j] + Union(m - {j});
    if j != k {
      UnionExtract(m - {j}, k);
      UnionExtract(m - {k}, j);
      assert m - {j} - {k} == m - {k} - {j};
    }
  }

  lemma UnionAdd<K, V>(m: map<K, multiset<V>>, k: K, b: multiset<V>)
    requires k !in m
    ensures Union(m[k := b]) == Union(m) + b
  {
    UnionExtract(m[k := b], k);
    assert m[k := b] - {k} == m;
  }

  lemma UnionUpdate<K, V>(m: map<K, multiset<V>>, k: K, b: multiset<V>)
    requires k in m
    ensures Union(m[k := b]) + m[k] == Union(m) + b
  {
    UnionExtract(m, k);
    UnionExtract(m[k := b], k);
    assert m[k := b] - {k} == m - {k};
  }

  /** The part of a map whose keys lie in `s`. */
  ghost function Restrict<K, V>(m: map<K, V>, s: set<K>): (r: map<K, V>)
  {
    map k | k in m && k in s :: m[k]
  }

  /** Removing a set of keys takes away exactly the union over those keys. */
  lemma {:induction false} UnionSplit<K, V>(m: map<K, multiset<V>>, s: set<K>)
    requires s <= m.Keys
    ensures Union(m) == Union(m - s) + Union(Restrict(m, s))
    decreases |s|
  {
    if s == {} {
      assert m - s == m;
      assert Restrict(m, s) == map[];
    } else {
      var k :| k in s;
      UnionSplit(m, s - {k});
      assert (m - (s - {k})) - {k} == m - s;
      UnionExtract(m - (s - {k}), k);
      assert Restrict(m, s) - {k} == Restrict(m, s - {k});
      UnionExtract(Restrict(m, s), k);
    }
  }

  lemma UnionMember<K, V>(m: map<K, multiset<V>>, k: K, v: V)
    requires k in m && v in m[k]
    ensures v in Union(m)
  {
    UnionExtract(m, k);
  }

  lemma {:induction false} UnionWitness<K, V>(m: map<K, multiset<V>>, v: V) returns (k: K)
    requires v in Union(m)
    ensures k in m && v in m[k]
    decreases |m|
  {
    var j :| j in m && Union(m) == m[j] + Union(m - {j});
    if v in m[j] { k := j; } else { k := UnionWitness(m - {j}, v); }
  }

  ghost function Total<K>(m: map<K, nat>): nat
    decreases |m|
  {
    if m == map[] then 0
    else var k :| k in m; m[k] + Total(m - {k})
  }

  lemma {:induction false} TotalExtract<K>(m: map<K, nat>, k: K)
    requires k in m
    ensures Total(m) == m[k] + Total(m - {k})
    decreases |m|
  {
    var j :| j in m && Total(m) == m[j] + Total(m - {j});
    if j != k {
      TotalExtract(m - {j}, k);
      TotalExtract(m - {k}, j);
      assert m - {j} - {k} == m - {k} - {j};
    }
  }

  lemma TotalAdd<K>(m: map<K, nat>, k: K, b: nat)
    requires k !in m
    ensures Total(m[k := b]) == Total(m) + b
  {
    TotalExtract(m[k := b], k);
    assert m[k := b] - {k} == m;
  }

  lemma TotalUpdate<K>(m: map<K, nat>, k: K, b: nat)
    requires k in m
    ensures Total(m[k := b]) + m[k] == Total(m) + b
  {
    TotalExtract(m, k);
    TotalExtract(m[k := b], k);
    assert m[k := b] - {k} == m - {k};
  }

  lemma {:induction false} TotalMonotone<K>(a: map<K, nat>, b: map<K, nat>)
    requires a.Keys == b.Keys && forall k :: k in a ==> a[k] <= b[k]
    ensures Total(a) <= Total(b)
    decreases |a|
  {
    if k :| k in a {
      TotalExtract(a, k);
      TotalExtract(b, k);
      TotalMonotone(a - {k}, b - {k});
    } else {
      assert a == map[];
    }
  }

  lemma {:induction false} TotalPositive<K>(m: map<K, nat>) returns (k: K)
    requires Total(m) > 0
    ensures k in m && m[k] > 0
    decreases |m|
  {
    var j :| j in m && Total(m) == m[j] + Total(m - {j});
    if m[j] > 0 { k := j; } else { k := TotalPositive(m - {j}); }
  }

  lemma MergeDisjoint<K, V>(f: map<K, V>, g: map<K, V>, h: map<K, V>)
    requires forall k :: k in f ==> k in h && h[k] == f[k]
    requires forall k :: k in g ==> k !in f && k in h && h[k] == g[k]
    requires forall k :: k in h ==> k in f || k in g
    ensures h == f + g && f.Keys !! g.Keys
  {
  }

  lemma MergeUndone<K, V>(f: map<K, V>, g: map<K, V>)
    requires f.Keys !! g.Keys
    ensures (f + g) - g.Keys == f
  {
  }

  lemma SameMap<K, V>(f: map<K, V>, g: map<K, V>)
    requires f.Keys == g.Keys && forall k :: k in f ==> f[k] == g[k]
    ensures f == g
  {
  }

  lemma SubmapRestored<K, V>(f: map<K, V>, g: map<K, V>)
    requires forall k :: k in g ==> k in f && f[k] == g[k]
    ensures f == (f - g.Keys) + g
  {
  }
}
