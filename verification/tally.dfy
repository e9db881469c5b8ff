/**
 Sums of per-key counters, `sum(d.values())` for a dictionary of counts. The sum is defined
 by removing one key at a time; the lemmas show the choice of key does not matter and how
 the sum changes when one counter is bumped.
 */
module Tally {

  ghost function SumOver<K>(m: map<K, nat>, keys: set<K>): nat
    requires keys <= m.Keys
    decreases keys
  {
    if keys == {} then 0 else var k :| k in keys; m[k] + SumOver(m, keys - {k})
  }

  ghost function SumCounts<K>(m: map<K, nat>): nat {
    SumOver(m, m.Keys)
  }

  /** Any key can be taken out first. */
  lemma {:induction false} SumOverRemove<K>(m: map<K, nat>, keys: set<K>, k: K)
    requires keys <= m.Keys && k in keys
    ensures SumOver(m, keys) == m[k] + SumOver(m, keys - {k})
    decreases keys
  {
    var c :| c in keys && SumOver(m, keys) == m[c] + SumOver(m, keys - {c});
    if c != k {
      SumOverRemove(m, keys - {c}, k);
      SumOverRemove(m, keys - {k}, c);
      assert keys - {c} - {k} == keys - {k} - {c};
    }
  }

  /** The sum only looks at the counters of the keys it ranges over. */
  lemma {:induction false} SumOverAgree<K>(m: map<K, nat>, m': map<K, nat>, keys: set<K>)
    requires keys <= m.Keys && keys <= m'.Keys
    requires forall k :: k in keys ==> m[k] == m'[k]
    ensures SumOver(m, keys) == SumOver(m', keys)
    decreases keys
  {
    if keys != {} {
      var c :| c in keys && SumOver(m, keys) == m[c] + SumOver(m, keys - {c});
      SumOverRemove(m', keys, c);
      SumOverAgree(m, m', keys - {c});
    }
  }

  /** All-zero counters sum to zero. */
  lemma {:induction false} SumOverZero<K>(m: map<K, nat>, keys: set<K>)
    requires keys <= m.Keys
    requires forall k :: k in keys ==> m[k] == 0
    ensures SumOver(m, keys) == 0
    decreases keys
  {
    if keys != {} {
      var c :| c in keys && SumOver(m, keys) == m[c] + SumOver(m, keys - {c});
      SumOverZero(m, keys - {c});
    }
  }

  /** `m[k] += 1`, with a missing key starting at zero. */
  function Bump<K>(m: map<K, nat>, k: K): (r: map<K, nat>)
    ensures r.Keys == m.Keys + {k}
    ensures r[k] == (if k in m then m[k] else 0) + 1
    ensures forall j :: j in m && j != k ==> r[j] == m[j]
  {
    m[k := (if k in m then m[k] else 0) + 1]
  }

  /** Bumping one counter raises the total by exactly one. */
  lemma SumCountsBump<K>(m: map<K, nat>, k: K)
    ensures SumCounts(Bump(m, k)) == SumCounts(m) + 1
  {
    var r := Bump(m, k);
    SumOverRemove(r, r.Keys, k);
    var rest := r.Keys - {k};
    assert rest <= m.Keys;
    SumOverAgree(r, m, rest);
    if k in m {
      SumOverRemove(m, m.Keys, k);
      assert m.Keys - {k} == rest;
    } else {
      assert m.Keys == rest;
    }
  }
}
