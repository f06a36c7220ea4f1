/**
 How often a map takes a value: the multiset of its values, one count at a time.
 */
module Counting {

  ghost function Count<K, V>(m: map<K, V>, v: V): nat {
    |set k | k in m && m[k] == v|
  }

  lemma CountUpdate<K, V>(m: map<K, V>, k: K, v: V, w: V)
    ensures Count(m[k := v], w)
         == Count(m, w) - (if k in m && m[k] == w then 1 else 0) + (if v == w then 1 else 0)
  {
    var m' := m[k := v];
    var rest := set x | x in m && m[x] == w && x != k;
    assert (set x | x in m && m[x] == w) == if k in m && m[k] == w then rest + {k} else rest;
    assert (set x | x in m' && m'[x] == w) == if v == w then rest + {k} else rest;
  }

  lemma CountRemove<K, V>(m: map<K, V>, k: K, w: V)
    ensures Count(m - {k}, w) == Count(m, w) - (if k in m && m[k] == w then 1 else 0)
  {
    var m' := m - {k};
    var rest := set x | x in m' && m'[x] == w;
    assert (set x | x in m && m[x] == w) == if k in m && m[k] == w then rest + {k} else rest;
  }

  lemma CountNone<K, V>(m: map<K, V>, w: V)
    requires forall k :: k in m ==> m[k] != w
    ensures Count(m, w) == 0
  {
    assert (set k | k in m && m[k] == w) == {};
  }
}
