/** Canonical keys of settlement pairs: internal/engine/relations.go. */
module Pairs {
  import opened Accounts

  datatype Key = Key(a: nat, b: nat)

  /** The same key whichever settlement is named first. */
  function PairKey(x: nat, y: nat): (k: Key)
    ensures k.a <= k.b && {k.a, k.b} == {x, y}
  {
    if x > y then Key(y, x) else Key(x, y)
  }

  predicate Canonical(keys: set<Key>) { forall k :: k in keys ==> k.a <= k.b }

  function Get<V>(m: map<Key, V>, k: Key): Option<V> { if k in m then Some(m[k]) else None }
}
