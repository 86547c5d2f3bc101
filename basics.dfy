/** Shared vocabulary: optional values, map lookups with a default, and sums
    over the keys of a hash map, whose iteration order the model leaves open. */
module Basics {

  datatype Option<T> = None | Some(value: T)

  /** `Map.getOrDefault`. */
  function GetOr<K, V>(m: map<K, V>, k: K, default: V): V
  {
    if k in m then m[k] else default
  }

  /** The sum of `f` over a finite set of keys, taken in no particular order:
      a loop over a hash map's entries adds the same terms in whatever order
      the map yields them. */
  ghost function SumOver(keys: set<string>, f: string -> real): real
    decreases keys
  {
    if keys == {} then 0.0 else var k :| k in keys; f(k) + SumOver(keys - {k}, f)
  }

  /** Any key can be taken out first: the sum does not depend on the order. */
  lemma {:induction false} SumOverRemove(keys: set<string>, f: string -> real, x: string)
    requires x in keys
    ensures SumOver(keys, f) == f(x) + SumOver(keys - {x}, f)
    decreases keys
  {
    var k :| k in keys && SumOver(keys, f) == f(k) + SumOver(keys - {k}, f);
    if k != x {
      SumOverRemove(keys - {k}, f, x);
      SumOverRemove(keys - {x}, f, k);
      assert keys - {k} - {x} == keys - {x} - {k};
    }
  }

  /** Summing terms that are never negative gives a non-negative sum. */
  lemma {:induction false} SumOverNonNegative(keys: set<string>, f: string -> real)
    requires forall k :: k in keys ==> f(k) >= 0.0
    ensures SumOver(keys, f) >= 0.0
    decreases keys
  {
    if keys != {} {
      var k :| k in keys;
      SumOverRemove(keys, f, k);
      SumOverNonNegative(keys - {k}, f);
    }
  }

  /** Two term functions that agree on the keys give the same sum. */
  lemma {:induction false} SumOverCongruent(keys: set<string>, f: string -> real, g: string -> real)
    requires forall k :: k in keys ==> f(k) == g(k)
    ensures SumOver(keys, f) == SumOver(keys, g)
    decreases keys
  {
    if keys != {} {
      var k :| k in keys;
      SumOverRemove(keys, f, k);
      SumOverRemove(keys, g, k);
      SumOverCongruent(keys - {k}, f, g);
    }
  }

  /** Raising one term's value strictly, and no term lowering, raises the sum strictly. */
  lemma {:induction false} SumOverStrictlyMonotone(keys: set<string>, f: string -> real, g: string -> real, x: string)
    requires x in keys && f(x) < g(x)
    requires forall k :: k in keys ==> f(k) <= g(k)
    ensures SumOver(keys, f) < SumOver(keys, g)
  {
    SumOverRemove(keys, f, x);
    SumOverRemove(keys, g, x);
    SumOverMonotone(keys - {x}, f, g);
  }

  lemma {:induction false} SumOverMonotone(keys: set<string>, f: string -> real, g: string -> real)
    requires forall k :: k in keys ==> f(k) <= g(k)
    ensures SumOver(keys, f) <= SumOver(keys, g)
    decreases keys
  {
    if keys != {} {
      var k :| k in keys;
      SumOverRemove(keys, f, k);
      SumOverRemove(keys, g, k);
      SumOverMonotone(keys - {k}, f, g);
    }
  }
}
