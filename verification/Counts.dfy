/** Dictionaries of counts, as the source keeps them: a missing key counts zero. */
module Counts {
  function Get<K(!new)>(m: map<K, nat>, key: K): nat {
    if key in m then m[key] else 0
  }

  function Bump<K(!new)>(m: map<K, nat>, key: K, n: nat): map<K, nat> {
    m[key := Get(m, key) + n]
  }

  /** Pointwise sum over the union of the keys. */
  function Add<K(!new)>(a: map<K, nat>, b: map<K, nat>): (c: map<K, nat>)
    ensures c.Keys == a.Keys + b.Keys
    ensures forall k :: Get(c, k) == Get(a, k) + Get(b, k)
  {
    map k | k in a.Keys + b.Keys :: Get(a, k) + Get(b, k)
  }

  lemma SameCounts<K(!new)>(a: map<K, nat>, b: map<K, nat>)
    requires a.Keys == b.Keys
    requires forall k :: k in a ==> Get(a, k) == Get(b, k)
    ensures a == b
  {
    forall k | k in a
      ensures a[k] == b[k]
    {
      assert Get(a, k) == Get(b, k);
    }
  }

  lemma AddEmpty<K(!new)>(a: map<K, nat>)
    ensures Add(a, map[]) == a == Add(map[], a)
  {
    SameCounts(Add(a, map[]), a);
    SameCounts(Add(map[], a), a);
  }

  lemma AddCommutes<K(!new)>(a: map<K, nat>, b: map<K, nat>)
    ensures Add(a, b) == Add(b, a)
  {
    SameCounts(Add(a, b), Add(b, a));
  }

  lemma AddAssociates<K(!new)>(a: map<K, nat>, b: map<K, nat>, c: map<K, nat>)
    ensures Add(Add(a, b), c) == Add(a, Add(b, c))
  {
    SameCounts(Add(Add(a, b), c), Add(a, Add(b, c)));
  }

  lemma AddBump<K(!new)>(a: map<K, nat>, b: map<K, nat>, key: K, n: nat)
    ensures Add(a, Bump(b, key, n)) == Bump(Add(a, b), key, n)
  {
    SameCounts(Add(a, Bump(b, key, n)), Bump(Add(a, b), key, n));
  }

  /** The loop `for key, n in items: total[key] = total.get(key, 0) + n`. */
  method AddInto<K(==,!new)>(total: map<K, nat>, items: map<K, nat>) returns (sum: map<K, nat>)
    ensures sum == Add(total, items)
  {
    sum := total;
    var left := items.Keys;
    while left != {}
      invariant left <= items.Keys
      invariant sum.Keys == total.Keys + (items.Keys - left)
      invariant forall k :: k in sum ==> sum[k] == if k in left then Get(total, k) else Get(total, k) + Get(items, k)
      decreases left
    {
      var key :| key in left;
      sum := Bump(sum, key, items[key]);
      left := left - {key};
    }
    SameCounts(sum, Add(total, items));
  }
}
