/** Python dictionaries with string keys: insertion order kept, a repeated key updated in place. */
module Dicts {
  import opened Wrappers

  type Dict<+V> = seq<(string, V)>

  function Find<V>(d: Dict<V>, key: string): (at: Option<nat>)
    ensures at.Some? ==> at.value < |d| && d[at.value].0 == key
    ensures at.None? <==> forall i :: 0 <= i < |d| ==> d[i].0 != key
  {
    if d == [] then None
    else if d[0].0 == key then Some(0)
    else match Find(d[1..], key)
      case None => assert d == [d[0]] + d[1..]; None
      case Some(i) => Some(i + 1)
  }

  predicate Has<V>(d: Dict<V>, key: string) {
    Find(d, key).Some?
  }

  function Lookup<V>(d: Dict<V>, key: string, fallback: V): V {
    match Find(d, key)
    case None => fallback
    case Some(i) => d[i].1
  }

  function Put<V>(d: Dict<V>, key: string, value: V): (e: Dict<V>)
    ensures !Has(d, key) ==> e == d + [(key, value)]
  {
    match Find(d, key)
    case None => d + [(key, value)]
    case Some(i) => d[i := (key, value)]
  }

  function Update<V>(d: Dict<V>, e: Dict<V>): Dict<V>
    decreases |e|
  {
    if e == [] then d else Update(Put(d, e[0].0, e[0].1), e[1..])
  }

  ghost predicate Distinct<V>(d: Dict<V>) {
    forall i, j :: 0 <= i < j < |d| ==> d[i].0 != d[j].0
  }

  lemma {:induction false} UpdateAppends<V>(d: Dict<V>, e: Dict<V>)
    requires Distinct(d + e)
    ensures Update(d, e) == d + e
    decreases |e|
  {
    if e == [] {
      assert d + e == d;
    } else {
      forall i | 0 <= i < |d|
        ensures d[i].0 != e[0].0
      {
        assert (d + e)[i] == d[i] && (d + e)[|d|] == e[0];
      }
      assert d + e == (d + [e[0]]) + e[1..];
      UpdateAppends(d + [e[0]], e[1..]);
    }
  }

  lemma {:induction false} PutGet<V>(d: Dict<V>, key: string, value: V)
    ensures Has(Put(d, key, value), key)
    ensures forall fallback :: Lookup(Put(d, key, value), key, fallback) == value
  {
    var e := Put(d, key, value);
    match Find(d, key)
    case None =>
      assert e[|d|] == (key, value);
      FirstAt(e, key, |d|);
    case Some(i) =>
      FirstFound(d, key);
      assert e[i] == (key, value);
      FirstAt(e, key, i);
  }

  /** Find gives the first place. */
  lemma {:induction false} FirstFound<V>(d: Dict<V>, key: string)
    requires Find(d, key).Some?
    ensures forall j :: 0 <= j < Find(d, key).value ==> d[j].0 != key
  {
    if d[0].0 != key {
      FirstFound(d[1..], key);
      forall j | 0 <= j < Find(d, key).value
        ensures d[j].0 != key
      {
        assert j > 0 ==> d[j] == d[1..][j - 1];
      }
    }
  }

  lemma {:induction false} FirstAt<V>(d: Dict<V>, key: string, i: nat)
    requires i < |d| && d[i].0 == key && forall j :: 0 <= j < i ==> d[j].0 != key
    ensures Find(d, key) == Some(i)
  {
    if i > 0 {
      assert d[1..][i - 1] == d[i];
      FirstAt(d[1..], key, i - 1);
    }
  }

  /** The value found under a key, if any. */
  function At<V>(d: Dict<V>, key: string): Option<V> {
    match Find(d, key)
    case None => None
    case Some(i) => Some(d[i].1)
  }

  lemma {:induction false} AtAppend<V>(d: Dict<V>, key: string, value: V, other: string)
    requires other != key
    ensures At(d + [(key, value)], other) == At(d, other)
  {
    if d != [] {
      assert (d + [(key, value)])[1..] == d[1..] + [(key, value)];
      AtAppend(d[1..], key, value, other);
    }
  }

  lemma {:induction false} AtReplace<V>(d: Dict<V>, i: nat, value: V, other: string)
    requires i < |d| && d[i].0 != other
    ensures At(d[i := (d[i].0, value)], other) == At(d, other)
  {
    if i == 0 {
      assert d[0 := (d[0].0, value)][1..] == d[1..];
    } else {
      assert d[i := (d[i].0, value)][1..] == d[1..][i - 1 := (d[1..][i - 1].0, value)];
      AtReplace(d[1..], i - 1, value, other);
    }
  }

  lemma PutAt<V>(d: Dict<V>, key: string, value: V, other: string)
    ensures At(Put(d, key, value), other) == if other == key then Some(value) else At(d, other)
  {
    if other == key {
      PutGet(d, key, value);
      assert Lookup(Put(d, key, value), key, value) == value;
    } else {
      match Find(d, key)
      case None => AtAppend(d, key, value, other);
      case Some(i) => AtReplace(d, i, value, other);
    }
  }

  lemma PutDistinct<V>(d: Dict<V>, key: string, value: V)
    requires Distinct(d)
    ensures Distinct(Put(d, key, value))
  {
  }

  /** The same keys in the same places; only what Find finds may differ. */
  ghost predicate SameShape<V>(d: Dict<V>, e: Dict<V>) {
    && |d| == |e|
    && forall i :: 0 <= i < |d| ==> d[i].0 == e[i].0 && (d[i] == e[i] || Find(d, d[i].0) == Some(i))
  }

  lemma {:induction false} SameKeysFind<V>(d: Dict<V>, e: Dict<V>, key: string)
    requires |d| == |e| && forall i :: 0 <= i < |d| ==> d[i].0 == e[i].0
    ensures Find(d, key) == Find(e, key)
  {
    if d != [] {
      forall i | 0 <= i < |d| - 1
        ensures d[1..][i].0 == e[1..][i].0
      {
        assert d[i + 1].0 == e[i + 1].0;
      }
      SameKeysFind(d[1..], e[1..], key);
    }
  }

  lemma PutKeepsShape<V>(d: Dict<V>, key: string, value: V)
    requires Has(d, key)
    ensures SameShape(d, Put(d, key, value))
  {
  }

  lemma ShapeTransitive<V>(a: Dict<V>, b: Dict<V>, c: Dict<V>)
    requires SameShape(a, b) && SameShape(b, c)
    ensures SameShape(a, c)
  {
    forall i | 0 <= i < |a|
      ensures a[i].0 == c[i].0 && (a[i] == c[i] || Find(a, a[i].0) == Some(i))
    {
      SameKeysFind(a, b, a[i].0);
    }
  }

  lemma ShapeHas<V>(d: Dict<V>, e: Dict<V>, key: string)
    requires SameShape(d, e)
    ensures Has(d, key) == Has(e, key)
  {
    SameKeysFind(d, e, key);
  }

  /** Two of one shape in which every key finds the same are the same. */
  lemma SameShapeSame<V>(d: Dict<V>, e: Dict<V>)
    requires SameShape(d, e) && forall key :: At(d, key) == At(e, key)
    ensures d == e
  {
    forall i | 0 <= i < |d|
      ensures d[i] == e[i]
    {
      SameKeysFind(d, e, d[i].0);
      assert At(d, d[i].0) == At(e, d[i].0);
    }
  }

  lemma HasAt<V>(d: Dict<V>, key: string)
    ensures Has(d, key) <==> At(d, key).Some?
  {
  }
}
