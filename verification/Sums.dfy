/** Sums over finite sets. */
module Sums {

  ghost function Sum<K(!new)>(keys: set<K>, f: K -> int): int {
    if keys == {} then 0 else var k :| k in keys; f(k) + Sum(keys - {k}, f)
  }

  lemma {:induction false} SumRemove<K(!new)>(keys: set<K>, f: K -> int, k: K)
    requires k in keys
    ensures Sum(keys, f) == f(k) + Sum(keys - {k}, f)
    decreases |keys|
  {
    var pick :| pick in keys && Sum(keys, f) == f(pick) + Sum(keys - {pick}, f);
    if pick != k {
      SumRemove(keys - {pick}, f, k);
      SumRemove(keys - {k}, f, pick);
      assert keys - {pick} - {k} == keys - {k} - {pick};
    }
  }

  lemma SumInsert<K(!new)>(keys: set<K>, f: K -> int, k: K)
    requires k !in keys
    ensures Sum(keys + {k}, f) == f(k) + Sum(keys, f)
  {
    SumRemove(keys + {k}, f, k);
    assert keys + {k} - {k} == keys;
  }

  lemma {:induction false} SumSame<K(!new)>(keys: set<K>, f: K -> int, g: K -> int)
    requires forall k :: k in keys ==> f(k) == g(k)
    ensures Sum(keys, f) == Sum(keys, g)
    decreases |keys|
  {
    if keys != {} {
      var k :| k in keys;
      SumRemove(keys, f, k);
      SumRemove(keys, g, k);
      SumSame(keys - {k}, f, g);
    }
  }

  /** Changing the weight of one key. */
  lemma SumChange<K(!new)>(keys: set<K>, f: K -> int, g: K -> int, k: K)
    requires k in keys && forall j :: j in keys && j != k ==> f(j) == g(j)
    ensures Sum(keys, g) == Sum(keys, f) - f(k) + g(k)
  {
    SumRemove(keys, f, k);
    SumRemove(keys, g, k);
    SumSame(keys - {k}, f, g);
  }

  lemma {:induction false} SumPlus<K(!new)>(keys: set<K>, f: K -> int, g: K -> int, h: K -> int)
    requires forall k :: k in keys ==> h(k) == f(k) + g(k)
    ensures Sum(keys, h) == Sum(keys, f) + Sum(keys, g)
    decreases |keys|
  {
    if keys != {} {
      var k :| k in keys;
      SumRemove(keys, f, k);
      SumRemove(keys, g, k);
      SumRemove(keys, h, k);
      SumPlus(keys - {k}, f, g, h);
    }
  }

  /** Keys outside the smaller set weigh nothing. */
  lemma {:induction false} SumExtend<K(!new)>(small: set<K>, keys: set<K>, f: K -> int)
    requires small <= keys && forall k :: k in keys - small ==> f(k) == 0
    ensures Sum(keys, f) == Sum(small, f)
    decreases |keys|
  {
    if keys - small != {} {
      var k :| k in keys - small;
      SumRemove(keys, f, k);
      SumExtend(small, keys - {k}, f);
    } else {
      assert small == keys;
    }
  }

  lemma {:induction false} SumNonNegative<K(!new)>(keys: set<K>, f: K -> int)
    requires forall k :: k in keys ==> f(k) >= 0
    ensures Sum(keys, f) >= 0
    ensures Sum(keys, f) == 0 <==> forall k :: k in keys ==> f(k) == 0
    decreases |keys|
  {
    if keys != {} {
      var k :| k in keys;
      SumRemove(keys, f, k);
      SumNonNegative(keys - {k}, f);
    }
  }
}
