/** Python's insertion-ordered `dict`, as a sequence of (key, value) entries. Style maps
    are turned into strings in this order, so the order is part of the model. */
module Dict {
  import opened Utils

  type Dict<K, V> = seq<(K, V)>

  function Keys<K, V>(d: Dict<K, V>): (ks: seq<K>)
    ensures |ks| == |d| && forall i {:trigger ks[i]} :: 0 <= i < |d| ==> ks[i] == d[i].0
  {
    if d == [] then [] else [d[0].0] + Keys(d[1..])
  }

  /** No key occurs twice: every dict the program builds has this shape. */
  predicate Distinct<K(==), V>(d: Dict<K, V>)
  {
    forall i, j :: 0 <= i < j < |d| ==> d[i].0 != d[j].0
  }

  predicate HasKey<K(==), V>(d: Dict<K, V>, k: K)
  {
    k in Keys(d)
  }

  /** `d.get(k)`. */
  function Get<K(==), V>(d: Dict<K, V>, k: K): (r: Option<V>)
    ensures r.None? <==> !HasKey(d, k)
    ensures r.Some? ==> (k, r.value) in d
  {
    if d == [] then None else if d[0].0 == k then Some(d[0].1) else Get(d[1..], k)
  }

  /** `d[k] = v`: an existing key keeps its place, a new key goes last. */
  function Set<K(==), V>(d: Dict<K, V>, k: K, v: V): (r: Dict<K, V>)
    ensures HasKey(d, k) ==> Keys(r) == Keys(d)
    ensures !HasKey(d, k) ==> Keys(r) == Keys(d) + [k]
  {
    if d == [] then [(k, v)]
    else if d[0].0 == k then [(k, v)] + d[1..]
    else [d[0]] + Set(d[1..], k, v)
  }

  /** `d.pop(k, None)`. */
  function Remove<K(==), V>(d: Dict<K, V>, k: K): (r: Dict<K, V>)
    ensures !HasKey(r, k)
    ensures |r| <= |d|
  {
    if d == [] then [] else if d[0].0 == k then Remove(d[1..], k) else [d[0]] + Remove(d[1..], k)
  }

  /** `d.update(e)`: the entries of `e` are set one by one, in order. */
  function Update<K(==), V>(d: Dict<K, V>, e: Dict<K, V>): Dict<K, V>
    decreases |e|
  {
    if e == [] then d else Update(Set(d, e[0].0, e[0].1), e[1..])
  }

  /** Every key of `d` except the listed ones, each `pop`ped in turn. */
  function RemoveAll<K(==), V>(d: Dict<K, V>, ks: seq<K>): (r: Dict<K, V>)
    decreases |ks|
  {
    if ks == [] then d else RemoveAll(Remove(d, ks[0]), ks[1..])
  }

  lemma {:induction false} GetSet<K, V>(d: Dict<K, V>, k: K, v: V, k': K)
    ensures Get(Set(d, k, v), k') == if k' == k then Some(v) else Get(d, k')
  {
    if d != [] && d[0].0 != k {
      GetSet(d[1..], k, v, k');
    }
  }

  lemma {:induction false} GetRemove<K, V>(d: Dict<K, V>, k: K, k': K)
    ensures Get(Remove(d, k), k') == if k' == k then None else Get(d, k')
  {
    if d != [] {
      GetRemove(d[1..], k, k');
    }
  }

  lemma {:induction false} SetDistinct<K, V>(d: Dict<K, V>, k: K, v: V)
    requires Distinct(d)
    ensures Distinct(Set(d, k, v))
  {
    if d != [] && d[0].0 != k {
      var t := Set(d[1..], k, v);
      SetDistinct(d[1..], k, v);
      var r := Set(d, k, v);
      assert r == [d[0]] + t;
      assert !HasKey(d[1..], d[0].0);
      assert !HasKey(t, d[0].0);
      forall i, j | 0 <= i < j < |r|
        ensures r[i].0 != r[j].0
      {
        if i == 0 {
          assert r[j] == t[j - 1];
          assert Keys(t)[j - 1] == r[j].0;
        } else {
          assert r[i] == t[i - 1] && r[j] == t[j - 1];
        }
      }
    }
  }

  lemma {:induction false} RemoveHasKey<K, V>(d: Dict<K, V>, k: K, x: K)
    ensures HasKey(Remove(d, k), x) <==> HasKey(d, x) && x != k
  {
    if d != [] {
      RemoveHasKey(d[1..], k, x);
      assert Keys(d) == [d[0].0] + Keys(d[1..]);
      if d[0].0 != k {
        assert Keys(Remove(d, k)) == [d[0].0] + Keys(Remove(d[1..], k));
      }
    }
  }

  lemma {:induction false} RemoveDistinct<K, V>(d: Dict<K, V>, k: K)
    requires Distinct(d)
    ensures Distinct(Remove(d, k))
  {
    if d != [] {
      RemoveDistinct(d[1..], k);
      if d[0].0 != k {
        var r := Remove(d, k);
        var t := Remove(d[1..], k);
        assert r == [d[0]] + t;
        assert !HasKey(d[1..], d[0].0);
        RemoveHasKey(d[1..], k, d[0].0);
        forall j | 0 < j < |r|
          ensures r[0].0 != r[j].0
        {
          assert r[j] == t[j - 1];
          assert Keys(t)[j - 1] == r[j].0;
        }
      }
    }
  }

  /** After `d.update(e)`, a key of `e` holds `e`'s value and every other key keeps `d`'s. */
  lemma {:induction false} GetUpdate<K, V>(d: Dict<K, V>, e: Dict<K, V>, k: K)
    requires Distinct(e)
    ensures Get(Update(d, e), k) == if HasKey(e, k) then Get(e, k) else Get(d, k)
    decreases |e|
  {
    if e != [] {
      assert Distinct(e[1..]);
      GetUpdate(Set(d, e[0].0, e[0].1), e[1..], k);
      GetSet(d, e[0].0, e[0].1, k);
      if k == e[0].0 {
        assert !HasKey(e[1..], k);
      }
      assert Keys(e) == [e[0].0] + Keys(e[1..]);
    }
  }

  lemma {:induction false} UpdateDistinct<K, V>(d: Dict<K, V>, e: Dict<K, V>)
    requires Distinct(d)
    ensures Distinct(Update(d, e))
    decreases |e|
  {
    if e != [] {
      SetDistinct(d, e[0].0, e[0].1);
      UpdateDistinct(Set(d, e[0].0, e[0].1), e[1..]);
    }
  }

  /** A key listed for removal is gone; any other key keeps its value. */
  lemma {:induction false} GetRemoveAll<K, V>(d: Dict<K, V>, ks: seq<K>, k: K)
    ensures Get(RemoveAll(d, ks), k) == if k in ks then None else Get(d, k)
    decreases |ks|
  {
    if ks != [] {
      GetRemoveAll(Remove(d, ks[0]), ks[1..], k);
      GetRemove(d, ks[0], k);
    }
  }

  lemma {:induction false} RemoveAllDistinct<K, V>(d: Dict<K, V>, ks: seq<K>)
    requires Distinct(d)
    ensures Distinct(RemoveAll(d, ks))
    decreases |ks|
  {
    if ks != [] {
      RemoveDistinct(d, ks[0]);
      RemoveAllDistinct(Remove(d, ks[0]), ks[1..]);
    }
  }

  /** A key of the first part of a concatenation is found there, any other one in the second. */
  lemma {:induction false} GetConcat<K, V>(a: Dict<K, V>, b: Dict<K, V>, k: K)
    ensures Get(a + b, k) == if Get(a, k).Some? then Get(a, k) else Get(b, k)
  {
    if a == [] {
      assert a + b == b;
    } else {
      assert (a + b)[0] == a[0];
      if a[0].0 != k {
        GetConcat(a[1..], b, k);
        assert (a + b)[1..] == a[1..] + b;
      }
    }
  }

  /** Setting a key the dict does not hold appends the entry. */
  lemma {:induction false} SetAbsent<K, V>(d: Dict<K, V>, k: K, v: V)
    requires !HasKey(d, k)
    ensures Set(d, k, v) == d + [(k, v)]
  {
    if d != [] {
      assert Keys(d) == [d[0].0] + Keys(d[1..]);
      SetAbsent(d[1..], k, v);
      assert [d[0]] + (d[1..] + [(k, v)]) == d + [(k, v)];
    }
  }

}
