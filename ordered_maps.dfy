/**
 * A Python dict: a finite map whose keys iterate in first-insertion order.
 * Assigning to a key that is present keeps its position; a new key goes last;
 * removing a key closes the gap.
 */
module OrderedMaps {
  import opened Wrappers

  datatype OrderedMap<K(==, !new), V> = OrderedMap(keys: seq<K>, items: map<K, V>) {

    /** The keys are distinct and are exactly the keys of the map. */
    ghost predicate Valid() {
      && Distinct(keys)
      && (forall k :: k in items <==> k in keys)
    }

    function Get(k: K): (r: Option<V>)
      ensures r.Some? <==> k in items
      ensures r.Some? ==> r.value == items[k]
    {
      if k in items then Some(items[k]) else None
    }

    /** `d[k] = v` */
    function Set(k: K, v: V): (r: OrderedMap<K, V>)
      requires Valid()
      ensures r.Valid()
      ensures r.items == items[k := v]
      ensures k in items ==> r.keys == keys
      ensures k !in items ==> r.keys == keys + [k]
    {
      if k in items then OrderedMap(keys, items[k := v]) else OrderedMap(keys + [k], items[k := v])
    }

    /** `d.pop(k, None)` */
    function Remove(k: K): (r: OrderedMap<K, V>)
      requires Valid()
      ensures r.Valid()
      ensures r.items == items - {k}
      ensures forall x :: x in r.keys <==> x in keys && x != k
    {
      WithoutDistinct(keys, k);
      OrderedMap(Without(keys, k), items - {k})
    }

    /** `list(d.values())`, in key order. */
    function Values(): (r: seq<V>)
      requires Valid()
      ensures |r| == |keys|
      ensures forall i | 0 <= i < |keys| :: r[i] == items[keys[i]]
    {
      seq(|keys|, i requires 0 <= i < |keys| => items[keys[i]])
    }
  }

  function Empty<K(==, !new), V>(): (r: OrderedMap<K, V>)
    ensures r.Valid() && r.items == map[]
  {
    OrderedMap([], map[])
  }

  /** `s` with every occurrence of `k` left out, the rest in order. */
  function Without<K(==, !new)>(s: seq<K>, k: K): (r: seq<K>)
    ensures forall x :: x in r <==> x in s && x != k
    ensures |r| <= |s|
  {
    if s == [] then []
    else if s[0] == k then Without(s[1..], k)
    else [s[0]] + Without(s[1..], k)
  }

  ghost predicate Distinct<K>(s: seq<K>) {
    forall i, j | 0 <= i < j < |s| :: s[i] != s[j]
  }

  lemma {:induction false} WithoutDistinct<K(!new)>(s: seq<K>, k: K)
    requires Distinct(s)
    ensures Distinct(Without(s, k))
  {
    if s != [] {
      assert Distinct(s[1..]) by {
        forall i, j | 0 <= i < j < |s[1..]| ensures s[1..][i] != s[1..][j] {
          assert s[1..][i] == s[i + 1] && s[1..][j] == s[j + 1];
        }
      }
      WithoutDistinct(s[1..], k);
      if s[0] != k {
        var r := Without(s, k);
        var t := Without(s[1..], k);
        assert r == [s[0]] + t;
        forall i, j | 0 <= i < j < |r| ensures r[i] != r[j] {
          assert r[j] == t[j - 1];
          if i == 0 {
            assert r[j] in s[1..];
            var m :| 0 <= m < |s[1..]| && s[1..][m] == r[j];
            assert s[m + 1] == r[j];
          } else {
            assert r[i] == t[i - 1];
          }
        }
      }
    }
  }

  /** Removing a key that is absent leaves the keys as they were. */
  lemma {:induction false} WithoutAbsent<K(!new)>(s: seq<K>, k: K)
    requires k !in s
    ensures Without(s, k) == s
  {
    if s != [] {
      WithoutAbsent(s[1..], k);
      assert s == [s[0]] + s[1..];
    }
  }

  /** Removing a key that occurs once closes its gap: the other keys keep their order. */
  lemma {:induction false} WithoutMiddle<K(!new)>(a: seq<K>, k: K, b: seq<K>)
    requires k !in a && k !in b
    ensures Without(a + [k] + b, k) == a + b
  {
    if a == [] {
      assert a + [k] + b == [k] + b;
      assert ([k] + b)[1..] == b;
      WithoutAbsent(b, k);
    } else {
      assert (a + [k] + b)[0] == a[0];
      assert (a + [k] + b)[1..] == a[1..] + [k] + b;
      WithoutMiddle(a[1..], k, b);
      assert a + b == [a[0]] + (a[1..] + b);
    }
  }

  /** `d.pop(k)` keeps the remaining keys in their order. */
  lemma RemoveKeepsOrder<K(!new), V>(m: OrderedMap<K, V>, k: K)
    requires m.Valid()
    ensures k !in m.items ==> m.Remove(k).keys == m.keys
    ensures forall i | 0 <= i < |m.keys| && m.keys[i] == k :: m.Remove(k).keys == m.keys[..i] + m.keys[i + 1..]
  {
    if k !in m.items {
      WithoutAbsent(m.keys, k);
    }
    forall i | 0 <= i < |m.keys| && m.keys[i] == k ensures m.Remove(k).keys == m.keys[..i] + m.keys[i + 1..] {
      assert m.keys == m.keys[..i] + [k] + m.keys[i + 1..];
      var front, back := m.keys[..i], m.keys[i + 1..];
      forall x | x in front ensures x != k {
        var j :| 0 <= j < i && front[j] == x;
      }
      forall x | x in back ensures x != k {
        var j :| 0 <= j < |back| && back[j] == x;
        assert m.keys[i + 1 + j] == x;
      }
      WithoutMiddle(front, k, back);
    }
  }
}
