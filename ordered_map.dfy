/**
 * Python dictionaries as the compiler uses them: iteration follows first insertion,
 * assigning to an existing key replaces its value where it stands, and `pop` drops
 * the key. A dictionary is its keys in insertion order beside the mapping itself.
 */
module OrderedMap {
  import opened Wrappers

  predicate NoDup<T(==)>(s: seq<T>) {
    forall i, j :: 0 <= i < j < |s| ==> s[i] != s[j]
  }

  datatype Dict<K, V> = Dict(keys: seq<K>, values: map<K, V>)

  /** Each key is listed once, and the listed keys are exactly the mapped ones. */
  ghost predicate WellFormed<K(!new), V>(d: Dict<K, V>) {
    NoDup(d.keys) && forall k :: k in d.values <==> k in d.keys
  }

  /** `{}` */
  function Empty<K, V>(): (r: Dict<K, V>)
    ensures r.keys == [] && r.values == map[]
  {
    Dict([], map[])
  }

  lemma EmptyWellFormed<K(!new), V>()
    ensures WellFormed(Empty<K, V>())
  {
  }

  /** `d.get(k)` */
  function Lookup<K, V>(d: Dict<K, V>, k: K): Option<V> {
    if k in d.values then Some(d.values[k]) else None
  }

  /** `k in d` */
  predicate HasKey<K, V>(d: Dict<K, V>, k: K) {
    k in d.values
  }

  /** The entries for the keys `ks` that `m` maps, in the order of `ks`. */
  function ItemsOf<K, V>(ks: seq<K>, m: map<K, V>): (r: seq<(K, V)>)
    ensures forall i :: 0 <= i < |r| ==> r[i].0 in m && m[r[i].0] == r[i].1
    ensures (forall i :: 0 <= i < |ks| ==> ks[i] in m) ==> |r| == |ks| && forall i :: 0 <= i < |r| ==> r[i].0 == ks[i]
    decreases |ks|
  {
    if ks == [] then []
    else
      var rest := ItemsOf(ks[1..], m);
      assert forall i :: 1 <= i < |ks| ==> ks[1..][i - 1] == ks[i];
      (if ks[0] in m then [(ks[0], m[ks[0]])] else []) + rest
  }

  /** `list(d.items())`: the entries in insertion order. */
  function Items<K, V>(d: Dict<K, V>): (r: seq<(K, V)>)
    ensures forall i :: 0 <= i < |r| ==> Lookup(d, r[i].0) == Some(r[i].1)
  {
    ItemsOf(d.keys, d.values)
  }

  /** A well-formed dictionary lists one entry per key, in key order. */
  lemma ItemsWellFormed<K(!new), V>(d: Dict<K, V>)
    requires WellFormed(d)
    ensures |Items(d)| == |d.keys| && forall i :: 0 <= i < |d.keys| ==> Items(d)[i].0 == d.keys[i]
  {
  }

  /** `d[k] = v`: a new key goes last, an existing one keeps its place. */
  function Put<K(!new), V>(d: Dict<K, V>, k: K, v: V): (r: Dict<K, V>)
    ensures Lookup(r, k) == Some(v)
    ensures forall k' :: k' != k ==> Lookup(r, k') == Lookup(d, k')
    ensures r.keys == if k in d.keys then d.keys else d.keys + [k]
  {
    Dict(if k in d.keys then d.keys else d.keys + [k], d.values[k := v])
  }

  lemma PutWellFormed<K(!new), V>(d: Dict<K, V>, k: K, v: V)
    requires WellFormed(d)
    ensures WellFormed(Put(d, k, v))
  {
    var keys := Put(d, k, v).keys;
    if k !in d.keys {
      assert forall i :: 0 <= i < |d.keys| ==> keys[i] == d.keys[i] && d.keys[i] != k;
    }
  }

  /** `s` without the element `x`, the rest in order. */
  function Without<T(==,!new)>(s: seq<T>, x: T): (r: seq<T>)
    ensures forall y :: y in r <==> y in s && y != x
    ensures x !in s ==> r == s
    decreases |s|
  {
    if s == [] then []
    else
      var rest := Without(s[1..], x);
      assert forall y :: y in s <==> y == s[0] || y in s[1..];
      if s[0] == x then rest else [s[0]] + rest
  }

  /** Dropping an element from a concatenation drops it from each part: the elements
      that stay keep their order. */
  lemma {:induction false} WithoutAppend<T(!new)>(a: seq<T>, b: seq<T>, x: T)
    ensures Without(a + b, x) == Without(a, x) + Without(b, x)
    decreases |a|
  {
    if a == [] {
      assert a + b == b;
    } else {
      assert (a + b)[0] == a[0] && (a + b)[1..] == a[1..] + b;
      WithoutAppend(a[1..], b, x);
    }
  }

  /** Dropping an element keeps the others distinct. */
  lemma {:induction false} WithoutNoDup<T(!new)>(s: seq<T>, x: T)
    requires NoDup(s)
    ensures NoDup(Without(s, x))
    decreases |s|
  {
    if s != [] {
      assert NoDup(s[1..]) by {
        forall i, j | 0 <= i < j < |s[1..]| ensures s[1..][i] != s[1..][j] {
          assert s[1..][i] == s[i + 1] && s[1..][j] == s[j + 1];
        }
      }
      WithoutNoDup(s[1..], x);
      if s[0] != x {
        var rest := Without(s[1..], x);
        assert s[0] !in s[1..];
        assert s[0] !in rest;
        var r := [s[0]] + rest;
        forall i, j | 0 <= i < j < |r| ensures r[i] != r[j] {
          if i > 0 {
            assert r[i] == rest[i - 1] && r[j] == rest[j - 1];
          } else {
            assert r[j] == rest[j - 1];
          }
        }
      }
    }
  }

  /** `d.pop(k, None)`, keeping only what is left of the dictionary. */
  function Remove<K(!new), V>(d: Dict<K, V>, k: K): (r: Dict<K, V>)
    ensures Lookup(r, k) == None
    ensures forall k' :: k' != k ==> Lookup(r, k') == Lookup(d, k')
    ensures r.keys == Without(d.keys, k)
  {
    Dict(Without(d.keys, k), d.values - {k})
  }

  lemma RemoveWellFormed<K(!new), V>(d: Dict<K, V>, k: K)
    requires WellFormed(d)
    ensures WellFormed(Remove(d, k))
  {
    WithoutNoDup(d.keys, k);
  }
}
