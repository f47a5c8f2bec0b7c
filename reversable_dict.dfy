/** smt_switch/util/reversabledict.py: a dictionary that also records the
    reverse mapping.  Two Python dicts are held by reference, and `rev`
    hands out a second object over the same two dicts, swapped, so writes
    through either object are seen by the other. */
module ReversableDict {
  import opened Wrappers

  /** Keys in order of first insertion, with every later pair overriding
      the value of its key: what a Python dict holds after the pairs are
      stored one after the other. */
  function Mapped<A(==,!new), B>(pairs: seq<(A, B)>): (m: map<A, B>)
    ensures forall a :: a in m <==> exists j :: 0 <= j < |pairs| && pairs[j].0 == a
  {
    if pairs == [] then map[]
    else
      var last := pairs[|pairs| - 1];
      var m := Mapped(pairs[..|pairs| - 1]);
      assert forall j :: 0 <= j < |pairs| - 1 ==> pairs[..|pairs| - 1][j] == pairs[j];
      m[last.0 := last.1]
  }

  /** The order in which a Python dict iterates the keys of `pairs`. */
  function Ordered<A(==,!new), B>(pairs: seq<(A, B)>): seq<A>
  {
    if pairs == [] then []
    else
      var prefix := Ordered(pairs[..|pairs| - 1]);
      if pairs[|pairs| - 1].0 in prefix then prefix else prefix + [pairs[|pairs| - 1].0]
  }

  /** Each pair with its key and value exchanged. */
  function Swapped<A, B>(pairs: seq<(A, B)>): (r: seq<(B, A)>)
    ensures |r| == |pairs| && forall i :: 0 <= i < |r| ==> r[i] == (pairs[i].1, pairs[i].0)
  {
    seq(|pairs|, i requires 0 <= i < |pairs| => (pairs[i].1, pairs[i].0))
  }

  /** The value of a key is the one of its last pair. */
  lemma {:induction false} MappedLastWins<A(!new), B>(pairs: seq<(A, B)>, j: nat)
    requires j < |pairs|
    requires forall i :: j < i < |pairs| ==> pairs[i].0 != pairs[j].0
    ensures pairs[j].0 in Mapped(pairs) && Mapped(pairs)[pairs[j].0] == pairs[j].1
    decreases |pairs|
  {
    if j < |pairs| - 1 {
      var prefix := pairs[..|pairs| - 1];
      assert prefix[j] == pairs[j];
      assert forall i :: j < i < |prefix| ==> prefix[i] == pairs[i];
      MappedLastWins(prefix, j);
    }
  }

  /** Overwriting a key keeps the stale reverse entry: after `d[k] = v1`
      and `d[k] = v2` the forward map has only `k: v2`, the reverse map
      both `v1: k` and `v2: k`. */
  lemma StaleReverseEntry<A(!new), B(!new)>(k: A, v1: B, v2: B)
    requires v1 != v2
    ensures Mapped([(k, v1), (k, v2)]) == map[k := v2]
    ensures Mapped(Swapped([(k, v1), (k, v2)])) == map[v1 := k, v2 := k]
  {
    assert [(k, v1), (k, v2)][..1] == [(k, v1)];
    assert [(k, v1)][..0] == [];
    var s := Swapped([(k, v1), (k, v2)]);
    assert s == [(v1, k), (v2, k)];
    assert s[..1] == [(v1, k)];
    assert [(v1, k)][..0] == [];
  }

  /** The keys of `Ordered` are those of `Mapped`, each once. */
  lemma {:induction false} OrderedKeys<A(!new), B>(pairs: seq<(A, B)>)
    ensures forall a :: a in Ordered(pairs) <==> a in Mapped(pairs)
    ensures Distinct(Ordered(pairs))
    decreases |pairs|
  {
    if pairs != [] {
      var prefix := pairs[..|pairs| - 1];
      OrderedKeys(prefix);
      assert forall j :: 0 <= j < |prefix| ==> prefix[j] == pairs[j];
    }
  }

  predicate Distinct<A(==)>(s: seq<A>) {
    forall i, j :: 0 <= i < j < |s| ==> s[i] != s[j]
  }

  /** `s` without `a`. */
  function Without<A(==,!new)>(s: seq<A>, a: A): (r: seq<A>)
    ensures forall x :: x in r <==> x in s && x != a
  {
    if s == [] then []
    else if s[0] == a then Without(s[1..], a)
    else [s[0]] + Without(s[1..], a)
  }

  /** Removing an element keeps a sequence free of duplicates. */
  lemma {:induction false} WithoutDistinct<A(!new)>(s: seq<A>, a: A)
    requires Distinct(s)
    ensures Distinct(Without(s, a))
    decreases |s|
  {
    if s != [] {
      assert Distinct(s[1..]);
      WithoutDistinct(s[1..], a);
      if s[0] != a {
        assert s[0] !in s[1..];
        assert s[0] !in Without(s[1..], a);
      }
    }
  }

  /** A duplicate-free sequence has as many elements as the set it lists. */
  lemma {:induction false} DistinctCard<A(!new)>(s: seq<A>, keys: set<A>)
    requires Distinct(s)
    requires forall x :: x in s <==> x in keys
    ensures |s| == |keys|
    decreases |s|
  {
    if s != [] {
      assert s[0] in keys;
      DistinctCard(s[1..], keys - {s[0]});
    } else {
      assert keys == {};
    }
  }

  /** A Python dict object: its entries and its iteration order. */
  class Dict<K(==,!new), V> {
    var m: map<K, V>
    var order: seq<K>

    ghost predicate Valid()
      reads this
    {
      Distinct(order) && forall k :: k in order <==> k in m
    }

    constructor ()
      ensures Valid() && m == map[] && order == []
    {
      m := map[];
      order := [];
    }

    /** `dict[k] = v`: a new key goes to the end of the order, an existing
        one keeps its place. */
    method Put(k: K, v: V)
      requires Valid()
      modifies this
      ensures Valid()
      ensures m == old(m)[k := v]
      ensures order == if k in old(m) then old(order) else old(order) + [k]
    {
      if k !in m {
        order := order + [k];
      }
      m := m[k := v];
    }

    /** `del dict[k]`. */
    method Remove(k: K)
      requires Valid() && k in m
      modifies this
      ensures Valid()
      ensures m == old(m) - {k}
      ensures order == Without(old(order), k)
    {
      WithoutDistinct(order, k);
      m := m - {k};
      order := Without(order, k);
    }
  }

  /** A `reversabledict`: `_d` is `fwd`, `_r` is `bwd`. */
  class ReversableDict<K(==,!new), V(==,!new)> {
    var fwd: Dict<K, V>
    var bwd: Dict<V, K>

    ghost predicate Valid()
      reads this, fwd, bwd
    {
      fwd as object != bwd as object && fwd.Valid() && bwd.Valid()
    }

    /** `reversabledict(d)`: the pairs of `d`, in its iteration order,
        stored one after the other with `__setitem__`. */
    constructor (items: seq<(K, V)>)
      ensures Valid() && fresh(fwd) && fresh(bwd)
      ensures fwd.m == Mapped(items) && fwd.order == Ordered(items)
      ensures bwd.m == Mapped(Swapped(items)) && bwd.order == Ordered(Swapped(items))
    {
      fwd := new Dict();
      bwd := new Dict();
      new;
      var i := 0;
      while i < |items|
        invariant 0 <= i <= |items|
        invariant Valid() && fresh(fwd) && fresh(bwd)
        invariant fwd.m == Mapped(items[..i]) && fwd.order == Ordered(items[..i])
        invariant bwd.m == Mapped(Swapped(items[..i])) && bwd.order == Ordered(Swapped(items[..i]))
      {
        assert items[..i + 1][..i] == items[..i];
        assert Swapped(items[..i + 1])[..i] == Swapped(items[..i]);
        SetItem(items[i].0, items[i].1);
        i := i + 1;
      }
      assert items[..i] == items;
    }

    /** `d[key]`: a missing key raises KeyError. */
    function Get(key: K): (r: Result<V>)
      reads this, fwd
      ensures r.Ok? <==> key in fwd.m
      ensures r.Ok? ==> r.value == fwd.m[key]
      ensures r.Err? ==> r.error == KeyError
    {
      if key in fwd.m then Ok(fwd.m[key]) else Err(KeyError)
    }

    /** `d[key] = value`: both directions are written, and nothing is
        removed from the reverse map, so a stale `old value: key` entry
        stays behind. */
    method SetItem(key: K, value: V)
      requires Valid()
      modifies fwd, bwd
      ensures Valid()
      ensures Get(key) == Ok(value) && value in bwd.m && bwd.m[value] == key
      ensures fwd.m == old(fwd.m)[key := value] && bwd.m == old(bwd.m)[value := key]
      ensures fwd.order == if key in old(fwd.m) then old(fwd.order) else old(fwd.order) + [key]
      ensures bwd.order == if value in old(bwd.m) then old(bwd.order) else old(bwd.order) + [value]
    {
      fwd.Put(key, value);
      bwd.Put(value, key);
    }

    /** `del d[key]`: only the forward entry goes; a missing key raises
        KeyError and changes nothing. */
    method DelItem(key: K) returns (r: Option<PyError>)
      requires Valid()
      modifies fwd
      ensures Valid()
      ensures key in old(fwd.m) ==> r.None? && fwd.m == old(fwd.m) - {key} && fwd.order == Without(old(fwd.order), key)
      ensures key !in old(fwd.m) ==> r == Some(KeyError) && fwd.m == old(fwd.m) && fwd.order == old(fwd.order)
      ensures bwd.m == old(bwd.m) && bwd.order == old(bwd.order)
    {
      if key !in fwd.m {
        return Some(KeyError);
      }
      fwd.Remove(key);
      r := None;
    }

    /** `d.rev`: a new object over the same two dicts, swapped. */
    method Rev() returns (rd: ReversableDict<V, K>)
      requires Valid()
      ensures fresh(rd) && rd.fwd == bwd && rd.bwd == fwd && rd.Valid()
    {
      rd := new ReversableDict([]);
      rd.fwd := bwd;
      rd.bwd := fwd;
    }

    /** `len(d)`: the forward entries only. */
    function Len(): (n: nat)
      requires Valid()
      reads this, fwd, bwd
      ensures n == |fwd.m.Keys|
      ensures n == |fwd.order|
    {
      DistinctCard(fwd.order, fwd.m.Keys);
      |fwd.order|
    }

    /** `iter(d)`: the forward keys, each once, in insertion order. */
    function Iter(): (keys: seq<K>)
      requires Valid()
      reads this, fwd, bwd
      ensures Distinct(keys)
      ensures forall k :: k in keys <==> k in fwd.m
    {
      fwd.order
    }
  }

  /** `d.rev.rev` reads and writes the original two dicts in their
      original roles. */
  method RevTwice<K(==,!new), V(==,!new)>(d: ReversableDict<K, V>) returns (rr: ReversableDict<K, V>)
    requires d.Valid()
    ensures rr.fwd == d.fwd && rr.bwd == d.bwd && rr.Valid()
  {
    var rd := d.Rev();
    rr := rd.Rev();
  }

  /** Writing `v: k` through `d.rev` is the same as writing `k: v` to `d`. */
  method WriteThroughRev<K(==,!new), V(==,!new)>(d: ReversableDict<K, V>, k: K, v: V)
    requires d.Valid()
    modifies d.fwd, d.bwd
    ensures d.Valid()
    ensures d.Get(k) == Ok(v)
    ensures d.fwd.m == old(d.fwd.m)[k := v] && d.bwd.m == old(d.bwd.m)[v := k]
  {
    var rd := d.Rev();
    rd.SetItem(v, k);
  }

  /** Deleting a key leaves its reverse entry: after `d[k] = v` and
      `del d[k]`, `d[k]` raises while `d.rev[v]` is still `k`. */
  method DeleteLeavesReverse<K(==,!new), V(==,!new)>(k: K, v: V) returns (forward: Result<V>, backward: Result<K>)
    ensures forward == Err(KeyError)
    ensures backward == Ok(k)
  {
    var d := new ReversableDict([]);
    d.SetItem(k, v);
    var _ := d.DelItem(k);
    forward := d.Get(k);
    var rd := d.Rev();
    backward := rd.Get(v);
  }
}
