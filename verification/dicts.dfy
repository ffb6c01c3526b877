/** Python dictionaries: a finite map together with the insertion order of
    its keys, which is the order `for k in d` visits them. */
module Dicts {

  datatype Dict<K(==), V> = Dict(keys: seq<K>, entries: map<K, V>) {

    /** Each key is listed once, and exactly the mapped keys are listed. */
    predicate Valid() {
      && (forall i, j :: 0 <= i < j < |keys| ==> keys[i] != keys[j])
      && (set k | k in keys) == entries.Keys
    }

    /** `d[k] = v`: a new key goes to the end of the order, an existing key
        keeps its place. */
    function Put(k: K, v: V): (d: Dict<K, V>)
      requires Valid()
      ensures d.Valid()
      ensures d.entries == entries[k := v]
      ensures k in entries ==> d.keys == keys
      ensures k !in entries ==> d.keys == keys + [k]
    {
      if k in entries then Dict(keys, entries[k := v])
      else Dict(keys + [k], entries[k := v])
    }

    /** The dictionary without its most recently inserted key. */
    function DropLast(): (d: Dict<K, V>)
      requires Valid() && |keys| > 0
      ensures d.Valid()
      ensures d.keys == keys[..|keys| - 1]
      ensures d.entries == entries - {keys[|keys| - 1]}
    {
      var k := keys[|keys| - 1];
      var front := Dict(keys[..|keys| - 1], entries - {k});
      assert forall x :: x in front.keys ==> x in keys && x != k;
      assert forall x :: x in keys && x != k ==> x in front.keys by {
        forall x | x in keys && x != k ensures x in front.keys {
          var i :| 0 <= i < |keys| && keys[i] == x;
          assert i < |keys| - 1;
        }
      }
      front
    }

    /** `d.update(other)`: every entry of `other`, in its order. */
    function Update(other: Dict<K, V>): (d: Dict<K, V>)
      requires Valid() && other.Valid()
      ensures d.Valid()
      ensures d.entries.Keys == entries.Keys + other.entries.Keys
      ensures forall k :: k in other.entries ==> d.entries[k] == other.entries[k]
      ensures forall k :: k in entries && k !in other.entries ==> d.entries[k] == entries[k]
      decreases |other.keys|
    {
      if |other.keys| == 0 then this
      else
        var k := other.keys[|other.keys| - 1];
        var front := other.DropLast();
        Update(front).Put(k, other.entries[k])
    }
  }

  /** No element is listed twice. */
  ghost predicate Distinct<T>(s: seq<T>) {
    forall i, j :: 0 <= i < j < |s| ==> s[i] != s[j]
  }

  /** A sequence without repeats has as many elements as it lists. */
  lemma {:induction false} DistinctSize<T>(s: seq<T>)
    requires Distinct(s)
    ensures |set x | x in s| == |s|
    decreases |s|
  {
    if |s| > 0 {
      var rest := s[1..];
      assert Distinct(rest);
      DistinctSize(rest);
      assert (set x | x in s) == (set x | x in rest) + {s[0]} by {
        assert forall x :: x in s <==> x == s[0] || x in rest;
      }
      assert s[0] !in rest;
    }
  }

  function Empty<K(==), V>(): (d: Dict<K, V>)
    ensures d.Valid() && d.entries == map[] && d.keys == []
  {
    Dict([], map[])
  }

  // ----- key order after a run of writes -----

  /** The key order after writing each of `ks` in turn to a dictionary whose
      keys are `keys`: a key not yet present goes to the end, a present one
      stays where it is. */
  function KeysAfter<K(==)>(keys: seq<K>, ks: seq<K>): seq<K>
    decreases |ks|
  {
    if ks == [] then keys
    else KeysAfter(if ks[0] in keys then keys else keys + [ks[0]], ks[1..])
  }

  /** Writing keeps the earlier keys in front, adds exactly the written
      keys, and never lists a key twice. */
  lemma {:induction false} KeysAfterFacts<K>(keys: seq<K>, ks: seq<K>)
    ensures keys <= KeysAfter(keys, ks)
    ensures forall k :: k in KeysAfter(keys, ks) <==> k in keys || k in ks
    ensures Distinct(keys) ==> Distinct(KeysAfter(keys, ks))
    decreases |ks|
  {
    if ks != [] {
      var next := if ks[0] in keys then keys else keys + [ks[0]];
      KeysAfterFacts(next, ks[1..]);
      assert forall k :: k in ks <==> k == ks[0] || k in ks[1..] by {
        assert ks == [ks[0]] + ks[1..];
      }
      if Distinct(keys) && ks[0] !in keys {
        assert Distinct(next) by {
          forall i, j | 0 <= i < j < |next| ensures next[i] != next[j] {
            if j == |keys| {
              assert next[i] in keys;
            }
          }
        }
      }
    }
  }

  /** Two runs of writes are one run of both. */
  lemma {:induction false} KeysAfterConcat<K>(keys: seq<K>, a: seq<K>, b: seq<K>)
    ensures KeysAfter(KeysAfter(keys, a), b) == KeysAfter(keys, a + b)
    decreases |a|
  {
    if a != [] {
      assert (a + b)[0] == a[0] && (a + b)[1..] == a[1..] + b;
      KeysAfterConcat(if a[0] in keys then keys else keys + [a[0]], a[1..], b);
    } else {
      assert a + b == b;
    }
  }

  /** `Put` moves the key order as one write does. */
  lemma PutKeys<K, V>(d: Dict<K, V>, k: K, v: V)
    requires d.Valid()
    ensures d.Put(k, v).keys == KeysAfter(d.keys, [k])
  {
    assert k in d.entries <==> k in d.keys by {
      assert k in d.keys <==> k in (set x | x in d.keys);
    }
    assert [k][1..] == [];
  }
}
