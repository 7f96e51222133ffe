/** The typed database: a tree of byte strings used as a map from keys to values
    through a serialization of both. */
module Db {
  import opened Common

  /** bincode for one pair of types. */
  datatype Codec<!K, !V> = Codec(encKey: K -> Bytes, decKey: Bytes -> K, encVal: V -> Bytes, decVal: Bytes -> V)

  /** What is serialized can be read back. */
  ghost predicate Lawful<K(!new), V(!new)>(c: Codec<K, V>) {
    && (forall k :: c.decKey(c.encKey(k)) == k)
    && (forall v :: c.decVal(c.encVal(v)) == v)
  }

  // ---------- iteration order ----------

  /** The order of sled: byte strings compared lexicographically. */
  predicate BytesBefore(a: Bytes, b: Bytes) {
    if b == [] then false
    else if a == [] then true
    else a[0] < b[0] || (a[0] == b[0] && BytesBefore(a[1..], b[1..]))
  }

  lemma {:induction false} NotBeforeItself(a: Bytes)
    ensures !BytesBefore(a, a)
    decreases a
  {
    if a != [] {
      NotBeforeItself(a[1..]);
    }
  }

  lemma {:induction false} OneBefore(a: Bytes, b: Bytes)
    ensures a != b ==> BytesBefore(a, b) || BytesBefore(b, a)
    ensures BytesBefore(a, b) ==> !BytesBefore(b, a)
    decreases |a|
  {
    if a != [] && b != [] && a[0] == b[0] {
      OneBefore(a[1..], b[1..]);
      assert a == [a[0]] + a[1..] && b == [b[0]] + b[1..];
    }
  }

  /** A string as a key: its length and its bytes. */
  function TreeKey(name: Bytes): Bytes {
    ToLe(|name|, 8) + name
  }

  /** The order in which a tree with these keys is iterated. */
  ghost predicate TreeOrder(names: seq<Bytes>) {
    forall i, j :: 0 <= i < j < |names| ==> BytesBefore(TreeKey(names[i]), TreeKey(names[j]))
  }

  // ---------- the tree ----------

  class Tree<K(!new, ==), V(!new)> {
    const codec: Codec<K, V>
    var bytes: map<Bytes, Bytes>

    /** Every stored pair came from a key and a value. */
    ghost predicate Valid()
      reads this
    {
      && Lawful(codec)
      && forall b :: b in bytes ==>
           b == codec.encKey(codec.decKey(b)) && bytes[b] == codec.encVal(codec.decVal(bytes[b]))
    }

    /** The map the tree stands for. */
    function Lookup(key: K): Option<V>
      reads this
    {
      if codec.encKey(key) in bytes then Some(codec.decVal(bytes[codec.encKey(key)])) else None
    }

    /** The same as a finite map. */
    ghost function Contents(): (m: map<K, V>)
      requires Valid()
      reads this
      ensures forall k :: Lookup(k) == if k in m then Some(m[k]) else None
    {
      var m := map b | b in bytes :: codec.decKey(b) := codec.decVal(bytes[b]);
      assert forall k :: codec.encKey(k) in bytes ==> codec.decKey(codec.encKey(k)) in m;
      m
    }

    constructor (codec: Codec<K, V>)
      requires Lawful(codec)
      ensures Valid() && this.codec == codec
      ensures Contents() == map[]
    {
      this.codec := codec;
      bytes := map[];
    }

    method Get(key: K) returns (r: Option<V>)
      requires Valid()
      ensures r == Lookup(key)
      ensures r == if key in Contents() then Some(Contents()[key]) else None
    {
      var k := codec.encKey(key);
      r := if k in bytes then Some(codec.decVal(bytes[k])) else None;
    }

    /** A map update; the replaced value is returned. */
    method Insert(key: K, val: V) returns (r: Option<V>)
      requires Valid()
      modifies this`bytes
      ensures Valid()
      ensures r == old(Lookup(key))
      ensures Contents() == old(Contents())[key := val]
    {
      r := Get(key);
      Injective(key);
      bytes := bytes[codec.encKey(key) := codec.encVal(val)];
      assert forall k :: Lookup(k) == if k == key then Some(val) else old(Lookup(k));
      ContentsAre(old(Contents())[key := val]);
    }

    method Remove(key: K) returns (r: Option<V>)
      requires Valid()
      modifies this`bytes
      ensures Valid()
      ensures r == old(Lookup(key))
      ensures Contents() == old(Contents()) - {key}
    {
      r := Get(key);
      Injective(key);
      bytes := bytes - {codec.encKey(key)};
      assert forall k :: Lookup(k) == if k == key then None else old(Lookup(k));
      ContentsAre(old(Contents()) - {key});
    }

    method GetOrInsert(key: K, val: V) returns (r: V)
      requires Valid()
      modifies this`bytes
      ensures Valid()
      ensures r == if old(Lookup(key)).Some? then old(Lookup(key)).value else val
      ensures Contents() == old(Contents())[key := r]
    {
      var found := Get(key);
      if found.Some? {
        return found.value;
      }
      var ignored := Insert(key, val);
      r := val;
    }

    lemma ContentsAre(m: map<K, V>)
      requires Valid() && forall k :: Lookup(k) == if k in m then Some(m[k]) else None
      ensures Contents() == m
    {
      var c := Contents();
      assert forall k :: Lookup(k) == if k in c then Some(c[k]) else None;
      assert forall k :: k in c <==> k in m;
    }

    /** Distinct keys are stored under distinct byte strings. */
    lemma Injective(key: K)
      requires Valid()
      ensures forall k :: codec.encKey(k) == codec.encKey(key) ==> k == key
    {
      forall k | codec.encKey(k) == codec.encKey(key) ensures k == key {
        assert codec.decKey(codec.encKey(k)) == codec.decKey(codec.encKey(key));
      }
    }

    /** Iteration yields every pair of the map exactly once. */
    method Iter() returns (pairs: seq<(K, V)>)
      requires Valid()
      ensures forall i, j :: 0 <= i < j < |pairs| ==> pairs[i].0 != pairs[j].0
      ensures forall k, v :: (k, v) in pairs <==> k in Contents() && Contents()[k] == v
    {
      pairs := [];
      var left := bytes.Keys;
      while left != {}
        invariant left <= bytes.Keys
        invariant forall i, j :: 0 <= i < j < |pairs| ==> pairs[i].0 != pairs[j].0
        invariant forall k, v :: (k, v) in pairs <==> codec.encKey(k) !in left && Lookup(k) == Some(v)
        decreases left
      {
        var b :| b in left;
        var pair := (codec.decKey(b), codec.decVal(bytes[b]));
        Injective(pair.0);
        forall i | 0 <= i < |pairs| ensures pairs[i].0 != pair.0 {
          assert (pairs[i].0, pairs[i].1) in pairs;
        }
        pairs := pairs + [pair];
        left := left - {b};
      }
    }
  }
}
