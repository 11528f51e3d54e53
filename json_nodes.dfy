/** JSON trees as the request builder handles them.

    Eight of Jackson's node classes are represented by one algebraic datatype,
    a node kind per constructor (short, float, big-integer, big-decimal,
    binary, POJO and missing nodes are not), with the kind tests (`isNull`, `isLong`, `isInt`,
    `isTextual`) as predicates.  An object node keeps its fields in insertion
    order (Jackson backs `ObjectNode` by a `LinkedHashMap`), so its contents are
    a sequence of key/value pairs, and `ObjectNode.set` is `SetField`: it
    replaces the value of a key already present, in place, and appends a new
    key at the end.
 */
module JsonNodes {

  /** Java `int`. */
  newtype int32 = x: int | -0x8000_0000 <= x < 0x8000_0000

  /** Java `long`. */
  newtype int64 = x: int | -0x8000_0000_0000_0000 <= x < 0x8000_0000_0000_0000

  datatype Option<+T> = None | Some(value: T)

  /** The field list of an object node, in insertion order. */
  type Fields = seq<(string, Json)>

  datatype Json =
    | JNull
    | JBool(b: bool)
    | JInt(i: int32)             // IntNode
    | JLong(l: int64)            // LongNode
    | JDouble(d: real)           // DoubleNode; no floating-point arithmetic is modelled
    | JText(s: string)           // TextNode
    | JArray(items: seq<Json>)   // ArrayNode
    | JObject(fields: Fields)    // ObjectNode
  {
    predicate IsNull() { JNull? }
    predicate IsLong() { JLong? }
    predicate IsInt() { JInt? }
    predicate IsTextual() { JText? }

    /** Array and object nodes; every other kind is a Jackson `ValueNode`. */
    predicate IsContainer() { JArray? || JObject? }
  }

  /** Jackson's `ValueNode`: any node that is not a container. */
  type ValueNode = j: Json | !j.IsContainer() witness JNull

  /** The keys of an object node's fields. */
  function KeysOf(fields: Fields): set<string>
  {
    if fields == [] then {} else {fields[0].0} + KeysOf(fields[1..])
  }

  /** No key occurs twice, which is how `LinkedHashMap` keeps its entries. */
  predicate DistinctKeys(fields: Fields)
  {
    fields == [] || (fields[0].0 !in KeysOf(fields[1..]) && DistinctKeys(fields[1..]))
  }

  /** `ObjectNode.get`: the value stored under `key`, if any. */
  function Get(fields: Fields, key: string): (r: Option<Json>)
    ensures r.Some? <==> key in KeysOf(fields)
  {
    if fields == [] then None
    else if fields[0].0 == key then Some(fields[0].1)
    else Get(fields[1..], key)
  }

  /** `ObjectNode.set` (and `put`, which wraps its value in a node first):
      afterwards `key` maps to `value`, every other key is untouched, a key
      already present keeps its position and a new key goes last. */
  function SetField(fields: Fields, key: string, value: Json): (r: Fields)
    ensures KeysOf(r) == KeysOf(fields) + {key}
    ensures Get(r, key) == Some(value)
    ensures forall k :: k != key ==> Get(r, k) == Get(fields, k)
    ensures key !in KeysOf(fields) ==> r == fields + [(key, value)]
    ensures key in KeysOf(fields) ==> |r| == |fields|
    ensures DistinctKeys(fields) ==> DistinctKeys(r)
  {
    if fields == [] then [(key, value)]
    else if fields[0].0 == key then [(key, value)] + fields[1..]
    else [fields[0]] + SetField(fields[1..], key, value)
  }

  /** The key of every field is among the field list's keys. */
  lemma {:induction false} KeyAt(fields: Fields, j: nat)
    requires j < |fields|
    ensures fields[j].0 in KeysOf(fields)
  {
    if j > 0 {
      KeyAt(fields[1..], j - 1);
    }
  }

  /** Setting a key that is already present replaces its field where it
      stands: the position of every field, that key's included, is kept. */
  lemma {:induction false} SetFieldInPlace(fields: Fields, key: string, value: Json, i: nat)
    requires DistinctKeys(fields) && i < |fields| && fields[i].0 == key
    ensures SetField(fields, key, value) == fields[i := (key, value)]
  {
    if i == 0 {
      assert [(key, value)] + fields[1..] == fields[0 := (key, value)];
    } else {
      var tail := fields[1..];
      KeyAt(tail, i - 1);
      assert fields[0].0 != key;
      assert SetField(fields, key, value) == [fields[0]] + SetField(tail, key, value);
      SetFieldInPlace(tail, key, value, i - 1);
      assert fields[i := (key, value)] == [fields[0]] + tail[i - 1 := (key, value)];
    }
  }

  /** In a field list without repeated keys there is one field per key. */
  lemma {:induction false} DistinctKeysCount(fields: Fields)
    requires DistinctKeys(fields)
    ensures |KeysOf(fields)| == |fields|
  {
    if fields != [] {
      DistinctKeysCount(fields[1..]);
    }
  }

  /** The field list without `key`'s field.  The builder never removes a
      field; this is a proof device for `SameLookupsPermutation`. */
  function Remove(fields: Fields, key: string): (r: Fields)
    requires DistinctKeys(fields)
    ensures DistinctKeys(r) && KeysOf(r) == KeysOf(fields) - {key}
    ensures forall k :: k != key ==> Get(r, k) == Get(fields, k)
    ensures key !in KeysOf(fields) ==> r == fields
  {
    if fields == [] then []
    else if fields[0].0 == key then fields[1..]
    else [fields[0]] + Remove(fields[1..], key)
  }

  /** Removing a key takes exactly its one field out of the list. */
  lemma {:induction false} RemoveTakesOneField(fields: Fields, key: string)
    requires DistinctKeys(fields) && key in KeysOf(fields)
    ensures multiset(fields) == multiset(Remove(fields, key)) + multiset{(key, Get(fields, key).value)}
  {
    assert fields == [fields[0]] + fields[1..];
    if fields[0].0 != key {
      RemoveTakesOneField(fields[1..], key);
    }
  }

  /** Two field lists without repeated keys that answer every lookup alike
      hold the same fields, possibly in another order: insertion order is
      all that can tell two such object nodes apart. */
  lemma {:induction false} SameLookupsPermutation(a: Fields, b: Fields)
    requires DistinctKeys(a) && DistinctKeys(b)
    requires forall k :: Get(a, k) == Get(b, k)
    ensures multiset(a) == multiset(b)
  {
    if a == [] {
      if b != [] {
        assert Get(a, b[0].0) != Get(b, b[0].0);
      }
    } else {
      var key, value := a[0].0, a[0].1;
      var b' := Remove(b, key);
      assert Get(b, key) == Some(value);
      RemoveTakesOneField(b, key);
      forall k ensures Get(a[1..], k) == Get(b', k) {
        if k == key {
          assert key !in KeysOf(b');
        } else {
          assert Get(a, k) == Get(a[1..], k);
        }
      }
      SameLookupsPermutation(a[1..], b');
      assert a == [(key, value)] + a[1..];
    }
  }
}
