/** The decoded JSON document, as `json.loads` hands it to the rewriter: nested
    objects (Python dicts, which keep their keys in insertion order), arrays
    and scalars. Numbers are kept as their literal text; no arithmetic is done
    on them. */
module JsonDoc {
  import opened Outcome

  datatype Json =
    | JNull
    | JBool(b: bool)
    | JNumber(text: string)
    | JString(s: string)
    | JArray(items: seq<Json>)
    | JObject(fields: seq<Field>)

  datatype Field = Field(key: string, value: Json)

  /** The keys of an object, in order. */
  function Keys(fields: seq<Field>): (ks: seq<string>)
    ensures |ks| == |fields|
  {
    if fields == [] then [] else [fields[0].key] + Keys(fields[1..])
  }

  /** The key at each position is that field's key. */
  lemma {:induction false} KeysAt(fields: seq<Field>)
    ensures forall i :: 0 <= i < |fields| ==> Keys(fields)[i] == fields[i].key
  {
    if fields != [] {
      KeysAt(fields[1..]);
    }
  }

  /** The key order after assigning `key`: unchanged when the key is
      already there, the key appended at the end otherwise. */
  function WithKey(ks: seq<string>, key: string): seq<string> {
    if key in ks then ks else ks + [key]
  }

  /** A Python dict never holds a key twice. */
  predicate UniqueKeys(fields: seq<Field>) {
    forall i, j :: 0 <= i < j < |fields| ==> fields[i].key != fields[j].key
  }

  /** `d.get(key)`: the value stored under `key`, if any. */
  function Lookup(fields: seq<Field>, key: string): (r: Option<Json>)
    ensures r.Some? <==> key in Keys(fields)
    ensures r.Some? ==> Field(key, r.value) in fields
  {
    if fields == [] then None
    else if fields[0].key == key then Some(fields[0].value)
    else Lookup(fields[1..], key)
  }

  /** `d[key] = value`: a key already present keeps its place and gets the
      new value; a new key is appended at the end (`PutKeyOrder`). */
  function Put(fields: seq<Field>, key: string, value: Json): (r: seq<Field>)
    ensures Lookup(r, key) == Some(value)
    ensures forall k :: k != key ==> Lookup(r, k) == Lookup(fields, k)
  {
    if fields == [] then [Field(key, value)]
    else if fields[0].key == key then
      var r := [Field(key, value)] + fields[1..];
      assert r[1..] == fields[1..];
      r
    else
      var rest := Put(fields[1..], key, value);
      var r := [fields[0]] + rest;
      assert r[1..] == rest;
      r
  }

  /** The key order after `d[key] = value`: unchanged when the key was
      there, with the key appended at the end when it was not. */
  lemma {:induction false} PutKeyOrder(fields: seq<Field>, key: string, value: Json)
    ensures Keys(Put(fields, key, value)) == WithKey(Keys(fields), key)
  {
    if fields != [] {
      if fields[0].key == key {
        KeysCons(Field(key, value), fields[1..]);
      } else {
        PutKeyOrder(fields[1..], key, value);
        KeysCons(fields[0], Put(fields[1..], key, value));
      }
    }
  }

  /** The keys of a field in front of others. */
  lemma KeysCons(f: Field, fields: seq<Field>)
    ensures Keys([f] + fields) == [f.key] + Keys(fields)
  {
    assert ([f] + fields)[1..] == fields;
  }

  /** Assignment keeps a dict a dict: no key appears twice afterwards. */
  lemma {:induction false} PutKeepsKeysUnique(fields: seq<Field>, key: string, value: Json)
    requires UniqueKeys(fields)
    ensures UniqueKeys(Put(fields, key, value))
  {
    var r := Put(fields, key, value);
    PutKeyOrder(fields, key, value);
    KeysAt(fields);
    KeysAt(r);
    var ks, rs := Keys(fields), Keys(r);
    forall i, j | 0 <= i < j < |r| ensures r[i].key != r[j].key {
      if j < |fields| {
        assert rs[i] == ks[i] && rs[j] == ks[j];
      } else {
        assert key !in ks && rs[j] == key && rs[i] == ks[i];
      }
    }
  }
}
