/** `flatten` and `unflatten`: a document as one object from JSON Pointer texts to primitive values. */
module Flatten {
  import opened Results
  import opened Escaping
  import opened Pointer
  import opened Ordering
  import opened Documents

  predicate IsEmptyContainer(j: Json) {
    (j.Array? && j.elems == []) || (j.Object? && j.members == map[])
  }

  /** The values that end a path of the flattened document. */
  predicate IsLeaf(j: Json) {
    IsPrimitive(j) || IsEmptyContainer(j)
  }

  /** An empty container is written as null. */
  function Flat(leaf: Json): Json {
    if IsPrimitive(leaf) then leaf else Null
  }

  // ---------- flatten ----------

  function FlattenInto(path: string, value: Json, result: map<string, Json>): map<string, Json>
    decreases value, 1, 0
  {
    if IsLeaf(value) then result[path := Flat(value)]
    else if value.Array? then FlattenElements(path, value, 0, result)
    else FlattenMembers(path, value, SortedKeys(value.members.Keys), result)
  }

  function FlattenElements(path: string, value: Json, i: nat, result: map<string, Json>): map<string, Json>
    requires value.Array?
    decreases value, 0, |value.elems| - i
  {
    if i >= |value.elems| then result
    else FlattenElements(path, value, i + 1, FlattenInto(path + "/" + Digits(i), value.elems[i], result))
  }

  function FlattenMembers(path: string, value: Json, keys: seq<string>, result: map<string, Json>): map<string, Json>
    requires value.Object? && forall k :: k in keys ==> k in value.members
    decreases value, 0, |keys|
  {
    if keys == [] then result
    else FlattenMembers(path, value, keys[1..],
      FlattenInto(path + "/" + Escape(keys[0]), value.members[keys[0]], result))
  }

  method FlattenValue(path: string, value: Json, before: map<string, Json>) returns (result: map<string, Json>)
    ensures result == FlattenInto(path, value, before)
    decreases value
  {
    if IsLeaf(value) {
      return before[path := Flat(value)];
    }
    result := before;
    if value.Array? {
      var i := 0;
      while i < |value.elems|
        invariant i <= |value.elems|
        invariant FlattenElements(path, value, 0, before) == FlattenElements(path, value, i, result)
      {
        result := FlattenValue(path + "/" + Digits(i), value.elems[i], result);
        i := i + 1;
      }
    } else {
      var keys := SortedKeys(value.members.Keys);
      var i := 0;
      assert keys[0..] == keys;
      while i < |keys|
        invariant i <= |keys|
        invariant FlattenMembers(path, value, keys, before) == FlattenMembers(path, value, keys[i..], result)
      {
        assert keys[i..][0] == keys[i] && keys[i..][1..] == keys[i + 1..];
        var token := EscapeInPlace(keys[i]);
        result := FlattenValue(path + "/" + token, value.members[keys[i]], result);
        i := i + 1;
      }
    }
  }

  // ---------- unflatten ----------

  /** `resize(n)`, which only ever grows here: new elements are null. */
  function Resized(es: seq<Json>, n: nat): seq<Json> {
    if |es| >= n then es else es + seq(n - |es|, _ => Null)
  }

  /**
   * Assignment of `v` to the location `get_and_create` makes: null becomes an array for the token "0", an object
   * otherwise.
   */
  function CreateAt(j: Json, ts: seq<string>, v: Json): Result<Json>
    decreases |ts|
  {
    if ts == [] then Ok(v)
    else
      var t, rest := ts[0], ts[1..];
      match j
      case Null =>
        var c :- CreateAt(Null, rest, v);
        Ok(if t == "0" then Array([c]) else Object(map[t := c]))
      case Object(ms) =>
        var c :- CreateAt(if t in ms then ms[t] else Null, rest, v);
        Ok(Object(ms[t := c]))
      case Array(es) =>
        var i :- ArrayIndex(t);
        var grown := Resized(es, i + 1);
        var c :- CreateAt(grown[i], rest, v);
        Ok(Array(grown[i := c]))
      case _ => Err(UNFLATTEN_INVALID)
  }

  /** The entries in key order, each assigned to its location. */
  function CreateAll(j: Json, flat: map<string, Json>, keys: seq<string>): Result<Json>
    requires forall k :: k in keys ==> k in flat
    decreases |keys|
  {
    if keys == [] then Ok(j)
    else if !IsPrimitive(flat[keys[0]]) then Err(UNFLATTEN_NOT_PRIMITIVE)
    else
      var ts :- Parse(keys[0]);
      var next :- CreateAt(j, ts, flat[keys[0]]);
      CreateAll(next, flat, keys[1..])
  }

  function Unflattened(value: Json): Result<Json> {
    if value.Object? then CreateAll(Null, value.members, SortedKeys(value.members.Keys)) else Err(UNFLATTEN_NOT_OBJECT)
  }

  method Unflatten(value: Json) returns (r: Result<Json>)
    ensures r == Unflattened(value)
  {
    if !value.Object? {
      return Err(UNFLATTEN_NOT_OBJECT);
    }
    var keys := SortedKeys(value.members.Keys);
    var result := Null;
    var i := 0;
    assert keys[0..] == keys;
    while i < |keys|
      invariant i <= |keys|
      invariant Unflattened(value) == CreateAll(result, value.members, keys[i..])
    {
      var k := keys[i];
      assert keys[i..][0] == k && keys[i..][1..] == keys[i + 1..];
      if !IsPrimitive(value.members[k]) {
        return Err(UNFLATTEN_NOT_PRIMITIVE);
      }
      var ts := Split(k);
      if ts.Err? {
        return Err(ts.code);
      }
      var next := CreateAt(result, ts.value, value.members[k]);
      if next.Err? {
        return next;
      }
      result := next.value;
      i := i + 1;
    }
    return Ok(result);
  }
}
