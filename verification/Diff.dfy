/** `diff`: a JSON Patch that turns one value into another. */
module Diff {
  import opened Escaping
  import opened Pointer
  import opened Ordering
  import opened Documents

  function ReplaceOperation(path: string, v: Json): Json {
    Object(map["op" := String("replace"), "path" := String(path), "value" := v])
  }

  function AddOperation(path: string, v: Json): Json {
    Object(map["op" := String("add"), "path" := String(path), "value" := v])
  }

  function RemoveOperation(path: string): Json {
    Object(map["op" := String("remove"), "path" := String(path)])
  }

  function KeyPath(path: string, key: string): string {
    path + "/" + Escape(key)
  }

  function IndexPath(path: string, i: nat): string {
    path + "/" + Digits(i)
  }

  function Min(a: nat, b: nat): nat {
    if a <= b then a else b
  }

  // ---------- The operations, in the order they are emitted ----------

  function Operations(source: Json, target: Json, path: string): seq<Json>
    decreases source, 1, 0
  {
    if source == target then []
    else if source.Array? && target.Array? then
      ElementOperations(source, target, path, 0)
      + Removals(path, |target.elems|, |source.elems|)
      + Appends(path, target.elems, Min(|source.elems|, |target.elems|))
    else if source.Object? && target.Object? then
      KeyOperations(source, target, path, SortedKeys(source.members.Keys))
      + Additions(source.members, target.members, path, SortedKeys(target.members.Keys))
    else [ReplaceOperation(path, target)]
  }

  /** The common elements from index `i` on. */
  function ElementOperations(source: Json, target: Json, path: string, i: nat): seq<Json>
    requires source.Array? && target.Array?
    decreases source, 0, |source.elems| - i
  {
    if i >= |source.elems| || i >= |target.elems| then []
    else
      Operations(source.elems[i], target.elems[i], IndexPath(path, i)) + ElementOperations(source, target, path, i + 1)
  }

  /** Remove the elements `low..high`, highest index first. */
  function Removals(path: string, low: nat, high: nat): seq<Json>
    decreases high
  {
    if high <= low then [] else [RemoveOperation(IndexPath(path, high - 1))] + Removals(path, low, high - 1)
  }

  /** Append the elements from index `i` on. */
  function Appends(path: string, elems: seq<Json>, i: nat): seq<Json>
    decreases |elems| - i
  {
    if i >= |elems| then [] else [AddOperation(path + "/-", elems[i])] + Appends(path, elems, i + 1)
  }

  /** The source's keys: recurse on the shared ones, remove the others. */
  function KeyOperations(source: Json, target: Json, path: string, keys: seq<string>): seq<Json>
    requires source.Object? && target.Object?
    requires forall k :: k in keys ==> k in source.members
    decreases source, 0, |keys|
  {
    if keys == [] then []
    else
      var k := keys[0];
      (if k in target.members
       then Operations(source.members[k], target.members[k], KeyPath(path, k))
       else [RemoveOperation(KeyPath(path, k))])
      + KeyOperations(source, target, path, keys[1..])
  }

  /** The target's keys: add those the source does not have. */
  function Additions(source: map<string, Json>, target: map<string, Json>, path: string, keys: seq<string>): seq<Json>
    requires forall k :: k in keys ==> k in target
  {
    if keys == [] then []
    else
      (if keys[0] in source then [] else [AddOperation(KeyPath(path, keys[0]), target[keys[0]])])
      + Additions(source, target, path, keys[1..])
  }

  // ---------- The program's loops ----------

  lemma RemovalsFirst(path: string, low: nat, high: nat)
    requires low <= high
    ensures Removals(path, low, high + 1) == [RemoveOperation(IndexPath(path, high))] + Removals(path, low, high)
  {
  }

  method DiffArrays(source: Json, target: Json, path: string) returns (result: seq<Json>)
    requires source.Array? && target.Array?
    ensures result == ElementOperations(source, target, path, 0)
                      + Removals(path, |target.elems|, |source.elems|)
                      + Appends(path, target.elems, Min(|source.elems|, |target.elems|))
    decreases source, 0
  {
    hide Operations, IndexPath;
    result := [];
    var i := 0;
    ghost var common := ElementOperations(source, target, path, 0);
    ghost var m := Min(|source.elems|, |target.elems|);
    while i < |source.elems| && i < |target.elems|
      invariant i <= m
      invariant common == result + ElementOperations(source, target, path, i)
    {
      var inner := DiffValues(source.elems[i], target.elems[i], IndexPath(path, i));
      ghost var rest := ElementOperations(source, target, path, i + 1);
      assert result + (inner + rest) == result + inner + rest;
      result := result + inner;
      i := i + 1;
    }
    assert result == common;
    var end := |result|;
    while i < |source.elems|
      invariant m <= i <= |source.elems| || i == m
      invariant |target.elems| >= |source.elems| ==> i == m && result == common
      invariant |target.elems| < |source.elems| ==>
        |target.elems| <= i && result == common + Removals(path, |target.elems|, i)
    {
      RemovalsFirst(path, |target.elems|, i);
      ghost var before := Removals(path, |target.elems|, i);
      assert result[..end] == common && result[end..] == before;
      result := result[..end] + [RemoveOperation(IndexPath(path, i))] + result[end..];
      i := i + 1;
    }
    ghost var kept := result;
    assert kept == common + Removals(path, |target.elems|, |source.elems|);
    while i < |target.elems|
      invariant m <= i
      invariant |target.elems| <= |source.elems| ==> i >= |target.elems| && result == kept
      invariant result + Appends(path, target.elems, i) == kept + Appends(path, target.elems, m)
    {
      ghost var rest := Appends(path, target.elems, i + 1);
      assert Appends(path, target.elems, i) == [AddOperation(path + "/-", target.elems[i])] + rest;
      assert result + ([AddOperation(path + "/-", target.elems[i])] + rest)
          == result + [AddOperation(path + "/-", target.elems[i])] + rest;
      result := result + [AddOperation(path + "/-", target.elems[i])];
      i := i + 1;
    }
    assert result == result + [];
  }

  method DiffObjects(source: Json, target: Json, path: string) returns (result: seq<Json>)
    requires source.Object? && target.Object?
    ensures result == KeyOperations(source, target, path, SortedKeys(source.members.Keys))
                      + Additions(source.members, target.members, path, SortedKeys(target.members.Keys))
    decreases source, 0, 1
  {
    hide *;
    var shared := DiffSourceKeys(source, target, path);
    var added := AddTargetKeys(source.members, target.members, path);
    result := shared + added;
  }

  method DiffSourceKeys(source: Json, target: Json, path: string) returns (result: seq<Json>)
    requires source.Object? && target.Object?
    ensures result == KeyOperations(source, target, path, SortedKeys(source.members.Keys))
    decreases source, 0, 0
  {
    hide Operations, KeyPath, SortedKeys;
    result := [];
    var keys := SortedKeys(source.members.Keys);
    var i := 0;
    while i < |keys|
      invariant i <= |keys|
      invariant KeyOperations(source, target, path, keys) == result + KeyOperations(source, target, path, keys[i..])
    {
      var k := keys[i];
      assert keys[i..][0] == k && keys[i..][1..] == keys[i + 1..];
      var inner;
      if k in target.members {
        inner := DiffValues(source.members[k], target.members[k], KeyPath(path, k));
      } else {
        inner := [RemoveOperation(KeyPath(path, k))];
      }
      ghost var rest := KeyOperations(source, target, path, keys[i + 1..]);
      assert result + (inner + rest) == result + inner + rest;
      result := result + inner;
      i := i + 1;
    }
    assert result == result + [];
  }

  lemma AdditionsNext(source: map<string, Json>, target: map<string, Json>, path: string, keys: seq<string>, i: nat)
    requires i <= |keys| && forall k :: k in keys ==> k in target
    ensures i == |keys| ==> Additions(source, target, path, keys[i..]) == []
    ensures i < |keys| ==>
      var first := if keys[i] in source then [] else [AddOperation(KeyPath(path, keys[i]), target[keys[i]])];
      Additions(source, target, path, keys[i..]) == first + Additions(source, target, path, keys[i + 1..])
  {
    hide KeyPath, AddOperation;
    if i < |keys| {
      assert keys[i..][0] == keys[i] && keys[i..][1..] == keys[i + 1..];
    }
  }

  method AddTargetKeys(source: map<string, Json>, target: map<string, Json>, path: string) returns (result: seq<Json>)
    ensures result == Additions(source, target, path, SortedKeys(target.Keys))
  {
    hide *;
    result := [];
    var keys := SortedKeys(target.Keys);
    var i := 0;
    assert keys[0..] == keys;
    while i < |keys|
      invariant i <= |keys|
      invariant Additions(source, target, path, keys) == result + Additions(source, target, path, keys[i..])
    {
      AdditionsNext(source, target, path, keys, i);
      var k := keys[i];
      if k !in source {
        ghost var rest := Additions(source, target, path, keys[i + 1..]);
        var addition := AddOperation(KeyPath(path, k), target[k]);
        assert result + ([addition] + rest) == (result + [addition]) + rest;
        result := result + [addition];
      }
      i := i + 1;
    }
    AdditionsNext(source, target, path, keys, i);
  }

  method DiffValues(source: Json, target: Json, path: string) returns (result: seq<Json>)
    ensures result == Operations(source, target, path)
    decreases source, 1
  {
    if source == target {
      return [];
    }
    if !SameType(source, target) {
      return [ReplaceOperation(path, target)];
    }
    match source {
      case Array(_) => result := DiffArrays(source, target, path);
      case Object(_) => result := DiffObjects(source, target, path);
      case _ => result := [ReplaceOperation(path, target)];
    }
  }
}
