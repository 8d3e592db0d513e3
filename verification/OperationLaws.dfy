/** What each operation of a JSON Patch does, as a patch of that one operation. */
module OperationLaws {
  import opened Results
  import opened Pointer
  import opened Documents
  import opened Patch
  import opened Diff
  import opened DiffCorrect

  /** An operation of the given kind, with a path that leads where the tokens say. */
  ghost predicate IsOperation(operation: Json, op: string, path: seq<string>) {
    && operation.Object? && StringMember(operation.members, "op") == Ok(op)
    && PointerMember(operation.members, "path") == Ok(path)
  }

  ghost predicate HasValue(operation: Json, v: Json) {
    operation.Object? && Member(operation.members, "value") == Ok(v)
  }

  ghost predicate HasFrom(operation: Json, from: seq<string>) {
    operation.Object? && PointerMember(operation.members, "from") == Ok(from)
  }

  lemma RunTwo(doc: Json, a: Json, b: Json)
    ensures Run(doc, [a, b]) == if Apply(doc, a).outcome.Err? then Apply(doc, a) else Apply(Apply(doc, a).doc, b)
  {
    hide Apply;
    RunConcat(doc, [a], [b]);
    RunSingle(doc, a);
    RunSingle(Apply(doc, a).doc, b);
    assert [a] + [b] == [a, b];
  }

  // ---------- move, copy ----------

  /** A move is a removal and then an addition of what was there. */
  lemma MoveIsRemoveThenAdd(doc: Json, operation: Json, from: seq<string>, path: seq<string>)
    requires IsOperation(operation, "move", path) && HasFrom(operation, from)
    ensures At(doc, from).Err? ==> Run(doc, [operation]) == Effect(doc, Err(At(doc, from).code))
    ensures forall v :: At(doc, from) == Ok(v) ==>
      Run(doc, [operation]) == Run(doc, [RemoveOperation(ToString(from)), AddOperation(ToString(path), v)])
  {
    RunSingle(doc, operation);
    if At(doc, from).Ok? {
      var v := At(doc, from).value;
      var removal, addition := RemoveOperation(ToString(from)), AddOperation(ToString(path), v);
      RunTwo(doc, removal, addition);
      ApplyRemove(doc, from);
      RunSingle(doc, removal);
      var removed := Apply(doc, removal).doc;
      ApplyAdd(removed, path, v);
      RunSingle(removed, addition);
      hide Run, At, AddAt, RemoveAt;
    }
  }

  /** A copy is an addition of what is there. */
  lemma CopyIsAdd(doc: Json, operation: Json, from: seq<string>, path: seq<string>)
    requires IsOperation(operation, "copy", path) && HasFrom(operation, from)
    ensures At(doc, from).Err? ==> Run(doc, [operation]) == Effect(doc, Err(At(doc, from).code))
    ensures forall v :: At(doc, from) == Ok(v) ==>
      Run(doc, [operation]) == Run(doc, [AddOperation(ToString(path), v)])
  {
    RunSingle(doc, operation);
    if At(doc, from).Ok? {
      ApplyAdd(doc, path, At(doc, from).value);
    }
    hide Run, At, AddAt, RemoveAt;
  }

  // ---------- test, replace ----------

  /** A test passes if and only if the value is there, and changes nothing. */
  lemma TestIsComparison(doc: Json, operation: Json, path: seq<string>, v: Json)
    requires IsOperation(operation, "test", path) && HasValue(operation, v)
    ensures Run(doc, [operation]).outcome.Ok? <==> At(doc, path) == Ok(v)
    ensures Run(doc, [operation]).doc == doc
  {
    RunSingle(doc, operation);
    TestMeansEqual(doc, path, v);
    hide Run, At;
  }

  /** A replacement needs a value to replace; the new one is then there, and diverging locations are as before. */
  lemma ReplaceIsAssignment(doc: Json, operation: Json, path: seq<string>, v: Json)
    requires IsOperation(operation, "replace", path) && HasValue(operation, v)
    ensures At(doc, path).Err? ==> Run(doc, [operation]) == Effect(doc, Err(At(doc, path).code))
    ensures At(doc, path).Ok? ==> var e := Run(doc, [operation]);
      && e.outcome.Ok? && At(e.doc, path) == Ok(v)
      && Run(e.doc, [ReplaceOperation(ToString(path), At(doc, path).value)]).doc == doc
    ensures forall n, q :: 0 <= n < |path| && q != [] && q[0] != path[n] ==>
      At(Run(doc, [operation]).doc, path[..n] + q) == At(doc, path[..n] + q)
  {
    RunSingle(doc, operation);
    if At(doc, path).Ok? {
      AtPut(doc, path, v);
      ApplyReplace(Put(doc, path, v), path, At(doc, path).value);
      forall n, q | 0 <= n < |path| && q != [] && q[0] != path[n]
        ensures At(Put(doc, path, v), path[..n] + q) == At(doc, path[..n] + q)
      {
        assert path == path[..n] + path[n..];
        PutElsewhere(doc, path[..n], path[n..], q, v);
      }
    }
    hide Run, At, Put;
  }

  // ---------- add, remove ----------

  /** Where the parent can take in a value: null becomes an object, an array takes it at any index up to its end. */
  ghost predicate Takes(parent: Json, last: string) {
    || parent.Null? || parent.Object?
    || (parent.Array? && (last == "-" || (ArrayIndex(last).Ok? && ArrayIndex(last).value <= |parent.elems|)))
  }

  /** Where in an array the new element comes. */
  function IndexFor(es: seq<Json>, last: string): nat {
    if last == "-" then |es| else if ArrayIndex(last).Ok? then ArrayIndex(last).value else 0
  }

  lemma GrownExact(parent: Json, last: string, v: Json)
    ensures Grown(parent, last, v).Ok? <==> Takes(parent, last)
  {
    hide ArrayIndex;
  }

  lemma GrownMembers(parent: Json, last: string, v: Json, other: string)
    requires parent.Null? || parent.Object?
    ensures Grown(parent, last, v).Ok?
    ensures Child(Grown(parent, last, v).value, other) == if other == last then Ok(v)
      else if parent.Object? then Child(parent, other) else Err(KEY_NOT_FOUND)
  {
  }

  lemma GrownElements(es: seq<Json>, last: string, v: Json, j: nat)
    requires Takes(Array(es), last) && j <= |es| < SIZE_MAX
    ensures var i := IndexFor(es, last);
      Child(Grown(Array(es), last, v).value, Digits(j))
        == if j < i then Child(Array(es), Digits(j)) else if j == i then Ok(v) else Child(Array(es), Digits(j - 1))
  {
    hide Child, ArrayIndex, Digits;
    var grown := Grown(Array(es), last, v).value.elems;
    ElementAt(grown, j);
    ElementAt(es, j);
    if j > 0 {
      ElementAt(es, j - 1);
    }
  }

  lemma ElementAt(es: seq<Json>, j: nat)
    requires j < SIZE_MAX
    ensures Child(Array(es), Digits(j)) == if j < |es| then Ok(es[j]) else Err(INDEX_OUT_OF_RANGE)
  {
    ArrayIndexOfDigits(j);
    assert IsDigit(Digits(j)[0]);
    hide ArrayIndex, Digits;
  }

  /** An addition at the root replaces the document. */
  lemma AddAtRoot(doc: Json, operation: Json, v: Json)
    requires IsOperation(operation, "add", []) && HasValue(operation, v)
    ensures Run(doc, [operation]) == Effect(v, Ok(()))
  {
    RunSingle(doc, operation);
    hide Run;
  }

  lemma AddFails(doc: Json, init: seq<string>, last: string, v: Json)
    ensures AddAt(doc, init + [last], v).Ok? <==> At(doc, init).Ok? && Takes(At(doc, init).value, last)
  {
    hide At, Grown, Takes, Put;
    var ts := init + [last];
    assert ts[..|ts| - 1] == init && ts[|ts| - 1] == last;
    if At(doc, init).Ok? {
      ParentOf(doc, init, last);
      GrownExact(At(doc, init).value, last, v);
    } else {
      assert AddAt(doc, ts, v).Err?;
    }
  }

  lemma AddOutcome(doc: Json, operation: Json, init: seq<string>, last: string, v: Json)
    requires IsOperation(operation, "add", init + [last]) && HasValue(operation, v)
    ensures Run(doc, [operation]) == Finish(doc, AddAt(doc, init + [last], v))
  {
    RunSingle(doc, operation);
    hide Run, AddAt;
  }

  /** An addition succeeds exactly where the parent takes it in; otherwise the document stays. */
  lemma AddSucceeds(doc: Json, operation: Json, init: seq<string>, last: string, v: Json)
    requires IsOperation(operation, "add", init + [last]) && HasValue(operation, v)
    ensures Run(doc, [operation]).outcome.Ok? <==> At(doc, init).Ok? && Takes(At(doc, init).value, last)
    ensures Run(doc, [operation]).outcome.Err? ==> Run(doc, [operation]).doc == doc
  {
    AddOutcome(doc, operation, init, last, v);
    AddFails(doc, init, last, v);
    hide Run, AddAt, At, Takes;
  }

  /** In an object, or null, the member has the value; the other members are as before. */
  lemma AddToObject(doc: Json, operation: Json, init: seq<string>, last: string, v: Json, other: string)
    requires IsOperation(operation, "add", init + [last]) && HasValue(operation, v)
    requires At(doc, init).Ok? && (At(doc, init).value.Object? || At(doc, init).value.Null?)
    ensures At(Run(doc, [operation]).doc, init + [other])
      == if other == last then Ok(v)
         else if At(doc, init).value.Object? then At(doc, init + [other]) else Err(KEY_NOT_FOUND)
  {
    var parent := At(doc, init).value;
    AddOutcome(doc, operation, init, last, v);
    AddFails(doc, init, last, v);
    AddGrows(doc, init, last, v);
    GrownMembers(parent, last, v, other);
    hide *;
    ChildOfPlaced(doc, init, Grown(parent, last, v).value, other);
  }

  /** In an array the value is put in at the index: what was before it stays, the rest moves on by one. */
  lemma AddToArray(doc: Json, operation: Json, init: seq<string>, last: string, v: Json, j: nat)
    requires IsOperation(operation, "add", init + [last]) && HasValue(operation, v)
    requires At(doc, init).Ok? && At(doc, init).value.Array? && Takes(At(doc, init).value, last)
    requires j <= |At(doc, init).value.elems| < SIZE_MAX
    ensures var i := IndexFor(At(doc, init).value.elems, last);
      At(Run(doc, [operation]).doc, init + [Digits(j)]) == if j < i then At(doc, init + [Digits(j)])
        else if j == i then Ok(v) else At(doc, init + [Digits(j - 1)])
  {
    var es := At(doc, init).value.elems;
    AddOutcome(doc, operation, init, last, v);
    AddFails(doc, init, last, v);
    AddGrows(doc, init, last, v);
    GrownElements(es, last, v, j);
    hide *;
    ChildOfPlaced(doc, init, Grown(Array(es), last, v).value, Digits(j));
    if j > 0 {
      ChildOfPlaced(doc, init, Grown(Array(es), last, v).value, Digits(j - 1));
    }
  }

  /** A child of what was put at a place, and of what was there. */
  lemma ChildOfPlaced(doc: Json, init: seq<string>, v: Json, other: string)
    requires At(doc, init).Ok?
    ensures At(Put(doc, init, v), init + [other]) == Child(v, other)
    ensures At(doc, init + [other]) == Child(At(doc, init).value, other)
  {
    AtPut(doc, init, v);
    AtConcat(Put(doc, init, v), init, [other]);
    AtConcat(doc, init, [other]);
    AtOne(v, other);
    AtOne(At(doc, init).value, other);
  }

  lemma ShrunkChildren(parent: Json, last: string)
    requires Child(parent, last).Ok?
    ensures Shrunk(parent, last).Ok? && !IsPrimitive(parent)
    ensures forall other :: parent.Object? ==>
      Child(Shrunk(parent, last).value, other) == if other == last then Err(KEY_NOT_FOUND) else Child(parent, other)
  {
  }

  lemma ShrunkElements(es: seq<Json>, last: string, j: nat)
    requires Child(Array(es), last).Ok? && |es| < SIZE_MAX && j < |es|
    ensures Shrunk(Array(es), last).Ok? && ArrayIndex(last).Ok?
    ensures Child(Shrunk(Array(es), last).value, Digits(j))
      == if j < ArrayIndex(last).value then Child(Array(es), Digits(j))
         else if j + 1 < |es| then Child(Array(es), Digits(j + 1)) else Err(INDEX_OUT_OF_RANGE)
  {
    assert ArrayIndex(last).Ok? && ArrayIndex(last).value < |es|;
    hide Child, ArrayIndex, Digits;
    var shrunk := Shrunk(Array(es), last).value.elems;
    ElementAt(shrunk, j);
    ElementAt(es, j);
    ElementAt(es, j + 1);
  }

  lemma RemoveOutcome(doc: Json, operation: Json, init: seq<string>, last: string)
    requires IsOperation(operation, "remove", init + [last])
    ensures Run(doc, [operation]) == Finish(doc, RemoveAt(doc, init + [last]))
  {
    RunSingle(doc, operation);
    hide Run, RemoveAt;
  }

  /** What is there can be removed; an object then lacks just that member. */
  lemma RemoveFromObject(doc: Json, operation: Json, init: seq<string>, last: string, other: string)
    requires IsOperation(operation, "remove", init + [last])
    requires At(doc, init).Ok? && At(doc, init).value.Object? && At(doc, init + [last]).Ok?
    ensures Run(doc, [operation]).outcome.Ok?
    ensures At(Run(doc, [operation]).doc, init + [other])
      == if other == last then Err(KEY_NOT_FOUND) else At(doc, init + [other])
  {
    var parent := At(doc, init).value;
    RemoveOutcome(doc, operation, init, last);
    RemoveShrinks(doc, init, last);
    ChildOfPlaced(doc, init, parent, last);
    ShrunkChildren(parent, last);
    hide *;
    ChildOfPlaced(doc, init, Shrunk(parent, last).value, other);
  }

  /** In an array the elements after it move up by one. */
  lemma RemoveFromArray(doc: Json, operation: Json, init: seq<string>, last: string, j: nat)
    requires IsOperation(operation, "remove", init + [last])
    requires At(doc, init).Ok? && At(doc, init).value.Array? && At(doc, init + [last]).Ok?
    requires j < |At(doc, init).value.elems| < SIZE_MAX
    ensures Run(doc, [operation]).outcome.Ok? && ArrayIndex(last).Ok?
    ensures At(Run(doc, [operation]).doc, init + [Digits(j)])
      == if j < ArrayIndex(last).value then At(doc, init + [Digits(j)])
         else if j + 1 < |At(doc, init).value.elems| then At(doc, init + [Digits(j + 1)]) else Err(INDEX_OUT_OF_RANGE)
  {
    var es := At(doc, init).value.elems;
    RemoveOutcome(doc, operation, init, last);
    RemoveShrinks(doc, init, last);
    ChildOfPlaced(doc, init, Array(es), last);
    ShrunkElements(es, last, j);
    hide *;
    ChildOfPlaced(doc, init, Shrunk(Array(es), last).value, Digits(j));
    ChildOfPlaced(doc, init, Shrunk(Array(es), last).value, Digits(j + 1));
  }

  /** Removing a missing location is refused, unless its parent is a primitive value. */
  lemma RemoveFails(doc: Json, operation: Json, path: seq<string>)
    requires IsOperation(operation, "remove", path) && At(doc, path).Err?
    requires path != [] ==> At(doc, path[..|path| - 1]).Err? || !IsPrimitive(At(doc, path[..|path| - 1]).value)
    ensures Run(doc, [operation]).outcome.Err? && Run(doc, [operation]).doc == doc
  {
    var init, last := path[..|path| - 1], path[|path| - 1];
    assert path == init + [last];
    RemoveOutcome(doc, operation, init, last);
    RemoveMissing(doc, init, last);
    hide Run, RemoveAt, At;
  }

  lemma RemoveRoot(doc: Json, operation: Json)
    requires IsOperation(operation, "remove", [])
    ensures Run(doc, [operation]) == Effect(doc, Err(POINTER_NO_PARENT))
  {
    RunSingle(doc, operation);
    hide Run;
  }

  // ---------- Malformed operations ----------

  /** An operation that is no object, lacks a member it needs, or is of no known kind is refused. */
  lemma MalformedFails(doc: Json, operation: Json)
    requires operation.Object? ==>
      || StringMember(operation.members, "op").Err? || StringMember(operation.members, "path").Err?
      || operation.members["op"].s !in {"add", "remove", "replace", "move", "copy", "test"}
      || (operation.members["op"].s in {"add", "replace", "test"} && "value" !in operation.members
          && Parse(operation.members["path"].s).Ok?)
      || (operation.members["op"].s in {"move", "copy"} && StringMember(operation.members, "from").Err?
          && Parse(operation.members["path"].s).Ok?)
    ensures Run(doc, [operation]).doc == doc && Run(doc, [operation]).outcome.Err?
    ensures !operation.Object? ==> Run(doc, [operation]).outcome == Err(PATCH_NOT_ARRAY)
    ensures operation.Object? && Run(doc, [operation]).outcome != Err(PATCH_MALFORMED) ==>
      StringMember(operation.members, "path").Ok? && Parse(operation.members["path"].s).Err?
  {
    RunSingle(doc, operation);
    hide Run, At, Put, AddAt, RemoveAt, Parse;
  }
}
