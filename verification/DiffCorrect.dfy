/** Applying `diff(source, target)` turns the source into the target, and touches nothing else. */
module DiffCorrect {
  import opened Results
  import opened Escaping
  import opened Pointer
  import opened Ordering
  import opened Documents
  import opened Patch
  import opened Diff

  /** The operations succeed on `doc` and make it `after`. */
  ghost predicate Turns(doc: Json, operations: seq<Json>, after: Json) {
    Run(doc, operations) == Effect(after, Ok(()))
  }

  lemma TurnsConcat(doc: Json, a: seq<Json>, middle: Json, b: seq<Json>, after: Json)
    requires Turns(doc, a, middle) && Turns(middle, b, after)
    ensures Turns(doc, a + b, after)
  {
    RunConcat(doc, a, b);
  }

  /** No operations, and the subtree at `p` is already what it should be. */
  lemma TurnsNothing(doc: Json, p: seq<string>)
    requires At(doc, p).Ok?
    ensures Turns(doc, [], Put(doc, p, At(doc, p).value))
  {
    AtPut(doc, p, At(doc, p).value);
  }

  lemma RunSingle(doc: Json, operation: Json)
    ensures Run(doc, [operation]) == Apply(doc, operation)
  {
    hide Apply;
    var e := Apply(doc, operation);
    if e.outcome.Ok? {
      assert e.outcome.value == ();
      assert Run(e.doc, [operation][1..]) == Effect(e.doc, Ok(()));
    }
  }

  // ---------- The effect of each emitted operation ----------

  lemma ApplyReplace(doc: Json, p: seq<string>, v: Json)
    requires At(doc, p).Ok?
    ensures Turns(doc, [ReplaceOperation(ToString(p), v)], Put(doc, p, v))
  {
    RunSingle(doc, ReplaceOperation(ToString(p), v));
    ParseToString(p);
  }

  lemma ApplyAdd(doc: Json, p: seq<string>, v: Json)
    ensures Run(doc, [AddOperation(ToString(p), v)]) == Finish(doc, AddAt(doc, p, v))
  {
    RunSingle(doc, AddOperation(ToString(p), v));
    ParseToString(p);
  }

  lemma ApplyRemove(doc: Json, p: seq<string>)
    ensures Run(doc, [RemoveOperation(ToString(p))]) == Finish(doc, RemoveAt(doc, p))
  {
    RunSingle(doc, RemoveOperation(ToString(p)));
    ParseToString(p);
  }

  lemma KeyPathText(p: seq<string>, k: string)
    ensures KeyPath(ToString(p), k) == ToString(p + [k])
  {
    assert (p + [k])[..|p + [k]| - 1] == p;
  }

  lemma IndexPathText(p: seq<string>, i: nat)
    ensures IndexPath(ToString(p), i) == ToString(p + [Digits(i)])
  {
    DigitsValue(i);
    EscapeDigits(Digits(i));
    KeyPathText(p, Digits(i));
  }

  lemma DashPathText(p: seq<string>)
    ensures ToString(p) + "/-" == ToString(p + ["-"])
  {
    EscapeIsEncode("-");
    assert "-"[1..] == "";
    assert Encode("-") == "-";
    KeyPathText(p, "-");
  }

  /** Locating the parent of `p + [last]`. */
  lemma ParentOf(doc: Json, p: seq<string>, last: string)
    requires At(doc, p).Ok?
    ensures var ts := p + [last];
      && ts[..|ts| - 1] == p && ts[|ts| - 1] == last
      && (|ts| > 1 ==> At(doc, ts[..1]).Ok?)
  {
    var ts := p + [last];
    assert ts[..|ts| - 1] == p;
    if |ts| > 1 {
      assert p == ts[..1] + p[1..];
      AtConcat(doc, ts[..1], p[1..]);
    }
  }

  lemma AppendElement(doc: Json, p: seq<string>, es: seq<Json>, v: Json)
    requires At(doc, p) == Ok(Array(es))
    ensures Turns(doc, [AddOperation(ToString(p) + "/-", v)], Put(doc, p, Array(es + [v])))
  {
    hide At, Put, ArrayIndex, ToString, Run;
    DashPathText(p);
    ApplyAdd(doc, p + ["-"], v);
    ParentOf(doc, p, "-");
  }

  lemma RemoveElement(doc: Json, p: seq<string>, es: seq<Json>, i: nat)
    requires At(doc, p) == Ok(Array(es)) && i < |es| <= SIZE_MAX
    ensures Turns(doc, [RemoveOperation(IndexPath(ToString(p), i))], Put(doc, p, Array(es[..i] + es[i + 1..])))
  {
    hide At, Put, ArrayIndex, ToString, Digits, IndexPath, Run;
    IndexPathText(p, i);
    ApplyRemove(doc, p + [Digits(i)]);
    ParentOf(doc, p, Digits(i));
    ArrayIndexOfDigits(i);
  }

  lemma AddKey(doc: Json, p: seq<string>, ms: map<string, Json>, k: string, v: Json)
    requires At(doc, p) == Ok(Object(ms))
    ensures Turns(doc, [AddOperation(KeyPath(ToString(p), k), v)], Put(doc, p, Object(ms[k := v])))
  {
    hide At, Put, ArrayIndex, ToString, KeyPath, Run;
    KeyPathText(p, k);
    ApplyAdd(doc, p + [k], v);
    ParentOf(doc, p, k);
  }

  lemma RemoveKey(doc: Json, p: seq<string>, ms: map<string, Json>, k: string)
    requires At(doc, p) == Ok(Object(ms)) && k in ms
    ensures Turns(doc, [RemoveOperation(KeyPath(ToString(p), k))], Put(doc, p, Object(ms - {k})))
  {
    KeyPathText(p, k);
    ApplyRemove(doc, p + [k]);
    ParentOf(doc, p, k);
  }

  // ---------- Shrinking and growing arrays ----------

  lemma {:induction false} RemovalsTurn(doc: Json, p: seq<string>, es: seq<Json>, from: nat)
    requires At(doc, p) == Ok(Array(es)) && from <= |es| <= SIZE_MAX
    ensures Turns(doc, Removals(ToString(p), from, |es|), Put(doc, p, Array(es[..from])))
    decreases |es|
  {
    hide Turns, Put, At, ToString, IndexPath;
    var path := ToString(p);
    if from == |es| {
      assert es[..from] == es;
      TurnsNothing(doc, p);
    } else {
      var last := |es| - 1;
      var shorter := es[..last];
      assert es[..last] + es[last + 1..] == shorter;
      RemoveElement(doc, p, es, last);
      AtPut(doc, p, Array(shorter));
      var middle := Put(doc, p, Array(shorter));
      RemovalsTurn(middle, p, shorter, from);
      assert shorter[..from] == es[..from];
      TurnsConcat(doc, [RemoveOperation(IndexPath(path, last))], middle, Removals(path, from, last),
        Put(doc, p, Array(es[..from])));
    }
  }

  lemma {:induction false} AppendsTurn(doc: Json, p: seq<string>, es: seq<Json>, i: nat)
    requires i <= |es| && At(doc, p) == Ok(Array(es[..i]))
    ensures Turns(doc, Appends(ToString(p), es, i), Put(doc, p, Array(es)))
    decreases |es| - i
  {
    hide Turns, Put, At, ToString;
    var path := ToString(p);
    if i == |es| {
      assert es[..i] == es;
      TurnsNothing(doc, p);
    } else {
      AppendElement(doc, p, es[..i], es[i]);
      assert es[..i] + [es[i]] == es[..i + 1];
      AtPut(doc, p, Array(es[..i + 1]));
      var middle := Put(doc, p, Array(es[..i + 1]));
      AppendsTurn(middle, p, es, i + 1);
      TurnsConcat(doc, [AddOperation(path + "/-", es[i])], middle, Appends(path, es, i + 1), Put(doc, p, Array(es)));
    }
  }

  // ---------- The theorem for a subtree ----------

  /** A child's change is a change of the parent in that child. */
  lemma ChildPut(doc: Json, p: seq<string>, token: string, v: Json)
    requires At(doc, p).Ok? && Child(At(doc, p).value, token).Ok?
    ensures At(doc, p + [token]) == Child(At(doc, p).value, token)
    ensures Put(doc, p + [token], v) == Put(doc, p, PutChild(At(doc, p).value, token, v))
  {
    var j := At(doc, p).value;
    AtConcat(doc, p, [token]);
    AtOne(j, token);
    PutConcat(doc, p, [token], v);
    assert [token][1..] == [];
    assert Put(j, [token], v) == PutChild(j, token, Put(Child(j, token).value, [], v));
  }

  /** The array after the first `i` common elements are done. */
  function Mixed(source: seq<Json>, target: seq<Json>, i: nat): seq<Json>
    requires i <= |source| && i <= |target|
  {
    target[..i] + source[i..]
  }

  /** Changing element `i` alone takes the array from one mixed state to the next. */
  lemma ElementStep(doc: Json, p: seq<string>, s: seq<Json>, t: seq<Json>, i: nat)
    requires i < |s| <= SIZE_MAX && i < |t|
    requires At(doc, p) == Ok(Array(Mixed(s, t, i)))
    ensures At(doc, p + [Digits(i)]) == Ok(s[i])
    ensures Put(doc, p + [Digits(i)], t[i]) == Put(doc, p, Array(Mixed(s, t, i + 1)))
    ensures ToString(p + [Digits(i)]) == IndexPath(ToString(p), i)
  {
    var here := Array(Mixed(s, t, i));
    ArrayIndexOfDigits(i);
    DigitsValue(i);
    assert here.elems[i] == s[i];
    hide At, Put, ArrayIndex, Digits, ToString, IndexPath;
    ChildPut(doc, p, Digits(i), t[i]);
    IndexPathText(p, i);
    assert here.elems[i := t[i]] == Mixed(s, t, i + 1);
  }

  lemma {:induction false} ElementsTurn(doc: Json, p: seq<string>, source: Json, target: Json, i: nat)
    requires source.Array? && target.Array? && Sized(source) && Sized(target)
    requires i <= Min(|source.elems|, |target.elems|)
    requires At(doc, p) == Ok(Array(Mixed(source.elems, target.elems, i)))
    ensures Turns(doc, ElementOperations(source, target, ToString(p), i),
                  Put(doc, p, Array(Mixed(source.elems, target.elems, Min(|source.elems|, |target.elems|)))))
    decreases source, 0, |source.elems| - i
  {
    var s, t := source.elems, target.elems;
    var m := Min(|s|, |t|);
    hide Turns, Put, At, ToString, IndexPath, Operations;
    var path := ToString(p);
    if i == m {
      TurnsNothing(doc, p);
    } else {
      ElementStep(doc, p, s, t, i);
      DiffTurns(doc, p + [Digits(i)], s[i], t[i]);
      var middle := Put(doc, p, Array(Mixed(s, t, i + 1)));
      AtPut(doc, p, Array(Mixed(s, t, i + 1)));
      ElementsTurn(middle, p, source, target, i + 1);
      TurnsConcat(doc, Operations(s[i], t[i], IndexPath(path, i)), middle,
        ElementOperations(source, target, path, i + 1),
                  Put(doc, p, Array(Mixed(s, t, m))));
    }
  }

  lemma ArraysTurn(doc: Json, p: seq<string>, source: Json, target: Json)
    requires source.Array? && target.Array? && Sized(source) && Sized(target) && source != target
    requires At(doc, p) == Ok(source)
    ensures Turns(doc, Operations(source, target, ToString(p)), Put(doc, p, target))
    decreases source, 0, |source.elems| + 1
  {
    hide Turns, Put, At, ToString, ElementOperations;
    var s, t, path := source.elems, target.elems, ToString(p);
    var m := Min(|s|, |t|);
    assert Mixed(s, t, 0) == s;
    ElementsTurn(doc, p, source, target, 0);
    var mixed := Mixed(s, t, m);
    var doc1 := Put(doc, p, Array(mixed));
    AtPut(doc, p, Array(mixed));
    if |t| <= |s| {
      assert mixed[..|t|] == t;
      RemovalsTurn(doc1, p, mixed, |t|);
    } else {
      assert mixed == t[..m];
      TurnsNothing(doc1, p);
    }
    var doc2 := Put(doc, p, Array(t[..m]));
    assert Turns(doc1, Removals(path, |t|, |s|), doc2) by {
      if |t| <= |s| { assert t[..m] == t; }
    }
    AtPut(doc, p, Array(t[..m]));
    AppendsTurn(doc2, p, t, m);
    var after := Put(doc, p, target);
    ThreeTurns(doc, ElementOperations(source, target, path, 0), doc1, Removals(path, |t|, |s|), doc2,
      Appends(path, t, m), after);
  }

  lemma ThreeTurns(doc: Json, a: seq<Json>, doc1: Json, b: seq<Json>, doc2: Json, c: seq<Json>, after: Json)
    requires Turns(doc, a, doc1) && Turns(doc1, b, doc2) && Turns(doc2, c, after)
    ensures Turns(doc, a + b + c, after)
  {
    TurnsConcat(doc, a, doc1, b, doc2);
    TurnsConcat(doc, a + b, doc2, c, after);
  }

  /** The object after the source keys outside `pending` are done. */
  function Updated(source: map<string, Json>, target: map<string, Json>, pending: set<string>): map<string, Json> {
    map k | k in source && (k in pending || k in target) :: if k in pending then source[k] else target[k]
  }

  lemma UpdatedStep(s: map<string, Json>, t: map<string, Json>, k: string, later: set<string>)
    requires k in s && k !in later
    ensures var here, next := Updated(s, t, later + {k}), Updated(s, t, later);
      k in here && here[k] == s[k] && if k in t then here[k := t[k]] == next else here - {k} == next
  {
  }

  lemma KeyStep(doc: Json, p: seq<string>, here: map<string, Json>, k: string, v: Json)
    requires At(doc, p) == Ok(Object(here)) && k in here
    ensures At(doc, p + [k]) == Ok(here[k])
    ensures Put(doc, p + [k], v) == Put(doc, p, Object(here[k := v]))
    ensures ToString(p + [k]) == KeyPath(ToString(p), k)
  {
    hide At, Put, ToString, KeyPath;
    ChildPut(doc, p, k, v);
    KeyPathText(p, k);
  }

  lemma {:induction false} KeysTurn(doc: Json, p: seq<string>, source: Json, target: Json, keys: seq<string>)
    requires source.Object? && target.Object? && Sized(source) && Sized(target)
    requires forall i :: 0 <= i < |keys| ==> keys[i] in source.members
    requires forall i, j :: 0 <= i < j < |keys| ==> keys[i] != keys[j]
    requires At(doc, p) == Ok(Object(Updated(source.members, target.members, set k | k in keys)))
    ensures Turns(doc, KeyOperations(source, target, ToString(p), keys),
                  Put(doc, p, Object(Updated(source.members, target.members, {}))))
    decreases source, 0, |keys|
  {
    hide Turns, Put, At, ToString, KeyPath, Operations;
    var s, t, path := source.members, target.members, ToString(p);
    var pending := set k | k in keys;
    if keys == [] {
      assert pending == {};
      TurnsNothing(doc, p);
    } else {
      var k, rest := keys[0], keys[1..];
      var later := set x | x in rest;
      var here, next := Updated(s, t, pending), Updated(s, t, later);
      assert pending == later + {k} && k !in later;
      UpdatedStep(s, t, k, later);
      hide Updated;
      var middle := Put(doc, p, Object(next));
      var first := if k in t then Operations(s[k], t[k], KeyPath(path, k)) else [RemoveOperation(KeyPath(path, k))];
      if k in t {
        KeyStep(doc, p, here, k, t[k]);
        DiffTurns(doc, p + [k], s[k], t[k]);
      } else {
        RemoveKey(doc, p, here, k);
      }
      AtPut(doc, p, Object(next));
      KeysTurn(middle, p, source, target, rest);
      TurnsConcat(doc, first, middle, KeyOperations(source, target, path, rest),
        Put(doc, p, Object(Updated(s, t, {}))));
    }
  }

  /** The target without the keys that are still to be added. */
  function Without(source: map<string, Json>, target: map<string, Json>, keys: seq<string>): map<string, Json> {
    map k | k in target && (k in source || k !in keys) :: target[k]
  }

  lemma {:induction false} AdditionsTurn(doc: Json, p: seq<string>, source: map<string, Json>,
      target: map<string, Json>, keys: seq<string>)
    requires forall i :: 0 <= i < |keys| ==> keys[i] in target
    requires forall i, j :: 0 <= i < j < |keys| ==> keys[i] != keys[j]
    requires At(doc, p) == Ok(Object(Without(source, target, keys)))
    ensures Turns(doc, Additions(source, target, ToString(p), keys), Put(doc, p, Object(target)))
    decreases |keys|
  {
    hide Turns, Put, At, ToString, KeyPath;
    var path := ToString(p);
    var here := Without(source, target, keys);
    TurnsNothing(doc, p);
    if keys == [] {
      assert here == target;
    } else {
      var k, rest := keys[0], keys[1..];
      assert keys == [k] + rest;
      var next := Without(source, target, rest);
      var middle := Put(doc, p, Object(next));
      var first := if k in source then [] else [AddOperation(KeyPath(path, k), target[k])];
      if k in source {
        assert next == here;
      } else {
        AddKey(doc, p, here, k, target[k]);
        assert here[k := target[k]] == next;
      }
      AtPut(doc, p, Object(next));
      AdditionsTurn(middle, p, source, target, rest);
      TurnsConcat(doc, first, middle, Additions(source, target, path, rest), Put(doc, p, Object(target)));
    }
  }

  lemma NothingUpdated(s: map<string, Json>, t: map<string, Json>, keys: seq<string>)
    requires forall k :: k in keys <==> k in s
    ensures Updated(s, t, set k | k in keys) == s
  {
  }

  lemma AllToAdd(s: map<string, Json>, t: map<string, Json>, added: seq<string>)
    requires forall k :: k in added <==> k in t
    ensures Without(s, t, added) == Updated(s, t, {})
  {
  }

  lemma ObjectsTurn(doc: Json, p: seq<string>, source: Json, target: Json)
    requires source.Object? && target.Object? && Sized(source) && Sized(target) && source != target
    requires At(doc, p) == Ok(source)
    ensures Turns(doc, Operations(source, target, ToString(p)), Put(doc, p, target))
    decreases source, 0, |source.members| + 1
  {
    hide Turns, Put, At, ToString, KeyOperations, Additions, SortedKeys;
    var s, t, path := source.members, target.members, ToString(p);
    var keys, added := SortedKeys(s.Keys), SortedKeys(t.Keys);
    SortedKeysDistinct(s.Keys);
    SortedKeysDistinct(t.Keys);
    NothingUpdated(s, t, keys);
    hide Updated, Without;
    KeysTurn(doc, p, source, target, keys);
    var shared := Updated(s, t, {});
    var middle := Put(doc, p, Object(shared));
    AtPut(doc, p, Object(shared));
    AllToAdd(s, t, added);
    AdditionsTurn(middle, p, s, t, added);
    TurnsConcat(doc, KeyOperations(source, target, path, keys), middle, Additions(s, t, path, added),
      Put(doc, p, target));
  }

  /**
   * Applied to any document in which `p` leads to `source`, the operations of `diff(source, target, p)`
   * succeed and change that subtree to `target`; the document is otherwise as before.
   */
  lemma {:induction false} DiffTurns(doc: Json, p: seq<string>, source: Json, target: Json)
    requires Sized(source) && Sized(target)
    requires At(doc, p) == Ok(source)
    ensures Turns(doc, Operations(source, target, ToString(p)), Put(doc, p, target))
    decreases source, 1, 0
  {
    if source == target {
      AtPut(doc, p, source);
    } else if source.Array? && target.Array? {
      ArraysTurn(doc, p, source, target);
    } else if source.Object? && target.Object? {
      ObjectsTurn(doc, p, source, target);
    } else {
      ApplyReplace(doc, p, target);
    }
  }

  // ---------- Main results ----------

  /** The law of `diff`: patching the source with the difference gives the target. */
  lemma PatchOfDiff(source: Json, target: Json)
    requires Sized(source) && Sized(target)
    ensures RunPatch(source, Array(Operations(source, target, ""))) == Effect(target, Ok(()))
  {
    DiffTurns(source, [], source, target);
  }

  /** The same, of the program's own two calls. */
  method DiffThenPatch(source: Json, target: Json) returns (r: Json)
    requires Sized(source) && Sized(target)
    ensures r == target
  {
    var operations := DiffValues(source, target, "");
    PatchOfDiff(source, target);
    var document := new Document(source);
    var outcome := document.PatchInPlace(Array(operations));
    r := document.root;
  }

  /** The difference is empty exactly for equal values. */
  lemma DiffEmpty(source: Json, target: Json)
    requires Sized(source) && Sized(target)
    ensures Operations(source, target, "") == [] <==> source == target
  {
    if Operations(source, target, "") == [] {
      PatchOfDiff(source, target);
      assert Run(source, []) == Effect(source, Ok(()));
    }
  }

  /** Locations on a path that leaves `common` by another token keep their value, or stay unresolved. */
  lemma DiffElsewhere(doc: Json, common: seq<string>, p: seq<string>, q: seq<string>, source: Json, target: Json)
    requires Sized(source) && Sized(target)
    requires At(doc, common + p) == Ok(source)
    requires p != [] && q != [] && p[0] != q[0]
    ensures var e := Run(doc, Operations(source, target, ToString(common + p)));
      && At(e.doc, common + p) == Ok(target)
      && At(e.doc, common + q) == At(doc, common + q)
  {
    hide Operations, At, Put, ToString;
    DiffTurns(doc, common + p, source, target);
    AtPut(doc, common + p, target);
    PutElsewhere(doc, common, p, q, target);
  }

  // ---------- Where the operations lie ----------

  ghost predicate LiesUnder(operation: Json, path: string) {
    && operation.Object? && "path" in operation.members && operation.members["path"].String?
    && (operation.members["path"].s == path || path + "/" <= operation.members["path"].s)
  }

  ghost predicate AllUnder(operations: seq<Json>, path: string) {
    forall i :: 0 <= i < |operations| ==> LiesUnder(operations[i], path)
  }

  lemma UnderShorter(operations: seq<Json>, path: string, longer: string)
    requires AllUnder(operations, longer) && path + "/" <= longer
    ensures AllUnder(operations, path)
  {
  }

  lemma UnderChild(path: string, tail: string)
    ensures path + "/" <= path + "/" + tail
  {
  }

  /** Every operation of `diff(source, target, path)` names a location at or below `path`. */
  lemma {:induction false} OperationsUnder(source: Json, target: Json, path: string)
    ensures AllUnder(Operations(source, target, path), path)
    decreases source, 1, 0
  {
    if source != target && source.Array? && target.Array? {
      ElementsUnder(source, target, path, 0);
      RemovalsUnder(path, |target.elems|, |source.elems|);
      AppendsUnder(path, target.elems, Min(|source.elems|, |target.elems|));
    } else if source != target && source.Object? && target.Object? {
      KeysUnder(source, target, path, SortedKeys(source.members.Keys));
      AdditionsUnder(source.members, target.members, path, SortedKeys(target.members.Keys));
    }
  }

  lemma {:induction false} ElementsUnder(source: Json, target: Json, path: string, i: nat)
    requires source.Array? && target.Array?
    ensures AllUnder(ElementOperations(source, target, path, i), path)
    decreases source, 0, |source.elems| - i
  {
    if i < |source.elems| && i < |target.elems| {
      OperationsUnder(source.elems[i], target.elems[i], IndexPath(path, i));
      UnderChild(path, Digits(i));
      hide Operations;
      UnderShorter(Operations(source.elems[i], target.elems[i], IndexPath(path, i)), path, IndexPath(path, i));
      ElementsUnder(source, target, path, i + 1);
    }
  }

  lemma {:induction false} RemovalsUnder(path: string, low: nat, high: nat)
    ensures AllUnder(Removals(path, low, high), path)
    decreases high
  {
    if high > low {
      UnderChild(path, Digits(high - 1));
      RemovalsUnder(path, low, high - 1);
    }
  }

  lemma {:induction false} AppendsUnder(path: string, elems: seq<Json>, i: nat)
    ensures AllUnder(Appends(path, elems, i), path)
    decreases |elems| - i
  {
    if i < |elems| {
      assert path + "/" <= path + "/-";
      AppendsUnder(path, elems, i + 1);
    }
  }

  lemma {:induction false} KeysUnder(source: Json, target: Json, path: string, keys: seq<string>)
    requires source.Object? && target.Object?
    requires forall k :: k in keys ==> k in source.members
    ensures AllUnder(KeyOperations(source, target, path, keys), path)
    decreases source, 0, |keys|
  {
    if keys != [] {
      var k := keys[0];
      UnderChild(path, Escape(k));
      if k in target.members {
        OperationsUnder(source.members[k], target.members[k], KeyPath(path, k));
        hide Operations;
        UnderShorter(Operations(source.members[k], target.members[k], KeyPath(path, k)), path, KeyPath(path, k));
      }
      KeysUnder(source, target, path, keys[1..]);
    }
  }

  lemma {:induction false} AdditionsUnder(source: map<string, Json>, target: map<string, Json>, path: string,
      keys: seq<string>)
    requires forall k :: k in keys ==> k in target
    ensures AllUnder(Additions(source, target, path, keys), path)
    decreases |keys|
  {
    if keys != [] {
      UnderChild(path, Escape(keys[0]));
      AdditionsUnder(source, target, path, keys[1..]);
    }
  }
}
