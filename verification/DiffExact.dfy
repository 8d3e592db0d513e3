/** Which operations a diff consists of, in terms of what is where in the two values. */
module DiffExact {
  import opened Results
  import opened Pointer
  import opened Ordering
  import opened Documents
  import opened Diff
  import opened DiffCorrect

  // ---------- What differs where ----------

  ghost predicate SameContainer(a: Json, b: Json) {
    (a.Array? && b.Array?) || (a.Object? && b.Object?)
  }

  /** The values there are both containers of one kind. */
  ghost predicate TogetherAt(s: Json, t: Json, ts: seq<string>) {
    At(s, ts).Ok? && At(t, ts).Ok? && SameContainer(At(s, ts).value, At(t, ts).value)
  }

  /** Above the location both values have arrays, or both have objects, all along. */
  ghost predicate Together(s: Json, t: Json, ts: seq<string>) {
    forall n :: 0 <= n < |ts| ==> TogetherAt(s, t, ts[..n])
  }

  /** Both have a value there, not the same one, and not two arrays or two objects. */
  ghost predicate Replaced(s: Json, t: Json, ts: seq<string>) {
    && Together(s, t, ts) && At(s, ts).Ok? && At(t, ts).Ok?
    && At(s, ts) != At(t, ts) && !SameContainer(At(s, ts).value, At(t, ts).value)
  }

  /** Only the first has a value there. */
  ghost predicate Gone(s: Json, t: Json, ts: seq<string>) {
    Together(s, t, ts) && At(s, ts).Ok? && At(t, ts).Err?
  }

  /** The location that an addition names: the end of an array, or the member. */
  ghost function NamedFor(s: Json, ts: seq<string>): seq<string>
    requires ts != []
  {
    var init := ts[..|ts| - 1];
    if At(s, init).Ok? && At(s, init).value.Array? then init + ["-"] else ts
  }

  /** The operation is the one for what the values have at the location. */
  ghost predicate Explains(s: Json, t: Json, p: seq<string>, ts: seq<string>, operation: Json) {
    || (Replaced(s, t, ts) && operation == ReplaceOperation(ToString(p + ts), At(t, ts).value))
    || (Gone(s, t, ts) && operation == RemoveOperation(ToString(p + ts)))
    || (Gone(t, s, ts) && ts != [] && operation == AddOperation(ToString(p + NamedFor(s, ts)), At(t, ts).value))
  }

  // ---------- One step down ----------

  lemma TogetherAtBelow(s: Json, t: Json, k: string, us: seq<string>)
    ensures TogetherAt(s, t, [k] + us)
        <==> Child(s, k).Ok? && Child(t, k).Ok? && TogetherAt(Child(s, k).value, Child(t, k).value, us)
  {
    AtBelow(s, k, us);
    AtBelow(t, k, us);
    hide At, Child;
  }

  lemma TogetherBelow(s: Json, t: Json, k: string, us: seq<string>)
    ensures Together(s, t, [k] + us) <==>
      && SameContainer(s, t)
      && (us != [] ==> Child(s, k).Ok? && Child(t, k).Ok? && Together(Child(s, k).value, Child(t, k).value, us))
  {
    var ts := [k] + us;
    assert ts[..0] == [] && At(s, []) == Ok(s) && At(t, []) == Ok(t);
    assert TogetherAt(s, t, ts[..0]) <==> SameContainer(s, t);
    forall n | 0 <= n < |us|
      ensures TogetherAt(s, t, ts[..n + 1])
          <==> Child(s, k).Ok? && Child(t, k).Ok? && TogetherAt(Child(s, k).value, Child(t, k).value, us[..n])
    {
      assert ts[..n + 1] == [k] + us[..n];
      TogetherAtBelow(s, t, k, us[..n]);
    }
    hide TogetherAt, Child;
    if Together(s, t, ts) {
      assert us != [] ==> TogetherAt(s, t, ts[..0 + 1]);
      forall n | 0 <= n < |us| && Child(s, k).Ok? && Child(t, k).Ok?
        ensures TogetherAt(Child(s, k).value, Child(t, k).value, us[..n])
      {
        assert TogetherAt(s, t, ts[..n + 1]);
      }
    } else {
      var n :| 0 <= n < |ts| && !TogetherAt(s, t, ts[..n]);
      if n > 0 {
        var m := n - 1;
        assert ts[..n] == ts[..m + 1] && 0 <= m < |us|;
        assert Child(s, k).Ok? && Child(t, k).Ok? ==> !TogetherAt(Child(s, k).value, Child(t, k).value, us[..m]);
      } else {
        assert ts[..n] == ts[..0];
      }
    }
  }

  lemma AtBelow(j: Json, k: string, us: seq<string>)
    ensures At(j, [k] + us) == if Child(j, k).Ok? then At(Child(j, k).value, us) else Child(j, k)
  {
    assert ([k] + us)[1..] == us;
  }

  lemma NamedBelow(s: Json, k: string, us: seq<string>)
    requires us != [] && Child(s, k).Ok?
    ensures NamedFor(s, [k] + us) == [k] + NamedFor(Child(s, k).value, us)
  {
    var ts := [k] + us;
    assert ts[..|ts| - 1] == [k] + us[..|us| - 1];
    AtBelow(s, k, us[..|us| - 1]);
    hide At, Child;
    assert [k] + us[..|us| - 1] + ["-"] == [k] + (us[..|us| - 1] + ["-"]);
  }

  lemma HereIs(s: Json, t: Json)
    ensures At(s, []) == Ok(s) && At(t, []) == Ok(t) && Together(s, t, []) && Together(t, s, [])
  {
  }

  lemma ReplacedHere(s: Json, t: Json)
    ensures Replaced(s, t, []) <==> s != t && !SameContainer(s, t)
    ensures !Gone(s, t, []) && !Gone(t, s, [])
  {
    HereIs(s, t);
    hide At, Together;
  }

  lemma NotTogether(s: Json, t: Json, ts: seq<string>)
    requires !Together(s, t, ts)
    ensures !Replaced(s, t, ts) && !Gone(s, t, ts) && !Gone(t, s, ts)
  {
    hide At;
  }

  /** Without two containers of one kind only the whole value can be replaced. */
  lemma ExplainsApart(s: Json, t: Json, p: seq<string>, ts: seq<string>, operation: Json)
    requires !SameContainer(s, t)
    ensures Explains(s, t, p, ts, operation)
        <==> ts == [] && s != t && operation == ReplaceOperation(ToString(p), t)
  {
    hide SameContainer, Replaced, Gone, ToString, ReplaceOperation, RemoveOperation, AddOperation, At, NamedFor;
    if ts == [] {
      assert p + [] == p;
      HereIs(s, t);
      ReplacedHere(s, t);
    } else {
      assert ts == [ts[0]] + ts[1..];
      TogetherBelow(s, t, ts[0], ts[1..]);
      hide Child, Together;
      NotTogether(s, t, ts);
    }
  }

  /** Equal values need nothing. */
  lemma ExplainsEqual(s: Json, p: seq<string>, ts: seq<string>, operation: Json)
    ensures !Explains(s, s, p, ts, operation)
  {
    hide At, Together;
  }

  lemma ExplainsHere(s: Json, t: Json, p: seq<string>, operation: Json)
    requires SameContainer(s, t)
    ensures !Explains(s, t, p, [], operation)
  {
    hide Together;
  }

  /** The operation is for a child that only one of the values has. */
  ghost predicate ForOneOnly(s: Json, t: Json, p: seq<string>, k: string, operation: Json) {
    || (Child(s, k).Ok? && operation == RemoveOperation(ToString(p + [k])))
    || (Child(t, k).Ok? && operation == AddOperation(ToString(p + NamedFor(s, [k])), Child(t, k).value))
  }

  /** What explains an operation below a child; or the child itself is only in one of the values. */
  lemma ExplainsBelow(s: Json, t: Json, p: seq<string>, k: string, us: seq<string>, operation: Json)
    requires SameContainer(s, t)
    ensures Explains(s, t, p, [k] + us, operation) <==>
      if Child(s, k).Ok? && Child(t, k).Ok? then Explains(Child(s, k).value, Child(t, k).value, p + [k], us, operation)
      else us == [] && ForOneOnly(s, t, p, k, operation)
  {
    hide Child, At, Together, NamedFor, ToString, ReplaceOperation, RemoveOperation, AddOperation;
    TogetherBelow(s, t, k, us);
    TogetherBelow(t, s, k, us);
    AtBelow(s, k, us);
    AtBelow(t, k, us);
    assert p + ([k] + us) == p + [k] + us;
    if us != [] && Child(s, k).Ok? {
      NamedBelow(s, k, us);
      assert p + ([k] + NamedFor(Child(s, k).value, us)) == p + [k] + NamedFor(Child(s, k).value, us);
    }
    if us == [] {
      assert [k] + us == [k] && p + [k] + us == p + [k];
      if Child(s, k).Ok? {
        HereIs(Child(s, k).value, if Child(t, k).Ok? then Child(t, k).value else s);
      } else if Child(t, k).Ok? {
        HereIs(Child(t, k).value, t);
      }
    }
  }

  // ---------- Which operations are in the parts of a diff ----------

  lemma ElementsStep(source: Json, target: Json, path: string, i: nat, operation: Json)
    requires source.Array? && target.Array?
    ensures operation in ElementOperations(source, target, path, i) <==>
      i < |source.elems| && i < |target.elems|
      && (operation in Operations(source.elems[i], target.elems[i], IndexPath(path, i))
          || operation in ElementOperations(source, target, path, i + 1))
  {
    hide Operations, IndexPath;
  }

  lemma {:induction false} InElements(source: Json, target: Json, path: string, i: nat, operation: Json)
    requires source.Array? && target.Array?
    ensures operation in ElementOperations(source, target, path, i) <==>
      exists j :: i <= j < |source.elems| && j < |target.elems|
        && operation in Operations(source.elems[j], target.elems[j], IndexPath(path, j))
    decreases |source.elems| - i
  {
    hide *;
    ElementsStep(source, target, path, i, operation);
    if i < |source.elems| && i < |target.elems| {
      InElements(source, target, path, i + 1, operation);
    }
  }

  lemma RemovalsStep(path: string, low: nat, high: nat, operation: Json)
    ensures operation in Removals(path, low, high) <==>
      low < high
      && (operation == RemoveOperation(IndexPath(path, high - 1)) || operation in Removals(path, low, high - 1))
  {
    hide RemoveOperation, IndexPath;
  }

  lemma {:induction false} InRemovals(path: string, low: nat, high: nat, operation: Json)
    ensures operation in Removals(path, low, high) <==>
      exists j: nat :: low <= j < high && operation == RemoveOperation(IndexPath(path, j))
    decreases high
  {
    hide *;
    RemovalsStep(path, low, high, operation);
    if low < high {
      InRemovals(path, low, high - 1, operation);
    }
  }

  lemma AppendsStep(path: string, elems: seq<Json>, i: nat, operation: Json)
    ensures operation in Appends(path, elems, i) <==>
      i < |elems|
      && (operation == AddOperation(path + "/-", elems[i]) || operation in Appends(path, elems, i + 1))
  {
    hide AddOperation;
  }

  lemma {:induction false} InAppends(path: string, elems: seq<Json>, i: nat, operation: Json)
    ensures operation in Appends(path, elems, i) <==>
      exists j :: i <= j < |elems| && operation == AddOperation(path + "/-", elems[j])
    decreases |elems| - i
  {
    hide *;
    AppendsStep(path, elems, i, operation);
    if i < |elems| {
      InAppends(path, elems, i + 1, operation);
    }
  }

  /** For one key of the source. */
  ghost predicate ForKey(source: Json, target: Json, path: string, k: string, operation: Json)
    requires source.Object? && target.Object? && k in source.members
  {
    if k in target.members then operation in Operations(source.members[k], target.members[k], KeyPath(path, k))
    else operation == RemoveOperation(KeyPath(path, k))
  }

  lemma {:induction false} InKeys(source: Json, target: Json, path: string, keys: seq<string>, operation: Json)
    requires source.Object? && target.Object? && forall k :: k in keys ==> k in source.members
    ensures operation in KeyOperations(source, target, path, keys) <==>
      exists k :: k in keys && ForKey(source, target, path, k, operation)
    decreases |keys|
  {
    hide Operations, KeyPath, RemoveOperation;
    if keys != [] {
      InKeys(source, target, path, keys[1..], operation);
      assert keys == [keys[0]] + keys[1..];
      assert operation in KeyOperations(source, target, path, keys) <==>
        ForKey(source, target, path, keys[0], operation) || operation in KeyOperations(source, target, path, keys[1..]);
      hide ForKey, KeyOperations;
      assert forall k :: k in keys <==> k == keys[0] || k in keys[1..];
    }
  }

  lemma {:induction false} InAdditions(source: map<string, Json>, target: map<string, Json>, path: string,
      keys: seq<string>, operation: Json)
    requires forall k :: k in keys ==> k in target
    ensures operation in Additions(source, target, path, keys) <==>
      exists k :: k in keys && k !in source && operation == AddOperation(KeyPath(path, k), target[k])
    decreases |keys|
  {
    hide KeyPath, AddOperation;
    if keys != [] {
      InAdditions(source, target, path, keys[1..], operation);
      assert keys == [keys[0]] + keys[1..];
    }
  }

  // ---------- All operations, and no others ----------

  lemma ChildOfArray(es: seq<Json>, k: string)
    requires |es| <= SIZE_MAX
    ensures forall i :: 0 <= i < |es| ==> Child(Array(es), Digits(i)) == Ok(es[i])
    ensures Child(Array(es), k).Ok? ==> exists i :: 0 <= i < |es| && k == Digits(i)
    ensures forall i: nat :: |es| <= i < SIZE_MAX ==> Child(Array(es), Digits(i)).Err?
  {
    forall i: nat | i < SIZE_MAX
      ensures Child(Array(es), Digits(i)) == if i < |es| then Ok(es[i]) else Err(INDEX_OUT_OF_RANGE)
    {
      ArrayIndexOfDigits(i);
      assert IsDigit(Digits(i)[0]);
      hide ArrayIndex, Digits;
    }
    if Child(Array(es), k).Ok? {
      DigitsOfArrayIndex(k);
      hide Digits;
      var i := ArrayIndex(k).value;
      assert k == Digits(i);
    }
  }

  lemma ChildOfObject(ms: map<string, Json>, k: string)
    ensures Child(Object(ms), k).Ok? <==> k in ms
    ensures k in ms ==> Child(Object(ms), k).value == ms[k]
  {
  }

  lemma NamedOfChild(s: Json, k: string)
    ensures NamedFor(s, [k]) == if s.Array? then ["-"] else [k]
  {
    assert [k][..0] == [] && [] + ["-"] == ["-"];
  }

  /** Everything that is in a diff is there for what the two values have at some location. */
  lemma {:induction false} OperationIsExplained(s: Json, t: Json, p: seq<string>, operation: Json)
    returns (ts: seq<string>)
    requires Sized(s) && Sized(t) && operation in Operations(s, t, ToString(p))
    ensures Explains(s, t, p, ts, operation)
    decreases s, 1
  {
    if s.Array? && t.Array? {
      ts := ExplainedInArrays(s, t, p, operation);
    } else if s.Object? && t.Object? {
      ts := ExplainedInObjects(s, t, p, operation);
    } else {
      ts := [];
      hide Explains;
      ExplainsApart(s, t, p, [], operation);
    }
  }

  lemma {:induction false} ExplainedInArrays(s: Json, t: Json, p: seq<string>, operation: Json)
    returns (ts: seq<string>)
    requires Sized(s) && Sized(t) && operation in Operations(s, t, ToString(p))
    requires s.Array? && t.Array?
    ensures Explains(s, t, p, ts, operation)
    decreases s, 0
  {
    var path, a, b := ToString(p), s.elems, t.elems;
    assert |a| <= SIZE_MAX && |b| <= SIZE_MAX;
    var j := FromArrays(s, t, path, operation);
    assert j < |a| && j < |b| ==> Sized(a[j]) && Sized(b[j]);
    assert SameContainer(s, t);
    hide *;
    var k := Digits(j);
    ChildIs(a, j);
    ChildIs(b, j);
    IndexPathText(p, j);
    DashPathText(p);
    NamedOfChild(s, k);
    var us: seq<string> := [];
    if j < |a| && j < |b| {
      us := OperationIsExplained(a[j], b[j], p + [k], operation);
    } else {
      IsOneOnly(s, t, p, k, operation);
    }
    ts := [k] + us;
    ExplainsBelow(s, t, p, k, us, operation);
  }

  lemma IsOneOnly(s: Json, t: Json, p: seq<string>, k: string, operation: Json)
    ensures Child(s, k).Ok? && operation == RemoveOperation(ToString(p + [k])) ==> ForOneOnly(s, t, p, k, operation)
    ensures Child(t, k).Ok? && operation == AddOperation(ToString(p + NamedFor(s, [k])), Child(t, k).value) ==>
      ForOneOnly(s, t, p, k, operation)
  {
  }

  lemma FromArrays(s: Json, t: Json, path: string, operation: Json) returns (j: nat)
    requires s.Array? && t.Array? && operation in Operations(s, t, path)
    ensures j < |s.elems| || j < |t.elems|
    ensures if j < |s.elems| && j < |t.elems| then operation in Operations(s.elems[j], t.elems[j], IndexPath(path, j))
      else if j < |s.elems| then operation == RemoveOperation(IndexPath(path, j))
      else operation == AddOperation(path + "/-", t.elems[j])
  {
    InElements(s, t, path, 0, operation);
    InRemovals(path, |t.elems|, |s.elems|, operation);
    InAppends(path, t.elems, Min(|s.elems|, |t.elems|), operation);
    assert s != t;
    InDiffOfArrays(s, t, path, operation);
    hide Operations, ElementOperations, Removals, Appends, IndexPath, RemoveOperation, AddOperation;
    j :| (j < |s.elems| || j < |t.elems|)
      && if j < |s.elems| && j < |t.elems| then operation in Operations(s.elems[j], t.elems[j], IndexPath(path, j))
         else if j < |s.elems| then operation == RemoveOperation(IndexPath(path, j))
         else operation == AddOperation(path + "/-", t.elems[j]);
  }

  lemma {:induction false} ExplainedInObjects(s: Json, t: Json, p: seq<string>, operation: Json)
    returns (ts: seq<string>)
    requires Sized(s) && Sized(t) && operation in Operations(s, t, ToString(p))
    requires s.Object? && t.Object?
    ensures Explains(s, t, p, ts, operation)
    decreases s, 0
  {
    var path, a, b := ToString(p), s.members, t.members;
    var k := FromObjects(s, t, path, operation);
    assert k in a && k in b ==> Sized(a[k]) && Sized(b[k]);
    assert SameContainer(s, t);
    hide *;
    ChildOfObject(a, k);
    ChildOfObject(b, k);
    KeyPathText(p, k);
    NamedOfChild(s, k);
    var us: seq<string> := [];
    if k in a && k in b {
      us := OperationIsExplained(a[k], b[k], p + [k], operation);
    } else {
      IsOneOnly(s, t, p, k, operation);
    }
    ts := [k] + us;
    ExplainsBelow(s, t, p, k, us, operation);
  }

  lemma FromObjects(s: Json, t: Json, path: string, operation: Json) returns (k: string)
    requires s.Object? && t.Object? && operation in Operations(s, t, path)
    ensures k in s.members || k in t.members
    ensures if k in s.members && k in t.members
      then operation in Operations(s.members[k], t.members[k], KeyPath(path, k))
      else if k in s.members then operation == RemoveOperation(KeyPath(path, k))
      else operation == AddOperation(KeyPath(path, k), t.members[k])
  {
    var keys, added := SortedKeys(s.members.Keys), SortedKeys(t.members.Keys);
    InKeys(s, t, path, keys, operation);
    InAdditions(s.members, t.members, path, added, operation);
    assert s != t;
    InDiffOfObjects(s, t, path, operation);
    hide Operations, KeyOperations, Additions, SortedKeys, KeyPath, RemoveOperation, AddOperation;
    if operation in KeyOperations(s, t, path, keys) {
      k :| k in keys && ForKey(s, t, path, k, operation);
    } else {
      k :| k in added && k !in s.members && operation == AddOperation(KeyPath(path, k), t.members[k]);
    }
  }

  /** And everything that the two values have differently at some location is in the diff. */
  lemma {:induction false} ExplainedIsOperation(s: Json, t: Json, p: seq<string>, ts: seq<string>, operation: Json)
    requires Sized(s) && Sized(t) && Explains(s, t, p, ts, operation)
    ensures operation in Operations(s, t, ToString(p))
    decreases |ts|, 0
  {
    hide Explains, ToString, Child;
    if s == t {
      ExplainsEqual(s, p, ts, operation);
    } else if !SameContainer(s, t) {
      ExplainsApart(s, t, p, ts, operation);
    } else if ts == [] {
      ExplainsHere(s, t, p, operation);
    } else {
      var k, us := ts[0], ts[1..];
      assert ts == [k] + us;
      ExplainsBelow(s, t, p, k, us, operation);
      if s.Array? {
        IsInArrays(s, t, p, k, us, operation);
      } else {
        IsInObjects(s, t, p, k, us, operation);
      }
    }
  }

  lemma {:induction false} IsInArrays(s: Json, t: Json, p: seq<string>, k: string, us: seq<string>, operation: Json)
    requires Sized(s) && Sized(t) && s != t && s.Array? && t.Array?
    requires if Child(s, k).Ok? && Child(t, k).Ok?
      then Explains(Child(s, k).value, Child(t, k).value, p + [k], us, operation)
      else ForOneOnly(s, t, p, k, operation)
    ensures operation in Operations(s, t, ToString(p))
    decreases |us|, 1
  {
    var path, a, b := ToString(p), s.elems, t.elems;
    var j := IndexOfEither(a, b, k);
    assert j < |a| && j < |b| ==> Sized(a[j]) && Sized(b[j]);
    assert SIZE_MAX >= |a| && SIZE_MAX >= |b|;
    ArraysHave(s, t, path, j, operation);
    hide *;
    IndexPathText(p, j);
    if j < |a| && j < |b| {
      ExplainedIsOperation(a[j], b[j], p + [k], us, operation);
    } else {
      DashPathText(p);
      NamedOfChild(s, k);
      OneOnlyIs(s, t, p, k, operation);
    }
  }

  lemma OneOnlyIs(s: Json, t: Json, p: seq<string>, k: string, operation: Json)
    requires ForOneOnly(s, t, p, k, operation) && !(Child(s, k).Ok? && Child(t, k).Ok?)
    ensures Child(s, k).Ok? ==> operation == RemoveOperation(ToString(p + [k]))
    ensures Child(t, k).Ok? ==> operation == AddOperation(ToString(p + NamedFor(s, [k])), Child(t, k).value)
    ensures Child(s, k).Ok? || Child(t, k).Ok?
  {
    hide Child, ToString, NamedFor;
  }

  lemma IndexOfEither(a: seq<Json>, b: seq<Json>, k: string) returns (j: nat)
    requires |a| <= SIZE_MAX && |b| <= SIZE_MAX && (Child(Array(a), k).Ok? || Child(Array(b), k).Ok?)
    ensures (j < |a| || j < |b|) && k == Digits(j)
    ensures Child(Array(a), k) == if j < |a| then Ok(a[j]) else Err(INDEX_OUT_OF_RANGE)
    ensures Child(Array(b), k) == if j < |b| then Ok(b[j]) else Err(INDEX_OUT_OF_RANGE)
  {
    ChildOfArray(a, k);
    ChildOfArray(b, k);
    hide Child, Digits;
    j :| (j < |a| || j < |b|) && k == Digits(j);
    ChildIs(a, j);
    ChildIs(b, j);
  }

  lemma ChildIs(es: seq<Json>, j: nat)
    requires j < SIZE_MAX
    ensures Child(Array(es), Digits(j)) == if j < |es| then Ok(es[j]) else Err(INDEX_OUT_OF_RANGE)
  {
    ArrayIndexOfDigits(j);
    assert IsDigit(Digits(j)[0]);
    hide ArrayIndex, Digits;
  }

  /** What the parts of a diff of two arrays hold for an index. */
  lemma ArraysHave(s: Json, t: Json, path: string, j: nat, operation: Json)
    requires s != t && s.Array? && t.Array?
    ensures j < |s.elems| && j < |t.elems| && operation in Operations(s.elems[j], t.elems[j], IndexPath(path, j)) ==>
      operation in Operations(s, t, path)
    ensures |t.elems| <= j < |s.elems| && operation == RemoveOperation(IndexPath(path, j)) ==>
      operation in Operations(s, t, path)
    ensures |s.elems| <= j < |t.elems| && operation == AddOperation(path + "/-", t.elems[j]) ==>
      operation in Operations(s, t, path)
  {
    InElements(s, t, path, 0, operation);
    InRemovals(path, |t.elems|, |s.elems|, operation);
    InAppends(path, t.elems, Min(|s.elems|, |t.elems|), operation);
    InDiffOfArrays(s, t, path, operation);
    hide Operations, ElementOperations, Removals, Appends, IndexPath, RemoveOperation, AddOperation;
  }

  lemma InDiffOfArrays(s: Json, t: Json, path: string, operation: Json)
    requires s != t && s.Array? && t.Array?
    ensures operation in Operations(s, t, path) <==>
      || operation in ElementOperations(s, t, path, 0)
      || operation in Removals(path, |t.elems|, |s.elems|)
      || operation in Appends(path, t.elems, Min(|s.elems|, |t.elems|))
  {
    hide ElementOperations, Removals, Appends;
  }

  lemma {:induction false} IsInObjects(s: Json, t: Json, p: seq<string>, k: string, us: seq<string>, operation: Json)
    requires Sized(s) && Sized(t) && s != t && s.Object? && t.Object?
    requires if Child(s, k).Ok? && Child(t, k).Ok?
      then Explains(Child(s, k).value, Child(t, k).value, p + [k], us, operation)
      else ForOneOnly(s, t, p, k, operation)
    ensures operation in Operations(s, t, ToString(p))
    decreases |us|, 1
  {
    var path, a, b := ToString(p), s.members, t.members;
    ChildOfObject(a, k);
    ChildOfObject(b, k);
    assert k in a && k in b ==> Sized(a[k]) && Sized(b[k]);
    ObjectsHave(s, t, path, k, operation);
    hide *;
    KeyPathText(p, k);
    if k in a && k in b {
      ExplainedIsOperation(a[k], b[k], p + [k], us, operation);
    } else {
      NamedOfChild(s, k);
      OneOnlyIs(s, t, p, k, operation);
    }
  }

  /** What the parts of a diff of two objects hold for a key. */
  lemma ObjectsHave(s: Json, t: Json, path: string, k: string, operation: Json)
    requires s != t && s.Object? && t.Object?
    ensures k in s.members && k in t.members ==>
      operation in Operations(s.members[k], t.members[k], KeyPath(path, k)) ==> operation in Operations(s, t, path)
    ensures k in s.members && k !in t.members && operation == RemoveOperation(KeyPath(path, k)) ==>
      operation in Operations(s, t, path)
    ensures k !in s.members && k in t.members && operation == AddOperation(KeyPath(path, k), t.members[k]) ==>
      operation in Operations(s, t, path)
  {
    var keys, added := SortedKeys(s.members.Keys), SortedKeys(t.members.Keys);
    InKeys(s, t, path, keys, operation);
    InAdditions(s.members, t.members, path, added, operation);
    InDiffOfObjects(s, t, path, operation);
    hide Operations, KeyOperations, Additions, SortedKeys, KeyPath, RemoveOperation, AddOperation;
    assert k in s.members ==> k in keys && (ForKey(s, t, path, k, operation) ==> operation in Operations(s, t, path));
  }

  lemma InDiffOfObjects(s: Json, t: Json, path: string, operation: Json)
    requires s != t && s.Object? && t.Object?
    ensures operation in Operations(s, t, path) <==>
      || operation in KeyOperations(s, t, path, SortedKeys(s.members.Keys))
      || operation in Additions(s.members, t.members, path, SortedKeys(t.members.Keys))
  {
    hide KeyOperations, Additions, SortedKeys;
  }

  /**
   * The operations of a diff: replacements where source and target have different values that are not two arrays or
   * two objects, removals where only the source has a value, additions where only the target has one, each time
   * right below what both have as an array or as an object; and nothing else.
   */
  lemma DiffExactly(s: Json, t: Json, p: seq<string>, operation: Json)
    requires Sized(s) && Sized(t)
    ensures operation in Operations(s, t, ToString(p)) <==> exists ts :: Explains(s, t, p, ts, operation)
  {
    hide Explains, Operations, ToString;
    if operation in Operations(s, t, ToString(p)) {
      var ts := OperationIsExplained(s, t, p, operation);
    }
    forall ts | Explains(s, t, p, ts, operation) ensures operation in Operations(s, t, ToString(p)) {
      ExplainedIsOperation(s, t, p, ts, operation);
    }
  }
}
