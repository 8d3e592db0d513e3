/** The exact condition under which `unflatten` undoes `flatten`. */
module FlattenExact {
  import opened Results
  import opened Escaping
  import opened Pointer
  import opened Ordering
  import opened Documents
  import opened Flatten
  import opened FlattenPaths
  import opened Rebuild
  import opened FlattenOrder
  import opened FlattenCorrect

  // ---------- A container of the wrong kind stays ----------

  /** At `c`, `built` has an object where `j` has an array, or the other way round. */
  ghost predicate WrongKind(built: Json, j: Json, c: Path) {
    && At(built, c).Ok? && At(j, c).Ok? && !IsLeaf(At(j, c).value)
    && ((At(built, c).value.Array? && At(j, c).value.Object?) || (At(built, c).value.Object? && At(j, c).value.Array?))
  }

  /** No path of a leaf is a prefix of the path of a non-empty container. */
  lemma {:induction false} LeafNotAbove(j: Json, p: Path, c: Path)
    requires LeafAt(j, p) && At(j, c).Ok? && !IsLeaf(At(j, c).value)
    ensures !(p <= c)
  {
    if p <= c {
      if p == [] {
        if c != [] { LeafHasNoChild(j, c[0]); }
      } else {
        assert p[0] == c[0] && p[1..] <= c[1..];
        LeafNotAbove(Child(j, p[0]).value, p[1..], c[1..]);
      }
    }
  }

  lemma CreateStep(j: Json, p: Path, v: Json)
    requires p != [] && !IsPrimitive(j) && CreateAt(j, p, v).Ok?
    ensures var after := CreateAt(j, p, v).value;
      && SameType(after, j)
      && (forall t :: t != p[0] && Child(j, t).Ok? ==> Child(after, t) == Child(j, t))
      && (Child(j, p[0]).Ok? ==>
           var inner := CreateAt(Child(j, p[0]).value, p[1..], v);
           inner.Ok? && Child(after, p[0]) == inner)
  {
    if j.Array? {
      forall t | t != p[0] && Child(j, t).Ok? ensures Child(CreateAt(j, p, v).value, t) == Child(j, t) {
        DigitsOfArrayIndex(t);
        DigitsOfArrayIndex(p[0]);
      }
    }
  }

  /** Later assignments do not change the kind of a container they do not overwrite. */
  lemma {:induction false} KindStays(built: Json, c: Path, p: Path, v: Json)
    requires At(built, c).Ok? && !IsPrimitive(At(built, c).value)
    requires !(p <= c) && CreateAt(built, p, v).Ok?
    ensures At(CreateAt(built, p, v).value, c).Ok?
    ensures SameType(At(CreateAt(built, p, v).value, c).value, At(built, c).value)
    decreases |c|
  {
    hide CreateAt, Child;
    if c == [] {
      CreateStep(built, p, v);
    } else {
      ChildMeansContainer(built, c[0]);
      CreateStep(built, p, v);
      if p[0] == c[0] {
        assert p == [p[0]] + p[1..] && c == [c[0]] + c[1..];
        KindStays(Child(built, c[0]).value, c[1..], p[1..], v);
      }
    }
  }

  lemma ChildMeansContainer(j: Json, t: string)
    requires Child(j, t).Ok?
    ensures !IsPrimitive(j)
  {
  }

  lemma {:induction false} WrongKindStays(j: Json, flat: map<string, Json>, keys: seq<string>, n: nat, built: Json,
      c: Path)
    requires Lists(j, flat, keys) && n <= |keys| && WrongKind(built, j, c)
    requires forall k :: k in keys ==> k in flat
    ensures CreateAll(built, flat, keys[n..]).Ok? ==> WrongKind(CreateAll(built, flat, keys[n..]).value, j, c)
    decreases |keys| - n
  {
    hide Lists, CreateAll, CreateAt, LeafAt, Child, At, TokensOf, Parse;
    if n == |keys| {
      CreateAllNothing(built, flat);
      assert keys[n..] == [];
    } else {
      KeyFacts(j, flat, keys, n);
      CreateAllNext(built, flat, keys, n);
      var p := TokensOf(keys[n]);
      LeafNotAbove(j, p, c);
      if CreateAt(built, p, flat[keys[n]]).Ok? {
        KindStays(built, c, p, flat[keys[n]]);
        WrongKindStays(j, flat, keys, n + 1, CreateAt(built, p, flat[keys[n]]).value, c);
      }
    }
  }

  // ---------- The first wrong decision ----------

  /** The first wrong decision puts an array where an object should be, or an object where an array should be. */
  lemma {:induction false} WrongStep(j: Json, seen: set<Path>, p: Path, v: Json) returns (c: Path)
    requires Sized(j) && AllLeaves(j, seen) && LeafAt(j, p) && !Decides(j, seen, p)
    requires CreateAt(Partial(j, seen), p, v).Ok?
    ensures WrongKind(CreateAt(Partial(j, seen), p, v).value, j, c)
    decreases |p|
  {
    var t, after := p[0], CreateAt(Partial(j, seen), p, v).value;
    NotALeaf(j, p);
    if seen == {} && !(j.Array? <==> t == "0") {
      c := [];
    } else {
      var child := Child(j, t).value;
      AllLeavesBelow(j, seen, t);
      ChildCreated(j, seen, p, v);
      ReconstructibleChild(j, t);
      hide CreateAt, Partial, Sized, Reconstructible;
      var d := WrongStep(child, Below(seen, t), p[1..], v);
      c := [t] + d;
      assert c[1..] == d;
    }
  }

  lemma ChildCreated(j: Json, seen: set<Path>, p: Path, v: Json)
    requires Sized(j) && AllLeaves(j, seen) && LeafAt(j, p) && p != []
    requires seen == {} ==> (j.Array? <==> p[0] == "0")
    requires CreateAt(Partial(j, seen), p, v).Ok?
    ensures var built := CreateAt(Partial(Child(j, p[0]).value, Below(seen, p[0])), p[1..], v);
      built.Ok? && Child(CreateAt(Partial(j, seen), p, v).value, p[0]) == built
  {
    var t, child := p[0], Child(j, p[0]).value;
    NotALeaf(j, p);
    PartialOfNothing(child);
    if seen == {} {
      PartialOfNothing(j);
      NothingBelow(t);
      EscapeZero();
      ArrayIndexOfDigits(0);
      hide Partial, Below, LeafAt, Sized, AllLeaves, Digits;
    } else if j.Array? {
      PartialOfSome(j, seen);
      DigitsOfArrayIndex(t);
      ResizedElements(j, seen, ArrayIndex(t).value + 1, ArrayIndex(t).value);
      hide Partial, Below, LeafAt, Sized, AllLeaves, Digits, PartialElements, ArrayIndex;
    } else {
      PartialOfSome(j, seen);
      hide Partial, Below, LeafAt, Sized, AllLeaves;
    }
  }

  lemma {:induction false} NullifiedKeepsKind(j: Json, c: Path)
    requires At(j, c).Ok? && !IsLeaf(At(j, c).value)
    ensures At(Nullified(j), c).Ok? && SameType(At(Nullified(j), c).value, At(j, c).value)
  {
    if c != [] {
      NullifiedKeepsKind(Child(j, c[0]).value, c[1..]);
    }
  }

  lemma WrongKindDiffers(built: Json, j: Json, c: Path)
    requires WrongKind(built, j, c)
    ensures built != Nullified(j)
  {
    NullifiedKeepsKind(j, c);
  }

  lemma FirstFailure(j: Json, keys: seq<string>, n: nat) returns (m: nat)
    requires n < |keys| && !DecidesAt(j, keys, n)
    ensures m <= n && !DecidesAt(j, keys, m)
    ensures forall i :: 0 <= i < m ==> DecidesAt(j, keys, i)
  {
    hide DecidesAt;
    m := 0;
    while DecidesAt(j, keys, m)
      invariant m <= n
      invariant forall i :: 0 <= i < m ==> DecidesAt(j, keys, i)
      decreases n - m
    {
      m := m + 1;
    }
  }

  lemma NotRebuiltUnlessAllDecide(j: Json, flat: map<string, Json>, keys: seq<string>)
    requires Sized(j) && Lists(j, flat, keys) && !AllDecide(j, keys)
    ensures CreateAll(Null, flat, keys) != Ok(Nullified(j))
  {
    hide CreateAll, CreateAt, Partial, Lists, LeafAt, Parse, WrongKind, Nullified, Sized;
    var n :| 0 <= n < |keys| && !DecidesAt(j, keys, n);
    var m := FirstFailure(j, keys, n);
    CreateAllFrom(j, flat, keys, 0, m);
    assert keys[0..] == keys && Seen(keys, 0) == {};
    PartialOfNothing(j);
    KeyFacts(j, flat, keys, m);
    SeenLeaves(j, flat, keys, m);
    var state, p := Partial(j, Seen(keys, m)), TokensOf(keys[m]);
    CreateAllNext(state, flat, keys, m);
    if CreateAt(state, p, flat[keys[m]]).Ok? {
      var c := WrongStep(j, Seen(keys, m), p, flat[keys[m]]);
      var built := CreateAt(state, p, flat[keys[m]]).value;
      WrongKindStays(j, flat, keys, m + 1, built, c);
      if CreateAll(built, flat, keys[m + 1..]).Ok? {
        WrongKindDiffers(CreateAll(built, flat, keys[m + 1..]).value, j, c);
      }
    }
  }

  // ---------- Deciding rightly means that all objects show as objects ----------

  lemma {:induction false} LeafBelow(j: Json, c: Path, q: Path)
    requires At(j, c).Ok?
    ensures LeafAt(j, c + q) == LeafAt(At(j, c).value, q)
  {
    if c == [] {
      assert c + q == q;
    } else {
      assert (c + q)[1..] == c[1..] + q;
      LeafBelow(Child(j, c[0]).value, c[1..], q);
    }
  }

  /** Nothing below `c` has been seen, so the next path through `c` decides what is made there. */
  lemma {:induction false} DecidesAlong(j: Json, seen: set<Path>, c: Path, p: Path)
    requires At(j, c).Ok? && p != [] && LeafAt(j, c + p) && Decides(j, seen, c + p)
    requires forall q :: q in seen ==> !(c <= q)
    ensures At(j, c).value.Array? <==> p[0] == "0"
  {
    if c == [] {
      assert c + p == p;
      assert forall q :: q in seen ==> c <= q;
    } else {
      assert (c + p)[1..] == c[1..] + p;
      forall q | q in Below(seen, c[0]) ensures !(c[1..] <= q) {
        BelowHas(seen, c[0], q);
        assert (c <= [c[0]] + q) == (c[1..] <= q);
      }
      DecidesAlong(Child(j, c[0]).value, Below(seen, c[0]), c[1..], p);
    }
  }

  /** An object that does not show as one. */
  lemma {:induction false} FindHidden(j: Json) returns (c: Path)
    requires Sized(j) && !Reconstructible(j)
    ensures At(j, c).Ok? && At(j, c).value.Object? && Sized(At(j, c).value)
    ensures !ShowsAsObject(At(j, c).value.members)
  {
    if j.Array? {
      var i :| 0 <= i < |j.elems| && !Reconstructible(j.elems[i]);
      var d := FindHidden(j.elems[i]);
      IndexChild(j, [], i);
      c := [Digits(i)] + d;
      assert c[1..] == d;
    } else if !ShowsAsObject(j.members) {
      c := [];
    } else {
      var k :| k in j.members && !Reconstructible(j.members[k]);
      var d := FindHidden(j.members[k]);
      c := [k] + d;
      assert c[1..] == d;
    }
  }

  /** The first key below `c`. */
  lemma FirstBelow(keys: seq<string>, c: Path, n: nat) returns (m: nat)
    requires n < |keys| && c <= TokensOf(keys[n])
    ensures m <= n && c <= TokensOf(keys[m])
    ensures forall q :: q in Seen(keys, m) ==> !(c <= q)
  {
    hide TokensOf;
    m := 0;
    while !(c <= TokensOf(keys[m]))
      invariant m <= n
      invariant forall i :: 0 <= i < m ==> !(c <= TokensOf(keys[i]))
      decreases n - m
    {
      m := m + 1;
    }
  }

  lemma LeafIndex(j: Json, flat: map<string, Json>, keys: seq<string>, q: Path) returns (i: nat)
    requires Lists(j, flat, keys) && LeafAt(j, q)
    ensures i < |keys| && TokensOf(keys[i]) == q
  {
    ParseToString(q);
    i :| 0 <= i < |keys| && keys[i] == ToString(q);
  }

  /** The first path through an object that does not show as one goes through its key "0". */
  lemma FirstGoesThroughZero(j: Json, flat: map<string, Json>, keys: seq<string>, n: nat, c: Path, p: Path, x: Path)
    requires Lists(j, flat, keys) && n < |keys| && TokensOf(keys[n]) == c + p && p != []
    requires At(j, c).Ok? && At(j, c).value.Object? && !ShowsAsObject(At(j, c).value.members)
    requires LeafAt(At(j, c).value.members["0"], x)
    requires forall q :: q in Seen(keys, n) ==> !(c <= q)
    ensures p[0] == "0"
  {
    hide Lists, Seen, ToString, TokensOf, Less, SortsBeforeZero, Escape;
    var ms := At(j, c).value.members;
    KeyFacts(j, flat, keys, n);
    LeafBelow(j, c, p);
    if p[0] != "0" {
      assert p[0] in ms && !SortsBeforeZero(p[0], ms["0"]);
      AfterZero(p[0], p[1..], ms["0"], x);
      EscapeZero();
      ThroughOrder(c, "0", x, p[0], p[1..]);
      assert p == [p[0]] + p[1..];
      LeafThrough(At(j, c).value, "0", x);
      LeafBelow(j, c, ["0"] + x);
      TextOf(j, flat, keys, n);
      assert c <= c + (["0"] + x);
      EarlierSeen(j, flat, keys, n, c + (["0"] + x));
    }
  }

  lemma DecidesReconstructible(j: Json, flat: map<string, Json>, keys: seq<string>)
    requires Sized(j) && Lists(j, flat, keys) && AllDecide(j, keys)
    ensures Reconstructible(j)
  {
    hide Lists, Seen, TokensOf, Reconstructible, LeafAt, At, Decides;
    if !Reconstructible(j) {
      var c := FindHidden(j);
      var here := At(j, c).value;
      assert "0" in here.members;
      var x := HiddenLeaf(here);
      LeafThrough(here, "0", x);
      LeafBelow(j, c, ["0"] + x);
      var i := LeafIndex(j, flat, keys, c + (["0"] + x));
      var n := FirstBelow(keys, c, i);
      KeyFacts(j, flat, keys, n);
      var p := TokensOf(keys[n])[|c|..];
      assert TokensOf(keys[n]) == c + p;
      LeafBelow(j, c, p);
      LeafOfContainer(here, p);
      FirstGoesThroughZero(j, flat, keys, n, c, p, x);
      assert DecidesAt(j, keys, n);
      DecidesAlong(j, Seen(keys, n), c, p);
    }
  }

  lemma HiddenLeaf(j: Json) returns (x: Path)
    requires j.Object? && Sized(j) && "0" in j.members
    ensures LeafAt(j.members["0"], x)
  {
    x := HasLeaf(j.members["0"]);
  }

  lemma LeafOfContainer(j: Json, p: Path)
    requires j.Object? && j.members != map[] && LeafAt(j, p)
    ensures p != []
  {
  }

  // ---------- Main results ----------

  /** What `unflatten` makes of `flatten(j)`. */
  function RoundTrip(j: Json): Result<Json> {
    Unflattened(Object(FlattenInto("", j, map[])))
  }

  /**
   * Flattening and unflattening give the document back, empty containers replaced by null, exactly when
   * every object shows as an object in the flattened form.
   */
  lemma RoundTripExact(j: Json)
    requires Sized(j)
    ensures RoundTrip(j) == Ok(Nullified(j)) <==> Reconstructible(j)
  {
    var flat := FlattenInto("", j, map[]);
    var keys := SortedKeys(flat.Keys);
    FlattenLists(j);
    RoundTripSteps(j);
    hide *;
    if Reconstructible(j) {
      ReconstructibleDecides(j, flat, keys);
      RebuiltWhenAllDecide(j, flat, keys);
    } else {
      if AllDecide(j, keys) {
        DecidesReconstructible(j, flat, keys);
      }
      NotRebuiltUnlessAllDecide(j, flat, keys);
    }
  }

  /** The same of the program's two calls. */
  method FlattenThenUnflatten(j: Json) returns (r: Result<Json>)
    requires Sized(j)
    ensures r == Ok(Nullified(j)) <==> Reconstructible(j)
  {
    hide Nullified, Reconstructible, FlattenInto, Unflattened;
    var flat := FlattenValue("", j, map[]);
    r := Unflatten(Object(flat));
    RoundTripExact(j);
  }

  lemma RoundTripSteps(j: Json)
    ensures var flat := FlattenInto("", j, map[]); RoundTrip(j) == CreateAll(Null, flat, SortedKeys(flat.Keys))
  {
    hide FlattenInto, CreateAll, SortedKeys;
  }

  /** In particular for every document in which no object has the key "0". */
  lemma RoundTripWithoutZeroKey(j: Json)
    requires Sized(j) && NoZeroKey(j)
    ensures RoundTrip(j) == Ok(Nullified(j))
  {
    NoZeroKeyReconstructible(j);
    RoundTripExact(j);
  }

  /** The object with the single key "0" does not come back. */
  lemma ZeroKeyIsLost()
    ensures RoundTrip(Object(map["0" := Null])) != Ok(Object(map["0" := Null]))
  {
    var j := Object(map["0" := Null]);
    assert !ShowsAsObject(j.members);
    assert Nullified(j).members == j.members;
    assert !Reconstructible(j) && Sized(j);
    hide *;
    RoundTripExact(j);
  }
}
