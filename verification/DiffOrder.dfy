/** In which order a diff has its operations. */
module DiffOrder {
  import opened Pointer
  import opened Ordering
  import opened Documents
  import opened Diff
  import opened DiffCorrect
  import opened DiffExact

  type Location = seq<string>

  /**
   * Of two children. In arrays by index, but those that only the source has come last index first; in objects first
   * those that the source has, and then by key.
   */
  ghost predicate ChildEarlier(s: Json, t: Json, k: string, l: string) {
    k != l &&
    if s.Array? && t.Array? then
      && ArrayIndex(k).Ok? && ArrayIndex(l).Ok?
      && var (i, j) := (ArrayIndex(k).value, ArrayIndex(l).value);
         if |t.elems| <= Min(i, j) && |t.elems| < |s.elems| then j < i else i < j
    else if Child(s, k).Ok? == Child(s, l).Ok? then Less(k, l)
    else Child(s, k).Ok?
  }

  /** Of two locations, by the children through which they part. */
  ghost predicate Earlier(s: Json, t: Json, a: Location, b: Location) {
    a != [] && b != [] &&
    if a[0] == b[0] then
      && Child(s, a[0]).Ok? && Child(t, a[0]).Ok?
      && Earlier(Child(s, a[0]).value, Child(t, a[0]).value, a[1..], b[1..])
    else ChildEarlier(s, t, a[0], b[0])
  }

  /** Each operation is for its place, and the places are in order. */
  ghost predicate Listed(s: Json, t: Json, p: Location, operations: seq<Json>, places: seq<Location>) {
    && |operations| == |places|
    && (forall i :: 0 <= i < |places| ==> Explains(s, t, p, places[i], operations[i]))
    && forall i, j :: 0 <= i < j < |places| ==> Earlier(s, t, places[i], places[j])
  }

  /** All differences at or below these children are among the places, and no others. */
  ghost predicate Covers(s: Json, t: Json, p: Location, ks: seq<string>, places: seq<Location>) {
    && (forall ts, operation :: Explains(s, t, p, ts, operation) && ts != [] && ts[0] in ks ==> ts in places)
    && forall i :: 0 <= i < |places| ==> places[i] != [] && places[i][0] in ks
  }

  ghost predicate InOrder(s: Json, t: Json, ks: seq<string>) {
    forall i, j :: 0 <= i < j < |ks| ==> ChildEarlier(s, t, ks[i], ks[j])
  }

  // ---------- The operations, child by child ----------

  ghost function PartOf(s: Json, t: Json, p: Location, k: string): seq<Json> {
    if Child(s, k).Ok? && Child(t, k).Ok? then Operations(Child(s, k).value, Child(t, k).value, ToString(p + [k]))
    else if Child(s, k).Ok? then [RemoveOperation(ToString(p + [k]))]
    else if Child(t, k).Ok? then [AddOperation(ToString(p + NamedFor(s, [k])), Child(t, k).value)]
    else []
  }

  ghost function PartsOf(s: Json, t: Json, p: Location, ks: seq<string>): seq<Json> {
    if ks == [] then [] else PartOf(s, t, p, ks[0]) + PartsOf(s, t, p, ks[1..])
  }

  lemma {:induction false} PartsConcat(s: Json, t: Json, p: Location, a: seq<string>, b: seq<string>)
    ensures PartsOf(s, t, p, a + b) == PartsOf(s, t, p, a) + PartsOf(s, t, p, b)
  {
    hide PartOf;
    if a == [] {
      assert a + b == b;
    } else {
      assert (a + b)[0] == a[0] && (a + b)[1..] == a[1..] + b;
      PartsConcat(s, t, p, a[1..], b);
    }
  }

  lemma PartsFirst(s: Json, t: Json, p: Location, k: string, ks: seq<string>)
    ensures PartsOf(s, t, p, []) == []
    ensures PartsOf(s, t, p, [k] + ks) == PartOf(s, t, p, k) + PartsOf(s, t, p, ks)
  {
    hide PartOf;
    assert ([k] + ks)[1..] == ks;
  }

  // ---------- arrays ----------

  function Upward(low: nat, high: nat): (ks: seq<string>)
    ensures |ks| == if low < high then high - low else 0
    ensures forall i :: 0 <= i < |ks| ==> ks[i] == Digits(low + i)
    decreases high - low
  {
    if high <= low then [] else [Digits(low)] + Upward(low + 1, high)
  }

  function Downward(low: nat, high: nat): (ks: seq<string>)
    ensures |ks| == if low < high then high - low else 0
    ensures forall i :: 0 <= i < |ks| ==> ks[i] == Digits(high - 1 - i)
    decreases high
  {
    if high <= low then [] else [Digits(high - 1)] + Downward(low, high - 1)
  }

  lemma ElementPart(s: Json, t: Json, p: Location, j: nat)
    requires s.Array? && t.Array? && |s.elems| <= SIZE_MAX && |t.elems| <= SIZE_MAX
    requires j < |s.elems| || j < |t.elems|
    ensures PartOf(s, t, p, Digits(j)) ==
      if j < |s.elems| && j < |t.elems| then Operations(s.elems[j], t.elems[j], IndexPath(ToString(p), j))
      else if j < |s.elems| then [RemoveOperation(IndexPath(ToString(p), j))]
      else [AddOperation(ToString(p) + "/-", t.elems[j])]
  {
    ChildIs(s.elems, j);
    ChildIs(t.elems, j);
    IndexPathText(p, j);
    DashPathText(p);
    NamedOfChild(s, Digits(j));
    hide Child, Digits, Operations, ToString, IndexPath, NamedFor;
  }

  lemma {:induction false} ElementParts(s: Json, t: Json, p: Location, i: nat)
    requires s.Array? && t.Array? && |s.elems| <= SIZE_MAX && |t.elems| <= SIZE_MAX
    ensures ElementOperations(s, t, ToString(p), i) == PartsOf(s, t, p, Upward(i, Min(|s.elems|, |t.elems|)))
    decreases |s.elems| - i
  {
    hide PartOf, PartsOf, Digits, Operations, ToString, IndexPath;
    if i < |s.elems| && i < |t.elems| {
      ElementPart(s, t, p, i);
      ElementParts(s, t, p, i + 1);
      PartsFirst(s, t, p, Digits(i), Upward(i + 1, Min(|s.elems|, |t.elems|)));
    } else {
      PartsFirst(s, t, p, "", []);
    }
  }

  lemma {:induction false} RemovedParts(s: Json, t: Json, p: Location, low: nat, high: nat)
    requires s.Array? && t.Array? && |s.elems| <= SIZE_MAX && |t.elems| <= SIZE_MAX
    requires |t.elems| <= low && high <= |s.elems|
    ensures Removals(ToString(p), low, high) == PartsOf(s, t, p, Downward(low, high))
    decreases high
  {
    hide PartOf, PartsOf, Digits, Operations, ToString, IndexPath, RemoveOperation;
    if low < high {
      ElementPart(s, t, p, high - 1);
      RemovedParts(s, t, p, low, high - 1);
      PartsFirst(s, t, p, Digits(high - 1), Downward(low, high - 1));
    } else {
      PartsFirst(s, t, p, "", []);
    }
  }

  lemma {:induction false} AppendedParts(s: Json, t: Json, p: Location, i: nat)
    requires s.Array? && t.Array? && |s.elems| <= SIZE_MAX && |t.elems| <= SIZE_MAX && |s.elems| <= i
    ensures Appends(ToString(p), t.elems, i) == PartsOf(s, t, p, Upward(i, |t.elems|))
    decreases |t.elems| - i
  {
    hide PartOf, PartsOf, Digits, Operations, ToString, IndexPath, AddOperation;
    if i < |t.elems| {
      ElementPart(s, t, p, i);
      AppendedParts(s, t, p, i + 1);
      PartsFirst(s, t, p, Digits(i), Upward(i + 1, |t.elems|));
    } else {
      PartsFirst(s, t, p, "", []);
    }
  }

  /** The elements of two arrays in the order of the diff. */
  function ElementOrder(a: nat, b: nat): seq<string> {
    Upward(0, Min(a, b)) + Downward(b, a) + Upward(a, b)
  }

  lemma ArrayParts(s: Json, t: Json, p: Location)
    requires s.Array? && t.Array? && |s.elems| <= SIZE_MAX && |t.elems| <= SIZE_MAX && s != t
    ensures Operations(s, t, ToString(p)) == PartsOf(s, t, p, ElementOrder(|s.elems|, |t.elems|))
  {
    var a, b := |s.elems|, |t.elems|;
    ElementParts(s, t, p, 0);
    if b <= a {
      RemovedParts(s, t, p, b, a);
    }
    AppendsAfter(s, t, p);
    OperationsOfArrays(s, t, ToString(p));
    hide *;
    PartsConcat(s, t, p, Upward(0, Min(a, b)), Downward(b, a));
    PartsConcat(s, t, p, Upward(0, Min(a, b)) + Downward(b, a), Upward(a, b));
    ElementOrderIs(a, b);
    if a < b {
      NothingRemoved(s, t, p);
    }
  }

  lemma ElementOrderIs(a: nat, b: nat)
    ensures ElementOrder(a, b) == Upward(0, Min(a, b)) + Downward(b, a) + Upward(a, b)
  {
  }

  lemma NothingRemoved(s: Json, t: Json, p: Location)
    requires s.Array? && t.Array? && |s.elems| < |t.elems|
    ensures Removals(ToString(p), |t.elems|, |s.elems|) == []
    ensures PartsOf(s, t, p, Downward(|t.elems|, |s.elems|)) == []
  {
    hide ToString;
  }

  lemma AppendsAfter(s: Json, t: Json, p: Location)
    requires s.Array? && t.Array? && |s.elems| <= SIZE_MAX && |t.elems| <= SIZE_MAX
    ensures Appends(ToString(p), t.elems, Min(|s.elems|, |t.elems|))
         == PartsOf(s, t, p, Upward(|s.elems|, |t.elems|))
  {
    hide ToString, Digits;
    if |s.elems| <= |t.elems| {
      AppendedParts(s, t, p, |s.elems|);
    }
  }

  lemma OperationsOfArrays(s: Json, t: Json, path: string)
    requires s.Array? && t.Array? && s != t
    ensures Operations(s, t, path) == ElementOperations(s, t, path, 0) + Removals(path, |t.elems|, |s.elems|)
      + Appends(path, t.elems, Min(|s.elems|, |t.elems|))
  {
    hide ElementOperations, Removals, Appends;
  }

  // ---------- objects ----------

  /** The keys that the source lacks. */
  function Missing(keys: seq<string>, source: map<string, Json>): (ks: seq<string>)
    ensures forall k :: k in ks <==> k in keys && k !in source
  {
    if keys == [] then [] else (if keys[0] in source then [] else [keys[0]]) + Missing(keys[1..], source)
  }

  lemma MemberPart(s: Json, t: Json, p: Location, k: string)
    requires s.Object? && t.Object? && (k in s.members || k in t.members)
    ensures PartOf(s, t, p, k) ==
      if k in s.members && k in t.members then Operations(s.members[k], t.members[k], KeyPath(ToString(p), k))
      else if k in s.members then [RemoveOperation(KeyPath(ToString(p), k))]
      else [AddOperation(KeyPath(ToString(p), k), t.members[k])]
  {
    ChildOfObject(s.members, k);
    ChildOfObject(t.members, k);
    KeyPathText(p, k);
    NamedOfChild(s, k);
    hide Child, Operations, ToString, KeyPath, NamedFor;
  }

  lemma {:induction false} KeyParts(s: Json, t: Json, p: Location, keys: seq<string>)
    requires s.Object? && t.Object? && forall k :: k in keys ==> k in s.members
    ensures KeyOperations(s, t, ToString(p), keys) == PartsOf(s, t, p, keys)
    decreases |keys|
  {
    hide PartOf, Operations, ToString, KeyPath, RemoveOperation;
    if keys != [] {
      MemberPart(s, t, p, keys[0]);
      KeyParts(s, t, p, keys[1..]);
    }
  }

  lemma {:induction false} AddedParts(s: Json, t: Json, p: Location, keys: seq<string>)
    requires s.Object? && t.Object? && forall k :: k in keys ==> k in t.members
    ensures Additions(s.members, t.members, ToString(p), keys) == PartsOf(s, t, p, Missing(keys, s.members))
    decreases |keys|
  {
    hide PartOf, PartsOf, ToString, KeyPath, AddOperation;
    if keys == [] {
      PartsFirst(s, t, p, "", []);
    } else {
      AddedParts(s, t, p, keys[1..]);
      if keys[0] in s.members {
        assert [] + Missing(keys[1..], s.members) == Missing(keys[1..], s.members);
      } else {
        MemberPart(s, t, p, keys[0]);
        PartsFirst(s, t, p, keys[0], Missing(keys[1..], s.members));
      }
    }
  }

  /** The members of two objects in the order of the diff. */
  function MemberOrder(s: map<string, Json>, t: map<string, Json>): (ks: seq<string>) {
    SortedKeys(s.Keys) + Missing(SortedKeys(t.Keys), s)
  }

  lemma ObjectParts(s: Json, t: Json, p: Location)
    requires s.Object? && t.Object? && s != t
    ensures Operations(s, t, ToString(p)) == PartsOf(s, t, p, MemberOrder(s.members, t.members))
  {
    KeyParts(s, t, p, SortedKeys(s.members.Keys));
    AddedParts(s, t, p, SortedKeys(t.members.Keys));
    OperationsOfObjects(s, t, ToString(p));
    MemberOrderIs(s.members, t.members);
    hide *;
    PartsConcat(s, t, p, SortedKeys(s.members.Keys), Missing(SortedKeys(t.members.Keys), s.members));
  }

  lemma MemberOrderIs(s: map<string, Json>, t: map<string, Json>)
    ensures MemberOrder(s, t) == SortedKeys(s.Keys) + Missing(SortedKeys(t.Keys), s)
  {
  }

  lemma OperationsOfObjects(s: Json, t: Json, path: string)
    requires s.Object? && t.Object? && s != t
    ensures Operations(s, t, path) == KeyOperations(s, t, path, SortedKeys(s.members.Keys))
      + Additions(s.members, t.members, path, SortedKeys(t.members.Keys))
  {
    hide KeyOperations, Additions, SortedKeys;
  }

  // ---------- The order of the children ----------

  ghost function Order(s: Json, t: Json): seq<string>
    requires SameContainer(s, t)
  {
    if s.Array? then ElementOrder(|s.elems|, |t.elems|) else MemberOrder(s.members, t.members)
  }

  /** The element that comes at place `i`. */
  function PlaceInOrder(a: nat, b: nat, i: nat): nat
    requires i < a || i < b
  {
    if i < Min(a, b) || a <= b then i else a - 1 - (i - b)
  }

  lemma ElementAtPlace(a: nat, b: nat, i: nat)
    requires i < |ElementOrder(a, b)|
    ensures (i < a || i < b) && ElementOrder(a, b)[i] == Digits(PlaceInOrder(a, b, i))
  {
    hide Digits;
    var common, removed, added := Upward(0, Min(a, b)), Downward(b, a), Upward(a, b);
    assert ElementOrder(a, b) == common + removed + added;
    if i < |common| {
      assert ElementOrder(a, b)[i] == common[i];
    } else if b < a {
      assert ElementOrder(a, b)[i] == removed[i - b];
    } else {
      assert ElementOrder(a, b)[i] == added[i - a];
    }
  }

  lemma ElementsInOrder(s: Json, t: Json)
    requires s.Array? && t.Array? && |s.elems| <= SIZE_MAX && |t.elems| <= SIZE_MAX
    ensures InOrder(s, t, ElementOrder(|s.elems|, |t.elems|))
  {
    var a, b := |s.elems|, |t.elems|;
    var ks := ElementOrder(a, b);
    hide ElementOrder;
    forall i, j | 0 <= i < j < |ks| ensures ChildEarlier(s, t, ks[i], ks[j]) {
      ElementAtPlace(a, b, i);
      ElementAtPlace(a, b, j);
      ArrayIndexOfDigits(PlaceInOrder(a, b, i));
      ArrayIndexOfDigits(PlaceInOrder(a, b, j));
      hide ArrayIndex, Digits;
    }
  }

  lemma UpwardHas(low: nat, high: nat, x: nat)
    ensures low <= x < high ==> Digits(x) in Upward(low, high)
    ensures low <= x < high ==> Digits(x) in Downward(low, high)
  {
    hide Digits;
    if low <= x < high {
      assert Upward(low, high)[x - low] == Digits(x);
      assert Downward(low, high)[high - 1 - x] == Digits(x);
    }
  }

  lemma ElementIn(a: nat, b: nat, x: nat)
    requires x < a || x < b
    ensures Digits(x) in ElementOrder(a, b)
  {
    ElementOrderIs(a, b);
    hide *;
    UpwardHas(0, Min(a, b), x);
    UpwardHas(b, a, x);
    UpwardHas(a, b, x);
    MinIs(a, b);
  }

  lemma MinIs(a: nat, b: nat)
    ensures Min(a, b) == if a <= b then a else b
  {
  }

  lemma ElementsAll(s: Json, t: Json, k: string)
    requires s.Array? && t.Array? && |s.elems| <= SIZE_MAX && |t.elems| <= SIZE_MAX
    requires Child(s, k).Ok? || Child(t, k).Ok?
    ensures k in ElementOrder(|s.elems|, |t.elems|)
  {
    hide *;
    var x := IndexOfEither(s.elems, t.elems, k);
    ElementIn(|s.elems|, |t.elems|, x);
  }

  ghost predicate Ascending(ks: seq<string>) {
    forall i, j :: 0 <= i < j < |ks| ==> Less(ks[i], ks[j])
  }

  lemma AscendingFirst(k: string, ks: seq<string>)
    requires Ascending(ks) && forall l :: l in ks ==> Less(k, l)
    ensures Ascending([k] + ks)
  {
    hide Less;
    var all := [k] + ks;
    forall i, j | 0 <= i < j < |all| ensures Less(all[i], all[j]) {
      assert all[j] == ks[j - 1] && all[j] in ks;
    }
  }

  lemma AscendingRest(keys: seq<string>)
    requires keys != [] && Ascending(keys)
    ensures Ascending(keys[1..]) && forall l :: l in keys[1..] ==> Less(keys[0], l)
  {
    hide Less;
  }

  lemma {:induction false} MissingInOrder(keys: seq<string>, source: map<string, Json>)
    requires Ascending(keys)
    ensures Ascending(Missing(keys, source))
  {
    if keys != [] {
      AscendingRest(keys);
      hide Ascending, Less;
      MissingInOrder(keys[1..], source);
      var rest := Missing(keys[1..], source);
      if keys[0] in source {
        assert [] + rest == rest;
      } else {
        AscendingFirst(keys[0], rest);
      }
    }
  }

  lemma MembersInOrder(s: Json, t: Json)
    requires s.Object? && t.Object?
    ensures InOrder(s, t, MemberOrder(s.members, t.members))
  {
    SortedAscending(s.members.Keys);
    SortedAscending(t.members.Keys);
    MemberOrderIs(s.members, t.members);
    var sorted, missing := SortedKeys(s.members.Keys), Missing(SortedKeys(t.members.Keys), s.members);
    MissingInOrder(SortedKeys(t.members.Keys), s.members);
    assert forall k :: k in missing ==> k !in s.members;
    assert forall k :: k in sorted ==> k in s.members;
    hide *;
    KeysInOrder(s, t, sorted, missing);
  }

  lemma SortedAscending(keys: set<string>)
    ensures Ascending(SortedKeys(keys))
  {
    hide Less;
  }

  lemma OneBefore(s: Json, t: Json, k: string, l: string)
    requires s.Object? && t.Object?
    requires Less(k, l) || (k in s.members && l !in s.members)
    requires k !in s.members ==> l !in s.members
    ensures ChildEarlier(s, t, k, l)
  {
    LessIrreflexive(k);
    hide Less;
  }

  lemma KeysInOrder(s: Json, t: Json, sorted: seq<string>, missing: seq<string>)
    requires s.Object? && t.Object?
    requires forall k :: k in sorted ==> k in s.members
    requires forall k :: k in missing ==> k !in s.members
    requires Ascending(sorted) && Ascending(missing)
    ensures InOrder(s, t, sorted + missing)
  {
    var ks := sorted + missing;
    hide Less, ChildEarlier;
    forall i, j | 0 <= i < j < |ks| ensures ChildEarlier(s, t, ks[i], ks[j]) {
      assert ks[i] == if i < |sorted| then sorted[i] else missing[i - |sorted|];
      assert ks[j] == if j < |sorted| then sorted[j] else missing[j - |sorted|];
      OneBefore(s, t, ks[i], ks[j]);
    }
  }

  lemma MembersAll(s: Json, t: Json, k: string)
    requires s.Object? && t.Object? && (Child(s, k).Ok? || Child(t, k).Ok?)
    ensures k in MemberOrder(s.members, t.members)
  {
    hide SortedKeys;
  }

  lemma OrderIs(s: Json, t: Json, p: Location)
    requires Sized(s) && Sized(t) && SameContainer(s, t) && s != t
    ensures Operations(s, t, ToString(p)) == PartsOf(s, t, p, Order(s, t))
    ensures InOrder(s, t, Order(s, t))
    ensures forall k :: Child(s, k).Ok? || Child(t, k).Ok? ==> k in Order(s, t)
  {
    if s.Array? {
      ArrayParts(s, t, p);
      ElementsInOrder(s, t);
    } else {
      ObjectParts(s, t, p);
      MembersInOrder(s, t);
    }
    hide Operations, PartsOf, ElementOrder, MemberOrder, InOrder, Child;
    forall k | Child(s, k).Ok? || Child(t, k).Ok? ensures k in Order(s, t) {
      if s.Array? {
        ElementsAll(s, t, k);
      } else {
        MembersAll(s, t, k);
      }
    }
  }

  // ---------- Places ----------

  ghost function Prefixed(k: string, places: seq<Location>): (longer: seq<Location>)
    ensures |longer| == |places|
  {
    seq(|places|, i requires 0 <= i < |places| => [k] + places[i])
  }

  lemma EarlierBelow(s: Json, t: Json, k: string, a: Location, b: Location)
    requires Child(s, k).Ok? && Child(t, k).Ok? && Earlier(Child(s, k).value, Child(t, k).value, a, b)
    ensures Earlier(s, t, [k] + a, [k] + b)
  {
    hide Child, ChildEarlier;
    assert ([k] + a)[1..] == a && ([k] + b)[1..] == b;
  }

  /** The places within a child are places of the whole. */
  lemma PlacesBelow(s: Json, t: Json, p: Location, k: string, operations: seq<Json>, places: seq<Location>)
    requires SameContainer(s, t) && Child(s, k).Ok? && Child(t, k).Ok?
    requires Listed(Child(s, k).value, Child(t, k).value, p + [k], operations, places)
    ensures Listed(s, t, p, operations, Prefixed(k, places))
  {
    hide Explains, Earlier, Child, SameContainer;
    var longer := Prefixed(k, places);
    forall i | 0 <= i < |places| ensures Explains(s, t, p, longer[i], operations[i]) {
      ExplainsBelow(s, t, p, k, places[i], operations[i]);
    }
    forall i, j | 0 <= i < j < |places| ensures Earlier(s, t, longer[i], longer[j]) {
      EarlierBelow(s, t, k, places[i], places[j]);
    }
  }

  lemma PrefixedIn(k: string, us: Location, places: seq<Location>)
    requires us in places
    ensures [k] + us in Prefixed(k, places)
  {
    var i :| 0 <= i < |places| && places[i] == us;
    assert Prefixed(k, places)[i] == [k] + us;
  }

  lemma CoveredBelow(s: Json, t: Json, p: Location, k: string, places: seq<Location>)
    requires SameContainer(s, t) && Child(s, k).Ok? && Child(t, k).Ok?
    requires forall us, operation ::
      Explains(Child(s, k).value, Child(t, k).value, p + [k], us, operation) ==> us in places
    ensures Covers(s, t, p, [k], Prefixed(k, places))
  {
    var longer := Prefixed(k, places);
    assert forall i :: 0 <= i < |longer| ==> longer[i] != [] && longer[i][0] == k;
    hide Explains, Child, SameContainer, Prefixed;
    forall ts, operation | Explains(s, t, p, ts, operation) && ts != [] && ts[0] in [k] ensures ts in longer {
      var us := ts[1..];
      assert ts == [k] + us;
      ExplainsBelow(s, t, p, k, us, operation);
      PrefixedIn(k, us, places);
    }
  }

  lemma ListedOne(s: Json, t: Json, p: Location, k: string, operation: Json)
    requires Explains(s, t, p, [k], operation)
    ensures Listed(s, t, p, [operation], [[k]]) && Listed(s, t, p, [], [])
  {
    hide Explains, Earlier;
  }

  lemma ListedNone(s: Json, t: Json, p: Location)
    ensures Listed(s, t, p, [], []) && Covers(s, t, p, [], [])
  {
    hide Explains, Earlier;
  }

  /** What is explained at or below a child that not both have is explained at the child. */
  lemma PlaceOfChild(s: Json, t: Json, p: Location, k: string, ts: Location, operation: Json)
    requires SameContainer(s, t) && !(Child(s, k).Ok? && Child(t, k).Ok?)
    requires Explains(s, t, p, ts, operation) && ts != [] && ts[0] == k
    ensures ts == [k] && ForOneOnly(s, t, p, k, operation)
  {
    hide *;
    assert ts == [k] + ts[1..];
    ExplainsBelow(s, t, p, k, ts[1..], operation);
  }

  /** A child that only one of the values has is a place itself. */
  lemma PlaceHere(s: Json, t: Json, p: Location, k: string, operation: Json)
    requires SameContainer(s, t) && Child(s, k).Ok? != Child(t, k).Ok? && PartOf(s, t, p, k) == [operation]
    ensures Listed(s, t, p, [operation], [[k]]) && Covers(s, t, p, [k], [[k]])
  {
    assert ForOneOnly(s, t, p, k, operation);
    hide PartOf, ForOneOnly, Child, SameContainer, Explains, Listed;
    assert [k] + [] == [k];
    ExplainsBelow(s, t, p, k, [], operation);
    ListedOne(s, t, p, k, operation);
    forall ts, other | Explains(s, t, p, ts, other) && ts != [] && ts[0] in [k] ensures ts in [[k]] {
      PlaceOfChild(s, t, p, k, ts, other);
    }
  }

  lemma NoPlace(s: Json, t: Json, p: Location, k: string)
    requires SameContainer(s, t) && Child(s, k).Err? && Child(t, k).Err?
    ensures PartOf(s, t, p, k) == [] && Listed(s, t, p, [], []) && Covers(s, t, p, [k], [])
  {
    ListedNone(s, t, p);
    hide SameContainer, Explains, Listed;
    forall ts, other ensures !(Explains(s, t, p, ts, other) && ts != [] && ts[0] in [k]) {
      if Explains(s, t, p, ts, other) && ts != [] && ts[0] == k {
        PlaceOfChild(s, t, p, k, ts, other);
      }
    }
  }

  lemma ChildIsLess(j: Json, k: string)
    requires Child(j, k).Ok?
    ensures Child(j, k).value < j
    ensures Sized(j) ==> Sized(Child(j, k).value)
  {
    hide ArrayIndex;
    if j.Object? {
      assert j.members[k] < j;
    }
  }

  lemma {:induction false} PlacesOfPart(s: Json, t: Json, p: Location, k: string) returns (places: seq<Location>)
    requires Sized(s) && Sized(t) && SameContainer(s, t)
    ensures Listed(s, t, p, PartOf(s, t, p, k), places) && Covers(s, t, p, [k], places)
    decreases s, 0, 0
  {
    hide Listed, Covers, SameContainer, Explains, Child, Operations, Sized;
    if Child(s, k).Ok? && Child(t, k).Ok? {
      ChildIsLess(s, k);
      ChildIsLess(t, k);
      var inner := DiffInOrder(Child(s, k).value, Child(t, k).value, p + [k]);
      places := Prefixed(k, inner);
      PlacesBelow(s, t, p, k, PartOf(s, t, p, k), inner);
      CoveredBelow(s, t, p, k, inner);
    } else if Child(s, k).Ok? || Child(t, k).Ok? {
      places := [[k]];
      PlaceHere(s, t, p, k, PartOf(s, t, p, k)[0]);
    } else {
      places := [];
      NoPlace(s, t, p, k);
    }
  }

  lemma EarlierAcross(s: Json, t: Json, p: Location, k: string, ks: seq<string>, a: Location, b: Location)
    requires a != [] && b != [] && a[0] in [k] && b[0] in ks && forall l :: l in ks ==> ChildEarlier(s, t, k, l)
    ensures Earlier(s, t, a, b)
  {
    assert ChildEarlier(s, t, k, b[0]);
    hide Child;
  }

  lemma ListedConcat(s: Json, t: Json, p: Location, ops: seq<Json>, places: seq<Location>, more: seq<Json>,
      others: seq<Location>)
    requires Listed(s, t, p, ops, places) && Listed(s, t, p, more, others)
    requires forall i, j :: 0 <= i < |places| && 0 <= j < |others| ==> Earlier(s, t, places[i], others[j])
    ensures Listed(s, t, p, ops + more, places + others)
  {
    hide Explains, Earlier;
    var all, both := places + others, ops + more;
    forall i | 0 <= i < |all| ensures Explains(s, t, p, all[i], both[i]) {
      assert i < |places| ==> all[i] == places[i] && both[i] == ops[i];
      assert i >= |places| ==> all[i] == others[i - |places|] && both[i] == more[i - |places|];
    }
    forall i, j | 0 <= i < j < |all| ensures Earlier(s, t, all[i], all[j]) {
      assert all[i] == if i < |places| then places[i] else others[i - |places|];
      assert all[j] == if j < |places| then places[j] else others[j - |places|];
    }
  }

  lemma CoversConcat(s: Json, t: Json, p: Location, k: string, ks: seq<string>, places: seq<Location>,
      others: seq<Location>)
    requires Covers(s, t, p, [k], places) && Covers(s, t, p, ks, others)
    ensures Covers(s, t, p, [k] + ks, places + others)
  {
    hide Explains;
  }

  lemma PlacesConcat(s: Json, t: Json, p: Location, k: string, ks: seq<string>, ops: seq<Json>,
      places: seq<Location>, more: seq<Json>, others: seq<Location>)
    requires Listed(s, t, p, ops, places) && Covers(s, t, p, [k], places)
    requires Listed(s, t, p, more, others) && Covers(s, t, p, ks, others)
    requires forall l :: l in ks ==> ChildEarlier(s, t, k, l)
    ensures Listed(s, t, p, ops + more, places + others) && Covers(s, t, p, [k] + ks, places + others)
  {
    hide Listed, Earlier, Explains, ChildEarlier;
    forall i, j | 0 <= i < |places| && 0 <= j < |others| ensures Earlier(s, t, places[i], others[j]) {
      EarlierAcross(s, t, p, k, ks, places[i], others[j]);
    }
    ListedConcat(s, t, p, ops, places, more, others);
    CoversConcat(s, t, p, k, ks, places, others);
  }

  lemma InOrderRest(s: Json, t: Json, ks: seq<string>)
    requires ks != [] && InOrder(s, t, ks)
    ensures InOrder(s, t, ks[1..]) && forall l :: l in ks[1..] ==> ChildEarlier(s, t, ks[0], l)
    ensures [ks[0]] + ks[1..] == ks
  {
    hide ChildEarlier;
  }

  lemma {:induction false} PlacesOfParts(s: Json, t: Json, p: Location, ks: seq<string>)
    returns (places: seq<Location>)
    requires Sized(s) && Sized(t) && SameContainer(s, t) && InOrder(s, t, ks)
    ensures Listed(s, t, p, PartsOf(s, t, p, ks), places) && Covers(s, t, p, ks, places)
    decreases s, 1, |ks|
  {
    hide *;
    PartsFirst(s, t, p, "", []);
    if ks == [] {
      places := [];
      ListedNone(s, t, p);
    } else {
      var k, rest := ks[0], ks[1..];
      InOrderRest(s, t, ks);
      PartsFirst(s, t, p, k, rest);
      var first := PlacesOfPart(s, t, p, k);
      var others := PlacesOfParts(s, t, p, rest);
      PlacesConcat(s, t, p, k, rest, PartOf(s, t, p, k), first, PartsOf(s, t, p, rest), others);
      places := first + others;
    }
  }

  /** Only children can be places, when both values are containers of one kind. */
  lemma PlacesAreBelow(s: Json, t: Json, p: Location, ts: Location, operation: Json)
    requires SameContainer(s, t) && Explains(s, t, p, ts, operation)
    ensures ts != [] && (Child(s, ts[0]).Ok? || Child(t, ts[0]).Ok?)
  {
    hide SameContainer, Explains, Child;
    if ts == [] {
      ExplainsHere(s, t, p, operation);
    } else {
      assert ts == [ts[0]] + ts[1..];
      ExplainsBelow(s, t, p, ts[0], ts[1..], operation);
    }
  }

  /**
   * The whole diff: its operations are those for the places at which the two values differ, one for each, and in
   * order. As no place is earlier than itself, this leaves just one list of operations.
   */
  lemma {:induction false} DiffInOrder(s: Json, t: Json, p: Location) returns (places: seq<Location>)
    requires Sized(s) && Sized(t)
    ensures Listed(s, t, p, Operations(s, t, ToString(p)), places)
    ensures forall ts, operation :: Explains(s, t, p, ts, operation) ==> ts in places
    decreases s, 2, 0
  {
    if s == t {
      places := PlacesOfEqual(s, p);
    } else if !SameContainer(s, t) {
      places := PlacesApart(s, t, p);
    } else {
      OrderIs(s, t, p);
      hide *;
      places := PlacesOfParts(s, t, p, Order(s, t));
      AllPlaces(s, t, p, places);
    }
  }

  lemma AllPlaces(s: Json, t: Json, p: Location, places: seq<Location>)
    requires SameContainer(s, t) && Covers(s, t, p, Order(s, t), places)
    requires forall k :: Child(s, k).Ok? || Child(t, k).Ok? ==> k in Order(s, t)
    ensures forall ts, operation :: Explains(s, t, p, ts, operation) ==> ts in places
  {
    hide Explains, Order, Child, SameContainer;
    forall ts, operation | Explains(s, t, p, ts, operation) ensures ts in places {
      PlacesAreBelow(s, t, p, ts, operation);
    }
  }

  lemma PlacesOfEqual(s: Json, p: Location) returns (places: seq<Location>)
    ensures Listed(s, s, p, Operations(s, s, ToString(p)), places)
    ensures forall ts, operation :: Explains(s, s, p, ts, operation) ==> ts in places
  {
    places := [];
    assert Operations(s, s, ToString(p)) == [];
    hide *;
    ListedNone(s, s, p);
    forall ts, operation ensures !Explains(s, s, p, ts, operation) {
      ExplainsEqual(s, p, ts, operation);
    }
  }

  lemma PlacesApart(s: Json, t: Json, p: Location) returns (places: seq<Location>)
    requires s != t && !SameContainer(s, t)
    ensures Listed(s, t, p, Operations(s, t, ToString(p)), places)
    ensures forall ts, operation :: Explains(s, t, p, ts, operation) ==> ts in places
  {
    places := [[]];
    hide Explains, ToString, ReplaceOperation, SameContainer, Earlier;
    forall ts, operation ensures Explains(s, t, p, ts, operation) <==>
      ts == [] && operation == ReplaceOperation(ToString(p), t)
    {
      ExplainsApart(s, t, p, ts, operation);
    }
    OperationsApart(s, t, ToString(p));
  }

  lemma OperationsApart(s: Json, t: Json, path: string)
    requires s != t && !SameContainer(s, t)
    ensures Operations(s, t, path) == [ReplaceOperation(path, t)]
  {
  }

  /** Before is an order: no place comes before itself, and of two places not both come first. */
  lemma {:induction false} EarlierOnce(s: Json, t: Json, a: Location, b: Location)
    ensures !(Earlier(s, t, a, b) && Earlier(s, t, b, a))
    decreases |a|
  {
    if a != [] && b != [] {
      if a[0] == b[0] && Child(s, a[0]).Ok? && Child(t, a[0]).Ok? {
        EarlierOnce(Child(s, a[0]).value, Child(t, a[0]).value, a[1..], b[1..]);
      }
      ChildEarlierOnce(s, t, a[0], b[0]);
      hide Child, ChildEarlier;
    }
  }

  lemma ChildEarlierOnce(s: Json, t: Json, k: string, l: string)
    ensures !(ChildEarlier(s, t, k, l) && ChildEarlier(s, t, l, k))
  {
    LessOnce(k, l);
    hide Child, ArrayIndex, Less;
  }

  lemma LessOnce(a: string, b: string)
    ensures !(Less(a, b) && Less(b, a))
  {
    if Less(a, b) && Less(b, a) {
      LessTransitive(a, b, a);
      LessIrreflexive(a);
    }
  }
}
