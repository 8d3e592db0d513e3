/** What `unflatten` has built after some of the leaves, whatever the order they came in. */
module Rebuild {
  import opened Results
  import opened Pointer
  import opened Documents
  import opened Flatten
  import opened FlattenPaths

  /** The document with every empty array and object replaced by null. */
  function Nullified(j: Json): Json {
    if IsLeaf(j) then Flat(j)
    else if j.Array? then Array(seq(|j.elems|, i requires 0 <= i < |j.elems| => Nullified(j.elems[i])))
    else Object(map k | k in j.members :: Nullified(j.members[k]))
  }

  /** The rest of the paths in `seen` that go through the child `t`. */
  function Below(seen: set<Path>, t: string): set<Path> {
    set p | p in seen && p != [] && p[0] == t :: p[1..]
  }

  lemma BelowHas(seen: set<Path>, t: string, p: Path)
    ensures p in Below(seen, t) <==> [t] + p in seen
  {
    if [t] + p in seen { assert ([t] + p)[1..] == p; }
    if p in Below(seen, t) {
      var q :| q in seen && q != [] && q[0] == t && q[1..] == p;
      assert q == [t] + p;
    }
  }

  lemma BelowAdd(seen: set<Path>, t: string, p: Path)
    requires p != []
    ensures Below(seen + {p}, t) == if p[0] == t then Below(seen, t) + {p[1..]} else Below(seen, t)
  {
    forall q ensures q in Below(seen + {p}, t) <==> q in Below(seen, t) || (p[0] == t && q == p[1..]) {
      BelowHas(seen + {p}, t, q);
      BelowHas(seen, t, q);
      assert p == [p[0]] + p[1..];
    }
  }

  /** One more than the largest index below `n` through which a seen path goes. */
  function Extent(seen: set<Path>, n: nat): (e: nat)
    ensures e <= n
    ensures e > 0 ==> Below(seen, Digits(e - 1)) != {}
    ensures forall i :: e <= i < n ==> Below(seen, Digits(i)) == {}
  {
    if n == 0 then 0 else if Below(seen, Digits(n - 1)) != {} then n else Extent(seen, n - 1)
  }

  lemma {:induction false} ExtentIs(seen: set<Path>, n: nat, e: nat)
    requires e <= n
    requires e > 0 ==> Below(seen, Digits(e - 1)) != {}
    requires forall i :: e <= i < n ==> Below(seen, Digits(i)) == {}
    ensures Extent(seen, n) == e
  {
  }

  /** The document rebuilt from the leaves of `j` in `seen`: holes are null. */
  function Partial(j: Json, seen: set<Path>): Json
    decreases j, 1
  {
    if seen == {} then Null
    else if IsLeaf(j) then Flat(j)
    else if j.Array? then Array(PartialElements(j, seen))
    else Object(PartialMembers(j, seen))
  }

  function PartialElements(j: Json, seen: set<Path>): seq<Json>
    requires j.Array?
    decreases j, 0
  {
    seq(Extent(seen, |j.elems|), i requires 0 <= i < |j.elems| => Partial(j.elems[i], Below(seen, Digits(i))))
  }

  function PartialMembers(j: Json, seen: set<Path>): map<string, Json>
    requires j.Object?
    decreases j, 0
  {
    map k | k in j.members && Below(seen, k) != {} :: Partial(j.members[k], Below(seen, k))
  }

  ghost predicate AllLeaves(j: Json, seen: set<Path>) {
    forall p :: p in seen ==> LeafAt(j, p)
  }

  lemma AllLeavesBelow(j: Json, seen: set<Path>, t: string)
    requires AllLeaves(j, seen)
    ensures Child(j, t).Ok? ==> AllLeaves(Child(j, t).value, Below(seen, t))
    ensures Child(j, t).Err? ==> Below(seen, t) == {}
  {
    forall p | p in Below(seen, t) ensures Child(j, t).Ok? && LeafAt(Child(j, t).value, p) {
      BelowHas(seen, t, p);
      assert LeafAt(j, [t] + p);
      assert ([t] + p)[1..] == p;
    }
  }

  /** Coming to a still missing container, the path must show by its token "0" or another whether it is an array. */
  predicate Decides(j: Json, seen: set<Path>, p: Path)
    requires LeafAt(j, p)
  {
    p != [] ==>
      && (seen == {} ==> (j.Array? <==> p[0] == "0"))
      && Decides(Child(j, p[0]).value, Below(seen, p[0]), p[1..])
  }

  // ---------- One step ----------

  lemma BelowAddIndex(seen: set<Path>, p: Path, i: nat, x: nat)
    requires p != [] && p[0] == Digits(i)
    ensures Below(seen + {p}, Digits(x)) == if x == i then Below(seen, p[0]) + {p[1..]} else Below(seen, Digits(x))
  {
    BelowAdd(seen, Digits(x), p);
    DigitsValue(x);
    DigitsValue(i);
  }

  lemma ExtentAdd(seen: set<Path>, p: Path, i: nat, n: nat)
    requires p != [] && p[0] == Digits(i) && i < n
    ensures Extent(seen + {p}, n) == if Extent(seen, n) > i + 1 then Extent(seen, n) else i + 1
  {
    hide Below;
    forall x: nat
      ensures Below(seen + {p}, Digits(x)) == if x == i then Below(seen, p[0]) + {p[1..]} else Below(seen, Digits(x))
    {
      BelowAddIndex(seen, p, i, x);
    }
    ExtentIs(seen + {p}, n, if Extent(seen, n) > i + 1 then Extent(seen, n) else i + 1);
  }

  /** Also beyond the extent the elements are what has been seen of them, namely null. */
  lemma ResizedElements(j: Json, seen: set<Path>, n: nat, x: nat)
    requires j.Array? && n <= |j.elems| && x < |Resized(PartialElements(j, seen), n)|
    ensures x < |j.elems| && Resized(PartialElements(j, seen), n)[x] == Partial(j.elems[x], Below(seen, Digits(x)))
  {
    PartialOfNothing(j.elems[x]);
    hide Partial, Below, Digits;
  }

  /** The elements after one more leaf: grown if needed, and changed at that leaf's index. */
  lemma ElementsAdd(j: Json, seen: set<Path>, p: Path, i: nat)
    requires j.Array? && p != [] && p[0] == Digits(i) && i < |j.elems|
    ensures var grown := Resized(PartialElements(j, seen), i + 1);
      && grown[i] == Partial(j.elems[i], Below(seen, p[0]))
      && PartialElements(j, seen + {p}) == grown[i := Partial(j.elems[i], Below(seen, p[0]) + {p[1..]})]
  {
    var grown := Resized(PartialElements(j, seen), i + 1);
    var after := PartialElements(j, seen + {p});
    ExtentAdd(seen, p, i, |j.elems|);
    ResizedElements(j, seen, i + 1, i);
    assert |after| == |grown|;
    forall x | 0 <= x < |after|
      ensures after[x] == if x == i then Partial(j.elems[i], Below(seen, p[0]) + {p[1..]}) else grown[x]
    {
      BelowAddIndex(seen, p, i, x);
      ResizedElements(j, seen, i + 1, x);
      hide Partial, Below, Digits, Resized;
    }
    hide *;
  }

  lemma PartialOfNothing(j: Json)
    ensures Partial(j, {}) == Null
  {
  }

  lemma PartialOfSome(j: Json, seen: set<Path>)
    requires seen != {} && !IsLeaf(j)
    ensures j.Array? ==> Partial(j, seen) == Array(PartialElements(j, seen))
    ensures j.Object? ==> Partial(j, seen) == Object(PartialMembers(j, seen))
  {
  }

  lemma CreateInArray(es: seq<Json>, p: Path, v: Json, i: nat, c: Json)
    requires p != [] && ArrayIndex(p[0]) == Ok(i)
    requires CreateAt(Resized(es, i + 1)[i], p[1..], v) == Ok(c)
    ensures CreateAt(Array(es), p, v) == Ok(Array(Resized(es, i + 1)[i := c]))
  {
  }

  lemma CreateInNull(p: Path, v: Json, c: Json)
    requires p != [] && CreateAt(Null, p[1..], v) == Ok(c)
    ensures CreateAt(Null, p, v) == Ok(if p[0] == "0" then Array([c]) else Object(map[p[0] := c]))
  {
  }

  lemma CreateInObject(ms: map<string, Json>, p: Path, v: Json, c: Json)
    requires p != [] && CreateAt(if p[0] in ms then ms[p[0]] else Null, p[1..], v) == Ok(c)
    ensures CreateAt(Object(ms), p, v) == Ok(Object(ms[p[0] := c]))
  {
  }

  /** Leaf `p` put into the array built so far. */
  lemma ArrayStep(j: Json, seen: set<Path>, p: Path, v: Json)
    requires j.Array? && j.elems != [] && Sized(j) && p != [] && Child(j, p[0]).Ok?
    requires seen == {} ==> p[0] == "0"
    requires var below := Below(seen, p[0]);
      CreateAt(Partial(Child(j, p[0]).value, below), p[1..], v) == Ok(Partial(Child(j, p[0]).value, below + {p[1..]}))
    ensures CreateAt(Partial(j, seen), p, v) == Ok(Partial(j, seen + {p}))
  {
    var i := ArrayIndex(p[0]).value;
    assert Child(j, p[0]).value == j.elems[i];
    hide Partial, CreateAt, Below, PartialElements, Child, Resized;
    var c := Partial(j.elems[i], Below(seen, p[0]) + {p[1..]});
    DigitsOfArrayIndex(p[0]);
    ElementsAdd(j, seen, p, i);
    PartialOfSome(j, seen + {p});
    if seen == {} {
      DigitsValue(i);
      NothingBelow(p[0]);
      assert seen + {p} == {p};
      hide *;
      FirstElement(j, p, v, c);
    } else {
      PartialOfSome(j, seen);
      hide *;
      CreateInArray(PartialElements(j, seen), p, v, i, c);
    }
  }

  /** The first leaf of an array makes it one. */
  lemma FirstElement(j: Json, p: Path, v: Json, c: Json)
    requires j.Array? && j.elems != [] && p != [] && p[0] == "0"
    requires CreateAt(Partial(j.elems[0], {}), p[1..], v) == Ok(c)
    requires PartialElements(j, {p}) == Resized(PartialElements(j, {}), 1)[0 := c]
    requires Partial(j, {p}) == Array(PartialElements(j, {p}))
    ensures CreateAt(Partial(j, {}), p, v) == Ok(Partial(j, {p}))
  {
    PartialOfNothing(j);
    PartialOfNothing(j.elems[0]);
    PartialOfNone(j);
    hide Partial, CreateAt, PartialElements;
    CreateInNull(p, v, c);
    assert Resized([], 1)[0 := c] == [c];
  }

  lemma PartialOfNone(j: Json)
    requires j.Array?
    ensures PartialElements(j, {}) == []
  {
    NothingBelow(Digits(Extent({}, |j.elems|)));
    forall i: nat ensures Below({}, Digits(i)) == {} {
      NothingBelow(Digits(i));
    }
  }

  lemma NothingBelow(t: string)
    ensures Below({}, t) == {}
  {
  }

  lemma MembersAdd(j: Json, seen: set<Path>, p: Path)
    requires j.Object? && p != [] && p[0] in j.members
    ensures PartialMembers(j, seen + {p})
         == PartialMembers(j, seen)[p[0] := Partial(j.members[p[0]], Below(seen, p[0]) + {p[1..]})]
  {
    var before, after := PartialMembers(j, seen), PartialMembers(j, seen + {p});
    forall k
      ensures k in after <==> k == p[0] || k in before
      ensures k in after ==>
        after[k] == if k == p[0] then Partial(j.members[p[0]], Below(seen, p[0]) + {p[1..]}) else before[k]
    {
      BelowAdd(seen, k, p);
      hide Partial, Below;
    }
    hide *;
  }

  /** Leaf `p` put into the object built so far. */
  lemma ObjectStep(j: Json, seen: set<Path>, p: Path, v: Json)
    requires j.Object? && j.members != map[] && p != [] && p[0] in j.members
    requires seen == {} ==> p[0] != "0"
    requires var below := Below(seen, p[0]);
      CreateAt(Partial(j.members[p[0]], below), p[1..], v) == Ok(Partial(j.members[p[0]], below + {p[1..]}))
    ensures CreateAt(Partial(j, seen), p, v) == Ok(Partial(j, seen + {p}))
  {
    var ms, below := j.members, Below(seen, p[0]);
    var c := Partial(ms[p[0]], below + {p[1..]});
    MembersAdd(j, seen, p);
    PartialOfSome(j, seen + {p});
    PartialOfNothing(ms[p[0]]);
    if seen == {} {
      PartialOfNothing(j);
      assert below == {};
      assert PartialMembers(j, seen) == map[];
      hide Partial, CreateAt, Below, PartialMembers;
      CreateInNull(p, v, c);
    } else {
      PartialOfSome(j, seen);
      assert (if p[0] in PartialMembers(j, seen) then PartialMembers(j, seen)[p[0]] else Null)
          == Partial(ms[p[0]], below);
      hide Partial, CreateAt, Below, PartialMembers;
      CreateInObject(PartialMembers(j, seen), p, v, c);
    }
  }

  /** One more leaf in any order, as long as it decides rightly at every missing container. */
  lemma {:induction false} PartialStep(j: Json, seen: set<Path>, p: Path)
    requires Sized(j) && AllLeaves(j, seen) && LeafAt(j, p) && Decides(j, seen, p)
    ensures CreateAt(Partial(j, seen), p, ValueAt(j, p)) == Ok(Partial(j, seen + {p}))
    decreases |p|
  {
    if p != [] {
      var c := Child(j, p[0]).value;
      AllLeavesBelow(j, seen, p[0]);
      PartialStep(c, Below(seen, p[0]), p[1..]);
      if j.Array? {
        ArrayStep(j, seen, p, ValueAt(j, p));
      } else {
        ObjectStep(j, seen, p, ValueAt(j, p));
      }
    }
  }

  // ---------- All leaves ----------

  lemma {:induction false} HasLeaf(j: Json) returns (p: Path)
    requires Sized(j)
    ensures LeafAt(j, p)
  {
    if IsLeaf(j) {
      p := [];
    } else if j.Array? {
      var q := HasLeaf(j.elems[0]);
      ArrayIndexOfDigits(0);
      DigitsValue(0);
      p := [Digits(0)] + q;
      assert p[1..] == q;
    } else {
      var k :| k in j.members;
      var q := HasLeaf(j.members[k]);
      p := [k] + q;
      assert p[1..] == q;
    }
  }

  lemma LeafOfAll(j: Json, seen: set<Path>)
    requires IsLeaf(j) && seen != {}
    ensures Partial(j, seen) == Nullified(j)
  {
  }

  lemma ArrayOfAll(j: Json, seen: set<Path>)
    requires j.Array? && !IsLeaf(j) && seen != {}
    requires forall i :: 0 <= i < |j.elems| ==>
      Below(seen, Digits(i)) != {} && Partial(j.elems[i], Below(seen, Digits(i))) == Nullified(j.elems[i])
    ensures Partial(j, seen) == Nullified(j)
  {
    PartialOfSome(j, seen);
    var all := Nullified(j).elems;
    hide Partial, Below, Digits, Nullified;
    ExtentIs(seen, |j.elems|, |j.elems|);
    assert PartialElements(j, seen) == all;
  }

  lemma ObjectOfAll(j: Json, seen: set<Path>)
    requires j.Object? && !IsLeaf(j) && seen != {}
    requires forall k :: k in j.members ==>
      Below(seen, k) != {} && Partial(j.members[k], Below(seen, k)) == Nullified(j.members[k])
    ensures Partial(j, seen) == Nullified(j)
  {
    PartialOfSome(j, seen);
    var all := Nullified(j).members;
    assert all.Keys == j.members.Keys;
    hide Partial, Below, Nullified;
    assert PartialMembers(j, seen).Keys == j.members.Keys;
    assert PartialMembers(j, seen) == all;
  }

  /** `seen` is the set of all leaf paths. */
  ghost predicate Complete(j: Json, seen: set<Path>) {
    forall p :: p in seen <==> LeafAt(j, p)
  }

  lemma ChildComplete(j: Json, seen: set<Path>, t: string)
    requires Sized(j) && Complete(j, seen) && Child(j, t).Ok?
    ensures Complete(Child(j, t).value, Below(seen, t)) && Sized(Child(j, t).value) && Below(seen, t) != {}
  {
    forall p ensures p in Below(seen, t) <==> LeafAt(Child(j, t).value, p) {
      BelowHas(seen, t, p);
      assert ([t] + p)[1..] == p;
    }
    var leaf := HasLeaf(Child(j, t).value);
  }

  /** From all leaves the whole document is rebuilt, but for its empty containers. */
  lemma {:induction false} PartialOfAll(j: Json, seen: set<Path>)
    requires Sized(j) && Complete(j, seen)
    ensures Partial(j, seen) == Nullified(j)
  {
    var some := HasLeaf(j);
    assert some in seen;
    hide Partial, Nullified, LeafAt, Below, Digits, Complete, Sized;
    if IsLeaf(j) {
      LeafOfAll(j, seen);
    } else if j.Array? {
      forall i | 0 <= i < |j.elems|
        ensures Below(seen, Digits(i)) != {} && Partial(j.elems[i], Below(seen, Digits(i))) == Nullified(j.elems[i])
      {
        IndexChild(j, [], i);
        ChildComplete(j, seen, Digits(i));
        PartialOfAll(j.elems[i], Below(seen, Digits(i)));
      }
      ArrayOfAll(j, seen);
    } else {
      forall k | k in j.members
        ensures Below(seen, k) != {} && Partial(j.members[k], Below(seen, k)) == Nullified(j.members[k])
      {
        ChildComplete(j, seen, k);
        PartialOfAll(j.members[k], Below(seen, k));
      }
      ObjectOfAll(j, seen);
    }
  }
}
