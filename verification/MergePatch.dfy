/** JSON Merge Patch (RFC 7396): `merge_patch`. */
module MergePatch {
  import opened Results
  import opened Ordering
  import opened Documents
  import opened Patch

  function MembersOf(j: Json): map<string, Json> {
    if j.Object? then j.members else map[]
  }

  function Lookup(ms: map<string, Json>, k: string): Json {
    if k in ms then ms[k] else Null
  }

  /** The outcome, member by member; no order of the members is involved. */
  function Merge(target: Json, patch: Json): Json
    decreases patch
  {
    if patch.Object? then
      var ms := MembersOf(target);
      Object(map k | k in ms.Keys + patch.members.Keys && !(k in patch.members && patch.members[k].Null?) ::
        if k in patch.members then Merge(Lookup(ms, k), patch.members[k]) else ms[k])
    else patch
  }

  /** One turn of the loop of RFC 7396 section 2: a null removes, anything else is merged in. */
  function MergeMember(ms: map<string, Json>, k: string, v: Json): map<string, Json> {
    if v.Null? then ms - {k} else ms[k := Merge(Lookup(ms, k), v)]
  }

  /** The RFC's loop over the patch members, in a given order. */
  function MergeInOrder(ms: map<string, Json>, patch: map<string, Json>, order: seq<string>): map<string, Json>
    requires forall k :: k in order ==> k in patch
    decreases |order|
  {
    if order == [] then ms
    else MergeInOrder(MergeMember(ms, order[0], patch[order[0]]), patch, order[1..])
  }

  /** What members `done` of the patch make of `ms`. */
  function MergePart(ms: map<string, Json>, patch: map<string, Json>, done: set<string>): map<string, Json>
    requires done <= patch.Keys
  {
    map k | k in ms.Keys + done && !(k in done && patch[k].Null?) ::
      if k in done then Merge(Lookup(ms, k), patch[k]) else ms[k]
  }

  lemma MergePartStep(ms: map<string, Json>, patch: map<string, Json>, done: set<string>, k: string)
    requires done <= patch.Keys && k in patch && k !in done
    ensures MergeMember(MergePart(ms, patch, done), k, patch[k]) == MergePart(ms, patch, done + {k})
  {
    hide Merge;
    var part := MergePart(ms, patch, done);
    assert Lookup(part, k) == Lookup(ms, k);
    assert MergeMember(part, k, patch[k]).Keys == MergePart(ms, patch, done + {k}).Keys;
  }

  lemma {:induction false} MergeInOrderFrom(ms: map<string, Json>, patch: map<string, Json>, done: set<string>,
      order: seq<string>)
    requires done <= patch.Keys
    requires forall k :: k in order ==> k in patch && k !in done
    requires forall i, j :: 0 <= i < j < |order| ==> order[i] != order[j]
    ensures MergeInOrder(MergePart(ms, patch, done), patch, order) == MergePart(ms, patch, done + (set k | k in order))
    decreases |order|
  {
    hide MergePart, MergeMember;
    if order == [] {
      assert done + (set k | k in order) == done;
    } else {
      MergePartStep(ms, patch, done, order[0]);
      MergeInOrderFrom(ms, patch, done + {order[0]}, order[1..]);
      assert order == [order[0]] + order[1..];
      assert done + {order[0]} + (set k | k in order[1..]) == done + (set k | k in order);
    }
  }

  /** Every order of visiting the patch members, each once, gives the same object. */
  lemma MergeOrderIrrelevant(target: Json, patch: Json, order: seq<string>)
    requires patch.Object?
    requires forall k :: k in order <==> k in patch.members
    requires forall i, j :: 0 <= i < j < |order| ==> order[i] != order[j]
    ensures Merge(target, patch) == Object(MergeInOrder(MembersOf(target), patch.members, order))
  {
    hide Merge, MergeInOrder;
    var ms, pm := MembersOf(target), patch.members;
    MergeInOrderFrom(ms, pm, {}, order);
    assert MergePart(ms, pm, {}) == ms;
    MergeIsPart(target, patch);
    hide MergePart;
    assert {} + (set k | k in order) == pm.Keys;
  }

  lemma MergeIsPart(target: Json, patch: Json)
    requires patch.Object?
    ensures Merge(target, patch) == Object(MergePart(MembersOf(target), patch.members, patch.members.Keys))
  {
    var whole, part := Merge(target, patch).members, MergePart(MembersOf(target), patch.members, patch.members.Keys);
    assert whole.Keys == part.Keys;
    hide Merge;
  }

  lemma MergeInOrderStep(ms: map<string, Json>, patch: map<string, Json>, order: seq<string>, i: nat)
    requires i < |order| && forall k :: k in order ==> k in patch
    ensures MergeInOrder(ms, patch, order[i..])
         == MergeInOrder(MergeMember(ms, order[i], patch[order[i]]), patch, order[i + 1..])
  {
    assert order[i..][0] == order[i] && order[i..][1..] == order[i + 1..];
  }

  /** `merge_patch`: a null erases the member, anything else is merged into the member in place. */
  method MergeInPlace(document: Document, patch: Json)
    modifies document
    ensures document.root == Merge(old(document.root), patch)
    decreases patch, 0
  {
    hide Merge, MergeMember, MergeInOrder, SortedKeys;
    if !patch.Object? {
      MergePlain(document.root, patch);
      document.root := patch;
      return;
    }
    if !document.root.Object? {
      document.root := Object(map[]);
    }
    ghost var start := document.root.members;
    var keys := SortedKeys(patch.members.Keys);
    SortedKeysDistinct(patch.members.Keys);
    MergeOrderIrrelevant(old(document.root), patch, keys);
    var i := 0;
    assert keys[0..] == keys;
    while i < |keys|
      invariant i <= |keys| && document.root.Object?
      invariant MergeInOrder(start, patch.members, keys)
             == MergeInOrder(document.root.members, patch.members, keys[i..])
    {
      var k := keys[i];
      MergeInOrderStep(document.root.members, patch.members, keys, i);
      MergeMemberInPlace(document, k, patch.members[k]);
      i := i + 1;
    }
    MergeInOrderDone(document.root.members, patch.members);
    assert keys[i..] == [];
  }

  method MergeMemberInPlace(document: Document, k: string, v: Json)
    requires document.root.Object?
    modifies document
    ensures document.root == Object(MergeMember(old(document.root.members), k, v))
    decreases v, 1
  {
    hide Merge;
    if v.Null? {
      document.root := Object(document.root.members - {k});
    } else {
      var child := new Document(Lookup(document.root.members, k));
      MergeInPlace(child, v);
      document.root := Object(document.root.members[k := child.root]);
    }
  }

  lemma MergePlain(target: Json, patch: Json)
    requires !patch.Object?
    ensures Merge(target, patch) == patch
  {
  }

  lemma MergeInOrderDone(ms: map<string, Json>, patch: map<string, Json>)
    ensures MergeInOrder(ms, patch, []) == ms
  {
  }

  /** Applying the same patch twice is applying it once. */
  lemma {:induction false} MergeIdempotent(target: Json, patch: Json)
    ensures Merge(Merge(target, patch), patch) == Merge(target, patch)
    decreases patch
  {
    if patch.Object? {
      var once := Merge(target, patch);
      var twice := Merge(once, patch);
      assert twice.members.Keys == once.members.Keys;
      forall k | k in once.members ensures twice.members[k] == once.members[k] {
        if k in patch.members {
          MergeIdempotent(Lookup(MembersOf(target), k), patch.members[k]);
        }
      }
      assert twice.members == once.members;
    }
  }

  // ---------- The outcome path by path ----------

  /** Every location on the path, the end included, holds an object. */
  ghost predicate ObjectsAlong(j: Json, ts: seq<string>) {
    forall n :: 0 <= n <= |ts| ==> At(j, ts[..n]).Ok? && At(j, ts[..n]).value.Object?
  }

  lemma ObjectsFrom(j: Json, ts: seq<string>)
    ensures ObjectsAlong(j, ts) ==> j.Object? && At(j, ts).Ok? && At(j, ts).value.Object?
    ensures ObjectsAlong(j, []) <==> j.Object?
    ensures ts != [] ==>
      (ObjectsAlong(j, ts) <==> j.Object? && ts[0] in j.members && ObjectsAlong(j.members[ts[0]], ts[1..]))
  {
    assert ts[..0] == [] && ts[..|ts|] == ts;
    if ts != [] && j.Object? && ts[0] in j.members {
      forall n | 0 <= n <= |ts| - 1 ensures At(j.members[ts[0]], ts[1..][..n]) == At(j, ts[..n + 1]) {
        assert ts[..n + 1][0] == ts[0] && ts[..n + 1][1..] == ts[1..][..n];
      }
      assert forall n :: 1 <= n <= |ts| ==> At(j, ts[..n]) == At(j.members[ts[0]], ts[1..][..n - 1]);
    } else if ts != [] {
      assert ts[..1][0] == ts[0];
      assert At(j, ts[..0]) == Ok(j) && (j.Object? ==> At(j, ts[..1]).Err?);
    }
  }

  /** The member of the target that a member of the patch is merged into. */
  function Old(target: Json, k: string): Json {
    if target.Object? && k in target.members then target.members[k] else Null
  }

  /** A member of the outcome, for a patch that is an object. */
  lemma MergedMember(target: Json, patch: Json, k: string)
    requires patch.Object?
    ensures Merge(target, patch).Object?
    ensures var member := Child(Merge(target, patch), k);
      if k !in patch.members then member == if target.Object? then Child(target, k) else Err(KEY_NOT_FOUND)
      else if patch.members[k].Null? then member == Err(KEY_NOT_FOUND)
      else member == Ok(Merge(Old(target, k), patch.members[k]))
  {
  }

  /** What the target has there, if it has objects all along the path. */
  ghost function Untouched(target: Json, ts: seq<string>, tail: seq<string>): Result<Json> {
    if ObjectsAlong(target, ts) then At(target, ts + tail) else Err(KEY_NOT_FOUND)
  }

  lemma UntouchedBelow(target: Json, ts: seq<string>, tail: seq<string>)
    requires ts != []
    ensures Untouched(target, ts, tail) == Untouched(Old(target, ts[0]), ts[1..], tail)
  {
    ObjectsFrom(target, ts);
    ObjectsFrom(Null, ts[1..]);
    assert (ts + tail)[0] == ts[0] && (ts + tail)[1..] == ts[1..] + tail;
  }

  lemma BelowFirst(j: Json, ts: seq<string>, tail: seq<string>)
    requires ts != [] && Child(j, ts[0]).Ok?
    ensures At(j, ts + tail) == At(Child(j, ts[0]).value, ts[1..] + tail)
  {
    assert (ts + tail)[0] == ts[0] && (ts + tail)[1..] == ts[1..] + tail;
  }

  /**
   * What the outcome has where the patch has objects all along a path: a member that the patch does not mention is
   * the target's, with all below it, or is missing if the target has no objects along the path; a member that the
   * patch has as null is gone; any other that is not an object is the patch's. Every location is one of these, or
   * one where the patch, and so the outcome, has an object.
   */
  lemma {:induction false} MergedAt(target: Json, patch: Json, ts: seq<string>, k: string, rest: seq<string>)
    requires ObjectsAlong(patch, ts)
    ensures At(patch, ts).Ok? && At(patch, ts).value.Object?
    ensures ObjectsAlong(Merge(target, patch), ts)
    ensures var ms := At(patch, ts).value.members;
      if k !in ms then At(Merge(target, patch), ts + ([k] + rest)) == Untouched(target, ts, [k] + rest)
      else if ms[k].Null? then At(Merge(target, patch), ts + [k]) == Err(KEY_NOT_FOUND)
      else !ms[k].Object? ==> At(Merge(target, patch), ts + [k]) == Ok(ms[k])
    decreases ts
  {
    var result := Merge(target, patch);
    ObjectsFrom(patch, ts);
    ObjectsFrom(target, ts);
    ObjectsFrom(result, ts);
    if ts == [] {
      MergedMember(target, patch, k);
      HereAt(result, k, rest);
      HereAt(target, k, rest);
      HereAt(result, k, []);
      assert [k] + [] == [k] && ts + [k] == [k] && ts + ([k] + rest) == [k] + rest;
      if k in patch.members && !patch.members[k].Object? {
        MergePlain(Old(target, k), patch.members[k]);
      }
    } else {
      MergedMember(target, patch, ts[0]);
      var inner := Old(target, ts[0]);
      MergedAt(inner, patch.members[ts[0]], ts[1..], k, rest);
      UntouchedBelow(target, ts, [k] + rest);
      BelowFirst(result, ts, [k] + rest);
      BelowFirst(result, ts, [k]);
    }
  }

  lemma HereAt(j: Json, k: string, rest: seq<string>)
    ensures At(j, [k] + rest) == if Child(j, k).Ok? then At(Child(j, k).value, rest) else Child(j, k)
  {
    assert ([k] + rest)[1..] == rest;
  }
}
