/** What `flatten` writes: exactly the leaves of the document, under the texts of their paths. */
module FlattenPaths {
  import opened Results
  import opened Pointer
  import opened Ordering
  import opened Documents
  import opened Flatten

  type Path = seq<string>

  /** `p` leads from `j` to a leaf. */
  predicate LeafAt(j: Json, p: Path) {
    if p == [] then IsLeaf(j) else Child(j, p[0]).Ok? && LeafAt(Child(j, p[0]).value, p[1..])
  }

  function ValueAt(j: Json, p: Path): Json
    requires LeafAt(j, p)
  {
    if p == [] then Flat(j) else ValueAt(Child(j, p[0]).value, p[1..])
  }

  lemma LeafHasNoChild(j: Json, t: string)
    requires IsLeaf(j)
    ensures Child(j, t).Err?
  {
  }

  // ---------- The keys of the flattened object ----------

  /** The text `k` names a leaf of `j`, when `j` itself is at path `r`. */
  predicate LeafKey(j: Json, r: Path, k: string) {
    var q := Parse(k);
    q.Ok? && r <= q.value && LeafAt(j, q.value[|r|..])
  }

  function KeyValue(j: Json, r: Path, k: string): Json
    requires LeafKey(j, r, k)
  {
    ValueAt(j, Parse(k).value[|r|..])
  }

  /** `after` is `before` overwritten by the leaves of `j`. */
  ghost predicate Written(j: Json, r: Path, before: map<string, Json>, after: map<string, Json>) {
    && (forall k :: k in after <==> k in before || LeafKey(j, r, k))
    && (forall k :: k in after ==> after[k] == if LeafKey(j, r, k) then KeyValue(j, r, k) else before[k])
  }

  lemma KeyOfPath(j: Json, r: Path, p: Path)
    ensures LeafKey(j, r, ToString(r + p)) == LeafAt(j, p)
    ensures LeafAt(j, p) ==> KeyValue(j, r, ToString(r + p)) == ValueAt(j, p)
  {
    ParseToString(r + p);
    assert (r + p)[|r|..] == p;
  }

  /** A leaf key of `j` is a leaf key of the child its next token names. */
  lemma LeafKeyOfChild(j: Json, r: Path, t: string, k: string)
    requires Child(j, t).Ok?
    ensures LeafKey(Child(j, t).value, r + [t], k) <==>
            LeafKey(j, r, k) && |Parse(k).value| > |r| && Parse(k).value[|r|] == t
    ensures LeafKey(Child(j, t).value, r + [t], k) ==> KeyValue(j, r, k) == KeyValue(Child(j, t).value, r + [t], k)
  {
    var q := Parse(k);
    if q.Ok? && r + [t] <= q.value {
      assert q.value[|r|] == (r + [t])[|r|] == t;
      assert r <= q.value;
    }
    if q.Ok? && r <= q.value && |q.value| > |r| && q.value[|r|] == t {
      assert q.value[..|r| + 1] == r + [t];
      var p := q.value[|r|..];
      assert p[0] == t && p[1..] == q.value[|r| + 1..];
    }
  }

  /** The next token after `r` of a text that goes below `r`. */
  function Next(r: Path, k: string): string {
    if Parse(k).Ok? && |Parse(k).value| > |r| then Parse(k).value[|r|] else ""
  }

  /** Of the leaves of `j`, the ones below the children named in `tokens` have been written. */
  ghost predicate WrittenBelow(j: Json, r: Path, tokens: seq<string>, before: map<string, Json>,
      after: map<string, Json>) {
    && (forall k :: k in after <==> k in before || (LeafKey(j, r, k) && Next(r, k) in tokens))
    && (forall k :: k in after ==>
        after[k] == if LeafKey(j, r, k) && Next(r, k) in tokens then KeyValue(j, r, k) else before[k])
  }

  lemma WrittenBelowStep(j: Json, r: Path, t: string, rest: seq<string>, before: map<string, Json>,
      middle: map<string, Json>, after: map<string, Json>)
    requires !IsLeaf(j) && Child(j, t).Ok?
    requires Written(Child(j, t).value, r + [t], before, middle)
    requires WrittenBelow(j, r, rest, middle, after)
    ensures WrittenBelow(j, r, [t] + rest, before, after)
  {
    forall k
      ensures k in after <==> k in before || (LeafKey(j, r, k) && Next(r, k) in [t] + rest)
      ensures k in after ==>
        after[k] == if LeafKey(j, r, k) && Next(r, k) in [t] + rest then KeyValue(j, r, k) else before[k]
    {
      LeafKeyOfChild(j, r, t, k);
      if LeafKey(j, r, k) { NotEndingHere(j, r, k); }
      NextIs(j, r, t, k);
      hide LeafKey, KeyValue, Next, Child, IsLeaf;
    }
    hide *;
  }

  lemma NextIs(j: Json, r: Path, t: string, k: string)
    requires !IsLeaf(j) && Child(j, t).Ok?
    ensures LeafKey(Child(j, t).value, r + [t], k) <==> LeafKey(j, r, k) && Next(r, k) == t
  {
    LeafKeyOfChild(j, r, t, k);
    if LeafKey(j, r, k) { NotEndingHere(j, r, k); }
  }

  lemma NotEndingHere(j: Json, r: Path, k: string)
    requires !IsLeaf(j) && LeafKey(j, r, k)
    ensures |Parse(k).value| > |r| && Child(j, Next(r, k)).Ok?
  {
    var p := Parse(k).value[|r|..];
    assert p != [];
  }

  // ---------- flatten writes exactly the leaves ----------

  /** `flatten` adds one entry per leaf, keyed by the text of its path, and changes no other entry. */
  lemma {:induction false} FlattenWrites(r: Path, j: Json, before: map<string, Json>)
    requires Sized(j)
    ensures Written(j, r, before, FlattenInto(ToString(r), j, before))
    decreases j, 1, 0
  {
    if IsLeaf(j) {
      LeafWritten(r, j, before);
    } else if j.Array? {
      ElementsWrite(r, j, 0, before);
      AllBelow(j, r, IndexTokens(|j.elems|, 0), before, FlattenInto(ToString(r), j, before));
    } else {
      var keys := SortedKeys(j.members.Keys);
      MembersWrite(r, j, keys, before);
      AllBelow(j, r, keys, before, FlattenInto(ToString(r), j, before));
    }
  }

  lemma LeafWritten(r: Path, j: Json, before: map<string, Json>)
    requires IsLeaf(j)
    ensures Written(j, r, before, before[ToString(r) := Flat(j)])
  {
    forall k ensures LeafKey(j, r, k) <==> k == ToString(r) {
      if LeafKey(j, r, k) {
        var p := Parse(k).value[|r|..];
        if p != [] { LeafHasNoChild(j, p[0]); }
        assert Parse(k).value == r;
        ToStringParse(k);
      }
      assert r + [] == r;
      KeyOfPath(j, r, []);
    }
    KeyOfPath(j, r, []);
    assert r + [] == r;
  }

  function IndexTokens(n: nat, i: nat): seq<string>
    decreases n - i
  {
    if i >= n then [] else [Digits(i)] + IndexTokens(n, i + 1)
  }

  lemma {:induction false} IndexTokensHave(n: nat, i: nat, x: nat)
    requires i <= x < n
    ensures Digits(x) in IndexTokens(n, i)
    decreases n - i
  {
    if i < x { IndexTokensHave(n, i + 1, x); }
  }

  /** Once all children are written, everything below `r` is. */
  lemma AllBelow(j: Json, r: Path, tokens: seq<string>, before: map<string, Json>, after: map<string, Json>)
    requires !IsLeaf(j) && WrittenBelow(j, r, tokens, before, after)
    requires j.Array? ==> tokens == IndexTokens(|j.elems|, 0)
    requires j.Object? ==> forall k :: k in j.members ==> k in tokens
    ensures Written(j, r, before, after)
  {
    forall k | LeafKey(j, r, k) ensures Next(r, k) in tokens {
      NotEndingHere(j, r, k);
      if j.Array? {
        DigitsOfArrayIndex(Next(r, k));
        IndexTokensHave(|j.elems|, 0, ArrayIndex(Next(r, k)).value);
      }
    }
  }

  lemma {:induction false} ElementsWrite(r: Path, j: Json, i: nat, before: map<string, Json>)
    requires j.Array? && Sized(j) && !IsLeaf(j) && i <= |j.elems|
    ensures WrittenBelow(j, r, IndexTokens(|j.elems|, i), before, FlattenElements(ToString(r), j, i, before))
    decreases j, 0, |j.elems| - i
  {
    if i < |j.elems| {
      var t := Digits(i);
      IndexChild(j, r, i);
      FlattenWrites(r + [t], j.elems[i], before);
      var middle := FlattenInto(ToString(r + [t]), j.elems[i], before);
      ElementsWrite(r, j, i + 1, middle);
      WrittenBelowStep(j, r, t, IndexTokens(|j.elems|, i + 1), before, middle,
        FlattenElements(ToString(r), j, i + 1, middle));
    }
  }

  lemma IndexChild(j: Json, r: Path, i: nat)
    requires j.Array? && Sized(j) && i < |j.elems|
    ensures Child(j, Digits(i)) == Ok(j.elems[i])
    ensures ToString(r + [Digits(i)]) == ToString(r) + "/" + Digits(i)
  {
    ArrayIndexOfDigits(i);
    DigitsValue(i);
    EscapeDigits(Digits(i));
    assert (r + [Digits(i)])[..|r|] == r;
  }

  lemma {:induction false} MembersWrite(r: Path, j: Json, keys: seq<string>, before: map<string, Json>)
    requires j.Object? && Sized(j) && !IsLeaf(j)
    requires forall k :: k in keys ==> k in j.members
    ensures WrittenBelow(j, r, keys, before, FlattenMembers(ToString(r), j, keys, before))
    decreases j, 0, |keys|
  {
    if keys != [] {
      var t := keys[0];
      assert (r + [t])[..|r|] == r;
      FlattenWrites(r + [t], j.members[t], before);
      var middle := FlattenInto(ToString(r + [t]), j.members[t], before);
      MembersWrite(r, j, keys[1..], middle);
      WrittenBelowStep(j, r, t, keys[1..], before, middle, FlattenMembers(ToString(r), j, keys[1..], middle));
      assert keys == [t] + keys[1..];
    }
  }

  /** `flatten()`: the keys of the result are the texts of the leaf paths, each with that leaf's value. */
  lemma FlattenIsLeaves(j: Json, k: string)
    requires Sized(j)
    ensures k in FlattenInto("", j, map[]) <==> Parse(k).Ok? && LeafAt(j, Parse(k).value)
    ensures k in FlattenInto("", j, map[]) ==>
            FlattenInto("", j, map[])[k] == ValueAt(j, Parse(k).value) && IsPrimitive(ValueAt(j, Parse(k).value))
  {
    FlattenWrites([], j, map[]);
    if Parse(k).Ok? {
      assert Parse(k).value[0..] == Parse(k).value;
      if LeafAt(j, Parse(k).value) { ValuesPrimitive(j, Parse(k).value); }
    }
  }

  lemma {:induction false} ValuesPrimitive(j: Json, p: Path)
    requires LeafAt(j, p)
    ensures IsPrimitive(ValueAt(j, p))
  {
    if p != [] { ValuesPrimitive(Child(j, p[0]).value, p[1..]); }
  }
}
