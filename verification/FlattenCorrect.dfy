/** `unflatten` after `flatten`: when the document comes back, and that otherwise it does not. */
module FlattenCorrect {
  import opened Results
  import opened Escaping
  import opened Pointer
  import opened Ordering
  import opened Documents
  import opened Flatten
  import opened FlattenPaths
  import opened Rebuild
  import opened FlattenOrder

  function TokensOf(k: string): Path {
    if Parse(k).Ok? then Parse(k).value else []
  }

  /** The paths of the first `n` keys. */
  function Seen(keys: seq<string>, n: nat): set<Path>
    requires n <= |keys|
  {
    set i | 0 <= i < n :: TokensOf(keys[i])
  }

  /** `keys` are the sorted texts of exactly the leaf paths of `j`. */
  ghost predicate Lists(j: Json, flat: map<string, Json>, keys: seq<string>) {
    && (forall i :: 0 <= i < |keys| ==>
        && Parse(keys[i]).Ok?
        && LeafAt(j, TokensOf(keys[i]))
        && keys[i] in flat
        && flat[keys[i]] == ValueAt(j, TokensOf(keys[i]))
        && IsPrimitive(flat[keys[i]]))
    && (forall i, k :: 0 <= i < k < |keys| ==> Less(keys[i], keys[k]))
    && (forall p :: LeafAt(j, p) ==> ToString(p) in keys)
  }

  lemma FlattenLists(j: Json)
    requires Sized(j)
    ensures var flat := FlattenInto("", j, map[]); Lists(j, flat, SortedKeys(flat.Keys))
  {
    var flat := FlattenInto("", j, map[]);
    var keys := SortedKeys(flat.Keys);
    forall i | 0 <= i < |keys|
      ensures && Parse(keys[i]).Ok? && LeafAt(j, TokensOf(keys[i])) && keys[i] in flat
        && flat[keys[i]] == ValueAt(j, TokensOf(keys[i])) && IsPrimitive(flat[keys[i]])
    {
      assert keys[i] in keys;
      FlattenIsLeaves(j, keys[i]);
    }
    forall p | LeafAt(j, p) ensures ToString(p) in keys {
      ParseToString(p);
      FlattenIsLeaves(j, ToString(p));
    }
  }

  /** A smaller text has been met before. */
  lemma EarlierSeen(j: Json, flat: map<string, Json>, keys: seq<string>, n: nat, q: Path)
    requires Lists(j, flat, keys) && n < |keys|
    requires LeafAt(j, q) && Less(ToString(q), keys[n])
    ensures q in Seen(keys, n)
  {
    var k := ToString(q);
    assert k in keys;
    var i :| 0 <= i < |keys| && keys[i] == k;
    ParseToString(q);
    if i >= n {
      LessIrreflexive(k);
      if i > n { LessTransitive(k, keys[n], k); }
    }
    assert TokensOf(keys[i]) == q;
  }

  lemma KeyFacts(j: Json, flat: map<string, Json>, keys: seq<string>, n: nat)
    requires Lists(j, flat, keys) && n < |keys|
    ensures Parse(keys[n]).Ok? && LeafAt(j, TokensOf(keys[n]))
    ensures keys[n] in flat && flat[keys[n]] == ValueAt(j, TokensOf(keys[n])) && IsPrimitive(flat[keys[n]])
    ensures forall k :: k in keys ==> k in flat
  {
  }

  lemma TextOf(j: Json, flat: map<string, Json>, keys: seq<string>, n: nat)
    requires Lists(j, flat, keys) && n < |keys|
    ensures ToString(TokensOf(keys[n])) == keys[n]
  {
    ToStringParse(keys[n]);
  }

  // ---------- Every path decides rightly when all objects show as objects ----------

  /** What is seen and what is a leaf below `c`, of which `here` is the value. */
  ghost predicate Localized(j: Json, keys: seq<string>, n: nat, c: Path, here: Json, seen: set<Path>)
    requires n <= |keys|
  {
    && (forall q :: LeafAt(here, q) ==> LeafAt(j, c + q))
    && (forall q :: q in seen <==> c + q in Seen(keys, n))
  }

  lemma LocalizedChild(j: Json, keys: seq<string>, n: nat, c: Path, here: Json, seen: set<Path>, t: string)
    requires n <= |keys| && Localized(j, keys, n, c, here, seen) && !IsLeaf(here) && Child(here, t).Ok?
    ensures Localized(j, keys, n, c + [t], Child(here, t).value, Below(seen, t))
  {
    forall q ensures LeafAt(Child(here, t).value, q) ==> LeafAt(j, c + [t] + q) {
      assert ([t] + q)[1..] == q;
      assert c + ([t] + q) == c + [t] + q;
      assert LeafAt(here, [t] + q) == LeafAt(Child(here, t).value, q);
    }
    forall q ensures q in Below(seen, t) <==> c + [t] + q in Seen(keys, n) {
      BelowHas(seen, t, q);
      assert c + ([t] + q) == c + [t] + q;
    }
  }

  /** When nothing below `c` has been seen, no leaf below `c` comes before the current one. */
  lemma NoneEarlier(j: Json, flat: map<string, Json>, keys: seq<string>, n: nat, c: Path, here: Json, p: Path, q: Path)
    requires Lists(j, flat, keys) && n < |keys| && TokensOf(keys[n]) == c + p
    requires Localized(j, keys, n, c, here, {})
    requires LeafAt(here, q)
    ensures !Less(ToString(c + q), ToString(c + p))
  {
    TextOf(j, flat, keys, n);
    if Less(ToString(c + q), ToString(c + p)) {
      EarlierSeen(j, flat, keys, n, c + q);
    }
  }

  lemma LeafThrough(here: Json, t: string, y: Path)
    requires Child(here, t).Ok? && LeafAt(Child(here, t).value, y)
    ensures LeafAt(here, [t] + y)
  {
    assert ([t] + y)[1..] == y;
  }

  lemma ArrayDecides(j: Json, flat: map<string, Json>, keys: seq<string>, n: nat, c: Path, here: Json, p: Path)
    requires Lists(j, flat, keys) && n < |keys| && TokensOf(keys[n]) == c + p
    requires Localized(j, keys, n, c, here, {})
    requires here.Array? && Sized(here) && p != [] && LeafAt(here, p)
    ensures p[0] == "0"
  {
    hide Lists, Localized, TokensOf, Less, ToString;
    var i := ArrayIndex(p[0]).value;
    DigitsOfArrayIndex(p[0]);
    EscapeZero();
    if i > 0 {
      IndexChild(here, [], 0);
      var y := HasLeaf(here.elems[0]);
      hide LeafAt, Child, ArrayIndex, Digits, Sized;
      LeafThrough(here, "0", y);
      assert p == [p[0]] + p[1..];
      IndexZeroFirst(c, y, i, p[1..]);
      NoneEarlier(j, flat, keys, n, c, here, p, ["0"] + y);
    }
  }

  lemma ObjectDecides(j: Json, flat: map<string, Json>, keys: seq<string>, n: nat, c: Path, here: Json, p: Path)
    requires Lists(j, flat, keys) && n < |keys| && TokensOf(keys[n]) == c + p
    requires Localized(j, keys, n, c, here, {})
    requires here.Object? && Sized(here) && ShowsAsObject(here.members) && p != [] && LeafAt(here, p)
    ensures p[0] != "0"
  {
    hide Lists, Localized, TokensOf, Less, ToString, SortsBeforeZero, Escape;
    if p[0] == "0" {
      var k :| k in here.members && SortsBeforeZero(k, here.members["0"]);
      var y := HasLeaf(here.members[k]);
      LeafThrough(here, k, y);
      BeforeZero(k, y, here.members["0"], p[1..]);
      EscapeZero();
      hide LeafAt, Child;
      assert p == [p[0]] + p[1..];
      ThroughOrder(c, k, y, "0", p[1..]);
      NoneEarlier(j, flat, keys, n, c, here, p, [k] + y);
    }
  }

  lemma {:induction false} DecidesBelow(j: Json, flat: map<string, Json>, keys: seq<string>, n: nat, c: Path,
      here: Json, seen: set<Path>, p: Path)
    requires Lists(j, flat, keys) && n < |keys| && TokensOf(keys[n]) == c + p
    requires Localized(j, keys, n, c, here, seen)
    requires Sized(here) && Reconstructible(here) && LeafAt(here, p)
    ensures Decides(here, seen, p)
    decreases |p|
  {
    hide Lists, Localized, TokensOf, Less, ToString, Reconstructible, Sized, IsLeaf;
    if p != [] {
      var t := p[0];
      NotALeaf(here, p);
      LocalizedChild(j, keys, n, c, here, seen, t);
      ReconstructibleChild(here, t);
      if seen == {} {
        if here.Array? {
          ArrayDecides(j, flat, keys, n, c, here, p);
        } else {
          ObjectDecides(j, flat, keys, n, c, here, p);
        }
      }
      assert c + p == c + [t] + p[1..];
      DecidesBelow(j, flat, keys, n, c + [t], Child(here, t).value, Below(seen, t), p[1..]);
    }
  }

  lemma NotALeaf(here: Json, p: Path)
    requires p != [] && LeafAt(here, p)
    ensures !IsLeaf(here)
  {
    if IsLeaf(here) { LeafHasNoChild(here, p[0]); }
  }

  lemma ReconstructibleChild(j: Json, t: string)
    requires Child(j, t).Ok?
    ensures Reconstructible(j) ==> Reconstructible(Child(j, t).value)
    ensures Reconstructible(j) && j.Object? ==> ShowsAsObject(j.members)
    ensures Sized(j) ==> Sized(Child(j, t).value)
  {
  }

  ghost predicate DecidesAt(j: Json, keys: seq<string>, n: nat)
    requires n < |keys|
  {
    LeafAt(j, TokensOf(keys[n])) && Decides(j, Seen(keys, n), TokensOf(keys[n]))
  }

  /** All keys, in order, decide rightly. */
  ghost predicate AllDecide(j: Json, keys: seq<string>) {
    forall n :: 0 <= n < |keys| ==> DecidesAt(j, keys, n)
  }

  lemma ReconstructibleDecides(j: Json, flat: map<string, Json>, keys: seq<string>)
    requires Sized(j) && Lists(j, flat, keys) && Reconstructible(j)
    ensures AllDecide(j, keys)
  {
    hide Lists, LeafAt, Reconstructible, Sized, TokensOf, Seen;
    forall n | 0 <= n < |keys| ensures LeafAt(j, TokensOf(keys[n])) && Decides(j, Seen(keys, n), TokensOf(keys[n])) {
      KeyFacts(j, flat, keys, n);
      assert forall q: Path :: [] + q == q;
      hide Decides;
      DecidesBelow(j, flat, keys, n, [], j, Seen(keys, n), TokensOf(keys[n]));
    }
  }

  // ---------- Then the document is rebuilt ----------

  lemma SeenNext(keys: seq<string>, n: nat)
    requires n < |keys|
    ensures Seen(keys, n + 1) == Seen(keys, n) + {TokensOf(keys[n])}
  {
  }

  lemma SeenLeaves(j: Json, flat: map<string, Json>, keys: seq<string>, n: nat)
    requires Lists(j, flat, keys) && n <= |keys|
    ensures AllLeaves(j, Seen(keys, n))
    ensures n == |keys| ==> Complete(j, Seen(keys, n))
  {
    if n == |keys| {
      forall p | LeafAt(j, p) ensures p in Seen(keys, n) {
        ParseToString(p);
        var i :| 0 <= i < |keys| && keys[i] == ToString(p);
        assert TokensOf(keys[i]) == p;
      }
    }
  }

  /** The state after `n` keys, as long as all of them decided rightly. */
  lemma {:induction false} CreateAllFrom(j: Json, flat: map<string, Json>, keys: seq<string>, n: nat, stop: nat)
    requires Sized(j) && Lists(j, flat, keys) && n <= stop <= |keys|
    requires forall m :: n <= m < stop ==> DecidesAt(j, keys, m)
    ensures CreateAll(Partial(j, Seen(keys, n)), flat, keys[n..])
         == CreateAll(Partial(j, Seen(keys, stop)), flat, keys[stop..])
    decreases stop - n
  {
    hide Lists, CreateAt, CreateAll, Partial, Seen, LeafAt, ValueAt, TokensOf, Sized, Parse, Decides;
    if n < stop {
      KeyFacts(j, flat, keys, n);
      SeenLeaves(j, flat, keys, n);
      assert DecidesAt(j, keys, n);
      PartialStep(j, Seen(keys, n), TokensOf(keys[n]));
      SeenNext(keys, n);
      CreateAllNext(Partial(j, Seen(keys, n)), flat, keys, n);
      CreateAllFrom(j, flat, keys, n + 1, stop);
    }
  }

  lemma CreateAllNext(state: Json, flat: map<string, Json>, keys: seq<string>, n: nat)
    requires n < |keys| && forall k :: k in keys ==> k in flat
    requires Parse(keys[n]).Ok? && IsPrimitive(flat[keys[n]])
    ensures CreateAll(state, flat, keys[n..]) ==
      var next := CreateAt(state, TokensOf(keys[n]), flat[keys[n]]);
      if next.Ok? then CreateAll(next.value, flat, keys[n + 1..]) else next
  {
    assert keys[n..][0] == keys[n] && keys[n..][1..] == keys[n + 1..];
  }

  lemma CreateAllNothing(state: Json, flat: map<string, Json>)
    ensures CreateAll(state, flat, []) == Ok(state)
  {
  }

  lemma RebuiltWhenAllDecide(j: Json, flat: map<string, Json>, keys: seq<string>)
    requires Sized(j) && Lists(j, flat, keys) && AllDecide(j, keys)
    ensures CreateAll(Null, flat, keys) == Ok(Nullified(j))
  {
    hide Lists, DecidesAt, Partial, CreateAll;
    CreateAllFrom(j, flat, keys, 0, |keys|);
    assert keys[0..] == keys && keys[|keys|..] == [];
    assert Seen(keys, 0) == {};
    PartialOfNothing(j);
    SeenLeaves(j, flat, keys, |keys|);
    hide Seen;
    PartialOfAll(j, Seen(keys, |keys|));
    CreateAllNothing(Nullified(j), flat);
  }
}
