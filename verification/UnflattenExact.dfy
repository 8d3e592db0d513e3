/** Which objects can be unflattened, and what they become. */
module UnflattenExact {
  import opened Results
  import opened Pointer
  import opened Ordering
  import opened Documents
  import opened Flatten
  import opened FlattenPaths

  // ---------- What is seen at a location ----------

  /** The value at a location; where there is none, null. */
  function Seen(j: Json, c: Path): Json {
    if At(j, c).Ok? then At(j, c).value else Null
  }

  function ChildSeen(j: Json, t: string): Json {
    if Child(j, t).Ok? then Child(j, t).value else Null
  }

  lemma SeenBelow(j: Json, c: Path)
    ensures Seen(j, []) == j
    ensures c != [] ==> Seen(j, c) == Seen(ChildSeen(j, c[0]), c[1..])
  {
    if c != [] && Child(j, c[0]).Err? {
      SeenInNull(c[1..]);
    }
  }

  lemma SeenInNull(c: Path)
    ensures Seen(Null, c) == Null
  {
  }

  // ---------- One assignment ----------

  /** The value can have a child under the token. */
  predicate Takes(j: Json, t: string) {
    j.Null? || j.Object? || (j.Array? && ArrayIndex(t).Ok?)
  }

  lemma {:induction false} NullTakesAll(p: Path, v: Json)
    ensures CreateAt(Null, p, v).Ok?
  {
    if p != [] {
      NullTakesAll(p[1..], v);
    }
  }

  /** One level of an assignment. */
  lemma CreateBelow(j: Json, p: Path, v: Json)
    requires p != []
    ensures CreateAt(j, p, v).Ok? <==> Takes(j, p[0]) && CreateAt(ChildSeen(j, p[0]), p[1..], v).Ok?
    ensures CreateAt(j, p, v).Ok? ==> var after := CreateAt(j, p, v).value;
      && !IsPrimitive(after) && (after.Array? <==> j.Array? || (j.Null? && p[0] == "0"))
      && CreateAt(ChildSeen(j, p[0]), p[1..], v) == Ok(ChildSeen(after, p[0]))
      && forall t :: t != p[0] ==> ChildSeen(after, t) == ChildSeen(j, t)
  {
    match j
    case Null => CreateInNull(p, v);
    case Array(es) =>
      if ArrayIndex(p[0]).Ok? {
        var c := CreateAt(ChildSeen(j, p[0]), p[1..], v);
        ArrayCreated(es, p[0], if c.Ok? then c.value else Null);
        hide ArrayIndex, ChildSeen, Resized;
      }
    case Object(ms) => CreateInObject(ms, p, v);
    case _ =>
  }

  lemma CreateInNull(p: Path, v: Json)
    requires p != []
    ensures CreateAt(Null, p, v).Ok? ==> var after := CreateAt(Null, p, v).value;
      && !IsPrimitive(after) && (after.Array? <==> p[0] == "0")
      && CreateAt(Null, p[1..], v) == Ok(ChildSeen(after, p[0]))
      && forall t :: t != p[0] ==> ChildSeen(after, t) == Null
  {
    ZeroIndex();
  }

  lemma CreateInObject(ms: map<string, Json>, p: Path, v: Json)
    requires p != []
    ensures CreateAt(Object(ms), p, v).Ok? <==> CreateAt(ChildSeen(Object(ms), p[0]), p[1..], v).Ok?
    ensures CreateAt(Object(ms), p, v).Ok? ==> var after := CreateAt(Object(ms), p, v).value;
      && after.Object? && CreateAt(ChildSeen(Object(ms), p[0]), p[1..], v) == Ok(ChildSeen(after, p[0]))
      && forall t :: t != p[0] ==> ChildSeen(after, t) == ChildSeen(Object(ms), t)
  {
  }

  lemma ZeroIndex()
    ensures ArrayIndex("0") == Ok(0)
    ensures forall t, c :: t != "0" ==> Child(Array([c]), t).Err?
    ensures forall c :: Child(Array([c]), "0") == Ok(c)
  {
    ArrayIndexOfDigits(0);
    forall t | ArrayIndex(t).Ok? ensures t == Digits(ArrayIndex(t).value) {
      DigitsOfArrayIndex(t);
    }
    hide ArrayIndex;
  }

  lemma SameIndex(t: string, u: string)
    requires ArrayIndex(t).Ok? && ArrayIndex(u) == ArrayIndex(t)
    ensures t == u
  {
    DigitsOfArrayIndex(t);
    DigitsOfArrayIndex(u);
  }

  lemma DashIsNoIndex()
    ensures ArrayIndex("-").Err?
  {
    if ArrayIndex("-").Ok? {
      DigitsOfArrayIndex("-");
    }
  }

  lemma ElementSeen(es: seq<Json>, t: string)
    ensures ChildSeen(Array(es), t)
         == if ArrayIndex(t).Ok? && ArrayIndex(t).value < |es| then es[ArrayIndex(t).value] else Null
  {
    DashIsNoIndex();
    hide ArrayIndex;
  }

  lemma ArrayCreated(es: seq<Json>, token: string, c: Json)
    requires ArrayIndex(token).Ok?
    ensures var i := ArrayIndex(token).value;
      var grown := Resized(es, i + 1);
      && grown[i] == ChildSeen(Array(es), token) && ChildSeen(Array(grown[i := c]), token) == c
      && forall t :: t != token ==> ChildSeen(Array(grown[i := c]), t) == ChildSeen(Array(es), t)
  {
    var i := ArrayIndex(token).value;
    var grown := Resized(es, i + 1);
    var after := grown[i := c];
    ElementSeen(es, token);
    ElementSeen(after, token);
    hide ChildSeen;
    forall t | t != token ensures ChildSeen(Array(after), t) == ChildSeen(Array(es), t) {
      ElementSeen(after, t);
      ElementSeen(es, t);
      if ArrayIndex(t) == ArrayIndex(token) {
        SameIndex(t, token);
      }
      hide ArrayIndex;
    }
  }

  /** An assignment succeeds exactly when every value on the way to its place can take the next token. */
  lemma {:induction false} CreateSucceeds(j: Json, p: Path, v: Json)
    ensures CreateAt(j, p, v).Ok? <==> forall n :: 0 <= n < |p| ==> Takes(Seen(j, p[..n]), p[n])
    decreases |p|
  {
    if p != [] {
      var child, rest := ChildSeen(j, p[0]), p[1..];
      CreateBelow(j, p, v);
      CreateSucceeds(child, rest, v);
      SeenBelow(j, []);
      assert p[..0] == [];
      forall n | 0 <= n < |rest| ensures Seen(j, p[..n + 1]) == Seen(child, rest[..n]) && p[n + 1] == rest[n] {
        SeenBelow(j, p[..n + 1]);
        assert p[..n + 1][1..] == rest[..n];
      }
      hide CreateAt, Takes, Seen, ChildSeen;
      if !(forall n :: 0 <= n < |p| ==> Takes(Seen(j, p[..n]), p[n])) && Takes(j, p[0]) {
        var n :| 0 <= n < |p| && !Takes(Seen(j, p[..n]), p[n]);
        var m := n - 1;
        assert 0 <= m < |rest| && p[..n] == p[..m + 1];
      }
      forall n | 0 <= n < |rest| && (forall k :: 0 <= k < |p| ==> Takes(Seen(j, p[..k]), p[k]))
        ensures Takes(Seen(child, rest[..n]), rest[n])
      {
        assert Takes(Seen(j, p[..n + 1]), p[n + 1]);
      }
    }
  }

  /** What is seen where, after an assignment. */
  lemma {:induction false} CreatedSeen(j: Json, p: Path, v: Json, c: Path)
    requires CreateAt(j, p, v).Ok? && IsPrimitive(v)
    ensures var was, now := Seen(j, c), Seen(CreateAt(j, p, v).value, c);
      && (c < p ==> !IsPrimitive(now) && (now.Array? <==> was.Array? || (was.Null? && p[|c|] == "0")))
      && (c == p ==> now == v)
      && (p < c ==> now == Null)
      && (!(c <= p) && !(p <= c) ==> now == was)
    decreases |p|
  {
    var after := CreateAt(j, p, v).value;
    SeenBelow(j, c);
    SeenBelow(after, c);
    if p == [] {
      if c != [] {
        SeenUnder(v, c);
      }
    } else {
      CreateBelow(j, p, v);
      if c != [] && c[0] == p[0] {
        CreatedSeen(ChildSeen(j, p[0]), p[1..], v, c[1..]);
        Prefixes(c, p);
      }
    }
  }

  lemma SeenUnder(v: Json, c: Path)
    requires IsPrimitive(v) && c != []
    ensures Seen(v, c) == Null
  {
  }

  lemma Prefixes(c: Path, p: Path)
    requires c != [] && p != [] && c[0] == p[0]
    ensures c < p <==> c[1..] < p[1..]
    ensures c <= p <==> c[1..] <= p[1..]
    ensures p <= c <==> p[1..] <= c[1..]
    ensures p < c <==> p[1..] < c[1..]
    ensures c == p <==> c[1..] == p[1..]
  {
    assert c == [c[0]] + c[1..] && p == [p[0]] + p[1..];
  }

  // ---------- Assignments one after the other ----------

  /** The first `n` values, each assigned to its place. */
  function Built(ps: seq<Path>, vs: seq<Json>, n: nat): Result<Json>
    requires n <= |ps| == |vs|
  {
    if n == 0 then Ok(Null)
    else
      var b :- Built(ps, vs, n - 1);
      CreateAt(b, ps[n - 1], vs[n - 1])
  }

  /** No path is a prefix of an earlier one. */
  predicate Downward(ps: seq<Path>) {
    forall i, j :: 0 <= i < j < |ps| ==> !(ps[j] <= ps[i])
  }

  predicate AllPrimitive(vs: seq<Json>) {
    forall i :: 0 <= i < |vs| ==> IsPrimitive(vs[i])
  }

  /** Path `m` is the first of the first `n` that goes on from `c`. */
  predicate FirstThrough(ps: seq<Path>, n: nat, c: Path, m: nat) {
    m < n <= |ps| && c < ps[m] && forall i :: 0 <= i < m ==> !(c < ps[i])
  }

  predicate AnyThrough(ps: seq<Path>, n: nat, c: Path) {
    exists i :: 0 <= i < n && i < |ps| && c < ps[i]
  }

  /** What the first `n` assignments make of a location. */
  ghost predicate MadeOf(ps: seq<Path>, vs: seq<Json>, n: nat, c: Path, x: Json)
    requires n <= |ps| == |vs|
  {
    && (forall m: nat :: FirstThrough(ps, n, c, m) ==> !IsPrimitive(x) && (x.Array? <==> ps[m][|c|] == "0"))
    && (!AnyThrough(ps, n, c) ==> forall i :: 0 <= i < n && ps[i] == c ==> x == vs[i])
    && (!AnyThrough(ps, n, c) && (forall i :: 0 <= i < n ==> ps[i] != c) ==> x == Null)
  }

  /** Above the place of value `n` only null was assigned, and an array there can take the token. */
  ghost predicate Free(ps: seq<Path>, vs: seq<Json>, n: nat)
    requires n < |ps| == |vs|
  {
    forall k :: 0 <= k < |ps[n]| ==> FreeAt(ps, vs, n, k)
  }

  ghost predicate FreeAt(ps: seq<Path>, vs: seq<Json>, n: nat, k: nat)
    requires n < |ps| == |vs| && k < |ps[n]|
  {
    && (forall i :: 0 <= i < n && ps[i] == ps[n][..k] ==> vs[i].Null?)
    && (forall m: nat :: FirstThrough(ps, n, ps[n][..k], m) && ps[m][k] == "0" ==> ArrayIndex(ps[n][k]).Ok?)
  }

  lemma {:induction false} FirstOfAny(ps: seq<Path>, n: nat, c: Path) returns (m: nat)
    requires AnyThrough(ps, n, c) && n <= |ps|
    ensures FirstThrough(ps, n, c, m)
  {
    if AnyThrough(ps, n - 1, c) {
      m := FirstOfAny(ps, n - 1, c);
    } else {
      m := n - 1;
    }
  }

  lemma OneFirst(ps: seq<Path>, n: nat, c: Path, m: nat)
    requires FirstThrough(ps, n, c, m)
    ensures forall l: nat :: FirstThrough(ps, n, c, l) ==> l == m
  {
  }

  /** What was assigned to a location comes before what goes on from there, and was null if that found it free. */
  lemma NullBefore(ps: seq<Path>, vs: seq<Json>, n: nat, c: Path, m: nat)
    requires n <= |ps| == |vs| && Downward(ps) && FirstThrough(ps, n, c, m) && Free(ps, vs, m)
    ensures forall i :: 0 <= i < n && ps[i] == c ==> vs[i].Null?
  {
    assert FreeAt(ps, vs, m, |c|) && ps[m][..|c|] == c;
    forall i | 0 <= i < n && ps[i] == c ensures i < m {
      assert ps[i] <= ps[m];
    }
    hide ArrayIndex;
  }

  lemma TakesThrough(ps: seq<Path>, vs: seq<Json>, n: nat, k: nat, x: Json, m: nat)
    requires n < |ps| == |vs| && k < |ps[n]| && FirstThrough(ps, n, ps[n][..k], m)
    requires !IsPrimitive(x) && (x.Array? <==> ps[m][k] == "0")
    requires forall i :: 0 <= i < n && ps[i] == ps[n][..k] ==> vs[i].Null?
    ensures Takes(x, ps[n][k]) <==> FreeAt(ps, vs, n, k)
  {
    OneFirst(ps, n, ps[n][..k], m);
    hide ArrayIndex, FirstThrough;
  }

  lemma TakesNew(ps: seq<Path>, vs: seq<Json>, n: nat, k: nat, x: Json)
    requires n < |ps| == |vs| && k < |ps[n]| && !AnyThrough(ps, n, ps[n][..k])
    requires forall i :: 0 <= i < n && ps[i] == ps[n][..k] ==> x == vs[i] && IsPrimitive(vs[i])
    requires (forall i :: 0 <= i < n ==> ps[i] != ps[n][..k]) ==> x == Null
    ensures Takes(x, ps[n][k]) <==> FreeAt(ps, vs, n, k)
  {
    hide ArrayIndex;
    assert forall m: nat :: !FirstThrough(ps, n, ps[n][..k], m);
  }

  lemma MadeThrough(ps: seq<Path>, vs: seq<Json>, n: nat, c: Path, x: Json, m: nat)
    requires n <= |ps| == |vs| && MadeOf(ps, vs, n, c, x) && FirstThrough(ps, n, c, m)
    ensures |c| < |ps[m]| && !IsPrimitive(x) && (x.Array? <==> ps[m][|c|] == "0")
  {
  }

  lemma MadeNew(ps: seq<Path>, vs: seq<Json>, n: nat, c: Path, x: Json)
    requires n <= |ps| == |vs| && MadeOf(ps, vs, n, c, x) && !AnyThrough(ps, n, c) && AllPrimitive(vs)
    ensures forall i :: 0 <= i < n && ps[i] == c ==> x == vs[i] && IsPrimitive(vs[i])
    ensures (forall i :: 0 <= i < n ==> ps[i] != c) ==> x == Null
  {
  }

  lemma TakesHere(ps: seq<Path>, vs: seq<Json>, n: nat, k: nat, x: Json)
    requires n < |ps| == |vs| && k < |ps[n]| && AllPrimitive(vs) && Downward(ps)
    requires MadeOf(ps, vs, n, ps[n][..k], x)
    requires forall i :: 0 <= i < n ==> Free(ps, vs, i)
    ensures Takes(x, ps[n][k]) <==> FreeAt(ps, vs, n, k)
  {
    hide *;
    var c := ps[n][..k];
    if AnyThrough(ps, n, c) {
      var m := FirstOfAny(ps, n, c);
      FirstIsEarlier(ps, n, c, m);
      NullBefore(ps, vs, n, c, m);
      MadeThrough(ps, vs, n, c, x, m);
      TakesThrough(ps, vs, n, k, x, m);
    } else {
      MadeNew(ps, vs, n, c, x);
      TakesNew(ps, vs, n, k, x);
    }
  }

  lemma FirstIsEarlier(ps: seq<Path>, n: nat, c: Path, m: nat)
    requires FirstThrough(ps, n, c, m)
    ensures m < n <= |ps| && c < ps[m]
  {
  }

  /** What one more assignment makes of a location. */
  lemma MadeNext(ps: seq<Path>, vs: seq<Json>, n: nat, b: Json, c: Path)
    requires n < |ps| == |vs| && AllPrimitive(vs) && Downward(ps) && CreateAt(b, ps[n], vs[n]).Ok?
    requires MadeOf(ps, vs, n, c, Seen(b, c))
    requires c < ps[n] ==> Takes(Seen(b, c), ps[n][|c|])
    ensures MadeOf(ps, vs, n + 1, c, Seen(CreateAt(b, ps[n], vs[n]).value, c))
  {
    CreatedSeen(b, ps[n], vs[n], c);
    var was, now := Seen(b, c), Seen(CreateAt(b, ps[n], vs[n]).value, c);
    hide CreateAt, Seen, ArrayIndex, MadeOf, Downward, FirstThrough, AnyThrough, Takes;
    forall m: nat | FirstThrough(ps, n + 1, c, m)
      ensures FirstThrough(ps, n + 1, c, m) && |c| < |ps[m]|
        && !IsPrimitive(now) && (now.Array? <==> ps[m][|c|] == "0")
    {
      FirstIsEarlier(ps, n + 1, c, m);
      FirstMade(ps, vs, n, c, m, was, now);
    }
    if !AnyThrough(ps, n + 1, c) {
      NotThrough(ps, vs, n, c, was, now);
    }
    hide IsPrimitive, AllPrimitive;
    IsMadeOf(ps, vs, n + 1, c, now);
  }

  lemma IsMadeOf(ps: seq<Path>, vs: seq<Json>, n: nat, c: Path, x: Json)
    requires n <= |ps| == |vs|
    requires forall m: nat :: FirstThrough(ps, n, c, m) ==>
      |c| < |ps[m]| && !IsPrimitive(x) && (x.Array? <==> ps[m][|c|] == "0")
    requires !AnyThrough(ps, n, c) ==> forall i :: 0 <= i < n && ps[i] == c ==> x == vs[i]
    requires !AnyThrough(ps, n, c) && (forall i :: 0 <= i < n ==> ps[i] != c) ==> x == Null
    ensures MadeOf(ps, vs, n, c, x)
  {
    hide IsPrimitive, AnyThrough;
  }

  lemma FirstMade(ps: seq<Path>, vs: seq<Json>, n: nat, c: Path, m: nat, was: Json, now: Json)
    requires n < |ps| == |vs| && AllPrimitive(vs) && Downward(ps) && FirstThrough(ps, n + 1, c, m)
    requires MadeOf(ps, vs, n, c, was) && (c < ps[n] ==> Takes(was, ps[n][|c|]))
    requires c < ps[n] ==> !IsPrimitive(now) && (now.Array? <==> was.Array? || (was.Null? && ps[n][|c|] == "0"))
    requires !(c <= ps[n]) && !(ps[n] <= c) ==> now == was
    ensures !IsPrimitive(now) && (now.Array? <==> ps[m][|c|] == "0")
  {
    if m < n {
      assert !(ps[n] <= ps[m]);
      assert FirstThrough(ps, n, c, m);
      MadeThrough(ps, vs, n, c, was, m);
    } else {
      assert !AnyThrough(ps, n, c);
      MadeNew(ps, vs, n, c, was);
    }
    hide ArrayIndex, MadeOf;
  }

  lemma NotThrough(ps: seq<Path>, vs: seq<Json>, n: nat, c: Path, was: Json, now: Json)
    requires n < |ps| == |vs| && Downward(ps) && !AnyThrough(ps, n + 1, c) && MadeOf(ps, vs, n, c, was)
    requires (c == ps[n] ==> now == vs[n]) && (ps[n] < c ==> now == Null)
    requires !(c <= ps[n]) && !(ps[n] <= c) ==> now == was
    ensures forall i :: 0 <= i < n + 1 && ps[i] == c ==> now == vs[i]
    ensures (forall i :: 0 <= i < n + 1 ==> ps[i] != c) ==> now == Null
  {
    assert !AnyThrough(ps, n, c) && !(c < ps[n]);
    assert forall i :: 0 <= i < n && ps[i] == c ==> !(ps[n] <= c);
  }

  ghost predicate AllMade(ps: seq<Path>, vs: seq<Json>, n: nat, b: Json)
    requires n <= |ps| == |vs|
  {
    forall c: Path :: MadeOf(ps, vs, n, c, Seen(b, c))
  }

  lemma NextSucceeds(ps: seq<Path>, vs: seq<Json>, n: nat, b: Json)
    requires n < |ps| == |vs| && AllPrimitive(vs) && Downward(ps) && AllMade(ps, vs, n, b)
    requires forall i :: 0 <= i < n ==> Free(ps, vs, i)
    ensures CreateAt(b, ps[n], vs[n]).Ok? <==> Free(ps, vs, n)
  {
    var p := ps[n];
    CreateSucceeds(b, p, vs[n]);
    hide MadeOf, Takes, CreateAt, Seen, FreeAt;
    forall k | 0 <= k < |p| ensures Takes(Seen(b, p[..k]), p[k]) <==> FreeAt(ps, vs, n, k) {
      assert MadeOf(ps, vs, n, p[..k], Seen(b, p[..k]));
      hide Free, AllMade;
      TakesHere(ps, vs, n, k, Seen(b, p[..k]));
    }
  }

  lemma NextMade(ps: seq<Path>, vs: seq<Json>, n: nat, b: Json)
    requires n < |ps| == |vs| && AllPrimitive(vs) && Downward(ps) && AllMade(ps, vs, n, b)
    requires CreateAt(b, ps[n], vs[n]).Ok?
    ensures AllMade(ps, vs, n + 1, CreateAt(b, ps[n], vs[n]).value)
  {
    var p := ps[n];
    CreateSucceeds(b, p, vs[n]);
    hide MadeOf, Takes, CreateAt, Seen;
    forall c: Path ensures MadeOf(ps, vs, n + 1, c, Seen(CreateAt(b, p, vs[n]).value, c)) {
      assert MadeOf(ps, vs, n, c, Seen(b, c));
      assert c < p ==> c == p[..|c|];
      MadeNext(ps, vs, n, b, c);
    }
  }

  lemma NothingMade(ps: seq<Path>, vs: seq<Json>)
    requires |ps| == |vs|
    ensures AllMade(ps, vs, 0, Null)
  {
    forall c: Path ensures MadeOf(ps, vs, 0, c, Seen(Null, c)) {
      SeenInNull(c);
    }
  }

  lemma BuiltNothing(ps: seq<Path>, vs: seq<Json>)
    requires |ps| == |vs|
    ensures Built(ps, vs, 0) == Ok(Null)
  {
  }

  /** All assignments succeed exactly when each finds its place free; every location is then what they make of it. */
  lemma {:induction false} BuiltExactly(ps: seq<Path>, vs: seq<Json>, n: nat)
    requires n <= |ps| == |vs| && AllPrimitive(vs) && Downward(ps)
    ensures Built(ps, vs, n).Ok? <==> forall i :: 0 <= i < n ==> Free(ps, vs, i)
    ensures Built(ps, vs, n).Ok? ==> AllMade(ps, vs, n, Built(ps, vs, n).value)
  {
    hide *;
    if n == 0 {
      NothingMade(ps, vs);
      BuiltNothing(ps, vs);
    } else {
      BuiltExactly(ps, vs, n - 1);
      if Built(ps, vs, n - 1).Ok? {
        var b := Built(ps, vs, n - 1).value;
        BuiltNext(ps, vs, n - 1);
        NextSucceeds(ps, vs, n - 1, b);
        if CreateAt(b, ps[n - 1], vs[n - 1]).Ok? {
          NextMade(ps, vs, n - 1, b);
        }
      } else {
        BuiltStuck(ps, vs, n - 1, n);
      }
    }
  }

  // ---------- The whole object ----------

  /** The key's path goes on from the location. */
  ghost predicate Through(flat: map<string, Json>, k: string, c: Path) {
    k in flat && Parse(k).Ok? && c < Parse(k).value
  }

  /** And does so by this token. */
  ghost function NextToken(flat: map<string, Json>, k: string, c: Path): string
    requires Through(flat, k, c)
  {
    Parse(k).value[|c|]
  }

  /** It is the first such key in the order of keys. */
  ghost predicate First(flat: map<string, Json>, k: string, c: Path) {
    Through(flat, k, c) && forall l :: Through(flat, l, c) && l != k ==> Less(k, l)
  }

  ghost predicate AllRead(flat: map<string, Json>) {
    forall k :: k in flat ==> IsPrimitive(flat[k]) && Parse(k).Ok?
  }

  /**
   * All values are primitive and all keys are pointers; only null stands where the path of another key goes on; and
   * where the first path that goes on does so by "0", all others do by an array index.
   */
  ghost predicate CanUnflatten(flat: map<string, Json>) {
    AllRead(flat) && (forall k, l :: NullFits(flat, k, l)) && forall c, k, l :: IndexFits(flat, c, k, l)
  }

  /** Where the second key's path goes on from the first key's, that has null. */
  ghost predicate NullFits(flat: map<string, Json>, k: string, l: string) {
    k in flat && Parse(k).Ok? && Through(flat, l, Parse(k).value) ==> flat[k].Null?
  }

  /** Where the first path through a location makes an array of it, any other goes on by an index. */
  ghost predicate IndexFits(flat: map<string, Json>, c: Path, k: string, l: string) {
    First(flat, k, c) && Through(flat, l, c) && NextToken(flat, k, c) == "0" ==> ArrayIndex(NextToken(flat, l, c)).Ok?
  }

  function PathsOf(ks: seq<string>): (ps: seq<Path>)
    requires forall i :: 0 <= i < |ks| ==> Parse(ks[i]).Ok?
    ensures |ps| == |ks| && forall i :: 0 <= i < |ks| ==> ps[i] == Parse(ks[i]).value
  {
    seq(|ks|, i requires 0 <= i < |ks| => Parse(ks[i]).value)
  }

  function ValuesOf(flat: map<string, Json>, ks: seq<string>): (vs: seq<Json>)
    requires forall i :: 0 <= i < |ks| ==> ks[i] in flat
    ensures |vs| == |ks| && forall i :: 0 <= i < |ks| ==> vs[i] == flat[ks[i]]
  {
    seq(|ks|, i requires 0 <= i < |ks| => flat[ks[i]])
  }

  lemma {:induction false} ProperPrefixLess(a: string, b: string)
    requires a < b
    ensures Less(a, b)
  {
    if a != "" {
      ProperPrefixLess(a[1..], b[1..]);
    }
  }

  /** A key sorts before those whose path goes on from its own. */
  lemma ShorterFirst(k: string, l: string)
    requires Parse(k).Ok? && Parse(l).Ok? && Parse(k).value < Parse(l).value
    ensures Less(k, l)
  {
    var p, q := Parse(k).value, Parse(l).value;
    ToStringParse(k);
    ToStringParse(l);
    assert q == p + q[|p|..];
    ToStringConcat(p, q[|p|..]);
    PrintedStartsWithSlash(q[|p|..]);
    hide ToString, Parse, Less;
    assert k < l;
    ProperPrefixLess(k, l);
  }

  lemma SortedDownward(ks: seq<string>)
    requires forall i :: 0 <= i < |ks| ==> Parse(ks[i]).Ok?
    requires forall i, j :: 0 <= i < j < |ks| ==> Less(ks[i], ks[j])
    ensures Downward(PathsOf(ks))
  {
    var ps := PathsOf(ks);
    forall i, j | 0 <= i < j < |ks| ensures !(ps[j] <= ps[i]) {
      LessIrreflexive(ks[i]);
      if ps[j] == ps[i] {
        ToStringParse(ks[i]);
        ToStringParse(ks[j]);
      } else if ps[j] < ps[i] {
        ShorterFirst(ks[j], ks[i]);
        LessTransitive(ks[i], ks[j], ks[i]);
      }
      hide Less, Parse;
    }
  }

  /** The keys in their order, all of them pointers. */
  ghost predicate Lists(flat: map<string, Json>, ks: seq<string>) {
    && (forall k :: k in ks <==> k in flat)
    && (forall i :: 0 <= i < |ks| ==> ks[i] in flat && Parse(ks[i]).Ok?)
    && (forall i, j :: 0 <= i < j < |ks| ==> Less(ks[i], ks[j]))
  }

  lemma Listed(flat: map<string, Json>, ks: seq<string>, k: string) returns (i: nat)
    requires Lists(flat, ks) && k in flat
    ensures i < |ks| && ks[i] == k && Parse(k).Ok? && PathsOf(ks)[i] == Parse(k).value
    ensures ValuesOf(flat, ks)[i] == flat[k]
  {
    assert k in ks;
    i :| 0 <= i < |ks| && ks[i] == k;
  }

  /** The first path through a location is that of the first key through it. */
  lemma FirstKey(flat: map<string, Json>, ks: seq<string>, c: Path, n: nat, m: nat)
    requires Lists(flat, ks) && n <= |ks| && FirstThrough(PathsOf(ks), n, c, m)
    ensures First(flat, ks[m], c)
  {
    var ps := PathsOf(ks);
    hide Less, Parse;
    forall l | Through(flat, l, c) && l != ks[m] ensures Less(ks[m], l) {
      var j := Listed(flat, ks, l);
      assert !(j < m);
    }
  }

  lemma KeyFirst(flat: map<string, Json>, ks: seq<string>, c: Path, n: nat, m: nat)
    requires Lists(flat, ks) && m < n < |ks| && First(flat, ks[m], c)
    ensures FirstThrough(PathsOf(ks), n, c, m)
  {
    var ps := PathsOf(ks);
    hide Less, Parse;
    forall i | 0 <= i < m ensures !(c < ps[i]) {
      assert c < ps[i] ==> Through(flat, ks[i], c);
      LessIrreflexive(ks[i]);
      LessTransitiveBack(ks[i], ks[m]);
    }
  }

  lemma FreeWhenCan(flat: map<string, Json>, ks: seq<string>, n: nat)
    requires CanUnflatten(flat) && Lists(flat, ks) && n < |ks|
    ensures Free(PathsOf(ks), ValuesOf(flat, ks), n)
  {
    var ps, vs := PathsOf(ks), ValuesOf(flat, ks);
    forall k | 0 <= k < |ps[n]| ensures FreeAt(ps, vs, n, k) {
      FreeAtWhenCan(flat, ks, n, k);
    }
    hide FreeAt, Lists;
  }

  lemma FreeAtWhenCan(flat: map<string, Json>, ks: seq<string>, n: nat, k: nat)
    requires CanUnflatten(flat) && Lists(flat, ks) && n < |ks| && k < |PathsOf(ks)[n]|
    ensures FreeAt(PathsOf(ks), ValuesOf(flat, ks), n, k)
  {
    var ps, vs, c := PathsOf(ks), ValuesOf(flat, ks), PathsOf(ks)[n][..k];
    hide Less, Parse, ArrayIndex;
    assert Through(flat, ks[n], c);
    forall i | 0 <= i < n && ps[i] == c ensures vs[i].Null? {
      assert NullFits(flat, ks[i], ks[n]);
    }
    forall m: nat | FirstThrough(ps, n, c, m) && ps[m][k] == "0" ensures ArrayIndex(ps[n][k]).Ok? {
      FirstKey(flat, ks, c, n, m);
      assert NextToken(flat, ks[n], c) == ps[n][k] && NextToken(flat, ks[m], c) == ps[m][k];
      assert IndexFits(flat, c, ks[m], ks[n]);
    }
  }

  lemma FreeNull(ps: seq<Path>, vs: seq<Json>, n: nat, i: nat)
    requires i < n < |ps| == |vs| && Free(ps, vs, n) && ps[i] < ps[n]
    ensures vs[i].Null?
  {
    assert FreeAt(ps, vs, n, |ps[i]|) && ps[n][..|ps[i]|] == ps[i];
    hide ArrayIndex;
  }

  lemma FreeIndex(ps: seq<Path>, vs: seq<Json>, n: nat, m: nat, c: Path)
    requires n < |ps| == |vs| && Free(ps, vs, n) && c < ps[n] && FirstThrough(ps, n, c, m) && ps[m][|c|] == "0"
    ensures ArrayIndex(ps[n][|c|]).Ok?
  {
    assert FreeAt(ps, vs, n, |c|) && ps[n][..|c|] == c;
    hide ArrayIndex;
  }

  lemma NullAbove(flat: map<string, Json>, ks: seq<string>, k: string, l: string)
    requires Lists(flat, ks) && forall n :: 0 <= n < |ks| ==> Free(PathsOf(ks), ValuesOf(flat, ks), n)
    ensures NullFits(flat, k, l)
  {
    hide Free, Less, Parse;
    if k in flat && Parse(k).Ok? && Through(flat, l, Parse(k).value) {
      var i := Listed(flat, ks, k);
      var n := Listed(flat, ks, l);
      ShorterFirst(k, l);
      Before(ks, i, n);
      FreeNull(PathsOf(ks), ValuesOf(flat, ks), n, i);
    }
  }

  lemma IndexAfter(flat: map<string, Json>, ks: seq<string>, c: Path, k: string, l: string)
    requires Lists(flat, ks) && forall n :: 0 <= n < |ks| ==> Free(PathsOf(ks), ValuesOf(flat, ks), n)
    ensures IndexFits(flat, c, k, l)
  {
    hide Free, Less, Parse, ArrayIndex;
    if First(flat, k, c) && Through(flat, l, c) && NextToken(flat, k, c) == "0" {
      var m := Listed(flat, ks, k);
      var n := Listed(flat, ks, l);
      ZeroIndex();
      if m != n {
        Before(ks, m, n);
        KeyFirst(flat, ks, c, n, m);
        FreeIndex(PathsOf(ks), ValuesOf(flat, ks), n, m, c);
      }
    }
  }

  lemma CanWhenFree(flat: map<string, Json>, ks: seq<string>)
    requires AllRead(flat) && Lists(flat, ks) && forall n :: 0 <= n < |ks| ==> Free(PathsOf(ks), ValuesOf(flat, ks), n)
    ensures CanUnflatten(flat)
  {
    hide Free, NullFits, IndexFits, Lists;
    forall k, l ensures NullFits(flat, k, l) {
      NullAbove(flat, ks, k, l);
    }
    forall c, k, l ensures IndexFits(flat, c, k, l) {
      IndexAfter(flat, ks, c, k, l);
    }
  }

  lemma LessTransitiveBack(a: string, b: string)
    ensures !(Less(a, b) && Less(b, a))
  {
    if Less(a, b) && Less(b, a) {
      LessTransitive(a, b, a);
      LessIrreflexive(a);
    }
  }

  lemma Before(ks: seq<string>, i: nat, n: nat)
    requires i < |ks| && n < |ks| && i != n && forall i, j :: 0 <= i < j < |ks| ==> Less(ks[i], ks[j])
    ensures Less(ks[i], ks[n]) ==> i < n
  {
    LessTransitiveBack(ks[i], ks[n]);
  }

  // ---------- unflatten ----------

  lemma {:induction false} BuiltStuck(ps: seq<Path>, vs: seq<Json>, n: nat, m: nat)
    requires n <= m <= |ps| == |vs| && Built(ps, vs, n).Err?
    ensures Built(ps, vs, m) == Built(ps, vs, n)
  {
    hide CreateAt;
    if n < m {
      BuiltStuck(ps, vs, n, m - 1);
    }
  }

  lemma CreateAllStep(j: Json, flat: map<string, Json>, ks: seq<string>, n: nat)
    requires n < |ks| && forall k :: k in ks ==> k in flat && IsPrimitive(flat[k]) && Parse(k).Ok?
    ensures forall k :: k in ks[n..] || k in ks[n + 1..] ==> k in flat
    ensures ks[n] in ks
    ensures var next := CreateAt(j, Parse(ks[n]).value, flat[ks[n]]);
      CreateAll(j, flat, ks[n..]) == if next.Err? then next else CreateAll(next.value, flat, ks[n + 1..])
  {
    hide CreateAt, Parse;
    assert ks[n..][0] == ks[n] && ks[n..][1..] == ks[n + 1..];
  }

  lemma {:induction false} CreateAllIsBuilt(flat: map<string, Json>, ks: seq<string>, n: nat)
    requires AllRead(flat) && Lists(flat, ks) && n <= |ks| && Built(PathsOf(ks), ValuesOf(flat, ks), n).Ok?
    requires forall k :: k in ks[n..] ==> k in flat
    ensures CreateAll(Built(PathsOf(ks), ValuesOf(flat, ks), n).value, flat, ks[n..])
         == Built(PathsOf(ks), ValuesOf(flat, ks), |ks|)
    decreases |ks| - n
  {
    hide *;
    AllListed(flat, ks);
    var ps, vs := PathsOf(ks), ValuesOf(flat, ks);
    if n < |ks| {
      var b := Built(ps, vs, n).value;
      BuiltNext(ps, vs, n);
      CreateAllStep(b, flat, ks, n);
      if CreateAt(b, ps[n], vs[n]).Ok? {
        CreateAllIsBuilt(flat, ks, n + 1);
      } else {
        BuiltStuck(ps, vs, n + 1, |ks|);
      }
    } else {
      assert ks[n..] == [];
      CreateAllNothing(Built(ps, vs, n).value, flat);
    }
  }

  lemma CreateAllNothing(j: Json, flat: map<string, Json>)
    ensures CreateAll(j, flat, []) == Ok(j)
  {
  }

  lemma BuiltNext(ps: seq<Path>, vs: seq<Json>, n: nat)
    requires n < |ps| == |vs| && Built(ps, vs, n).Ok?
    ensures Built(ps, vs, n + 1) == CreateAt(Built(ps, vs, n).value, ps[n], vs[n])
  {
    hide CreateAt;
  }

  lemma AllListed(flat: map<string, Json>, ks: seq<string>)
    requires AllRead(flat) && Lists(flat, ks)
    ensures forall k :: k in ks ==> k in flat && IsPrimitive(flat[k]) && Parse(k).Ok?
    ensures forall i :: 0 <= i < |ks| ==> ks[i] in flat && Parse(ks[i]).Ok?
  {
    hide Parse, Less;
  }

  lemma {:induction false} OnlyReadable(j: Json, flat: map<string, Json>, keys: seq<string>)
    requires (forall k :: k in keys ==> k in flat) && CreateAll(j, flat, keys).Ok?
    ensures forall k :: k in keys ==> IsPrimitive(flat[k]) && Parse(k).Ok?
    decreases |keys|
  {
    hide CreateAt, Parse;
    if keys != [] {
      OnlyReadable(CreateAt(j, Parse(keys[0]).value, flat[keys[0]]).value, flat, keys[1..]);
      assert keys == [keys[0]] + keys[1..];
    }
  }

  lemma KeysListed(flat: map<string, Json>)
    requires AllRead(flat)
    ensures Lists(flat, SortedKeys(flat.Keys))
  {
    var ks := SortedKeys(flat.Keys);
    hide Less, Parse, SortedKeys;
    assert forall i :: 0 <= i < |ks| ==> ks[i] in ks;
  }

  lemma ValuesPrimitiveIn(flat: map<string, Json>, ks: seq<string>)
    requires AllRead(flat) && Lists(flat, ks)
    ensures AllPrimitive(ValuesOf(flat, ks)) && Downward(PathsOf(ks))
  {
    SortedDownward(ks);
    hide Less, Parse, Downward;
  }

  lemma UnflattenedIsBuilt(flat: map<string, Json>) returns (ks: seq<string>)
    requires AllRead(flat)
    ensures ks == SortedKeys(flat.Keys) && Lists(flat, ks) && Downward(PathsOf(ks)) && AllPrimitive(ValuesOf(flat, ks))
    ensures Unflattened(Object(flat)) == Built(PathsOf(ks), ValuesOf(flat, ks), |ks|)
  {
    ks := SortedKeys(flat.Keys);
    assert Unflattened(Object(flat)) == CreateAll(Null, flat, ks);
    KeysListed(flat);
    assert Built(PathsOf(ks), ValuesOf(flat, ks), 0) == Ok(Null);
    hide *;
    ValuesPrimitiveIn(flat, ks);
    assert ks[0..] == ks;
    CreateAllIsBuilt(flat, ks, 0);
  }

  /** What can be unflattened, for every value. */
  lemma UnflattenExactly(value: Json)
    ensures Unflattened(value).Ok? <==> value.Object? && CanUnflatten(value.members)
    ensures !value.Object? ==> Unflattened(value) == Err(UNFLATTEN_NOT_OBJECT)
  {
    if value.Object? {
      var flat := value.members;
      hide CanUnflatten, Parse, SortedKeys;
      if AllRead(flat) {
        var ks := UnflattenedIsBuilt(flat);
        BuiltExactly(PathsOf(ks), ValuesOf(flat, ks), |ks|);
        hide AllRead, Lists, Built, Free, Unflattened;
        if CanUnflatten(flat) {
          forall n | 0 <= n < |ks| ensures Free(PathsOf(ks), ValuesOf(flat, ks), n) {
            FreeWhenCan(flat, ks, n);
          }
        }
        if Unflattened(value).Ok? {
          CanWhenFree(flat, ks);
        }
      } else {
        if Unflattened(value).Ok? {
          OnlyReadable(Null, flat, SortedKeys(flat.Keys));
        }
        CanMeansRead(flat);
      }
    }
  }

  lemma CanMeansRead(flat: map<string, Json>)
    ensures CanUnflatten(flat) ==> AllRead(flat)
  {
  }

  /**
   * And what it becomes: a key's value where no other path goes on; an array or an object where one does, by the
   * first such path; and nothing, or null, anywhere else.
   */
  lemma UnflattenedHas(flat: map<string, Json>, c: Path)
    requires Unflattened(Object(flat)).Ok?
    ensures var x := Seen(Unflattened(Object(flat)).value, c);
      && (forall k :: First(flat, k, c) && Through(flat, k, c) ==>
          !IsPrimitive(x) && (x.Array? <==> NextToken(flat, k, c) == "0"))
      && ((forall l :: !Through(flat, l, c)) ==>
          forall k :: k in flat && Parse(k) == Ok(c) ==> x == flat[k])
      && ((forall l :: !Through(flat, l, c)) && (forall k :: k in flat ==> Parse(k) != Ok(c)) ==> x == Null)
  {
    UnflattenExactly(Object(flat));
    CanMeansRead(flat);
    hide *;
    var ks := UnflattenedIsBuilt(flat);
    BuiltExactly(PathsOf(ks), ValuesOf(flat, ks), |ks|);
    MadeAt(PathsOf(ks), ValuesOf(flat, ks), Unflattened(Object(flat)).value, c);
    MadeOfKeys(flat, ks, c, Seen(Unflattened(Object(flat)).value, c));
  }

  lemma MadeAt(ps: seq<Path>, vs: seq<Json>, b: Json, c: Path)
    requires |ps| == |vs| && AllMade(ps, vs, |ps|, b)
    ensures MadeOf(ps, vs, |ps|, c, Seen(b, c))
  {
    hide MadeOf;
  }

  lemma MadeOfKeys(flat: map<string, Json>, ks: seq<string>, c: Path, x: Json)
    requires Lists(flat, ks) && MadeOf(PathsOf(ks), ValuesOf(flat, ks), |ks|, c, x)
    ensures forall k :: First(flat, k, c) && Through(flat, k, c) ==>
      !IsPrimitive(x) && (x.Array? <==> NextToken(flat, k, c) == "0")
    ensures (forall l :: !Through(flat, l, c)) ==> forall k :: k in flat && Parse(k) == Ok(c) ==> x == flat[k]
    ensures (forall l :: !Through(flat, l, c)) && (forall k :: k in flat ==> Parse(k) != Ok(c)) ==> x == Null
  {
    var ps := PathsOf(ks);
    hide Parse, Less;
    forall k | First(flat, k, c) && Through(flat, k, c)
      ensures !IsPrimitive(x) && (x.Array? <==> NextToken(flat, k, c) == "0")
    {
      var m := Listed(flat, ks, k);
      FirstOfAll(flat, ks, c, m);
    }
    if forall l :: !Through(flat, l, c) {
      NoneThrough(flat, ks, c);
      forall k | k in flat && Parse(k) == Ok(c) ensures x == flat[k] {
        var i := Listed(flat, ks, k);
      }
    }
  }

  lemma NoneThrough(flat: map<string, Json>, ks: seq<string>, c: Path)
    requires Lists(flat, ks) && forall l :: !Through(flat, l, c)
    ensures !AnyThrough(PathsOf(ks), |ks|, c)
    ensures (forall k :: k in flat ==> Parse(k) != Ok(c)) ==> forall i :: 0 <= i < |ks| ==> PathsOf(ks)[i] != c
  {
    hide Parse, Less;
    var ps := PathsOf(ks);
    assert forall i :: 0 <= i < |ks| && c < ps[i] ==> Through(flat, ks[i], c);
  }

  lemma FirstOfAll(flat: map<string, Json>, ks: seq<string>, c: Path, m: nat)
    requires Lists(flat, ks) && m < |ks| && First(flat, ks[m], c)
    ensures FirstThrough(PathsOf(ks), |ks|, c, m)
  {
    var ps := PathsOf(ks);
    hide Less, Parse;
    forall i | 0 <= i < m ensures !(c < ps[i]) {
      assert c < ps[i] ==> Through(flat, ks[i], c);
      LessTransitiveBack(ks[i], ks[m]);
    }
  }

  // ---------- A value with something below it ----------

  lemma {:induction false} BelowPrimitive(j: Json, p: Path, q: Path, w: Json)
    requires q != [] && At(j, p).Ok? && IsPrimitive(At(j, p).value) && !At(j, p).value.Null?
    ensures CreateAt(j, p + q, w) == Err(UNFLATTEN_INVALID)
    decreases |p|
  {
    if p == [] {
      assert p + q == q;
    } else {
      assert (p + q)[0] == p[0] && (p + q)[1..] == p[1..] + q;
      BelowPrimitive(Child(j, p[0]).value, p[1..], q, w);
    }
  }

  lemma {:induction false} CreatedThere(j: Json, p: Path, v: Json)
    requires CreateAt(j, p, v).Ok?
    ensures At(CreateAt(j, p, v).value, p) == Ok(v)
    decreases |p|
  {
    if p != [] {
      var child := ChildSeen(j, p[0]);
      CreateBelow(j, p, v);
      CreatedThere(child, p[1..], v);
      ChildCreated(j, p, v);
    }
  }

  lemma ChildCreated(j: Json, p: Path, v: Json)
    requires p != [] && CreateAt(j, p, v).Ok?
    ensures Child(CreateAt(j, p, v).value, p[0]).Ok?
  {
    ZeroIndex();
    if j.Array? {
      DashIsNoIndex();
      hide ArrayIndex;
    }
  }

  lemma TwoKeys(a: string, b: string)
    requires Less(a, b)
    ensures SortedKeys({a, b}) == [a, b]
  {
    var ks := SortedKeys({a, b});
    LessIrreflexive(a);
    LessTransitiveBack(a, b);
    assert |{a, b}| == 2;
    hide Less, SortedKeys;
    assert ks[0] in ks && ks[1] in ks && Less(ks[0], ks[1]);
    assert ks == [ks[0], ks[1]];
  }

  /** A primitive value other than null, and a value below it, are refused with exception 313. */
  lemma ValueWithMoreBelow(p: Path, q: Path, v: Json, w: Json)
    requires q != [] && IsPrimitive(v) && IsPrimitive(w) && !v.Null?
    ensures ToString(p) != ToString(p + q)
    ensures Unflattened(Object(map[ToString(p) := v, ToString(p + q) := w])) == Err(UNFLATTEN_INVALID)
  {
    var a, b := ToString(p), ToString(p + q);
    ParseToString(p);
    ParseToString(p + q);
    assert p < p + q;
    ShorterFirst(a, b);
    LessIrreflexive(a);
    var flat := map[a := v, b := w];
    assert flat.Keys == {a, b};
    TwoKeys(a, b);
    hide Less, Parse, ToString, SortedKeys, CreateAt;
    assert Unflattened(Object(flat)) == CreateAll(Null, flat, [a, b]);
    NullTakesAll(p, v);
    CreatedThere(Null, p, v);
    BelowPrimitive(CreateAt(Null, p, v).value, p, q, w);
    assert [a, b][1..] == [b];
  }
}
