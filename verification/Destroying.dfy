/** Destruction of a document with a stack instead of recursion. */
module Destroying {
  import opened Ordering
  import opened Documents

  /** The values of the keys. */
  function Items(ms: map<string, Json>, keys: seq<string>): (items: seq<Json>)
    requires forall k :: k in keys ==> k in ms
    ensures |items| == |keys|
  {
    seq(|keys|, i requires 0 <= i < |keys| => ms[keys[i]])
  }

  /** What an array or object holds, in iteration order. */
  function Children(j: Json): seq<Json> {
    match j
    case Array(es) => es
    case Object(ms) => Items(ms, SortedKeys(ms.Keys))
    case _ => []
  }

  lemma ChildIsSmaller(j: Json, i: nat)
    requires i < |Children(j)|
    ensures Children(j)[i] < j
  {
    hide SortedKeys;
    if j.Object? {
      var keys := SortedKeys(j.members.Keys);
      assert keys[i] in keys;
      assert j.members[keys[i]] < j;
    }
  }

  /** The container once its items have been moved away. */
  function Emptied(j: Json): Json {
    if j.Array? then Array([]) else if j.Object? then Object(map[]) else j
  }

  // ---------- The descendants ----------

  /** All values below `j`, each as often as it occurs. */
  function Below(j: Json): multiset<Json>
    decreases j, |Children(j)| + 1
  {
    BelowFirst(j, |Children(j)|)
  }

  /** Those that are, or are below, one of the first `i` children. */
  function BelowFirst(j: Json, i: nat): multiset<Json>
    requires i <= |Children(j)|
    decreases j, i
  {
    if i == 0 then multiset{}
    else
      ChildIsSmaller(j, i - 1);
      var c := Children(j)[i - 1];
      BelowFirst(j, i - 1) + multiset{c} + Below(c)
  }

  /** The items of the stack and everything below them. */
  function OnStack(stack: seq<Json>): multiset<Json> {
    if stack == [] then multiset{}
    else
      var c := stack[|stack| - 1];
      OnStack(stack[..|stack| - 1]) + multiset{c} + Below(c)
  }

  lemma OnStackBack(stack: seq<Json>, c: Json)
    ensures OnStack(stack + [c]) == OnStack(stack) + multiset{c} + Below(c)
  {
    hide Below;
    assert (stack + [c])[..|stack|] == stack;
  }

  lemma {:induction false} OnStackConcat(a: seq<Json>, b: seq<Json>)
    ensures OnStack(a + b) == OnStack(a) + OnStack(b)
  {
    if b == [] {
      assert a + b == a;
    } else {
      hide *;
      var init, c := b[..|b| - 1], b[|b| - 1];
      assert b == init + [c] && a + b == (a + init) + [c];
      OnStackConcat(a, init);
      OnStackBack(init, c);
      OnStackBack(a + init, c);
    }
  }

  lemma {:induction false} ChildrenOnStack(j: Json, i: nat)
    requires i <= |Children(j)|
    ensures OnStack(Children(j)[..i]) == BelowFirst(j, i)
  {
    hide Below, Children;
    if i > 0 {
      ChildrenOnStack(j, i - 1);
      assert Children(j)[..i][..i - 1] == Children(j)[..i - 1];
    }
  }

  /** Taking the last item and putting its children in its place loses nothing but the item. */
  lemma StackStep(stack: seq<Json>)
    requires stack != []
    ensures var item := stack[|stack| - 1];
      OnStack(stack) == multiset{item} + OnStack(stack[..|stack| - 1] + Children(item))
  {
    var item := stack[|stack| - 1];
    OnStackConcat(stack[..|stack| - 1], Children(item));
    ChildrenOnStack(item, |Children(item)|);
    assert Children(item)[..|Children(item)|] == Children(item);
  }

  /** Nothing is below a primitive value or an empty container. */
  lemma BelowNone(j: Json)
    requires IsPrimitive(j) || j == Array([]) || j == Object(map[])
    ensures Below(j) == multiset{}
  {
    if j.Object? {
      assert SortedKeys(j.members.Keys) == [];
    }
  }

  /** An element more adds itself and what is below it. */
  lemma BelowArray(es: seq<Json>, e: Json)
    ensures Below(Array(es + [e])) == Below(Array(es)) + multiset{e} + Below(e)
  {
    FirstItems(Array(es + [e]));
    FirstItems(Array(es));
    OnStackBack(es, e);
    hide Below, OnStack;
  }

  lemma ItemsOfObject(ms: map<string, Json>)
    ensures Children(Object(ms)) == Items(ms, SortedKeys(ms.Keys))
  {
  }

  lemma ItemsConcat(ms: map<string, Json>, a: seq<string>, b: seq<string>)
    requires forall k :: k in a || k in b ==> k in ms
    ensures Items(ms, a + b) == Items(ms, a) + Items(ms, b)
  {
  }

  lemma ItemsAlike(ms: map<string, Json>, other: map<string, Json>, keys: seq<string>)
    requires forall k :: k in keys ==> k in ms && k in other && ms[k] == other[k]
    ensures Items(ms, keys) == Items(other, keys)
  {
  }

  /** So does a member. */
  lemma BelowObject(ms: map<string, Json>, k: string)
    requires k in ms
    ensures Below(Object(ms)) == Below(Object(ms - {k})) + multiset{ms[k]} + Below(ms[k])
  {
    var a, b := ItemsWithout(ms, k);
    FirstItems(Object(ms));
    FirstItems(Object(ms - {k}));
    hide *;
    OnStackConcat(a + [ms[k]], b);
    OnStackBack(a, ms[k]);
    OnStackConcat(a, b);
  }

  lemma ItemsWithout(ms: map<string, Json>, k: string) returns (items: seq<Json>, others: seq<Json>)
    requires k in ms
    ensures Children(Object(ms)) == items + [ms[k]] + others
    ensures Children(Object(ms - {k})) == items + others
  {
    var a, b := KeysWithout(ms, k);
    var less := ms - {k};
    ItemsOfObject(ms);
    ItemsOfObject(less);
    hide *;
    ItemsApart(ms, a, k, b);
    ItemsAlike(ms, less, a + b);
    ItemsConcat(ms, a, b);
    items, others := Items(ms, a), Items(ms, b);
  }

  lemma KeysWithout(ms: map<string, Json>, k: string) returns (a: seq<string>, b: seq<string>)
    requires k in ms
    ensures SortedKeys(ms.Keys) == a + [k] + b && SortedKeys((ms - {k}).Keys) == a + b
    ensures forall x :: x in a || x in b || x in a + b || x in a + [k] || x in a + [k] + b ==> x in ms
    ensures forall x :: x in a + b ==> x in ms - {k}
  {
    a, b := SortedWithout(ms.Keys, k);
    assert (ms - {k}).Keys == ms.Keys - {k};
    hide SortedKeys;
  }

  lemma ItemsApart(ms: map<string, Json>, a: seq<string>, k: string, b: seq<string>)
    requires forall x :: x in a + [k] + b ==> x in ms
    ensures k in ms && forall x :: x in a || x in b ==> x in ms
    ensures Items(ms, a + [k] + b) == Items(ms, a) + [ms[k]] + Items(ms, b)
  {
    assert forall x :: x == k || x in a || x in b ==> x in a + [k] + b;
    hide Items;
    ItemsConcat(ms, a + [k], b);
    ItemsConcat(ms, a, [k]);
    ItemsOne(ms, k);
  }

  lemma ItemsOne(ms: map<string, Json>, k: string)
    requires k in ms
    ensures Items(ms, [k]) == [ms[k]]
  {
  }

  /** The number of values: the document itself and all below it. */
  function Nodes(j: Json): nat {
    1 + |Below(j)|
  }

  // ---------- destroy ----------

  /**
   * `destroy`: the items are moved to a stack; each one popped hands its own items to the stack before it is
   * destructed. `visited` are the items as popped, `released` as destructed.
   */
  method Destroy(j: Json) returns (visited: seq<Json>, released: seq<Json>)
    ensures multiset(visited) == Below(j)
    ensures |visited| == Nodes(j) - 1
    ensures |released| == |visited|
    ensures forall i :: 0 <= i < |released| ==> released[i] == Emptied(visited[i]) && Children(released[i]) == []
  {
    hide *;
    visited, released := [], [];
    var stack := MoveItems(j);
    FirstItems(j);
    while stack != []
      invariant multiset(visited) + OnStack(stack) == Below(j)
      invariant |released| == |visited|
      invariant forall i :: 0 <= i < |released| ==> released[i] == Emptied(visited[i]) && Children(released[i]) == []
      decreases |OnStack(stack)|
    {
      StackStep(stack);
      var item := stack[|stack| - 1];
      stack := stack[..|stack| - 1];
      visited := visited + [item];
      var items := MoveItems(item);
      stack := stack + items;
      released := released + [Emptied(item)];
      EmptiedHasNone(item);
    }
    NoneLeft(j, visited);
  }

  lemma FirstItems(j: Json)
    ensures OnStack(Children(j)) == Below(j)
  {
    ChildrenOnStack(j, |Children(j)|);
    assert Children(j)[..|Children(j)|] == Children(j);
  }

  lemma EmptiedHasNone(j: Json)
    ensures Children(Emptied(j)) == []
  {
  }

  lemma NoneLeft(j: Json, visited: seq<Json>)
    requires multiset(visited) + OnStack([]) == Below(j)
    ensures multiset(visited) == Below(j) && |visited| == Nodes(j) - 1
  {
    hide Below;
    assert |multiset(visited)| == |visited|;
  }

  /** The items, in the order in which they are moved. */
  method MoveItems(j: Json) returns (items: seq<Json>)
    ensures items == Children(j)
  {
    hide SortedKeys;
    items := [];
    if j.Array? {
      while |items| < |j.elems|
        invariant |items| <= |j.elems| && items == j.elems[..|items|]
      {
        items := items + [j.elems[|items|]];
      }
    } else if j.Object? {
      var keys := SortedKeys(j.members.Keys);
      while |items| < |keys|
        invariant |items| <= |keys| && items == Children(j)[..|items|]
      {
        items := items + [j.members[keys[|items|]]];
      }
    }
  }
}
