/** The order in which `std::map<std::string, T>` is iterated. */
module Ordering {

  /** Lexicographic comparison of the character codes. */
  predicate Less(a: string, b: string) {
    b != [] && (a == [] || a[0] < b[0] || (a[0] == b[0] && Less(a[1..], b[1..])))
  }

  lemma {:induction false} LessTransitive(a: string, b: string, c: string)
    requires Less(a, b) && Less(b, c)
    ensures Less(a, c)
  {
    if a != [] && a[0] == b[0] == c[0] {
      LessTransitive(a[1..], b[1..], c[1..]);
    }
  }

  lemma {:induction false} LessIrreflexive(a: string)
    ensures !Less(a, a)
  {
    if a != [] {
      LessIrreflexive(a[1..]);
    }
  }

  lemma {:induction false} LessTrichotomy(a: string, b: string)
    ensures Less(a, b) || a == b || Less(b, a)
  {
    if a != [] && b != [] && a[0] == b[0] {
      LessTrichotomy(a[1..], b[1..]);
      assert a == [a[0]] + a[1..] && b == [b[0]] + b[1..];
    }
  }

  /** A shared prefix does not matter. */
  lemma {:induction false} LessUnderPrefix(p: string, a: string, b: string)
    ensures Less(p + a, p + b) == Less(a, b)
  {
    if p == [] {
      assert p + a == a && p + b == b;
    } else {
      assert (p + a)[1..] == p[1..] + a && (p + b)[1..] == p[1..] + b;
      LessUnderPrefix(p[1..], a, b);
    }
  }

  ghost predicate IsMinimum(k: string, keys: set<string>) {
    k in keys && forall x :: x in keys && x != k ==> Less(k, x)
  }

  lemma {:induction false} MinimumExists(keys: set<string>)
    requires keys != {}
    ensures exists k :: IsMinimum(k, keys)
  {
    var x :| x in keys;
    var rest := keys - {x};
    if rest == {} {
      assert keys == {x};
      assert IsMinimum(x, keys);
    } else {
      MinimumExists(rest);
      var y :| IsMinimum(y, rest);
      LessTrichotomy(x, y);
      if Less(x, y) {
        forall z | z in keys && z != x ensures Less(x, z) {
          if z != y { LessTransitive(x, y, z); }
        }
        assert IsMinimum(x, keys);
      } else {
        assert IsMinimum(y, keys);
      }
    }
  }

  lemma MinimumUnique(keys: set<string>)
    ensures forall j, k | j in keys && k in keys
        && (forall x :: x in keys && x != j ==> Less(j, x))
        && (forall x :: x in keys && x != k ==> Less(k, x)) :: j == k
  {
    forall j, k | j in keys && k in keys
        && (forall x :: x in keys && x != j ==> Less(j, x))
        && (forall x :: x in keys && x != k ==> Less(k, x))
      ensures j == k
    {
      if j != k {
        LessTransitive(j, k, j);
        LessIrreflexive(j);
      }
    }
  }

  function Minimum(keys: set<string>): (k: string)
    requires keys != {}
    ensures IsMinimum(k, keys)
  {
    MinimumExists(keys);
    MinimumUnique(keys);
    var k :| k in keys && forall x :: x in keys && x != k ==> Less(k, x);
    k
  }

  ghost predicate AreSorted(ks: seq<string>, keys: set<string>) {
    && |ks| == |keys|
    && (forall k :: k in ks <==> k in keys)
    && (forall i, j :: 0 <= i < j < |ks| ==> Less(ks[i], ks[j]))
  }

  lemma MinimumFirst(k: string, rest: seq<string>, keys: set<string>)
    requires k in keys && (forall x :: x in keys && x != k ==> Less(k, x)) && AreSorted(rest, keys - {k})
    ensures AreSorted([k] + rest, keys)
  {
    hide Less;
    var ks := [k] + rest;
    forall i, j | 0 <= i < j < |ks| ensures Less(ks[i], ks[j]) {
      assert ks[j] == rest[j - 1] && rest[j - 1] in rest;
    }
  }

  /** The keys in iteration order. */
  function SortedKeys(keys: set<string>): (ks: seq<string>)
    ensures |ks| == |keys|
    ensures forall k :: k in ks <==> k in keys
    ensures forall i, j :: 0 <= i < j < |ks| ==> Less(ks[i], ks[j])
    decreases |keys|
  {
    if keys == {} then
      []
    else
      var k := Minimum(keys);
      var rest := SortedKeys(keys - {k});
      MinimumFirst(k, rest, keys);
      [k] + rest
  }

  lemma SortedKeysDistinct(keys: set<string>)
    ensures forall i, j :: 0 <= i < j < |SortedKeys(keys)| ==> SortedKeys(keys)[i] != SortedKeys(keys)[j]
  {
    var ks := SortedKeys(keys);
    forall i, j | 0 <= i < j < |ks| ensures ks[i] != ks[j] {
      LessIrreflexive(ks[i]);
    }
  }

  lemma MinimumStays(keys: set<string>, k: string)
    requires k in keys && k != Minimum(keys)
    ensures keys - {k} != {} && Minimum(keys - {k}) == Minimum(keys)
  {
    var m := Minimum(keys);
    assert m in keys - {k};
    MinimumUnique(keys - {k});
    hide Less, Minimum;
  }

  lemma SortedFirst(keys: set<string>)
    requires keys != {}
    ensures SortedKeys(keys) == [Minimum(keys)] + SortedKeys(keys - {Minimum(keys)})
  {
    hide Less, Minimum;
  }

  lemma WithFirst(m: string, a: seq<string>, k: string, b: seq<string>)
    ensures [m] + (a + [k] + b) == [m] + a + [k] + b
    ensures [m] + (a + b) == [m] + a + b
  {
  }

  lemma NoneBefore(k: string, b: seq<string>)
    ensures [] + [k] + b == [k] + b && [] + b == b
  {
  }

  /** Without one key the order of the others stays. */
  lemma {:induction false} SortedWithout(keys: set<string>, k: string) returns (a: seq<string>, b: seq<string>)
    requires k in keys
    ensures SortedKeys(keys) == a + [k] + b && SortedKeys(keys - {k}) == a + b
    decreases |keys|
  {
    hide *;
    var m := Minimum(keys);
    SortedFirst(keys);
    if k == m {
      a, b := [], SortedKeys(keys - {m});
      NoneBefore(k, b);
    } else {
      MinimumStays(keys, k);
      SortedFirst(keys - {k});
      var init, rest := SortedWithout(keys - {m}, k);
      assert keys - {k} - {m} == keys - {m} - {k};
      WithFirst(m, init, k, rest);
      a, b := [m] + init, rest;
    }
  }
}
