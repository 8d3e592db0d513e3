/** The text that identifies a group: its cells, each followed by a plus sign. */
module GroupKeys {

  function KeyOf(cells: seq<string>): string {
    if cells == [] then "" else KeyOf(cells[..|cells| - 1]) + cells[|cells| - 1] + "+"
  }

  lemma {:induction false} KeyOfConcat(a: seq<string>, b: seq<string>)
    ensures KeyOf(a + b) == KeyOf(a) + KeyOf(b)
  {
    if b == [] {
      assert a + b == a;
    } else {
      assert (a + b)[..|a + b| - 1] == a + b[..|b| - 1];
      KeyOfConcat(a, b[..|b| - 1]);
    }
  }

  lemma KeyOfFront(cells: seq<string>)
    requires cells != []
    ensures KeyOf(cells) == cells[0] + "+" + KeyOf(cells[1..])
  {
    assert cells == [cells[0]] + cells[1..];
    KeyOfConcat([cells[0]], cells[1..]);
    assert [cells[0]][..0] == [];
  }

  predicate PlusFree(cells: seq<string>) {
    forall i :: 0 <= i < |cells| ==> '+' !in cells[i]
  }

  lemma {:induction false} FirstPlus(a: string, x: string, b: string, y: string)
    requires a + "+" + x == b + "+" + y && '+' !in a && '+' !in b
    ensures a == b && x == y
  {
    var s, t := a + "+" + x, b + "+" + y;
    assert s[|a|] == '+' && t[|b|] == '+';
    assert forall i :: 0 <= i < |a| ==> s[i] == a[i] && a[i] in a;
    assert forall i :: 0 <= i < |b| ==> t[i] == b[i] && b[i] in b;
    assert a == s[..|a|] && b == t[..|b|];
    assert x == s[|a| + 1..] && y == t[|b| + 1..];
  }

  /** For cells without plus signs two rows share a key exactly when they agree on the group columns. */
  lemma {:induction false} KeysOfPlusFree(a: seq<string>, b: seq<string>)
    requires |a| == |b| && PlusFree(a) && PlusFree(b)
    ensures KeyOf(a) == KeyOf(b) <==> a == b
  {
    if a != [] && KeyOf(a) == KeyOf(b) {
      KeyOfFront(a);
      KeyOfFront(b);
      FirstPlus(a[0], KeyOf(a[1..]), b[0], KeyOf(b[1..]));
      KeysOfPlusFree(a[1..], b[1..]);
      assert a == [a[0]] + a[1..] && b == [b[0]] + b[1..];
    }
  }

  // ---------- Cells with plus signs ----------

  /** No other row has the key of this one. */
  ghost predicate Identifies(cells: seq<string>) {
    forall other: seq<string> :: |other| == |cells| && KeyOf(other) == KeyOf(cells) ==> other == cells
  }

  lemma SingleColumnIdentifies(cells: seq<string>)
    requires |cells| <= 1
    ensures Identifies(cells)
  {
    forall other: seq<string> | |other| == |cells| && KeyOf(other) == KeyOf(cells) ensures other == cells {
      if |cells| == 1 {
        KeyOfFront(cells);
        KeyOfFront(other);
        assert KeyOf(cells)[..|cells[0]|] == cells[0] && KeyOf(other)[..|other[0]|] == other[0];
      }
    }
  }

  lemma {:induction false} PlusCount(cells: seq<string>)
    ensures Pluses(KeyOf(cells)) == |cells| + PlusesIn(cells)
  {
    if cells != [] {
      var n := |cells| - 1;
      PlusCount(cells[..n]);
      PlusesConcat(KeyOf(cells[..n]) + cells[n], "+");
      PlusesConcat(KeyOf(cells[..n]), cells[n]);
      assert Pluses("+") == 1 by { assert "+"[..0] == ""; }
    }
  }

  function Pluses(s: string): nat {
    if s == "" then 0 else Pluses(s[..|s| - 1]) + if s[|s| - 1] == '+' then 1 else 0
  }

  function PlusesIn(cells: seq<string>): nat {
    if cells == [] then 0 else PlusesIn(cells[..|cells| - 1]) + Pluses(cells[|cells| - 1])
  }

  lemma {:induction false} PlusesConcat(a: string, b: string)
    ensures Pluses(a + b) == Pluses(a) + Pluses(b)
  {
    if b == "" {
      assert a + b == a;
    } else {
      assert (a + b)[..|a + b| - 1] == a + b[..|b| - 1];
      PlusesConcat(a, b[..|b| - 1]);
    }
  }

  lemma {:induction false} PlusesZero(s: string)
    ensures Pluses(s) == 0 <==> '+' !in s
  {
    if s != "" {
      PlusesZero(s[..|s| - 1]);
      assert s == s[..|s| - 1] + [s[|s| - 1]];
    }
  }

  lemma {:induction false} PlusesInZero(cells: seq<string>)
    ensures PlusesIn(cells) == 0 <==> PlusFree(cells)
  {
    if cells != [] {
      var n := |cells| - 1;
      PlusesInZero(cells[..n]);
      PlusesZero(cells[n]);
      assert cells == cells[..n] + [cells[n]];
      if PlusFree(cells[..n]) && '+' !in cells[n] {
        assert forall i :: 0 <= i < n ==> cells[i] == cells[..n][i];
      } else if !PlusFree(cells[..n]) {
        var i :| 0 <= i < n && '+' in cells[..n][i];
        assert cells[i] == cells[..n][i];
      }
    }
  }

  /** A plus sign in a cell can be taken for the end of the cell. */
  lemma Collides(cells: seq<string>, i: nat) returns (other: seq<string>)
    requires i < |cells| && |cells| > 1 && '+' in cells[i]
    ensures |other| == |cells| && KeyOf(other) == KeyOf(cells) && other != cells
  {
    hide *;
    var p :| 0 <= p < |cells[i]| && cells[i][p] == '+';
    var x, y := cells[i][..p], cells[i][p + 1..];
    assert cells[i] == x + "+" + y;
    if i + 1 < |cells| {
      other := CollidesBefore(cells[..i], x, y, cells[i + 1], cells[i + 2..]);
      assert cells == cells[..i] + [x + "+" + y, cells[i + 1]] + cells[i + 2..];
    } else {
      other := CollidesAfter(cells[..i - 1], cells[i - 1], x, y, cells[i + 1..]);
      assert cells == cells[..i - 1] + [cells[i - 1], x + "+" + y] + cells[i + 1..];
    }
  }

  /** The rest of a cell can be taken for the beginning of the next one. */
  lemma CollidesBefore(front: seq<string>, x: string, y: string, next: string, back: seq<string>)
    returns (other: seq<string>)
    ensures var cells := front + [x + "+" + y, next] + back;
      |other| == |cells| && KeyOf(other) == KeyOf(cells) && other != cells
  {
    other := front + [x, y + "+" + next] + back;
    SameKey(front, [x, y + "+" + next], [x + "+" + y, next], back);
    PairKey(x, y + "+" + next);
    PairKey(x + "+" + y, next);
    hide *;
    PlusesAssociate(x, y, next);
    assert other[|front|] == x;
  }

  /** The beginning of a cell can be taken for the end of the one before. */
  lemma CollidesAfter(front: seq<string>, before: string, x: string, y: string, back: seq<string>)
    returns (other: seq<string>)
    ensures var cells := front + [before, x + "+" + y] + back;
      |other| == |cells| && KeyOf(other) == KeyOf(cells) && other != cells
  {
    other := front + [before + "+" + x, y] + back;
    SameKey(front, [before + "+" + x, y], [before, x + "+" + y], back);
    PairKey(before + "+" + x, y);
    PairKey(before, x + "+" + y);
    hide *;
    PlusesAssociate(before, x, y);
    assert other[|front| + 1] == y;
  }

  lemma PlusesAssociate(a: string, b: string, c: string)
    ensures (a + "+" + b) + "+" + c + "+" == a + "+" + (b + "+" + c) + "+"
  {
  }

  lemma PairKey(a: string, b: string)
    ensures KeyOf([a, b]) == a + "+" + b + "+"
  {
    assert [a, b][..1] == [a] && [a][..0] == [];
    assert KeyOf([a]) == "" + a + "+" == a + "+";
  }

  lemma SameKey(a: seq<string>, b: seq<string>, c: seq<string>, d: seq<string>)
    ensures KeyOf(b) == KeyOf(c) ==> KeyOf(a + b + d) == KeyOf(a + c + d)
  {
    KeyOfConcat(a + b, d);
    KeyOfConcat(a, b);
    KeyOfConcat(a + c, d);
    KeyOfConcat(a, c);
  }

  /**
   * With two or more group columns, the key of a row belongs to no other row exactly when none of its cells
   * contains a plus sign.
   */
  lemma IdentifiesExactly(cells: seq<string>)
    requires |cells| > 1
    ensures Identifies(cells) <==> PlusFree(cells)
  {
    if PlusFree(cells) {
      forall other: seq<string> | |other| == |cells| && KeyOf(other) == KeyOf(cells) ensures other == cells {
        PlusCount(cells);
        PlusCount(other);
        PlusesInZero(cells);
        PlusesInZero(other);
        KeysOfPlusFree(cells, other);
      }
    } else {
      var i :| 0 <= i < |cells| && '+' in cells[i];
      var other := Collides(cells, i);
    }
  }
}
