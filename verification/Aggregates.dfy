/** The event log of a table, and the aggregates of a column computed from scratch. */
module Aggregates {

  /** A cell of a row: its text, and the number that text is read as. */
  datatype Cell = Cell(text: string, number: real)

  /** `groups[p]` is the group key that preprocessor `p` gave the event. */
  datatype TableEvent = TableEvent(groups: seq<string>, timestamp: int, row: seq<Cell>)

  datatype Operator = Sum | Count | Min | Max | Avg

  /** Which cells a column aggregates: those of `column` in the events of `group`. */
  datatype Selector = Selector(preprocessor: nat, column: nat, group: string)

  /** The event has a key for the selector's preprocessor and a cell for its column. */
  predicate Readable(s: Selector, e: TableEvent) {
    s.preprocessor < |e.groups| && s.column < |e.row|
  }

  /** The value an event contributes, if it belongs to the group. */
  function Picked(s: Selector, e: TableEvent): (vs: seq<real>)
    ensures |vs| <= 1
  {
    if Readable(s, e) && e.groups[s.preprocessor] == s.group then [e.row[s.column].number] else []
  }

  /** The group's values among the events `low..high`, in log order. */
  function Values(s: Selector, log: seq<TableEvent>, low: int, high: int): seq<real>
    requires high <= |log|
    decreases high - low
  {
    if high <= low || high <= 0 then [] else Values(s, log, low, high - 1) + Picked(s, log[high - 1])
  }

  function Total(vs: seq<real>): real {
    if vs == [] then 0.0 else Total(vs[..|vs| - 1]) + vs[|vs| - 1]
  }

  /** `std::max` or `std::min`. */
  function Better(op: Operator, a: real, b: real): real {
    if op == Max then (if a < b then b else a) else (if b < a then b else a)
  }

  function Extreme(op: Operator, vs: seq<real>): real
    requires vs != []
  {
    if |vs| == 1 then vs[0] else Better(op, Extreme(op, vs[..|vs| - 1]), vs[|vs| - 1])
  }

  /** Division in the column's type: integer types drop the fraction. */
  function Quotient(integral: bool, sum: real, n: nat): real
    requires n > 0
  {
    var q := sum / n as real;
    if !integral then q else if q >= 0.0 then q.Floor as real else -((-q).Floor as real)
  }

  /** The aggregate of the given values, or the default when there are none. */
  function Aggregate(op: Operator, integral: bool, vs: seq<real>, default: real): real {
    if vs == [] then default
    else match op
      case Sum => Total(vs)
      case Count => |vs| as real
      case Min => Extreme(Min, vs)
      case Max => Extreme(Max, vs)
      case Avg => Quotient(integral, Total(vs), |vs|)
  }

  // ---------- Adding at the end, removing at the front ----------

  lemma ValuesNone(s: Selector, log: seq<TableEvent>, low: int)
    requires low <= |log|
    ensures Values(s, log, low, low) == []
  {
  }

  lemma ValuesBack(s: Selector, log: seq<TableEvent>, low: nat, n: nat)
    requires low <= n < |log|
    ensures Values(s, log, low, n + 1) == Values(s, log, low, n) + Picked(s, log[n])
  {
  }

  lemma {:induction false} ValuesFront(s: Selector, log: seq<TableEvent>, low: nat, high: nat)
    requires low < high <= |log|
    ensures Values(s, log, low, high) == Picked(s, log[low]) + Values(s, log, low + 1, high)
    decreases high
  {
    hide Picked;
    if high > low + 1 {
      ValuesFront(s, log, low, high - 1);
      assert Picked(s, log[low]) + Values(s, log, low + 1, high - 1) + Picked(s, log[high - 1])
          == Picked(s, log[low]) + (Values(s, log, low + 1, high - 1) + Picked(s, log[high - 1]));
    } else {
      assert Values(s, log, low, low) == [] == Values(s, log, low + 1, high);
    }
  }

  lemma {:induction false} ValuesSplit(s: Selector, log: seq<TableEvent>, low: nat, middle: nat, high: nat)
    requires low <= middle <= high <= |log|
    ensures Values(s, log, low, high) == Values(s, log, low, middle) + Values(s, log, middle, high)
    decreases high
  {
    hide Picked;
    if middle < high {
      ValuesSplit(s, log, low, middle, high - 1);
    }
  }

  /** Of the events `low..high` only the preprocessor's own keys, and the cells of the column, matter. */
  lemma {:induction false} ValuesAlike(s: Selector, t: Selector, log: seq<TableEvent>, other: seq<TableEvent>,
      low: nat, high: nat)
    requires high <= |log| && high <= |other|
    requires forall i :: low <= i < high ==> Picked(s, log[i]) == Picked(t, other[i])
    ensures Values(s, log, low, high) == Values(t, other, low, high)
    decreases high
  {
    hide Picked;
    if low < high {
      ValuesAlike(s, t, log, other, low, high - 1);
    }
  }

  lemma {:induction false} TotalFront(v: real, vs: seq<real>)
    ensures Total([v] + vs) == v + Total(vs)
  {
    if vs == [] {
      assert [v] + vs == [v] && [v][..0] == [];
    } else {
      assert ([v] + vs)[..|vs|] == [v] + vs[..|vs| - 1];
      TotalFront(v, vs[..|vs| - 1]);
    }
  }

  lemma TotalBack(vs: seq<real>, v: real)
    ensures Total(vs + [v]) == Total(vs) + v
  {
    assert (vs + [v])[..|vs|] == vs;
  }

  lemma ExtremeBack(op: Operator, vs: seq<real>, v: real)
    ensures Extreme(op, vs + [v]) == if vs == [] then v else Better(op, Extreme(op, vs), v)
  {
    assert (vs + [v])[..|vs|] == vs;
  }

  /** No value of the sequence is greater, or no one is less. */
  predicate Bounds(op: Operator, m: real, vs: seq<real>) {
    forall v :: v in vs ==> if op == Max then v <= m else m <= v
  }

  lemma {:induction false} ExtremeBounds(op: Operator, vs: seq<real>)
    requires vs != []
    ensures Extreme(op, vs) in vs && Bounds(op, Extreme(op, vs), vs)
  {
    if |vs| > 1 {
      var init := vs[..|vs| - 1];
      ExtremeBounds(op, init);
      assert vs == init + [vs[|vs| - 1]];
    }
  }

  /** The maximum is one of the values, and none is greater; the minimum is one of them, and none is less. */
  lemma ExtremeIsBest(vs: seq<real>)
    requires vs != []
    ensures Extreme(Max, vs) in vs && forall v :: v in vs ==> v <= Extreme(Max, vs)
    ensures Extreme(Min, vs) in vs && forall v :: v in vs ==> Extreme(Min, vs) <= v
  {
    ExtremeBounds(Max, vs);
    ExtremeBounds(Min, vs);
  }

  lemma ExtremeUnique(op: Operator, vs: seq<real>, m: real)
    requires m in vs && Bounds(op, m, vs)
    ensures Extreme(op, vs) == m
  {
    ExtremeBounds(op, vs);
  }

  /** A value that is not the extreme can go without a rescan. */
  lemma ExtremeWithoutFront(op: Operator, v: real, vs: seq<real>)
    requires v != Extreme(op, [v] + vs)
    ensures vs != [] && Extreme(op, vs) == Extreme(op, [v] + vs)
  {
    var all := [v] + vs;
    ExtremeBounds(op, all);
    var m := Extreme(op, all);
    assert m in vs;
    assert forall w :: w in vs ==> w in all;
    ExtremeUnique(op, vs, m);
  }

  // ---------- Averages ----------

  /** The value has no fraction. */
  predicate Whole(v: real) {
    v == v.Floor as real
  }

  lemma {:induction false} TotalBounds(vs: seq<real>, low: real, high: real)
    requires forall v :: v in vs ==> low <= v <= high
    ensures Times(low, |vs| as real) <= Total(vs) <= Times(high, |vs| as real)
  {
    hide Times;
    TimesNext(low, 0);
    TimesNext(high, 0);
    if vs != [] {
      var init, last := vs[..|vs| - 1], vs[|vs| - 1];
      assert last in vs && forall v :: v in init ==> v in vs;
      TotalBounds(init, low, high);
      TimesNext(low, |init|);
      TimesNext(high, |init|);
    }
  }

  /** A number without its fraction. */
  function Truncated(q: real): real {
    if q >= 0.0 then q.Floor as real else -((-q).Floor as real)
  }

  /** A product, as a term without arithmetic of its own. */
  function Times(x: real, n: real): real {
    x * n
  }

  lemma TimesNext(x: real, n: nat)
    ensures Times(x, (n + 1) as real) == Times(x, n as real) + x && Times(x, 0.0) == 0.0
  {
  }

  lemma TimesAdded(x: real, y: real, n: real)
    ensures Times(x + y, n) == Times(x, n) + Times(y, n) && Times(1.0, n) == n && Times(-1.0, n) == -n
  {
  }

  lemma TimesPositive(x: real, n: real)
    requires n > 0.0
    ensures x > 0.0 ==> Times(x, n) > 0.0
    ensures x < 0.0 ==> Times(x, n) < 0.0
    ensures x == 0.0 ==> Times(x, n) == 0.0
  {
  }

  lemma TimesOrdered(a: real, b: real, n: real)
    requires n > 0.0
    ensures a < b <==> Times(a, n) < Times(b, n)
  {
    hide *;
    var d := b - a;
    assert a + d == b;
    TimesAdded(a, d, n);
    TimesPositive(d, n);
  }

  lemma QuotientIs(integral: bool, sum: real, n: nat) returns (q: real)
    requires n > 0
    ensures Times(q, n as real) == sum && Quotient(integral, sum, n) == if integral then Truncated(q) else q
  {
    q := sum / n as real;
    DividedBack(sum, n as real);
  }

  lemma DividedBack(sum: real, n: real)
    requires n > 0.0
    ensures sum / n * n == sum
  {
  }

  lemma FloorIs(q: real)
    ensures q.Floor as real <= q < q.Floor as real + 1.0
  {
  }

  lemma WholeNumber(n: int)
    ensures Whole(n as real)
  {
  }

  lemma BelowFloor(n: int, q: real)
    requires n as real <= q
    ensures n <= q.Floor
  {
    FloorIs(q);
  }

  lemma TruncatedIs(q: real)
    ensures Whole(Truncated(q))
    ensures q >= 0.0 ==> q - 1.0 < Truncated(q) <= q
    ensures q < 0.0 ==> q <= Truncated(q) < q + 1.0
  {
    if q >= 0.0 {
      FloorIs(q);
      WholeNumber(q.Floor);
    } else {
      FloorIs(-q);
      Negated((-q).Floor);
      WholeNumber(-(-q).Floor);
    }
  }

  lemma Negated(n: int)
    ensures -(n as real) == (-n) as real
  {
  }

  lemma TruncatedBounds(q: real, low: int, high: int)
    requires low as real <= q <= high as real
    ensures low as real <= Truncated(q) <= high as real
  {
    if q >= 0.0 {
      BelowFloor(low, q);
      FloorIs(q);
    } else {
      Negated(high);
      BelowFloor(-high, -q);
      FloorIs(-q);
    }
  }

  lemma WholeIs(v: real)
    requires Whole(v)
    ensures v == v.Floor as real
  {
  }

  /** Dropping the fraction does not pass a whole bound. */
  lemma QuotientBounds(integral: bool, sum: real, n: nat, low: real, high: real)
    requires n > 0 && Times(low, n as real) <= sum <= Times(high, n as real)
    requires integral ==> Whole(low) && Whole(high)
    ensures low <= Quotient(integral, sum, n) <= high
  {
    hide *;
    var q := QuotientIs(integral, sum, n);
    TimesOrdered(q, low, n as real);
    TimesOrdered(high, q, n as real);
    if integral {
      WholeIs(low);
      WholeIs(high);
      TruncatedBounds(q, low.Floor, high.Floor);
    }
  }

  /** What is multiplied back is the total, or falls short of it by less than the count, on the side of zero. */
  lemma QuotientTimes(integral: bool, sum: real, n: nat)
    requires n > 0
    ensures !integral ==> Times(Quotient(integral, sum, n), n as real) == sum
    ensures integral ==> Whole(Quotient(integral, sum, n)) && Short(Quotient(integral, sum, n), sum, n)
  {
    hide *;
    var q := QuotientIs(integral, sum, n);
    var x := Truncated(q);
    TruncatedIs(q);
    TimesPositive(q, n as real);
    TimesAdded(q, 1.0, n as real);
    TimesAdded(q, -1.0, n as real);
    TimesOrdered(q, x, n as real);
    TimesOrdered(x, q, n as real);
    TimesOrdered(q - 1.0, x, n as real);
    TimesOrdered(x, q + 1.0, n as real);
    IsShort(x, sum, n, Times(x, n as real));
  }

  /** Times the count it falls short of the total by less than the count, on the side of zero. */
  predicate Short(x: real, total: real, n: nat) {
    if total >= 0.0 then total - n as real < x * n as real <= total else total <= x * n as real < total + n as real
  }

  lemma IsShort(x: real, total: real, n: nat, back: real)
    requires back == Times(x, n as real)
    ensures total >= 0.0 && total - n as real < back <= total ==> Short(x, total, n)
    ensures total < 0.0 && total <= back < total + n as real ==> Short(x, total, n)
  {
  }

  /** An average lies between the least and the greatest value, and times the count it is the total. */
  lemma AverageIs(integral: bool, vs: seq<real>)
    requires vs != [] && (integral ==> forall v :: v in vs ==> Whole(v))
    ensures Extreme(Min, vs) <= Quotient(integral, Total(vs), |vs|) <= Extreme(Max, vs)
    ensures !integral ==> Quotient(integral, Total(vs), |vs|) * |vs| as real == Total(vs)
    ensures integral ==> Whole(Quotient(integral, Total(vs), |vs|))
    ensures integral ==> Short(Quotient(integral, Total(vs), |vs|), Total(vs), |vs|)
  {
    hide Extreme, Total, Quotient, Whole, Short;
    ExtremeIsBest(vs);
    TotalBounds(vs, Extreme(Min, vs), Extreme(Max, vs));
    QuotientBounds(integral, Total(vs), |vs|, Extreme(Min, vs), Extreme(Max, vs));
    QuotientTimes(integral, Total(vs), |vs|);
    var x, n := Quotient(integral, Total(vs), |vs|), |vs| as real;
    assert Times(x, n) == x * n;
  }

  // ---------- The aggregates by their names in a configuration ----------

  /** What the named aggregate of the values is, in terms of comparisons and of the total. */
  predicate IsAggregate(name: string, integral: bool, vs: seq<real>, default: real, x: real) {
    var n := |vs| as real;
    if vs == [] then x == default
    else if name == "Sum" then x == Total(vs)
    else if name == "Count" then x == n
    else if name == "Min" then x in vs && forall v :: v in vs ==> x <= v
    else if name == "Max" then x in vs && forall v :: v in vs ==> v <= x
    else if name == "Avg" then
      if integral then Whole(x) && Short(x, Total(vs), |vs|) else x * n == Total(vs)
    else false
  }

  /** The operator of a name, as the columns compute it. */
  lemma AggregateIs(name: string, op: Operator, integral: bool, vs: seq<real>, default: real)
    requires (name, op) in {("Sum", Sum), ("Count", Count), ("Min", Min), ("Max", Max), ("Avg", Avg)}
    ensures IsAggregate(name, integral, vs, default, Aggregate(op, integral, vs, default))
  {
    if vs != [] {
      ExtremeIsBest(vs);
      QuotientTimes(integral, Total(vs), |vs|);
    }
    hide Extreme, Total, Quotient, Whole, Short;
  }

  lemma TotalIs(v: real, vs: seq<real>)
    ensures Total([]) == 0.0 && Total([v]) == v && Total([v] + vs) == v + Total(vs)
  {
    TotalFront(v, vs);
    assert [v][..0] == [];
  }
}
