/** The incremental aggregate columns: SumColumn, CountColumn, MinColumn, MaxColumn and AverageColumn. */
module Columns {
  import opened Results
  import opened Aggregates

  /** What a column is made for. The five column classes differ only in the operator. */
  datatype Config = Config(selector: Selector, operator: Operator, integral: bool, default: real)

  /** What a column remembers; `oldestIndex` is -1 while it has no event. */
  datatype State = State(totalCount: int, oldestIndex: int, sum: real, stored: real)

  function Start(c: Config): State {
    State(0, -1, 0.0, c.default)
  }

  /** The state is the one for exactly the group's events among `low..high`, aggregated from scratch. */
  ghost predicate Agrees(c: Config, log: seq<TableEvent>, low: nat, high: nat, st: State) {
    && low <= high <= |log|
    && var vs := Values(c.selector, log, low, high);
    && st.totalCount == |vs|
    && st.stored == Aggregate(c.operator, c.integral, vs, c.default)
    && (c.operator == Avg ==> st.sum == Total(vs))
    && (vs == [] ==> st.oldestIndex == -1)
    && (vs != [] ==> low <= st.oldestIndex <= high && Values(c.selector, log, low, st.oldestIndex) == [])
  }

  lemma StartAgrees(c: Config, log: seq<TableEvent>, low: nat, high: nat)
    requires low <= high <= |log| && Values(c.selector, log, low, high) == []
    ensures Agrees(c, log, low, high, Start(c))
  {
    assert Total([]) == 0.0;
  }

  /** The stored value after one more event of the group. */
  function StoredAfter(c: Config, st: State, v: real): real
    requires st.totalCount >= 0
  {
    var first := st.oldestIndex == -1;
    match c.operator
    case Sum => if first then v else st.stored + v
    case Count => if first then 1.0 else st.stored + 1.0
    case Min => if first then v else Better(Min, st.stored, v)
    case Max => if first then v else Better(Max, st.stored, v)
    case Avg => Quotient(c.integral, st.sum + v, st.totalCount + 1)
  }

  /** One more event, at index `n`, of the group. */
  function Added(c: Config, st: State, n: nat, v: real): State
    requires st.totalCount >= 0
  {
    State(st.totalCount + 1, if st.oldestIndex == -1 then n else st.oldestIndex,
      if c.operator == Avg then st.sum + v else st.sum, StoredAfter(c, st, v))
  }

  lemma AggregateBack(c: Config, vs: seq<real>, v: real)
    ensures var a := Aggregate(c.operator, c.integral, vs, c.default);
      var b := Aggregate(c.operator, c.integral, vs + [v], c.default);
      && (c.operator == Sum ==> b == if vs == [] then v else a + v)
      && (c.operator == Count ==> b == if vs == [] then 1.0 else a + 1.0)
      && (c.operator == Min ==> b == if vs == [] then v else Better(Min, a, v))
      && (c.operator == Max ==> b == if vs == [] then v else Better(Max, a, v))
      && (c.operator == Avg ==> b == Quotient(c.integral, Total(vs) + v, |vs| + 1))
  {
    TotalBack(vs, v);
    ExtremeBack(c.operator, vs, v);
    assert Total([]) == 0.0;
    hide Total, Extreme, Quotient, Better;
  }

  /** Until the group's first event there is nothing before the index where that event is. */
  lemma FirstOfGroup(c: Config, log: seq<TableEvent>, low: nat, n: nat, st: State)
    requires Agrees(c, log, low, n, st)
    ensures st.oldestIndex == -1 ==> Values(c.selector, log, low, n) == []
    ensures st.oldestIndex != -1 ==> Values(c.selector, log, low, n) != []
  {
  }

  lemma AddedAgrees(c: Config, log: seq<TableEvent>, low: nat, n: nat, st: State, v: real)
    requires n < |log| && Agrees(c, log, low, n, st) && Picked(c.selector, log[n]) == [v]
    ensures Agrees(c, log, low, n + 1, Added(c, st, n, v))
  {
    hide Values, Total, Extreme, Quotient, Better, Aggregate, Picked;
    var vs := Values(c.selector, log, low, n);
    ValuesBack(c.selector, log, low, n);
    AggregateBack(c, vs, v);
    TotalBack(vs, v);
    FirstOfGroup(c, log, low, n, st);
  }

  lemma SkippedAgrees(c: Config, log: seq<TableEvent>, low: nat, n: nat, st: State)
    requires n < |log| && Agrees(c, log, low, n, st) && Picked(c.selector, log[n]) == []
    ensures Agrees(c, log, low, n + 1, st)
  {
    hide Values, Total, Aggregate, Picked;
    ValuesBack(c.selector, log, low, n);
    assert Values(c.selector, log, low, n + 1) == Values(c.selector, log, low, n);
  }

  // ---------- Removing events at the front ----------

  /** While events are subtracted one by one: `st` is right for the events from `i` on. */
  ghost predicate Subtracted(c: Config, log: seq<TableEvent>, i: nat, st: State) {
    && i <= |log|
    && var vs := Values(c.selector, log, i, |log|);
    && st.totalCount == |vs|
    && (c.operator == Sum ==> st.stored == Total(vs))
    && (c.operator == Count ==> st.stored == |vs| as real)
    && (c.operator == Avg ==> st.sum == Total(vs))
  }

  /** One event of the group less, at the front. */
  function Subtraction(c: Config, st: State, v: real): State {
    State(st.totalCount - 1, st.oldestIndex, if c.operator == Avg then st.sum - v else st.sum,
      match c.operator
      case Count => st.stored - 1.0
      case Avg => st.stored
      case _ => st.stored - v)
  }

  /** When the scan ended beyond the boundary, it never began. */
  lemma SubtractedAt(c: Config, log: seq<TableEvent>, boundary: nat, i: nat, st: State)
    requires Subtracted(c, log, i, st) && boundary <= i
    requires Values(c.selector, log, boundary, |log|) == Values(c.selector, log, i, |log|)
    ensures Subtracted(c, log, boundary, st)
  {
  }

  lemma SubtractedStart(c: Config, log: seq<TableEvent>, low: nat, st: State)
    requires Agrees(c, log, low, |log|, st) && st.oldestIndex != -1 && !c.operator.Min? && !c.operator.Max?
    ensures low <= st.oldestIndex <= |log| && Subtracted(c, log, st.oldestIndex, st)
    ensures Values(c.selector, log, low, st.oldestIndex) == []
  {
    hide Values, Total, Extreme, Quotient;
    ValuesSplit(c.selector, log, low, st.oldestIndex, |log|);
    assert [] + Values(c.selector, log, st.oldestIndex, |log|) == Values(c.selector, log, st.oldestIndex, |log|);
  }

  lemma SubtractedStep(c: Config, log: seq<TableEvent>, i: nat, st: State)
    requires Subtracted(c, log, i, st) && i < |log|
    ensures Picked(c.selector, log[i]) == [] ==> Subtracted(c, log, i + 1, st)
    ensures forall v :: Picked(c.selector, log[i]) == [v] ==> Subtracted(c, log, i + 1, Subtraction(c, st, v))
  {
    hide Values, Total, Picked, Extreme;
    var rest := Values(c.selector, log, i + 1, |log|);
    ValuesFront(c.selector, log, i, |log|);
    assert [] + rest == rest;
    forall v ensures Total([v] + rest) == v + Total(rest) { TotalFront(v, rest); }
  }

  /** What a column does once the expired events are gone. */
  function Settled(c: Config, st: State, boundary: int): State
    requires st.totalCount >= 0
  {
    if st.totalCount == 0 then State(0, -1, if c.operator == Avg then 0.0 else st.sum, c.default)
    else st.(oldestIndex := boundary,
      stored := if c.operator == Avg then Quotient(c.integral, st.sum, st.totalCount) else st.stored)
  }

  lemma SettledAgrees(c: Config, log: seq<TableEvent>, boundary: nat, st: State)
    requires Subtracted(c, log, boundary, st) && !c.operator.Min? && !c.operator.Max?
    ensures st.totalCount >= 0 && Agrees(c, log, boundary, |log|, Settled(c, st, boundary))
  {
    assert Total([]) == 0.0;
    hide Values, Total, Quotient;
    ValuesNone(c.selector, log, boundary);
  }

  /** A column without events stays without events. */
  lemma EmptySettled(c: Config, log: seq<TableEvent>, low: nat, boundary: int, st: State)
    requires Agrees(c, log, low, |log|, st) && st.oldestIndex == -1
    requires boundary == -1 || low <= boundary <= |log|
    ensures st.totalCount == 0
    ensures Agrees(c, log, if boundary == -1 then low else boundary, |log|, Settled(c, st, boundary))
  {
    assert Total([]) == 0.0;
    FirstOfGroup(c, log, low, |log|, st);
    hide Values, Total, Extreme, Quotient;
    if boundary != -1 {
      ValuesSplit(c.selector, log, low, boundary, |log|);
    }
  }

  /** The group's first event may lie after the boundary; nothing of the group is between them. */
  lemma NothingBetween(c: Config, log: seq<TableEvent>, low: nat, boundary: nat, start: nat)
    requires low <= boundary <= start <= |log| && Values(c.selector, log, low, start) == []
    ensures Values(c.selector, log, boundary, |log|) == Values(c.selector, log, start, |log|)
  {
    hide Values;
    ValuesSplit(c.selector, log, low, boundary, start);
    ValuesSplit(c.selector, log, boundary, start, |log|);
    assert [] + Values(c.selector, log, start, |log|) == Values(c.selector, log, start, |log|);
  }

  // ---------- Sum, Count and Avg as the program has them ----------

  /**
   * The loop from index `i` on: every event of the group is subtracted. Reading an event that is not in the log is
   * not defined.
   */
  function SubtractedFrom(c: Config, log: seq<TableEvent>, i: int, boundary: int, st: State): Option<State>
    decreases boundary - i
  {
    if i >= boundary then Some(st)
    else if i < 0 || i >= |log| then None
    else
      var vs := Picked(c.selector, log[i]);
      SubtractedFrom(c, log, i + 1, boundary, if vs == [] then st else Subtraction(c, st, vs[0]))
  }

  /** From an index that separates events of which none is the group's, the loop leaves the rest aggregated. */
  lemma {:induction false} SubtractedFromIs(c: Config, log: seq<TableEvent>, i: nat, boundary: nat, st: State)
    requires Subtracted(c, log, i, st) && i <= boundary <= |log|
    ensures SubtractedFrom(c, log, i, boundary, st).Some?
    ensures Subtracted(c, log, boundary, SubtractedFrom(c, log, i, boundary, st).value)
    decreases boundary - i
  {
    hide Subtracted, Subtraction, Picked;
    if i < boundary {
      SubtractedStep(c, log, i, st);
      var vs := Picked(c.selector, log[i]);
      assert vs != [] ==> vs == [vs[0]];
      SubtractedFromIs(c, log, i + 1, boundary, if vs == [] then st else Subtraction(c, st, vs[0]));
    }
  }

  /** The loop does not count below 0. */
  predicate Countable(c: Config, log: seq<TableEvent>, boundary: int, st: State) {
    var rest := SubtractedFrom(c, log, st.oldestIndex, boundary, st);
    rest.Some? ==> rest.value.totalCount >= 0
  }

  /** `remove_events` of these columns, or nothing when it reads an event that is not there. */
  function RemovedAsWritten(c: Config, log: seq<TableEvent>, boundary: int, st: State): Option<State>
    requires Countable(c, log, boundary, st)
  {
    match SubtractedFrom(c, log, st.oldestIndex, boundary, st)
    case None => None
    case Some(rest) => Some(Settled(c, rest, boundary))
  }

  /**
   * A column that remembers an event is right after any removal. One that does not starts from index -1: it fails
   * as soon as there is a boundary, whatever the events are.
   */
  lemma UnguardedExact(c: Config, log: seq<TableEvent>, low: nat, boundary: int, st: State)
    requires !c.operator.Min? && !c.operator.Max? && Agrees(c, log, low, |log|, st)
    requires boundary == -1 || low <= boundary <= |log|
    requires boundary == -1 ==> st.oldestIndex == -1
    ensures Countable(c, log, boundary, st)
    ensures var after := RemovedAsWritten(c, log, boundary, st);
      && (after.Some? <==> st.oldestIndex != -1 || boundary == -1)
      && (after.Some? ==> Agrees(c, log, if boundary == -1 then low else boundary, |log|, after.value))
  {
    if st.oldestIndex == -1 {
      EmptySettled(c, log, low, boundary, st);
    } else {
      SubtractedStart(c, log, low, st);
      var start := st.oldestIndex;
      hide Agrees, Subtracted, Settled;
      if start <= boundary {
        SubtractedFromIs(c, log, start, boundary, st);
      } else {
        NothingBetween(c, log, low, boundary, start);
        SubtractedAt(c, log, boundary, start, st);
      }
      SettledAgrees(c, log, boundary, SubtractedFrom(c, log, start, boundary, st).value);
    }
  }

  /** For instance: a sum emptied before, told again that its one event has expired; or asked of an empty log. */
  lemma UnguardedExample(e: TableEvent, c: Config)
    requires e == TableEvent(["g+"], 0, [Cell("5", 5.0)]) && c == Config(Selector(0, 0, "g+"), Sum, false, 0.0)
    ensures Agrees(c, [e], 1, 1, Start(c)) && Countable(c, [e], 1, Start(c))
    ensures RemovedAsWritten(c, [e], 1, Start(c)) == None
    ensures Agrees(c, [], 0, 0, Start(c)) && Countable(c, [], 0, Start(c))
    ensures RemovedAsWritten(c, [], 0, Start(c)) == None
  {
    ValuesNone(c.selector, [e], 1);
    StartAgrees(c, [e], 1, 1);
    StartAgrees(c, [], 0, 0);
  }

  // ---------- Minimum and maximum ----------

  /** Before a rescan: no event passed over so far holds the extreme. */
  ghost predicate Scanning(c: Config, log: seq<TableEvent>, i: nat, st: State) {
    && i <= |log|
    && var vs := Values(c.selector, log, i, |log|);
    && vs != [] && st.totalCount == |vs| && st.stored == Extreme(c.operator, vs)
  }

  /** During a rescan that started at `boundary`. */
  ghost predicate Rescanning(c: Config, log: seq<TableEvent>, boundary: nat, i: nat, st: State) {
    && boundary <= i <= |log|
    && var vs := Values(c.selector, log, boundary, i);
    && st.totalCount == |vs|
    && st.stored == if vs == [] then c.default else Extreme(c.operator, vs)
  }

  lemma ScanningAt(c: Config, log: seq<TableEvent>, boundary: nat, i: nat, st: State)
    requires Scanning(c, log, i, st) && boundary <= i
    requires Values(c.selector, log, boundary, |log|) == Values(c.selector, log, i, |log|)
    ensures Scanning(c, log, boundary, st)
  {
  }

  lemma ScanningStart(c: Config, log: seq<TableEvent>, low: nat, st: State)
    requires Agrees(c, log, low, |log|, st) && st.oldestIndex != -1 && c.operator in {Min, Max}
    ensures low <= st.oldestIndex <= |log| && Scanning(c, log, st.oldestIndex, st)
    ensures Values(c.selector, log, low, st.oldestIndex) == []
  {
    hide Values, Total, Extreme, Quotient;
    ValuesSplit(c.selector, log, low, st.oldestIndex, |log|);
    assert [] + Values(c.selector, log, st.oldestIndex, |log|) == Values(c.selector, log, st.oldestIndex, |log|);
  }

  lemma ScanningStep(c: Config, log: seq<TableEvent>, i: nat, st: State)
    requires Scanning(c, log, i, st) && i < |log|
    ensures Picked(c.selector, log[i]) == [] ==> Scanning(c, log, i + 1, st)
    ensures forall v :: Picked(c.selector, log[i]) == [v] && v != st.stored ==>
      Scanning(c, log, i + 1, st.(totalCount := st.totalCount - 1))
  {
    hide Values, Total, Picked, Extreme;
    var rest := Values(c.selector, log, i + 1, |log|);
    ValuesFront(c.selector, log, i, |log|);
    assert [] + rest == rest;
    forall v | Picked(c.selector, log[i]) == [v] && v != st.stored
      ensures rest != [] && Extreme(c.operator, rest) == st.stored
    {
      ExtremeWithoutFront(c.operator, v, rest);
    }
  }

  lemma RescanningStart(c: Config, log: seq<TableEvent>, boundary: nat, st: State)
    requires boundary <= |log|
    ensures Rescanning(c, log, boundary, boundary, st.(totalCount := 0, stored := c.default))
  {
  }

  lemma RescanningStep(c: Config, log: seq<TableEvent>, boundary: nat, i: nat, st: State, v: real, oldest: int)
    requires Rescanning(c, log, boundary, i, st) && i < |log|
    ensures Picked(c.selector, log[i]) == [] ==> Rescanning(c, log, boundary, i + 1, st)
    ensures Picked(c.selector, log[i]) == [v] ==>
      Rescanning(c, log, boundary, i + 1, State(st.totalCount + 1, oldest, st.sum,
        if st.totalCount == 0 then v else Better(c.operator, st.stored, v)))
  {
    hide Values, Extreme, Picked, Better;
    var vs := Values(c.selector, log, boundary, i);
    ValuesBack(c.selector, log, boundary, i);
    assert vs + [] == vs;
    ExtremeBack(c.operator, vs, v);
  }

  /** With or without a rescan, the extreme column ends up right for the events from the boundary on. */
  lemma ExtremeSettled(c: Config, log: seq<TableEvent>, boundary: nat, st: State, rescanned: bool)
    requires boundary <= |log| && c.operator in {Min, Max}
    requires if rescanned then Rescanning(c, log, boundary, |log|, st) else Scanning(c, log, boundary, st)
    ensures st.totalCount >= 0 && Agrees(c, log, boundary, |log|, Settled(c, st, boundary))
  {
    hide Values, Extreme;
    ValuesNone(c.selector, log, boundary);
  }

  // ---------- The class ----------

  /** One element of a feature vector, addressed by the column that writes it. */
  class Slot {
    var value: real
    /** The preprocessor whose vector it is in. */
    ghost const owner: nat

    constructor (value: real, ghost owner: nat)
      ensures this.value == value && this.owner == owner
    {
      this.value, this.owner := value, owner;
    }
  }

  class AggregateColumn {
    const config: Config
    const slot: Slot
    var totalCount: int
    var oldestIndex: int
    var sum: real

    /** The default is what the slot holds when the column is made. */
    constructor (selector: Selector, operator: Operator, integral: bool, slot: Slot)
      ensures this.slot == slot && config == Config(selector, operator, integral, slot.value)
      ensures Now() == Start(config)
    {
      config := Config(selector, operator, integral, slot.value);
      this.slot := slot;
      totalCount, oldestIndex, sum := 0, -1, 0.0;
    }

    ghost function Now(): State
      reads this, slot
    {
      State(totalCount, oldestIndex, sum, slot.value)
    }

    /** The column is right for the group's events among `low..high`. */
    ghost predicate Covers(log: seq<TableEvent>, low: nat, high: nat)
      reads this, slot
    {
      Agrees(config, log, low, high, Now())
    }

    method AddEvent(log: seq<TableEvent>, n: nat, ghost low: nat)
      requires n < |log| && Readable(config.selector, log[n]) && Covers(log, low, n)
      modifies this, slot
      ensures Covers(log, low, n + 1)
    {
      var event := log[n];
      if event.groups[config.selector.preprocessor] != config.selector.group {
        SkippedAgrees(config, log, low, n, Now());
        return;
      }
      var value := event.row[config.selector.column].number;
      AddedAgrees(config, log, low, n, Now(), value);
      hide Agrees, Added;
      AddValue(n, value);
    }

    method AddValue(n: nat, value: real)
      requires totalCount >= 0
      modifies this, slot
      ensures Now() == Added(config, old(Now()), n, value)
    {
      hide Quotient, Better;
      totalCount := totalCount + 1;
      var first := oldestIndex == -1;
      if first {
        oldestIndex := n;
      }
      match config.operator
      case Sum => slot.value := if first then value else slot.value + value;
      case Count => slot.value := if first then 1.0 else slot.value + 1.0;
      case Min => slot.value := if first then value else Better(Min, slot.value, value);
      case Max => slot.value := if first then value else Better(Max, slot.value, value);
      case Avg =>
        sum := sum + value;
        slot.value := Quotient(config.integral, sum, totalCount);
    }

    /**
     * All events before `boundary` have expired: the column forgets those it still covers. A column without events
     * has nothing to forget. This guard is the model's: the program has it for Min and Max, where -1 is compared as
     * an unsigned number, and not for Sum, Count and Avg.
     */
    method RemoveEvents(log: seq<TableEvent>, boundary: int, ghost low: nat)
      requires Covers(log, low, |log|)
      requires boundary == -1 || low <= boundary <= |log|
      requires boundary == -1 ==> oldestIndex == -1
      requires forall i :: low <= i < |log| ==> Readable(config.selector, log[i])
      modifies this, slot
      ensures Covers(log, if boundary == -1 then low else boundary, |log|)
    {
      if oldestIndex == -1 {
        EmptySettled(config, log, low, boundary, Now());
        hide Agrees, Settled;
        Settle(boundary);
      } else {
        hide *;
        var _ := RemoveEventsAsWritten(log, boundary, low);
      }
    }

    /** The same as the program has it; `ok` says that no event was read that is not in the log. */
    method RemoveEventsAsWritten(log: seq<TableEvent>, boundary: int, ghost low: nat) returns (ok: bool)
      requires Covers(log, low, |log|)
      requires boundary == -1 || low <= boundary <= |log|
      requires boundary == -1 ==> oldestIndex == -1
      requires forall i :: low <= i < |log| ==> Readable(config.selector, log[i])
      modifies this, slot
      ensures ok <==> config.operator in {Min, Max} || old(oldestIndex) != -1 || boundary == -1
      ensures ok ==> Covers(log, if boundary == -1 then low else boundary, |log|)
    {
      if config.operator == Min || config.operator == Max {
        if oldestIndex == -1 {
          EmptySettled(config, log, low, boundary, Now());
          hide Agrees, Settled;
          Settle(boundary);
        } else {
          RemoveFromExtreme(log, boundary, low);
        }
        return true;
      }
      UnguardedExact(config, log, low, boundary, Now());
      CoversMeans(log, low, |log|);
      hide Agrees, SubtractedFrom, Settled;
      ok := RemoveBySubtracting(log, boundary, low);
    }

    /** Sum, Count and Avg: every removed event is subtracted. */
    method RemoveBySubtracting(log: seq<TableEvent>, boundary: int, ghost low: nat) returns (ok: bool)
      requires boundary <= |log| && (oldestIndex == -1 || low <= oldestIndex)
      requires forall i :: low <= i < |log| ==> Readable(config.selector, log[i])
      requires Countable(config, log, boundary, Now())
      modifies this, slot
      ensures RemovedAsWritten(config, log, boundary, old(Now())) == if ok then Some(Now()) else None
    {
      ghost var st, start := Now(), oldestIndex;
      var i := oldestIndex;
      while i < boundary
        invariant i == start || low <= i <= boundary
        invariant SubtractedFrom(config, log, i, boundary, Now()) == SubtractedFrom(config, log, start, boundary, st)
        decreases boundary - i
      {
        hide Subtraction;
        if i < 0 {
          // The event at index -1 is read.
          return false;
        }
        if log[i].groups[config.selector.preprocessor] == config.selector.group {
          SubtractEvent(log, i);
        }
        i := i + 1;
      }
      hide Settled;
      Settle(boundary);
      return true;
    }

    method SubtractEvent(log: seq<TableEvent>, i: nat)
      requires i < |log| && Readable(config.selector, log[i])
      modifies this, slot
      ensures var v := log[i].row[config.selector.column].number;
        Now() == Subtraction(config, old(Now()), v)
    {
      totalCount := totalCount - 1;
      var value := log[i].row[config.selector.column].number;
      match config.operator {
        case Count => slot.value := slot.value - 1.0;
        case Avg => sum := sum - value;
        case _ => slot.value := slot.value - value;
      }
    }

    method Settle(boundary: int)
      requires totalCount >= 0
      modifies this, slot
      ensures Now() == Settled(config, old(Now()), boundary)
    {
      if totalCount == 0 {
        if config.operator == Avg {
          sum := 0.0;
        }
        slot.value := config.default;
        oldestIndex := -1;
        return;
      }
      if config.operator == Avg {
        slot.value := Quotient(config.integral, sum, totalCount);
      }
      oldestIndex := boundary;
    }

    /** The body of the scan; meeting the extreme, it sends the index back to just before the boundary. */
    method ScanEvent(log: seq<TableEvent>, boundary: nat, index: nat, rescanning: bool) returns (changed: bool, i: int)
      requires config.operator in {Min, Max}
      requires index < |log| && boundary <= |log| && Readable(config.selector, log[index])
      requires if rescanning then Rescanning(config, log, boundary, index, Now())
               else Scanning(config, log, index, Now()) && index < boundary
      modifies this, slot
      ensures changed == rescanning ==> i == index
      ensures changed != rescanning ==> changed && i == boundary - 1
      ensures if changed then Rescanning(config, log, boundary, i + 1, Now()) else Scanning(config, log, i + 1, Now())
    {
      hide Rescanning, Scanning, Values, Better, Extreme;
      changed, i := rescanning, index;
      if log[i].groups[config.selector.preprocessor] == config.selector.group {
        var value := log[i].row[config.selector.column].number;
        if changed {
          RescanningStep(config, log, boundary, i, Now(), value, if totalCount == 0 then i else oldestIndex);
          if totalCount == 0 {
            slot.value := value;
            oldestIndex := i;
          } else {
            slot.value := Better(config.operator, slot.value, value);
          }
          totalCount := totalCount + 1;
        } else if value == slot.value {
          RescanningStart(config, log, boundary, Now());
          changed := true;
          totalCount := 0;
          slot.value := config.default;
          i := boundary - 1;
        } else {
          ScanningStep(config, log, i, Now());
          totalCount := totalCount - 1;
        }
      } else if changed {
        RescanningStep(config, log, boundary, i, Now(), 0.0, 0);
      } else {
        ScanningStep(config, log, i, Now());
      }
    }

    /** Min and Max: only when a removed value equals the extreme are the remaining events scanned again. */
    method RemoveFromExtreme(log: seq<TableEvent>, boundary: nat, ghost low: nat)
      requires config.operator in {Min, Max}
      requires Covers(log, low, |log|) && oldestIndex != -1
      requires low <= boundary <= |log|
      requires forall i :: low <= i < |log| ==> Readable(config.selector, log[i])
      modifies this, slot
      ensures Covers(log, boundary, |log|)
    {
      hide *;
      CoversMeans(log, low, |log|);
      ScanningStart(config, log, low, Now());
      var changed := false;
      var i := oldestIndex;
      ghost var start := i;
      while i < |log|
        invariant low <= i <= |log|
        invariant !changed ==> (i <= boundary || i == start) && Scanning(config, log, i, Now())
        invariant changed ==> Rescanning(config, log, boundary, i, Now())
        decreases !changed, |log| - i
      {
        if !changed && i >= boundary {
          break;
        }
        changed, i := ScanEvent(log, boundary, i, changed);
        i := i + 1;
      }
      if !changed {
        assert i == boundary || i == start;
        if boundary < start {
          NothingBetween(config, log, low, boundary, start);
        }
        ScanningAt(config, log, boundary, i, Now());
      }
      ExtremeSettled(config, log, boundary, Now(), changed);
      CoversMeans(log, boundary, |log|);
      Settle(boundary);
      CoversMeans(log, boundary, |log|);
    }

    lemma CoversMeans(log: seq<TableEvent>, low: nat, high: nat)
      ensures Covers(log, low, high) <==> Agrees(config, log, low, high, Now())
      ensures Now().oldestIndex == oldestIndex && Now().totalCount == totalCount
    {
    }
  }
}
