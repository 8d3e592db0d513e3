/** TimeBasedRollingWindow: which events a window's columns cover, as time goes by. */
module RollingWindows {
  import opened Ordering
  import opened Aggregates
  import opened Columns

  // ---------- Time ----------

  predicate Sorted(log: seq<TableEvent>) {
    forall i, j :: 0 <= i < j < |log| ==> log[i].timestamp <= log[j].timestamp
  }

  /** The event is older than the window at time `now`. */
  predicate Expired(e: TableEvent, windowTime: real, now: int) {
    (now - e.timestamp) as real > windowTime
  }

  /** The index of the first of the events `0..n` that has not expired, or `n`. */
  function FirstFresh(log: seq<TableEvent>, windowTime: real, now: int, n: nat): (f: nat)
    requires n <= |log|
    ensures f <= n
    ensures forall i :: 0 <= i < f ==> Expired(log[i], windowTime, now)
    ensures f < n ==> !Expired(log[f], windowTime, now)
  {
    if n == 0 then 0
    else
      var f := FirstFresh(log, windowTime, now, n - 1);
      if f < n - 1 then f else if Expired(log[n - 1], windowTime, now) then n else n - 1
  }

  /** An event as old as the window is still fresh, and a second later it has expired; then it stays so. */
  lemma ExpiresOnce(e: TableEvent, windowTime: real, age: int)
    requires age as real == windowTime
    ensures !Expired(e, windowTime, e.timestamp + age) && Expired(e, windowTime, e.timestamp + age + 1)
    ensures forall now :: Expired(e, windowTime, now) <==> now > e.timestamp + age
  {
  }

  /** In time order it is the one index before which all events are older than the window, and from which on none is. */
  lemma FirstFreshExact(log: seq<TableEvent>, windowTime: real, now: int, f: nat)
    requires Sorted(log) && f <= |log|
    ensures FirstFresh(log, windowTime, now, |log|) == f <==>
      && (forall i :: 0 <= i < f ==> windowTime < (now - log[i].timestamp) as real)
      && (forall i :: f <= i < |log| ==> (now - log[i].timestamp) as real <= windowTime)
  {
    var first := FirstFresh(log, windowTime, now, |log|);
    if first < |log| {
      FreshFromHere(log, windowTime, now, first);
    }
    assert first < f ==> (now - log[first].timestamp) as real <= windowTime;
    assert f < first ==> windowTime < (now - log[f].timestamp) as real;
  }

  lemma FreshFromHere(log: seq<TableEvent>, windowTime: real, now: int, f: nat)
    requires Sorted(log) && f < |log| && !Expired(log[f], windowTime, now)
    ensures forall i :: f <= i < |log| ==> !Expired(log[i], windowTime, now)
  {
  }

  /** The first event still counted has expired, while the last event has not. */
  predicate PartlyExpired(log: seq<TableEvent>, windowTime: real, now: int, counted: nat) {
    counted < |log| && Expired(log[counted], windowTime, now) && !Expired(log[|log| - 1], windowTime, now)
  }

  /** Agreeing from one index on and from a later one exclude each other if the group has an event between. */
  lemma CountsMore(c: Config, log: seq<TableEvent>, low: nat, f: nat, st: State)
    requires Agrees(c, log, low, |log|, st) && low < f <= |log| && Picked(c.selector, log[low]) != []
    ensures !Agrees(c, log, f, |log|, st)
  {
    ValuesSplit(c.selector, log, low, f, |log|);
    ValuesFront(c.selector, log, low, f);
  }

  // ---------- Operators as configured ----------

  datatype OperatorName = Known(op: Operator) | Unknown

  function ParseOperator(name: string): OperatorName {
    if name == "Sum" then Known(Sum)
    else if name == "Count" then Known(Count)
    else if name == "Min" then Known(Min)
    else if name == "Max" then Known(Max)
    else if name == "Avg" then Known(Avg)
    else Unknown
  }

  /** How many of the names come before the first unknown one. */
  function KnownOperators(names: seq<string>): (k: nat)
    ensures k <= |names|
    ensures forall i :: 0 <= i < k ==> ParseOperator(names[i]).Known?
    ensures k < |names| ==> ParseOperator(names[k]).Unknown?
  {
    if names == [] || ParseOperator(names[0]).Unknown? then 0 else 1 + KnownOperators(names[1..])
  }

  /** The columns for one group: one per operator, writing consecutive slots. */
  ghost predicate MadeFor(columns: seq<AggregateColumn>, preprocessorId: nat, group: string, columnIds: seq<nat>,
      operators: seq<string>, integral: bool, slots: seq<Slot>) {
    && |columns| <= |columnIds| && |columns| <= |operators| && |columns| <= |slots|
    && forall k :: 0 <= k < |columns| ==>
      && ParseOperator(operators[k]).Known?
      && columns[k].slot == slots[k]
      && columns[k].config.selector == Selector(preprocessorId, columnIds[k], group)
      && columns[k].config.operator == ParseOperator(operators[k]).op
      && columns[k].config.integral == integral
  }

  ghost function ColumnsOf(m: map<string, seq<AggregateColumn>>): set<AggregateColumn> {
    set g, k | g in m && 0 <= k < |m[g]| :: m[g][k]
  }

  ghost function SlotsOf(m: map<string, seq<AggregateColumn>>): set<Slot> {
    set c | c in ColumnsOf(m) :: c.slot
  }

  ghost predicate KnownIn(m: map<string, seq<AggregateColumn>>, preprocessorId: nat, width: nat,
      log: seq<TableEvent>, n: nat) {
    && n <= |log|
    && forall i :: 0 <= i < n ==>
        && preprocessorId < |log[i].groups|
        && log[i].groups[preprocessorId] in m
        && |log[i].row| == width
  }

  ghost predicate WellShaped(m: map<string, seq<AggregateColumn>>, preprocessorId: nat, width: nat) {
    && (forall g, k :: g in m && 0 <= k < |m[g]| ==>
        var s := m[g][k].config.selector;
        s.preprocessor == preprocessorId && s.group == g && s.column < width)
    && (forall g, k, l :: g in m && 0 <= k < l < |m[g]| ==> m[g][k] != m[g][l])
    && (forall c, d :: c in ColumnsOf(m) && d in ColumnsOf(m) && c != d ==> c.slot != d.slot)
  }

  /** For one preprocessor the first `n` events of both logs are the same. */
  ghost predicate AlikeFor(preprocessorId: nat, log: seq<TableEvent>, other: seq<TableEvent>, n: nat) {
    && n <= |log| && n <= |other|
    && forall i :: 0 <= i < n ==>
        && log[i].row == other[i].row && log[i].timestamp == other[i].timestamp
        && preprocessorId < |log[i].groups| && preprocessorId < |other[i].groups|
        && log[i].groups[preprocessorId] == other[i].groups[preprocessorId]
  }

  lemma AgreesAlike(c: Config, log: seq<TableEvent>, other: seq<TableEvent>, low: nat, n: nat, st: State)
    requires AlikeFor(c.selector.preprocessor, log, other, n) && Agrees(c, log, low, n, st)
    ensures Agrees(c, other, low, n, st)
  {
    ValuesAlike(c.selector, c.selector, log, other, low, n);
    if 0 <= st.oldestIndex <= n {
      ValuesAlike(c.selector, c.selector, log, other, low, st.oldestIndex);
    }
  }

  /** New columns for a new group, with slots that no column has yet. */
  lemma WellShapedUpdate(m: map<string, seq<AggregateColumn>>, preprocessorId: nat, width: nat, group: string,
      columns: seq<AggregateColumn>)
    requires WellShaped(m, preprocessorId, width) && group !in m
    requires forall k :: 0 <= k < |columns| ==>
      var s := columns[k].config.selector;
      s.preprocessor == preprocessorId && s.group == group && s.column < width
    requires forall k, l :: 0 <= k < l < |columns| ==> columns[k] != columns[l] && columns[k].slot != columns[l].slot
    requires forall k, c :: 0 <= k < |columns| && c in ColumnsOf(m) ==> columns[k].slot != c.slot
    ensures WellShaped(m[group := columns], preprocessorId, width)
    ensures ColumnsOf(m[group := columns]) == ColumnsOf(m) + (set c | c in columns)
  {
    ColumnsOfUpdate(m, group, columns);
    hide ColumnsOf;
    var after := m[group := columns];
    forall c, d | c in ColumnsOf(after) && d in ColumnsOf(after) && c != d ensures c.slot != d.slot {
      if c in columns {
        var k :| 0 <= k < |columns| && columns[k] == c;
        if d in columns {
          var l :| 0 <= l < |columns| && columns[l] == d;
        }
      } else if d in columns {
        var l :| 0 <= l < |columns| && columns[l] == d;
      }
    }
  }

  lemma ColumnsOfUpdate(m: map<string, seq<AggregateColumn>>, group: string, columns: seq<AggregateColumn>)
    requires group !in m
    ensures ColumnsOf(m[group := columns]) == ColumnsOf(m) + (set c | c in columns)
  {
    var after := m[group := columns];
    forall c | c in columns ensures c in ColumnsOf(after) {
      var k :| 0 <= k < |columns| && columns[k] == c;
      assert after[group][k] == c;
    }
    forall g, k | g in m && 0 <= k < |m[g]| ensures m[g][k] in ColumnsOf(after) {
      assert after[g][k] == m[g][k];
    }
  }

  /** Columns that no event has reached, each there once, whose default is what their slots hold. */
  ghost predicate Starting(columns: seq<AggregateColumn>, slots: seq<Slot>)
    reads columns, slots, set k | 0 <= k < |columns| :: columns[k].slot
  {
    && |columns| <= |slots|
    && (forall k :: 0 <= k < |columns| ==>
        columns[k].config.default == slots[k].value && columns[k].Now() == Start(columns[k].config))
    && (forall k, m :: 0 <= k < m < |columns| ==> columns[k] != columns[m])
  }

  lemma NoColumns(preprocessorId: nat, group: string, columnIds: seq<nat>, operators: seq<string>, integral: bool,
      slots: seq<Slot>)
    ensures MadeFor([], preprocessorId, group, columnIds, operators, integral, slots) && Starting([], slots)
    ensures KnownOperators(operators) <= |operators|
  {
  }

  lemma {:induction false} KnownOrNot(operators: seq<string>, i: nat)
    requires i < |operators| && i <= KnownOperators(operators)
    ensures ParseOperator(operators[i]).Known? <==> i < KnownOperators(operators)
  {
    hide ParseOperator;
  }

  lemma OneColumnMore(columns: seq<AggregateColumn>, column: AggregateColumn, preprocessorId: nat, group: string,
      columnIds: seq<nat>,
      operators: seq<string>, integral: bool, slots: seq<Slot>)
    requires |columns| < |columnIds| == |operators| == |slots| && ParseOperator(operators[|columns|]).Known?
    requires MadeFor(columns, preprocessorId, group, columnIds, operators, integral, slots) && Starting(columns, slots)
    requires column !in columns && column.Now() == Start(column.config) && column.slot == slots[|columns|]
    requires column.config == Config(Selector(preprocessorId, columnIds[|columns|], group),
      ParseOperator(operators[|columns|]).op, integral, slots[|columns|].value)
    ensures MadeFor(columns + [column], preprocessorId, group, columnIds, operators, integral, slots)
    ensures Starting(columns + [column], slots)
  {
    hide ParseOperator, Start;
  }

  /**
   * A column for the events from `low` on can be told of the boundary: Min and Max always; Sum, Count and Avg, as
   * written, while they have an event.
   */
  ghost predicate CanForget(c: Config, log: seq<TableEvent>, low: nat, boundary: int, guarded: bool)
    requires low <= |log|
  {
    guarded || boundary == -1 || c.operator in {Min, Max} || Values(c.selector, log, low, |log|) != []
  }

  // ---------- The class ----------

  class TimeBasedRollingWindow {
    const preprocessorId: nat
    const windowTime: real
    var oldestIndex: int
    var groupColumns: map<string, seq<AggregateColumn>>
    /** Cells per row. */
    ghost const width: nat
    /** Every column is right for exactly the events from here on. */
    ghost var covered: nat
    /** The latest clock reading. */
    ghost var clock: int

    constructor (preprocessorId: nat, windowTime: real, ghost width: nat, ghost clock: int)
      ensures this.preprocessorId == preprocessorId && this.windowTime == windowTime
      ensures this.width == width && this.clock == clock && groupColumns == map[] && oldestIndex == -1 && covered == 0
      ensures forall log :: Valid(log, 0)
    {
      this.preprocessorId, this.windowTime, this.width, this.clock := preprocessorId, windowTime, width, clock;
      oldestIndex, groupColumns, covered := -1, map[], 0;
    }

    ghost function Columns(): set<AggregateColumn>
      reads this`groupColumns
    {
      ColumnsOf(groupColumns)
    }

    ghost function Slots(): set<Slot>
      reads this`groupColumns
    {
      SlotsOf(groupColumns)
    }

    /** Each column is there once, is made for its group, and has a slot of its own. */
    ghost predicate Shaped()
      reads this`groupColumns
    {
      WellShaped(groupColumns, preprocessorId, width)
    }

    /** The first `n` events have a cell in every column, and a key whose columns exist. */
    ghost predicate Known(log: seq<TableEvent>, n: nat)
      reads this`groupColumns
    {
      KnownIn(groupColumns, preprocessorId, width, log, n)
    }

    /** `oldestIndex` separates events known to be expired; -1 says that no event was ever accepted. */
    ghost predicate Timed(log: seq<TableEvent>, n: nat)
      reads this`oldestIndex, this`covered, this`clock
      requires n <= |log|
    {
      if oldestIndex == -1 then covered == n && forall i :: 0 <= i < n ==> Expired(log[i], windowTime, clock)
      else covered <= oldestIndex <= n && forall i :: 0 <= i < oldestIndex ==> Expired(log[i], windowTime, clock)
    }

    ghost predicate AllCover(log: seq<TableEvent>, low: nat, n: nat)
      reads this`groupColumns, Columns(), Slots()
    {
      forall c :: c in Columns() ==> c.Covers(log, low, n)
    }

    /** The window has taken in the first `n` events of the log. */
    ghost predicate Valid(log: seq<TableEvent>, n: nat)
      reads this, Columns(), Slots()
    {
      && Shaped()
      && Known(log, n)
      && Timed(log, n)
      && AllCover(log, covered, n)
    }

    /** Keys of other preprocessors, and later events, make no difference. */
    lemma ValidAlike(log: seq<TableEvent>, other: seq<TableEvent>, n: nat)
      requires Valid(log, n) && AlikeFor(preprocessorId, log, other, n)
      ensures Valid(other, n)
    {
      hide Agrees;
      forall c | c in Columns() ensures c.Covers(other, covered, n) {
        assert c.Covers(log, covered, n) && c.config.selector.preprocessor == preprocessorId;
        AgreesAlike(c.config, log, other, covered, n, c.Now());
      }
    }

    lemma Empty(log: seq<TableEvent>)
      requires groupColumns == map[]
      ensures Columns() == {} && Slots() == {}
    {
    }

    // ---------- add_event ----------

    method AddEvent(log: seq<TableEvent>, n: nat, now: int)
      requires Valid(log, n) && Known(log, n + 1) && clock <= now
      requires Expired(log[n], windowTime, now) ==> oldestIndex == -1
      modifies this, Columns(), Slots()
      ensures Valid(log, n + 1) && clock == now && groupColumns == old(groupColumns)
      ensures covered == if Expired(log[n], windowTime, now) then n + 1 else old(covered)
      ensures oldestIndex == if !Expired(log[n], windowTime, now) && old(oldestIndex) == -1 then n else old(oldestIndex)
    {
      hide Agrees, Values, Picked, AggregateColumn.Covers;
      var event := log[n];
      if (now - event.timestamp) as real > windowTime {
        NothingAccepted(log, n);
        clock, covered := now, n + 1;
        return;
      }
      AddToGroup(log, n, groupColumns[event.groups[preprocessorId]]);
      clock := now;
      if oldestIndex == -1 {
        oldestIndex := n;
      }
    }

    /** A column without events so far goes on without events. */
    lemma NothingAccepted(log: seq<TableEvent>, n: nat)
      requires n < |log| && AllCover(log, n, n)
      ensures AllCover(log, n + 1, n + 1)
    {
      forall c | c in Columns() ensures c.Covers(log, n + 1, n + 1) {
        assert c.Covers(log, n, n);
        ValuesNone(c.config.selector, log, n);
        ValuesNone(c.config.selector, log, n + 1);
      }
    }

    lemma OtherGroup(c: Config, log: seq<TableEvent>, n: nat)
      requires n < |log| && c.selector.preprocessor < |log[n].groups|
      requires c.selector.group != log[n].groups[c.selector.preprocessor]
      ensures Picked(c.selector, log[n]) == []
    {
    }

    /** The columns of the event's group are told; the event does not concern the others. */
    method AddToGroup(log: seq<TableEvent>, n: nat, columns: seq<AggregateColumn>)
      requires Shaped() && Known(log, n + 1) && AllCover(log, covered, n)
      requires columns == groupColumns[log[n].groups[preprocessorId]]
      modifies Columns(), Slots()
      ensures AllCover(log, covered, n + 1)
    {
      hide Agrees, Values, Picked;
      ghost var g := log[n].groups[preprocessorId];
      var k := 0;
      while k < |columns|
        invariant k <= |columns|
        invariant forall c :: c in Columns() && c !in columns[..k] ==> c.Covers(log, covered, n)
        invariant forall c :: c in Columns() && c in columns[..k] ==> c.Covers(log, covered, n + 1)
      {
        ghost var column := columns[k];
        assert column in Columns() && column !in columns[..k];
        columns[k].AddEvent(log, n, covered);
        assert columns[..k + 1] == columns[..k] + [column];
        k := k + 1;
      }
      assert columns[..k] == columns;
      forall c | c in Columns() && c !in columns ensures c.Covers(log, covered, n + 1) {
        OtherGroup(c.config, log, n);
        SkippedAgrees(c.config, log, covered, n, c.Now());
      }
    }

    // ---------- update_window ----------

    ghost function GroupSlots(group: string): set<Slot>
      reads this`groupColumns
      requires group in groupColumns
    {
      set c | c in groupColumns[group] :: c.slot
    }

    /**
     * Every column of the group forgets the events before the boundary it still covers: with the guard for columns
     * without events, or as written. Then `ok` says that no event was read that is not in the log.
     */
    method RemoveFromGroup(log: seq<TableEvent>, boundary: int, group: string, guarded: bool) returns (ok: bool)
      requires Shaped() && Known(log, |log|) && group in groupColumns
      requires boundary == -1 || covered <= boundary <= |log|
      requires boundary == -1 ==> covered == |log|
      requires forall c :: c in groupColumns[group] ==> c.Covers(log, covered, |log|)
      modifies groupColumns[group], GroupSlots(group)
      ensures ok <==> forall c :: c in groupColumns[group] ==> CanForget(c.config, log, covered, boundary, guarded)
      ensures ok ==>
        forall c :: c in groupColumns[group] ==> c.Covers(log, if boundary == -1 then covered else boundary, |log|)
    {
      hide Values, Picked, Readable, AggregateColumn.Covers, WellShaped, KnownIn, ColumnsOf;
      var columns := groupColumns[group];
      ghost var low := if boundary == -1 then covered else boundary;
      var k := 0;
      while k < |columns|
        invariant k <= |columns|
        invariant forall m :: k <= m < |columns| ==> columns[m].Covers(log, covered, |log|)
        invariant forall m :: 0 <= m < k ==> columns[m].Covers(log, low, |log|)
        invariant forall m :: 0 <= m < k ==> CanForget(columns[m].config, log, covered, boundary, guarded)
      {
        DistinctSlots(log, group, k);
        EmptyColumn(columns[k], log, covered);
        if guarded {
          columns[k].RemoveEvents(log, boundary, covered);
        } else {
          ok := columns[k].RemoveEventsAsWritten(log, boundary, covered);
          if !ok {
            assert columns[k] in groupColumns[group];
            return;
          }
        }
        k := k + 1;
      }
      return true;
    }

    /** Only a column that remembers an event has one. */
    lemma EmptyColumn(c: AggregateColumn, log: seq<TableEvent>, low: nat)
      requires c.Covers(log, low, |log|)
      ensures low <= |log| && (c.oldestIndex != -1 <==> Values(c.config.selector, log, low, |log|) != [])
      ensures low == |log| ==> c.oldestIndex == -1
    {
      FirstOfGroup(c.config, log, low, |log|, c.Now());
      ValuesNone(c.config.selector, log, |log|);
    }

    /** A column of a group reads a cell of every event, and writes a slot of its own. */
    lemma DistinctSlots(log: seq<TableEvent>, group: string, k: nat)
      requires Shaped() && Known(log, |log|) && group in groupColumns && k < |groupColumns[group]|
      ensures forall i :: 0 <= i < |log| ==> Readable(groupColumns[group][k].config.selector, log[i])
      ensures forall m :: 0 <= m < |groupColumns[group]| && m != k ==>
        groupColumns[group][m] != groupColumns[group][k] && groupColumns[group][m].slot != groupColumns[group][k].slot
    {
      forall m | 0 <= m < |groupColumns[group]| && m != k
        ensures groupColumns[group][m] != groupColumns[group][k]
        ensures groupColumns[group][m].slot != groupColumns[group][k].slot
      {
        assert groupColumns[group][m] in Columns() && groupColumns[group][k] in Columns();
      }
    }

    method RemoveFromAll(log: seq<TableEvent>, boundary: int, guarded: bool) returns (ok: bool)
      requires Shaped() && Known(log, |log|) && AllCover(log, covered, |log|)
      requires boundary == -1 || covered <= boundary <= |log|
      requires boundary == -1 ==> covered == |log|
      modifies Columns(), Slots()
      ensures ok <==> forall c :: c in Columns() ==> CanForget(c.config, log, covered, boundary, guarded)
      ensures ok ==> AllCover(log, if boundary == -1 then covered else boundary, |log|)
    {
      hide AggregateColumn.Covers, AllCover, Removed, SortedKeys, CanForget, WellShaped, KnownIn;
      var groups := SortedKeys(groupColumns.Keys);
      SortedKeysDistinct(groupColumns.Keys);
      ghost var low := if boundary == -1 then covered else boundary;
      NoneRemoved(log, low);
      var i := 0;
      assert groups[..0] == [];
      while i < |groups|
        invariant i <= |groups|
        invariant Removed(log, low, groups[..i])
        invariant forall g, c :: g in groups[..i] && c in groupColumns[g] ==>
          CanForget(c.config, log, covered, boundary, guarded)
      {
        var g := groups[i];
        assert g in groups && g !in groups[..i];
        GroupWithin(g);
        ok := RemoveFromOne(log, boundary, g, groups[..i], guarded);
        if !ok {
          return;
        }
        assert groups[..i + 1] == groups[..i] + [g];
        i := i + 1;
      }
      assert groups[..i] == groups;
      AllRemoved(log, low, groups);
      AllInGroups();
      return true;
    }

    lemma GroupWithin(g: string)
      requires g in groupColumns
      ensures (forall c :: c in groupColumns[g] ==> c in Columns()) && GroupSlots(g) <= Slots()
    {
    }

    lemma AllInGroups()
      requires Shaped()
      ensures forall c :: c in Columns() ==> exists g :: g in groupColumns && c in groupColumns[g]
    {
    }

    lemma NoneRemoved(log: seq<TableEvent>, low: nat)
      requires AllCover(log, covered, |log|)
      ensures Removed(log, low, [])
    {
    }

    lemma AllRemoved(log: seq<TableEvent>, low: nat, groups: seq<string>)
      requires Shaped() && Removed(log, low, groups) && forall g :: g in groupColumns ==> g in groups
      ensures AllCover(log, low, |log|)
    {
      forall c | c in Columns() ensures c.Covers(log, low, |log|) {
        assert c.config.selector.group in groupColumns;
      }
    }

    /** The columns of the groups `done` have forgotten the events before `low`; the others have not. */
    ghost predicate Removed(log: seq<TableEvent>, low: nat, done: seq<string>)
      reads this, Columns(), Slots()
    {
      forall c :: c in Columns() ==> c.Covers(log, if c.config.selector.group in done then low else covered, |log|)
    }

    method RemoveFromOne(log: seq<TableEvent>, boundary: int, g: string, ghost done: seq<string>, guarded: bool)
      returns (ok: bool)
      requires Shaped() && Known(log, |log|)
      requires boundary == -1 || covered <= boundary <= |log|
      requires boundary == -1 ==> covered == |log|
      requires g in groupColumns && g !in done
      requires Removed(log, if boundary == -1 then covered else boundary, done)
      modifies groupColumns[g], GroupSlots(g)
      ensures ok <==> forall c :: c in groupColumns[g] ==> CanForget(c.config, log, covered, boundary, guarded)
      ensures ok ==> Removed(log, if boundary == -1 then covered else boundary, done + [g])
    {
      hide AggregateColumn.Covers, CanForget;
      GroupApart(g);
      ok := RemoveFromGroup(log, boundary, g, guarded);
    }

    /** The columns of one group, and their slots, are apart from all others. */
    lemma GroupApart(g: string)
      requires Shaped() && g in groupColumns
      ensures forall c :: c in Columns() ==> (c in groupColumns[g] <==> c.config.selector.group == g)
      ensures forall c :: c in Columns() && c.config.selector.group != g ==> c.slot !in GroupSlots(g)
      ensures GroupSlots(g) <= Slots()
    {
    }

    /** The columns forget the events before `oldestIndex`. */
    method TellColumns(log: seq<TableEvent>, guarded: bool) returns (ok: bool)
      requires Shaped() && Known(log, |log|) && AllCover(log, covered, |log|)
      requires if oldestIndex == -1 then covered == |log| else covered <= oldestIndex <= |log|
      modifies this`covered, Columns(), Slots()
      ensures ok <==> forall c :: c in Columns() ==> CanForget(c.config, log, old(covered), oldestIndex, guarded)
      ensures !ok ==> covered == old(covered)
      ensures ok ==> AllCover(log, covered, |log|) && covered == if oldestIndex == -1 then |log| else oldestIndex
    {
      hide AggregateColumn.Covers, CanForget;
      ok := RemoveFromAll(log, oldestIndex, guarded);
      if ok && oldestIndex != -1 {
        covered := oldestIndex;
      }
    }

    /** The scan for expired events; `all` says that it met no other. */
    method SkipExpired(log: seq<TableEvent>, now: int) returns (all: bool)
      requires Known(log, |log|) && Timed(log, |log|) && Sorted(log) && clock <= now
      modifies this`oldestIndex
      ensures var f := FirstFresh(log, windowTime, now, |log|);
        && covered <= f
        && oldestIndex == (if old(oldestIndex) == -1 then -1 else f)
        && all == (f == |log|)
      ensures old(oldestIndex) == -1 ==> covered == |log|
    {
      var i := oldestIndex;
      ghost var f := FirstFresh(log, windowTime, now, |log|);
      FreshBounds(log, windowTime, clock, now, if oldestIndex == -1 then |log| else oldestIndex);
      hide FirstFresh;
      while i != -1 && i < |log|
        invariant oldestIndex == i && (i == -1 <==> old(oldestIndex) == -1)
        invariant i != -1 ==> covered <= i <= f
        decreases |log| - i
      {
        if (now - log[i].timestamp) as real > windowTime {
          oldestIndex := oldestIndex + 1;
        } else {
          return false;
        }
        i := i + 1;
      }
      return true;
    }

    /** What had expired earlier has expired now. */
    lemma FreshBounds(log: seq<TableEvent>, windowTime: real, before: int, now: int, low: nat)
      requires Sorted(log) && before <= now && low <= |log|
      requires forall i :: 0 <= i < low ==> Expired(log[i], windowTime, before)
      ensures low <= FirstFresh(log, windowTime, now, |log|)
      ensures forall i :: FirstFresh(log, windowTime, now, |log|) <= i < |log| ==> !Expired(log[i], windowTime, now)
    {
      var f := FirstFresh(log, windowTime, now, |log|);
      if f < |log| { FreshFromHere(log, windowTime, now, f); }
    }

    /**
     * `update_window`: meeting an event that has not expired it returns at once, so the columns are told to
     * remove events only when all have expired. Columns without events are guarded.
     */
    method UpdateWindow(log: seq<TableEvent>, now: int)
      requires Valid(log, |log|) && Sorted(log) && clock <= now
      modifies this, Columns(), Slots()
      ensures Valid(log, |log|) && clock == now && groupColumns == old(groupColumns)
      ensures Updated(log, now, old(oldestIndex), old(covered))
    {
      hide AggregateColumn.Covers, AllCover, Updated, FirstFresh;
      var _ := Update(log, now, true);
    }

    /**
     * The same without the guard. It is right exactly when the scan meets an event that has not expired, or the
     * window never accepted one, or every Sum, Count and Avg column still covers an event; otherwise an event is
     * read that is not in the log.
     */
    method UpdateWindowAsWritten(log: seq<TableEvent>, now: int) returns (ok: bool)
      requires Valid(log, |log|) && Sorted(log) && clock <= now
      modifies this, Columns(), Slots()
      ensures ok <==>
        || FirstFresh(log, windowTime, now, |log|) < |log|
        || old(oldestIndex) == -1
        || forall c :: c in old(Columns()) && c.config.operator !in {Min, Max} ==>
            Values(c.config.selector, log, old(covered), |log|) != []
      ensures ok ==> Valid(log, |log|) && clock == now && groupColumns == old(groupColumns)
      ensures ok ==> Updated(log, now, old(oldestIndex), old(covered))
    {
      hide AggregateColumn.Covers, AllCover, Valid, Updated, FirstFresh, Values;
      ok := Update(log, now, false);
    }

    /** What an update does to the window, and whether its columns then agree with it. */
    ghost predicate Updated(log: seq<TableEvent>, now: int, oldestBefore: int, coveredBefore: nat)
      reads this, Columns(), Slots()
    {
      var f := FirstFresh(log, windowTime, now, |log|);
      && covered == (if f == |log| then |log| else coveredBefore)
      && covered <= f
      && oldestIndex == (if oldestBefore == -1 then -1 else f)
      && ((forall g :: g in groupColumns ==> groupColumns[g] != []) ==>
          (AllCover(log, f, |log|) <==> !PartlyExpired(log, windowTime, now, coveredBefore)))
    }

    lemma UpdatedMeans(log: seq<TableEvent>, now: int, oldestBefore: int, coveredBefore: nat)
      requires Updated(log, now, oldestBefore, coveredBefore)
      ensures var f := FirstFresh(log, windowTime, now, |log|);
        && covered == (if f == |log| then |log| else coveredBefore)
        && oldestIndex == (if oldestBefore == -1 then -1 else f)
    {
    }

    method Update(log: seq<TableEvent>, now: int, guarded: bool) returns (ok: bool)
      requires Valid(log, |log|) && Sorted(log) && clock <= now
      modifies this, Columns(), Slots()
      ensures var f := FirstFresh(log, windowTime, now, |log|);
        ok <==> f < |log| || forall c :: c in old(Columns()) ==>
          CanForget(c.config, log, old(covered), if old(oldestIndex) == -1 then -1 else |log|, guarded)
      ensures ok ==> Valid(log, |log|) && clock == now && groupColumns == old(groupColumns)
      ensures ok ==> Updated(log, now, old(oldestIndex), old(covered))
    {
      hide AggregateColumn.Covers, AllCover, FirstFresh, PartlyExpired, CanForget;
      var all := SkipExpired(log, now);
      if all {
        ok := TellColumns(log, guarded);
        if !ok {
          return;
        }
      }
      clock := now;
      if forall g :: g in groupColumns ==> groupColumns[g] != [] {
        AgreementExact(log, now, old(covered));
      }
      return true;
    }

    /**
     * The same with the scan merely ended at the first event that has not expired: the columns are always told.
     * This is not what the program does.
     */
    method UpdateWindowEndingScan(log: seq<TableEvent>, now: int)
      requires Valid(log, |log|) && Sorted(log) && clock <= now
      modifies this, Columns(), Slots()
      ensures Valid(log, |log|) && clock == now && groupColumns == old(groupColumns)
      ensures covered == FirstFresh(log, windowTime, now, |log|)
    {
      hide AggregateColumn.Covers, AllCover, FirstFresh;
      var all := SkipExpired(log, now);
      var _ := TellColumns(log, true);
      clock := now;
    }

    /** The columns are right for the events from another index on only if none lies between. */
    lemma CoversExactly(log: seq<TableEvent>, f: nat)
      requires Shaped() && Known(log, |log|) && AllCover(log, covered, |log|)
      requires covered <= f <= |log|
      requires forall g :: g in groupColumns ==> groupColumns[g] != []
      ensures AllCover(log, f, |log|) <==> covered == f
    {
      if covered < f {
        var g := log[covered].groups[preprocessorId];
        var c := groupColumns[g][0];
        assert c in Columns() && c.Covers(log, covered, |log|);
        CountsMore(c.config, log, covered, f, c.Now());
        assert !c.Covers(log, f, |log|);
      }
    }

    /** Whether the columns agree with the window: exactly unless the window has expired only in part. */
    lemma AgreementExact(log: seq<TableEvent>, now: int, before: nat)
      requires Shaped() && Known(log, |log|) && AllCover(log, covered, |log|) && Sorted(log)
      requires forall g :: g in groupColumns ==> groupColumns[g] != []
      requires var f := FirstFresh(log, windowTime, now, |log|);
        before <= f && covered == if f == |log| then |log| else before
      ensures AllCover(log, FirstFresh(log, windowTime, now, |log|), |log|) <==>
        !PartlyExpired(log, windowTime, now, before)
    {
      var f := FirstFresh(log, windowTime, now, |log|);
      CoversExactly(log, f);
      FreshBounds(log, windowTime, now, now, 0);
    }

    // ---------- create_aggregate_columns_for_group ----------

    /** New columns over the given slots, up to the first operator that is not known. */
    method MakeColumns(group: string, columnIds: seq<nat>, operators: seq<string>, integral: bool, slots: seq<Slot>)
      returns (columns: seq<AggregateColumn>, ok: bool)
      requires |columnIds| == |operators| == |slots|
      ensures MadeFor(columns, preprocessorId, group, columnIds, operators, integral, slots)
      ensures |columns| == KnownOperators(operators) && (ok <==> |columns| == |operators|)
      ensures forall k :: 0 <= k < |columns| ==> fresh(columns[k])
      ensures Starting(columns, slots)
    {
      hide *;
      columns := [];
      NoColumns(preprocessorId, group, columnIds, operators, integral, slots);
      while |columns| < |operators|
        invariant |columns| <= KnownOperators(operators) <= |operators|
        invariant MadeFor(columns, preprocessorId, group, columnIds, operators, integral, slots)
        invariant forall k :: 0 <= k < |columns| ==> fresh(columns[k])
        invariant Starting(columns, slots)
      {
        ghost var i := |columns|;
        var operator := ParseOperator(operators[|columns|]);
        if operator.Unknown? {
          KnownOrNot(operators, i);
          return columns, false;
        }
        KnownOrNot(operators, i);
        var column := new AggregateColumn(Selector(preprocessorId, columnIds[|columns|], group), operator.op, integral,
          slots[|columns|]);
        OneColumnMore(columns, column, preprocessorId, group, columnIds, operators, integral, slots);
        columns := columns + [column];
      }
      return columns, true;
    }

    /** A group of which no event has been seen yet gets its columns. */
    method CreateAggregateColumnsForGroup(group: string, columnIds: seq<nat>, operators: seq<string>, integral: bool,
        slots: seq<Slot>,
        ghost log: seq<TableEvent>, ghost n: nat) returns (ok: bool)
      requires Valid(log, n) && group !in groupColumns
      requires |columnIds| == |operators| == |slots| && forall k :: 0 <= k < |columnIds| ==> columnIds[k] < width
      requires forall k :: 0 <= k < |slots| ==> slots[k] !in Slots()
      requires forall k, m :: 0 <= k < m < |slots| ==> slots[k] != slots[m]
      modifies this`groupColumns
      ensures Valid(log, n)
      ensures groupColumns.Keys == old(groupColumns.Keys) + {group}
      ensures forall g :: g in old(groupColumns) ==> groupColumns[g] == old(groupColumns[g])
      ensures MadeFor(groupColumns[group], preprocessorId, group, columnIds, operators, integral, slots)
      ensures |groupColumns[group]| == KnownOperators(operators) && (ok <==> |groupColumns[group]| == |operators|)
      ensures forall k :: 0 <= k < |groupColumns[group]| ==> fresh(groupColumns[group][k])
      ensures Starting(groupColumns[group], slots)
    {
      hide *;
      ColumnsAllocated();
      var columns;
      columns, ok := MakeColumns(group, columnIds, operators, integral, slots);
      assert Valid(log, n);
      NewColumnsCover(group, columns, columnIds, operators, integral, slots, log, n);
      groupColumns := groupColumns[group := columns];
      assert forall c :: c in columns ==> c.Covers(log, covered, n);
      assert forall c :: c in ColumnsOf(old(groupColumns)) ==> c.Covers(log, covered, n);
      StillValid(log, n, old(groupColumns), columns);
    }

    lemma ColumnsAllocated()
      ensures forall c :: c in Columns() ==> allocated(c)
      ensures forall s :: s in Slots() ==> allocated(s)
    {
    }

    /** Columns that no event has reached are right for a group without events. */
    lemma NewColumnsCover(group: string, columns: seq<AggregateColumn>, columnIds: seq<nat>, operators: seq<string>,
        integral: bool,
        slots: seq<Slot>, log: seq<TableEvent>, n: nat)
      requires Valid(log, n) && group !in groupColumns
      requires |columnIds| == |operators| == |slots| && forall k :: 0 <= k < |columnIds| ==> columnIds[k] < width
      requires forall k :: 0 <= k < |slots| ==> slots[k] !in Slots()
      requires forall k, m :: 0 <= k < m < |slots| ==> slots[k] != slots[m]
      requires MadeFor(columns, preprocessorId, group, columnIds, operators, integral, slots)
      requires Starting(columns, slots)
      ensures forall c :: c in columns ==> c.Covers(log, covered, n)
      ensures forall c :: c in ColumnsOf(groupColumns) ==> c.Covers(log, covered, n)
      ensures KnownIn(groupColumns, preprocessorId, width, log, n) && n <= |log| && Timed(log, n)
      ensures WellShaped(groupColumns[group := columns], preprocessorId, width)
      ensures ColumnsOf(groupColumns[group := columns]) == ColumnsOf(groupColumns) + (set c | c in columns)
    {
      forall k | 0 <= k < |columns| ensures columns[k].Covers(log, covered, n) {
        EmptyGroup(columns[k].config.selector, log, covered, n);
        StartAgrees(columns[k].config, log, covered, n);
      }
      hide Agrees, ParseOperator, AggregateColumn.Covers;
      WellShapedUpdate(groupColumns, preprocessorId, width, group, columns);
    }

    lemma StillValid(log: seq<TableEvent>, n: nat, before: map<string, seq<AggregateColumn>>,
        columns: seq<AggregateColumn>)
      requires n <= |log| && Timed(log, n) && KnownIn(before, preprocessorId, width, log, n)
      requires WellShaped(groupColumns, preprocessorId, width)
      requires forall g :: g in before ==> g in groupColumns
      requires ColumnsOf(groupColumns) == ColumnsOf(before) + (set c | c in columns)
      requires forall c :: c in columns ==> c.Covers(log, covered, n)
      requires forall c :: c in ColumnsOf(before) ==> c.Covers(log, covered, n)
      ensures Valid(log, n)
    {
      hide ColumnsOf, AggregateColumn.Covers, WellShaped;
    }

    lemma {:induction false} EmptyGroup(s: Selector, log: seq<TableEvent>, low: nat, n: nat)
      requires Known(log, n) && s.preprocessor == preprocessorId && s.group !in groupColumns
      ensures Values(s, log, low, n) == []
      decreases n
    {
      if low < n {
        EmptyGroup(s, log, low, n - 1);
      }
    }
  }

  // ---------- Two lookups after one event ----------

  lemma OneEvent(log: seq<TableEvent>, s: Selector)
    requires log == [TableEvent(["g+"], 0, [Cell("7", 7.0)])] && s == Selector(0, 0, "g+")
    ensures Sorted(log) && !Expired(log[0], 5.0, 0)
    ensures FirstFresh(log, 5.0, 10, |log|) == FirstFresh(log, 5.0, 11, |log|) == |log| == 1
    ensures Values(s, log, 0, 1) != [] && Values(s, log, 1, 1) == []
  {
    ValuesNone(s, log, 1);
    assert FirstFresh(log, 5.0, 10, 0) == 0 == FirstFresh(log, 5.0, 11, 0);
  }

  /** A window of 5 seconds with one sum, which has taken in one event. */
  method SumOfOneEvent(log: seq<TableEvent>) returns (window: TimeBasedRollingWindow)
    requires log == [TableEvent(["g+"], 0, [Cell("7", 7.0)])]
    ensures fresh(window) && window.Valid(log, 1)
    ensures window.windowTime == 5.0 && window.oldestIndex == window.covered == window.clock == 0
    ensures forall c :: c in window.Columns() ==> fresh(c)
    ensures forall s :: s in window.Slots() ==> fresh(s)
    ensures exists c :: c in window.Columns()
    ensures forall c :: c in window.Columns() ==> c.config.operator == Sum && c.config.selector == Selector(0, 0, "g+")
  {
    hide *;
    OneEvent(log, Selector(0, 0, "g+"));
    OneSum(["Sum"]);
    var slot := new Slot(0.0, 0);
    window := new TimeBasedRollingWindow(0, 5.0, 1, 0);
    window.Empty(log);
    var _ := window.CreateAggregateColumnsForGroup("g+", [0], ["Sum"], false, [slot], log, 0);
    OneColumn(window, slot, log);
    window.AddEvent(log, 0, 0);
    OneColumn(window, slot, log);
    assert window.groupColumns["g+"][0] in window.Columns();
  }

  lemma OneColumn(window: TimeBasedRollingWindow, slot: Slot, log: seq<TableEvent>)
    requires log == [TableEvent(["g+"], 0, [Cell("7", 7.0)])]
    requires window.groupColumns.Keys == {"g+"} && |window.groupColumns["g+"]| == 1 && window.preprocessorId == 0
    requires window.width == 1
    requires MadeFor(window.groupColumns["g+"], 0, "g+", [0], ["Sum"], false, [slot])
    ensures var c := window.groupColumns["g+"][0];
      window.Columns() == {c} && window.Slots() == {slot} && c.config.operator == Sum
      && c.config.selector == Selector(0, 0, "g+")
    ensures window.Known(log, 1)
  {
    var c := window.groupColumns["g+"][0];
    assert c in window.Columns();
  }

  /**
   * An ordinary run of the window as written: one event is summed and expires, the first update empties the sum,
   * and the second reads an event that is not in the log.
   */
  method TwoUpdates() returns (first: bool, second: bool)
    ensures first && !second
  {
    hide *;
    var log := [TableEvent(["g+"], 0, [Cell("7", 7.0)])];
    OneEvent(log, Selector(0, 0, "g+"));
    var window := SumOfOneEvent(log);
    ghost var column :| column in window.Columns();
    first := window.UpdateWindowAsWritten(log, 10);
    window.UpdatedMeans(log, 10, 0, 0);
    second := window.UpdateWindowAsWritten(log, 11);
  }

  lemma OneSum(operators: seq<string>)
    requires operators == ["Sum"]
    ensures KnownOperators(operators) == 1
  {
    assert KnownOperators(operators[1..]) == 0;
  }
}
