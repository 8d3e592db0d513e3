/** PreProcessor: one feature vector per group, fed by the rolling windows. */
module PreProcessors {
  import opened Results
  import opened Aggregates
  import opened Columns
  import opened RollingWindows
  import opened GroupKeys

  // ---------- Blocks of a feature vector ----------

  lemma BlockBounds(w: nat, windows: nat, size: nat)
    requires w < windows
    ensures w * size + size <= windows * size
  {
    Further(w, windows, size);
  }

  /** Block `w` of consecutive blocks of one size. */
  function Block<T>(v: seq<T>, w: nat, windows: nat, size: nat): seq<T>
    requires w < windows && |v| == windows * size
  {
    BlockBounds(w, windows, size);
    v[w * size..w * size + size]
  }

  lemma BlockLength<T>(v: seq<T>, w: nat, windows: nat, size: nat)
    requires w < windows && |v| == windows * size
    ensures |Block(v, w, windows, size)| == size
  {
    BlockBounds(w, windows, size);
  }

  /** Window `w` and column `k` have their place at `w * size + k`. */
  lemma BlockAt<T>(v: seq<T>, w: nat, windows: nat, size: nat, k: nat)
    requires w < windows && |v| == windows * size && k < size
    ensures |Block(v, w, windows, size)| == size && w * size + k < |v|
    ensures Block(v, w, windows, size)[k] == v[w * size + k]
  {
    BlockBounds(w, windows, size);
  }

  /** Different (window, column) pairs have different places. */
  lemma BlocksApart(w: nat, k: nat, v: nat, l: nat, size: nat)
    requires k < size && l < size && (w != v || k != l)
    ensures w * size + k != v * size + l
  {
    if w < v {
      assert (w + 1) * size <= v * size;
    } else if v < w {
      assert (v + 1) * size <= w * size;
    }
  }

  lemma BlockAppend<T>(v: seq<T>, x: seq<T>, n: nat, w: nat)
    requires |v| == n * |x| && w <= n
    ensures |v + x| == (n + 1) * |x|
    ensures Block(v + x, w, n + 1, |x|) == if w < n then Block(v, w, n, |x|) else x
  {
    OneMoreBlock(n, |x|);
    if w < n {
      BlockBounds(w, n, |x|);
      BlockInFront(v, x, w * |x|, |x|);
    }
  }

  lemma OneMoreBlock(n: nat, size: nat)
    ensures (n + 1) * size == n * size + size
  {
  }

  lemma BlockInFront<T>(v: seq<T>, x: seq<T>, start: nat, size: nat)
    requires start + size <= |v|
    ensures (v + x)[start..start + size] == v[start..start + size]
  {
  }

  /** A vector filled with the same values again and again consists of equal blocks. */
  lemma TiledBlock<T>(v: seq<T>, w: nat, windows: nat, values: seq<T>)
    requires w < windows && |v| == windows * |values|
    requires forall i :: 0 <= i < |v| && |values| > 0 ==> v[i] == values[i % |values|]
    ensures Block(v, w, windows, |values|) == values
  {
    BlockLength(v, w, windows, |values|);
    forall k | 0 <= k < |values| ensures Block(v, w, windows, |values|)[k] == values[k] {
      BlockAt(v, w, windows, |values|, k);
      TiledAt(w, k, |values|);
    }
  }

  lemma TiledAt(w: nat, k: nat, size: nat)
    requires k < size
    ensures (w * size + k) % size == k
  {
    var i := w * size + k;
    SamePlace(i / size, i % size, w, k, size);
  }

  lemma SamePlace(w: int, k: nat, v: int, l: nat, size: nat)
    requires k < size && l < size && size * w + k == v * size + l
    ensures k == l
  {
    if w < v {
      Further(w, v, size);
    } else if v < w {
      Further(v, w, size);
    }
  }

  lemma Further(w: int, v: int, size: nat)
    requires w < v
    ensures w * size + size <= v * size
  {
    assert (w + 1) * size <= v * size;
  }

  /** What a preprocessor is configured with; all lists about columns have one length. */
  datatype Info = Info(windowTimes: seq<real>, operators: seq<string>, defaults: seq<real>, integral: bool)

  predicate WellFormed(info: Info, columnIds: seq<nat>, groupIds: seq<nat>, width: nat) {
    && |info.operators| == |info.defaults| == |columnIds|
    && (forall k :: 0 <= k < |columnIds| ==> columnIds[k] < width)
    && (forall k :: 0 <= k < |groupIds| ==> groupIds[k] < width)
  }

  /** The cells of the group columns, in the configured order. */
  function GroupCells(groupIds: seq<nat>, row: seq<Cell>): seq<string>
    requires forall k :: 0 <= k < |groupIds| ==> groupIds[k] < |row|
  {
    seq(|groupIds|, k requires 0 <= k < |groupIds| => row[groupIds[k]].text)
  }

  /** The event has a cell in every group column, and its key for preprocessor `id` is the one they give. */
  predicate KeyedBy(id: nat, groupIds: seq<nat>, e: TableEvent) {
    && id < |e.groups|
    && (forall k :: 0 <= k < |groupIds| ==> groupIds[k] < |e.row|)
    && e.groups[id] == KeyOf(GroupCells(groupIds, e.row))
  }

  /** What a window is to contribute to a group's vector: each column aggregated from scratch. */
  function Row(id: nat, columnIds: seq<nat>, info: Info, group: string, log: seq<TableEvent>,
      low: nat): (row: seq<real>)
    requires |info.operators| == |info.defaults| == |columnIds|
    ensures |row| == |columnIds|
  {
    seq(|columnIds|, k requires 0 <= k < |columnIds| =>
      var op := ParseOperator(info.operators[k]);
      Aggregate(if op.Known? then op.op else Count, info.integral,
        Values(Selector(id, columnIds[k], group), log, low, |log|), info.defaults[k]))
  }

  ghost predicate Apart(m: map<string, seq<AggregateColumn>>, other: map<string, seq<AggregateColumn>>) {
    ColumnsOf(m) !! ColumnsOf(other) && SlotsOf(m) !! SlotsOf(other)
  }

  lemma SlotsOfUpdate(m: map<string, seq<AggregateColumn>>, g: string, columns: seq<AggregateColumn>)
    requires g !in m
    ensures SlotsOf(m[g := columns]) == SlotsOf(m) + (set c | c in columns :: c.slot)
  {
    ColumnsOfUpdate(m, g, columns);
    hide ColumnsOf;
  }

  lemma ApartUpdate(m: map<string, seq<AggregateColumn>>, other: map<string, seq<AggregateColumn>>, g: string,
      columns: seq<AggregateColumn>)
    requires g !in m && Apart(m, other)
    requires forall c :: c in columns ==> c !in ColumnsOf(other) && c.slot !in SlotsOf(other)
    ensures Apart(m[g := columns], other) && Apart(other, m[g := columns])
  {
    ColumnsOfUpdate(m, g, columns);
    SlotsOfUpdate(m, g, columns);
    hide ColumnsOf, SlotsOf;
  }

  /** No two windows share a column or a slot. */
  ghost predicate PairwiseApart(maps: seq<map<string, seq<AggregateColumn>>>) {
    forall v, w :: 0 <= v < |maps| && 0 <= w < |maps| && v != w ==> Apart(maps[v], maps[w])
  }

  /** The blocks of slots from `i` on are not used by any window. */
  ghost predicate Unused(maps: seq<map<string, seq<AggregateColumn>>>, blocks: seq<seq<Slot>>, i: nat) {
    forall v, w, k :: 0 <= v < |maps| && i <= w < |blocks| && 0 <= k < |blocks[w]| ==> blocks[w][k] !in SlotsOf(maps[v])
  }

  ghost predicate Different(blocks: seq<seq<Slot>>) {
    forall w, k, v, l | 0 <= w < |blocks| && 0 <= k < |blocks[w]| && 0 <= v < |blocks| && 0 <= l < |blocks[v]| ::
      (w != v || k != l) ==> blocks[w][k] != blocks[v][l]
  }

  /** New columns over block `i` keep the windows apart and the later blocks unused. */
  lemma StillApart(maps: seq<map<string, seq<AggregateColumn>>>, blocks: seq<seq<Slot>>, i: nat, g: string,
      columns: seq<AggregateColumn>)
    requires PairwiseApart(maps) && Unused(maps, blocks, i) && Different(blocks)
    requires i < |maps| == |blocks| && g !in maps[i]
    requires forall v, c :: 0 <= v < |maps| && c in columns ==> c !in ColumnsOf(maps[v])
    requires forall c :: c in columns ==> c.slot in blocks[i]
    ensures PairwiseApart(maps[i := maps[i][g := columns]])
    ensures Unused(maps[i := maps[i][g := columns]], blocks, i + 1)
  {
    var after := maps[i := maps[i][g := columns]];
    hide ColumnsOf, SlotsOf, Apart;
    forall v | 0 <= v < |maps| && v != i ensures Apart(after[v], after[i]) && Apart(after[i], after[v]) {
      forall c | c in columns ensures c.slot !in SlotsOf(maps[v]) {
        var k :| 0 <= k < |blocks[i]| && blocks[i][k] == c.slot;
      }
      ApartUpdate(maps[i], maps[v], g, columns);
    }
    SlotsOfUpdate(maps[i], g, columns);
    forall w, k | i < w < |blocks| && 0 <= k < |blocks[w]| ensures blocks[w][k] !in SlotsOf(after[i]) {
      forall c | c in columns ensures c.slot != blocks[w][k] {
        var l :| 0 <= l < |blocks[i]| && blocks[i][l] == c.slot;
      }
    }
  }

  lemma BlocksDifferent(slots: seq<Slot>, blocks: seq<seq<Slot>>, windows: nat, size: nat)
    requires |slots| == windows * size && |blocks| == windows
    requires forall w :: 0 <= w < windows ==> blocks[w] == Block(slots, w, windows, size)
    requires forall i, j :: 0 <= i < j < |slots| ==> slots[i] != slots[j]
    ensures Different(blocks)
  {
    hide Block;
    forall w | 0 <= w < windows ensures |blocks[w]| == size { BlockLength(slots, w, windows, size); }
    forall w, k, v, l
      | 0 <= w < |blocks| && 0 <= k < |blocks[w]| && 0 <= v < |blocks| && 0 <= l < |blocks[v]| && (w != v || k != l)
      ensures blocks[w][k] != blocks[v][l]
    {
      BlockAt(slots, w, windows, size, k);
      BlockAt(slots, v, windows, size, l);
      BlocksApart(w, k, v, l, size);
    }
  }

  datatype WindowState = WindowState(oldestIndex: int, groupColumns: map<string, seq<AggregateColumn>>, covered: nat,
    clock: int)

  ghost function StateOf(w: TimeBasedRollingWindow): WindowState
    reads w
  {
    WindowState(w.oldestIndex, w.groupColumns, w.covered, w.clock)
  }

  /** Which events the columns of a window cover, and where it looks for expired ones next. */
  datatype Coverage = Coverage(oldestIndex: int, covered: nat)

  ghost function CoverageOf(w: TimeBasedRollingWindow): Coverage
    reads w
  {
    Coverage(w.oldestIndex, w.covered)
  }

  /** One more event, `e` at index `n`, at time `now`. */
  function Next(c: Coverage, e: TableEvent, n: nat, windowTime: real, now: int): Coverage {
    if Expired(e, windowTime, now) then Coverage(c.oldestIndex, n + 1)
    else Coverage(if c.oldestIndex == -1 then n else c.oldestIndex, c.covered)
  }

  /** The first `n` events taken in one after the other, all at time `now`. */
  function Fed(log: seq<TableEvent>, n: nat, windowTime: real, now: int): Coverage
    requires n <= |log|
  {
    if n == 0 then Coverage(-1, 0) else Next(Fed(log, n - 1, windowTime, now), log[n - 1], n - 1, windowTime, now)
  }

  /** Then the window covers exactly the events that have not expired. */
  lemma {:induction false} FedCoversFresh(log: seq<TableEvent>, n: nat, windowTime: real, now: int)
    requires Sorted(log) && n <= |log|
    ensures var f := FirstFresh(log, windowTime, now, n);
      Fed(log, n, windowTime, now) == Coverage(if f == n then -1 else f, f)
  {
    if n > 0 {
      FedCoversFresh(log, n - 1, windowTime, now);
      var f := FirstFresh(log, windowTime, now, n - 1);
      if f < n - 1 {
        FreshFromHere(log, windowTime, now, f);
      }
    }
  }

  /** Events with the same rows and times, whatever their keys. */
  ghost predicate SameRows(log: seq<TableEvent>, other: seq<TableEvent>) {
    && |log| == |other|
    && forall i :: 0 <= i < |log| ==> log[i].row == other[i].row && log[i].timestamp == other[i].timestamp
  }

  lemma {:induction false} FedAlike(log: seq<TableEvent>, other: seq<TableEvent>, n: nat, windowTime: real, now: int)
    requires n <= |log| && n <= |other| && forall i :: 0 <= i < n ==> log[i].timestamp == other[i].timestamp
    ensures Fed(log, n, windowTime, now) == Fed(other, n, windowTime, now)
  {
    if n > 0 {
      FedAlike(log, other, n - 1, windowTime, now);
    }
  }

  /** What a window knows after one more event, `e` at index `n`, at time `now`. */
  ghost predicate Advanced(e: TableEvent, n: nat, now: int, w: TimeBasedRollingWindow, before: WindowState)
    reads w
  {
    var stale := Expired(e, w.windowTime, now);
    StateOf(w) == WindowState(
      if !stale && before.oldestIndex == -1 then n else before.oldestIndex,
      before.groupColumns, if stale then n + 1 else before.covered, now)
  }

  /** What a window knows after an update at time `now`. */
  ghost predicate Refreshed(log: seq<TableEvent>, now: int, w: TimeBasedRollingWindow, before: WindowState)
    reads w
  {
    var f := FirstFresh(log, w.windowTime, now, |log|);
    StateOf(w) == WindowState(if before.oldestIndex == -1 then -1 else f, before.groupColumns,
      if f == |log| then |log| else before.covered, now)
  }

  method UpdateOne(w: TimeBasedRollingWindow, log: seq<TableEvent>, now: int)
    requires w.Valid(log, |log|) && Sorted(log) && w.clock <= now
    modifies w, w.Columns(), w.Slots()
    ensures w.Valid(log, |log|) && Refreshed(log, now, w, old(StateOf(w)))
    ensures w.groupColumns == old(w.groupColumns)
  {
    w.UpdateWindow(log, now);
  }

  method FeedWindow(w: TimeBasedRollingWindow, log: seq<TableEvent>, n: nat, now: int)
    requires w.Valid(log, n) && w.Known(log, n + 1) && w.clock <= now
    requires Expired(log[n], w.windowTime, now) ==> w.oldestIndex == -1
    modifies w, w.Columns(), w.Slots()
    ensures w.Valid(log, n + 1) && Advanced(log[n], n, now, w, old(StateOf(w)))
    ensures w.groupColumns == old(w.groupColumns)
  {
    w.AddEvent(log, n, now);
  }

  class PreProcessor {
    const id: nat
    const info: Info
    const groupIds: seq<nat>
    const columnIds: seq<nat>
    const windows: seq<TimeBasedRollingWindow>
    const defaultFeature: seq<real>
    ghost const width: nat
    var useless: bool
    var groupFeatures: map<string, seq<Slot>>

    constructor (id: nat, info: Info, groupIds: seq<nat>, columnIds: seq<nat>, ghost width: nat, ghost clock: int)
      requires WellFormed(info, columnIds, groupIds, width)
      ensures this.id == id && this.info == info && this.groupIds == groupIds && this.columnIds == columnIds
      ensures this.width == width
      ensures groupFeatures == map[] && !useless && forall w :: 0 <= w < |windows| ==> fresh(windows[w])
      ensures ClocksAt(clock) && forall log, now :: FedAt(log, 0, now)
      ensures AllColumns() == {} && AllSlots() == {}
      ensures forall log :: Valid(log, 0)
    {
      var ws := MakeWindows(id, info, width, clock);
      var feature := Tile(|ws|, info.defaults);
      this.id, this.info, this.groupIds, this.columnIds, this.width := id, info, groupIds, columnIds, width;
      windows, defaultFeature, useless, groupFeatures := ws, feature, false, map[];
      new;
      hide *;
      ValidAtFirst(clock);
      FedAtFirst(clock);
    }

    lemma ValidAtFirst(clock: int)
      requires Started(windows, id, info, width, clock) && |windows| == |info.windowTimes|
      requires WellFormed(info, columnIds, groupIds, width) && groupFeatures == map[] && !useless
      requires |defaultFeature| == |windows| * |info.defaults|
      requires forall w :: 0 <= w < |windows| ==>
        Block(defaultFeature, w, |windows|, |info.defaults|) == info.defaults
      ensures AllColumns() == {} && AllSlots() == {} && forall log :: Valid(log, 0)
    {
      NothingYet();
      hide Block, WindowsValid, PairwiseApart, AllColumns, AllSlots, KnownOperators;
    }

    lemma FedAtFirst(clock: int)
      requires Started(windows, id, info, width, clock)
      ensures ClocksAt(clock) && forall log, now :: FedAt(log, 0, now)
    {
    }

    static method MakeWindows(id: nat, info: Info, ghost width: nat,
        ghost clock: int) returns (ws: seq<TimeBasedRollingWindow>)
      ensures Started(ws, id, info, width, clock) && |ws| == |info.windowTimes|
      ensures forall w :: 0 <= w < |ws| ==> fresh(ws[w])
    {
      ws := [];
      while |ws| < |info.windowTimes|
        invariant |ws| <= |info.windowTimes|
        invariant Started(ws, id, info, width, clock) && forall w :: 0 <= w < |ws| ==> fresh(ws[w])
      {
        var window := new TimeBasedRollingWindow(id, info.windowTimes[|ws|], width, clock);
        ws := ws + [window];
      }
    }

    static method Tile(windows: nat, values: seq<real>) returns (feature: seq<real>)
      ensures |feature| == windows * |values|
      ensures forall w :: 0 <= w < windows ==> Block(feature, w, windows, |values|) == values
    {
      feature := [];
      assert |values| == 0 ==> windows * |values| == 0;
      while |feature| < windows * |values|
        invariant |feature| <= windows * |values|
        invariant forall i :: 0 <= i < |feature| ==> |values| > 0 && feature[i] == values[i % |values|]
      {
        feature := feature + [values[|feature| % |values|]];
      }
      forall w | 0 <= w < windows ensures Block(feature, w, windows, |values|) == values {
        TiledBlock(feature, w, windows, values);
      }
    }

    lemma NothingYet()
      requires Started(windows, id, info, width, if windows == [] then 0 else windows[0].clock)
      requires groupFeatures == map[]
      ensures AllColumns() == {} && AllSlots() == {} && PairwiseApart(Maps())
      ensures forall log :: WindowsValid(log, 0)
    {
      hide AggregateColumn.Covers;
      forall w | w in windows ensures w.Columns() == {} && w.Slots() == {} {
        var i :| 0 <= i < |windows| && windows[i] == w;
      }
    }

    /** New windows, one per configured time. */
    static ghost predicate Started(ws: seq<TimeBasedRollingWindow>, id: nat, info: Info, width: nat, clock: int)
      reads ws
    {
      && |ws| <= |info.windowTimes|
      && (forall w :: 0 <= w < |ws| ==>
          && ws[w].preprocessorId == id && ws[w].width == width && ws[w].windowTime == info.windowTimes[w]
          && ws[w].groupColumns == map[] && CoverageOf(ws[w]) == Coverage(-1, 0) && ws[w].clock == clock)
      && (forall v, w :: 0 <= v < w < |ws| ==> ws[v] != ws[w])
    }

    ghost function AllColumns(): set<AggregateColumn>
      reads windows`groupColumns
    {
      set w, c | w in windows && c in w.Columns() :: c
    }

    ghost function AllSlots(): set<Slot>
      reads windows`groupColumns
    {
      set w, s | w in windows && s in w.Slots() :: s
    }

    /** What the constructor sets up once and for all. */
    ghost predicate Arranged()
    {
      && WellFormed(info, columnIds, groupIds, width)
      && |windows| == |info.windowTimes|
      && |defaultFeature| == |windows| * |columnIds|
      && (forall w :: 0 <= w < |windows| ==>
          && windows[w].preprocessorId == id && windows[w].width == width
          && windows[w].windowTime == info.windowTimes[w]
          && Block(defaultFeature, w, |windows|, |columnIds|) == info.defaults)
      && (forall v, w :: 0 <= v < w < |windows| ==> windows[v] != windows[w])
    }

    ghost function Maps(): seq<map<string, seq<AggregateColumn>>>
      reads windows
    {
      seq(|windows|, w requires 0 <= w < |windows| reads windows => windows[w].groupColumns)
    }

    ghost function States(): (states: seq<WindowState>)
      reads windows
      ensures |states| == |windows| && forall w :: 0 <= w < |states| ==> states[w] == StateOf(windows[w])
    {
      seq(|windows|, w requires 0 <= w < |windows| reads windows => StateOf(windows[w]))
    }

    /** The windows share neither columns nor slots. */
    ghost predicate Separate()
      reads windows
    {
      PairwiseApart(Maps())
    }

    /** The columns of one group write the group's vector, window after window and column after column. */
    ghost predicate GroupLaid(w: nat, g: string, columns: seq<AggregateColumn>, vector: seq<Slot>)
      requires w < |windows| && |info.operators| == |info.defaults| == |columnIds|
    {
      && |vector| == |windows| * |columnIds| && (forall i :: 0 <= i < |vector| ==> vector[i].owner == id)
      && MadeFor(columns, id, g, columnIds, info.operators, info.integral, Block(vector, w, |windows|, |columnIds|))
      && |columns| == KnownOperators(info.operators)
      && forall k :: 0 <= k < |columns| ==> columns[k].config.default == info.defaults[k]
    }

    ghost predicate Laid(w: nat, m: map<string, seq<AggregateColumn>>, features: map<string, seq<Slot>>)
      requires w < |windows| && |info.operators| == |info.defaults| == |columnIds|
    {
      m.Keys == features.Keys && forall g :: g in features ==> GroupLaid(w, g, m[g], features[g])
    }

    ghost predicate AllLaid()
      reads this`groupFeatures, windows`groupColumns
      requires |info.operators| == |info.defaults| == |columnIds|
    {
      && (forall g :: g in groupFeatures ==> |groupFeatures[g]| == |defaultFeature|)
      && (forall w :: 0 <= w < |windows| ==> Laid(w, windows[w].groupColumns, groupFeatures))
    }

    ghost predicate WindowsValid(log: seq<TableEvent>, n: nat)
      reads windows, AllColumns(), AllSlots()
    {
      forall w :: 0 <= w < |windows| ==> windows[w].Valid(log, n)
    }

    /** The keys of the first `n` events. */
    static ghost function Keys(id: nat, log: seq<TableEvent>, n: nat): set<string>
      requires n <= |log|
    {
      set i | 0 <= i < n && id < |log[i].groups| :: log[i].groups[id]
    }

    lemma KeysNext(log: seq<TableEvent>, n: nat)
      requires n < |log| && id < |log[n].groups|
      ensures Keys(id, log, n + 1) == Keys(id, log, n) + {log[n].groups[id]}
    {
      forall g | g in Keys(id, log, n) ensures g in Keys(id, log, n + 1) {
        var i :| 0 <= i < n && id < |log[i].groups| && log[i].groups[id] == g;
      }
    }

    lemma KeysSame(log: seq<TableEvent>, other: seq<TableEvent>, n: nat)
      requires AlikeFor(id, log, other, n)
      ensures Keys(id, log, n) == Keys(id, other, n)
    {
      var a, b := Keys(id, log, n), Keys(id, other, n);
      assert forall i :: 0 <= i < n ==> log[i].groups[id] in a && other[i].groups[id] in b;
    }

    /** The preprocessor has taken in the first `n` events. */
    ghost predicate Valid(log: seq<TableEvent>, n: nat)
      reads this, windows, AllColumns(), AllSlots()
    {
      && Arranged() && Separate()
      && n <= |log| && groupFeatures.Keys == Keys(id, log, n)
      && AllLaid()
      && WindowsValid(log, n)
      && (forall i :: 0 <= i < n ==> Keyed(log[i]))
      && (useless <==> groupFeatures != map[] && windows != [] && KnownOperators(info.operators) < |info.operators|)
    }

    /** The event has a full row, and its key for this preprocessor is the one its row gives. */
    ghost predicate Keyed(e: TableEvent)
    {
      |e.row| == width && KeyedBy(id, groupIds, e)
    }

    // ---------- Group keys ----------

    method GetGroupFromEvent(e: TableEvent) returns (group: string)
      requires forall k :: 0 <= k < |groupIds| ==> groupIds[k] < |e.row|
      ensures group == KeyOf(GroupCells(groupIds, e.row))
    {
      ghost var cells := GroupCells(groupIds, e.row);
      group := "";
      var k := 0;
      while k < |groupIds|
        invariant k <= |groupIds| && group == KeyOf(cells[..k])
      {
        assert cells[..k + 1][..k] == cells[..k];
        group := group + e.row[groupIds[k]].text + "+";
        k := k + 1;
      }
      assert cells[..k] == cells;
    }

    /** The key of an entity to look up; "" says that a group column is missing, or that there are none. */
    method GetGroupFromRow(row: seq<string>, filled: seq<bool>) returns (group: string)
      requires |row| == |filled| && forall k :: 0 <= k < |groupIds| ==> groupIds[k] < |row|
      ensures var complete := forall k :: 0 <= k < |groupIds| ==> filled[groupIds[k]];
        group == if complete then KeyOf(seq(|groupIds|, k requires 0 <= k < |groupIds| => row[groupIds[k]])) else ""
    {
      ghost var cells := seq(|groupIds|, k requires 0 <= k < |groupIds| => row[groupIds[k]]);
      group := "";
      var k := 0;
      while k < |groupIds|
        invariant k <= |groupIds| && group == KeyOf(cells[..k])
        invariant forall m :: 0 <= m < k ==> filled[groupIds[m]]
      {
        if !filled[groupIds[k]] {
          return "";
        }
        assert cells[..k + 1][..k] == cells[..k];
        group := group + row[groupIds[k]] + "+";
        k := k + 1;
      }
      assert cells[..k] == cells;
    }

    /** Keys of other preprocessors, and later events, make no difference. */
    lemma ValidAlike(log: seq<TableEvent>, other: seq<TableEvent>, n: nat)
      requires Valid(log, n) && AlikeFor(id, log, other, n)
      ensures Valid(other, n)
    {
      hide TimeBasedRollingWindow.Valid, PairwiseApart, Laid, WellFormed, Block, KeyOf, GroupCells, Keys;
      KeysSame(log, other, n);
      forall w | 0 <= w < |windows| ensures windows[w].Valid(other, n) {
        windows[w].ValidAlike(log, other, n);
      }
      forall i | 0 <= i < n ensures Keyed(other[i]) {
        assert Keyed(log[i]);
      }
    }

    // ---------- Which events are covered ----------

    ghost function Coverages(): (cs: seq<Coverage>)
      reads windows
      ensures |cs| == |windows|
    {
      seq(|windows|, w requires 0 <= w < |windows| reads windows => CoverageOf(windows[w]))
    }

    /** One more event, `e` at index `n`, at time `now`. */
    ghost function NextAll(cs: seq<Coverage>, e: TableEvent, n: nat, now: int): seq<Coverage>
      requires |cs| == |windows|
    {
      seq(|windows|, w requires 0 <= w < |windows| => Next(cs[w], e, n, windows[w].windowTime, now))
    }

    ghost function FedAll(log: seq<TableEvent>, n: nat, now: int): seq<Coverage>
      requires n <= |log|
    {
      seq(|windows|, w requires 0 <= w < |windows| => Fed(log, n, windows[w].windowTime, now))
    }

    /** The windows are as if created and told of the first `n` events at time `now`. */
    ghost predicate FedAt(log: seq<TableEvent>, n: nat, now: int)
      reads windows
      requires n <= |log|
    {
      Coverages() == FedAll(log, n, now)
    }

    lemma FedNext(log: seq<TableEvent>, n: nat, now: int, before: seq<Coverage>)
      requires n < |log| && before == FedAll(log, n, now) && Coverages() == NextAll(before, log[n], n, now)
      ensures FedAt(log, n + 1, now)
    {
    }

    lemma FedAtAlike(log: seq<TableEvent>, other: seq<TableEvent>, n: nat, now: int)
      requires AlikeFor(id, log, other, n) && FedAt(log, n, now)
      ensures FedAt(other, n, now)
    {
      forall w | 0 <= w < |windows| ensures FedAll(log, n, now)[w] == FedAll(other, n, now)[w] {
        FedAlike(log, other, n, windows[w].windowTime, now);
      }
    }

    /** Updating at that same moment changes nothing. */
    lemma FedRefreshed(log: seq<TableEvent>, now: int, before: seq<WindowState>)
      requires Sorted(log) && |before| == |windows|
      requires forall w :: 0 <= w < |windows| ==>
        && Refreshed(log, now, windows[w], before[w])
        && Coverage(before[w].oldestIndex, before[w].covered) == FedAll(log, |log|, now)[w]
      ensures FedAt(log, |log|, now)
    {
      forall w | 0 <= w < |windows| ensures CoverageOf(windows[w]) == FedAll(log, |log|, now)[w] {
        FedCoversFresh(log, |log|, windows[w].windowTime, now);
      }
    }

    // ---------- add_event ----------

    ghost predicate ClocksBefore(now: int)
      reads windows
    {
      forall w :: 0 <= w < |windows| ==> windows[w].clock <= now
    }

    ghost predicate ClocksAt(now: int)
      reads windows
    {
      forall w :: 0 <= w < |windows| ==> windows[w].clock == now
    }

    /** The events a window finds stale come before those it accepts. */
    ghost predicate StaleFirst(e: TableEvent, now: int)
      reads windows
    {
      forall w :: 0 <= w < |windows| && Expired(e, windows[w].windowTime, now) ==> windows[w].oldestIndex == -1
    }

    /** The windows as they were, and what is owned by them. */
    ghost predicate Snapshot(before: seq<WindowState>, columns: set<AggregateColumn>, slots: set<Slot>)
    {
      && |before| == |windows|
      && (forall w :: 0 <= w < |before| ==>
          ColumnsOf(before[w].groupColumns) <= columns && SlotsOf(before[w].groupColumns) <= slots)
      && (forall v, w :: 0 <= v < |before| && 0 <= w < |before| && v != w ==>
          Apart(before[v].groupColumns, before[w].groupColumns))
      && (forall v, w :: 0 <= v < w < |windows| ==> windows[v] != windows[w])
    }

    lemma TakeSnapshot(before: seq<WindowState>)
      requires Arranged() && Separate() && |before| == |windows|
      requires forall w :: 0 <= w < |windows| ==> before[w] == StateOf(windows[w])
      ensures Snapshot(before, AllColumns(), AllSlots())
    {
      hide ColumnsOf, SlotsOf, Apart, WellFormed, Block;
      forall w | 0 <= w < |windows|
        ensures ColumnsOf(before[w].groupColumns) <= AllColumns() && SlotsOf(before[w].groupColumns) <= AllSlots()
      {
        assert before[w] == StateOf(windows[w]) && windows[w] in windows;
        assert windows[w].Columns() <= AllColumns() && windows[w].Slots() <= AllSlots();
      }
      forall v, w | 0 <= v < |windows| && 0 <= w < |windows| && v != w
        ensures Apart(before[v].groupColumns, before[w].groupColumns)
      {
        assert Maps()[v] == before[v].groupColumns && Maps()[w] == before[w].groupColumns;
      }
    }

    /** The first `i` windows have been told of event `n`, the others are as before. */
    ghost predicate FedUpTo(log: seq<TableEvent>, n: nat, now: int, i: nat, before: seq<WindowState>)
      reads windows, set w, c | w in windows && c in w.Columns() :: c, set w, s | w in windows && s in w.Slots() :: s
      requires |before| == |windows| && n < |log|
    {
      && (forall w :: i <= w < |windows| ==> windows[w].Valid(log, n) && StateOf(windows[w]) == before[w])
      && (forall w :: 0 <= w < |windows| && w < i ==>
          windows[w].Valid(log, n + 1) && Advanced(log[n], n, now, windows[w], before[w]))
    }

    method FeedNext(log: seq<TableEvent>, n: nat, now: int, i: nat, ghost before: seq<WindowState>,
        ghost columns: set<AggregateColumn>, ghost slots: set<Slot>)
      requires n < |log| && i < |windows| && Snapshot(before, columns, slots) && FedUpTo(log, n, now, i, before)
      requires CanTake(log, n, now, i, before)
      modifies windows[i], windows[i].Columns(), windows[i].Slots()
      ensures FedUpTo(log, n, now, i + 1, before)
    {
      hide TimeBasedRollingWindow.Valid, WellFormed, Block, ColumnsOf, SlotsOf;
      assert StateOf(windows[i]) == before[i];
      forall w | 0 <= w < |windows| && w != i
        ensures windows[w] != windows[i] && windows[w].Columns() !! windows[i].Columns()
        ensures windows[w].Slots() !! windows[i].Slots()
      {
        assert StateOf(windows[w]).groupColumns == before[w].groupColumns;
        assert Apart(before[i].groupColumns, before[w].groupColumns);
      }
      FeedWindow(windows[i], log, n, now);
    }

    method AddToWindows(log: seq<TableEvent>, n: nat, now: int)
      requires Arranged() && Separate() && WindowsValid(log, n) && n < |log| && ClocksBefore(now)
      requires StaleFirst(log[n], now)
      requires forall w :: 0 <= w < |windows| ==> windows[w].Known(log, n + 1)
      modifies windows, AllColumns(), AllSlots()
      ensures WindowsValid(log, n + 1)
      ensures forall w :: 0 <= w < |windows| ==> Advanced(log[n], n, now, windows[w], old(StateOf(windows[w])))
    {
      ghost var before := States();
      ghost var columns, slots := AllColumns(), AllSlots();
      TakeSnapshot(before);
      assert forall w :: 0 <= w < |windows| ==> CanTake(log, n, now, w, before);
      assert FedUpTo(log, n, now, 0, before);
      hide FedUpTo, Snapshot, CanTake;
      var i := 0;
      while i < |windows|
        invariant i <= |windows| && FedUpTo(log, n, now, i, before)
      {
        assert CanTake(log, n, now, i, before);
        OwnedPart(log, n, now, i, before, columns, slots);
        FeedNext(log, n, now, i, before, columns, slots);
        i := i + 1;
      }
      AllFed(log, n, now, before);
    }

    /** The window was ready for event `n`. */
    ghost predicate CanTake(log: seq<TableEvent>, n: nat, now: int, w: nat, before: seq<WindowState>)
      requires |before| == |windows| && n < |log| && w < |windows|
    {
      && KnownIn(before[w].groupColumns, windows[w].preprocessorId, windows[w].width, log, n + 1)
      && before[w].clock <= now
      && (Expired(log[n], windows[w].windowTime, now) ==> before[w].oldestIndex == -1)
    }

    lemma OwnedPart(log: seq<TableEvent>, n: nat, now: int, i: nat, before: seq<WindowState>,
        columns: set<AggregateColumn>, slots: set<Slot>)
      requires i < |windows| && n < |log| && Snapshot(before, columns, slots) && FedUpTo(log, n, now, i, before)
      ensures StateOf(windows[i]) == before[i]
      ensures windows[i].Columns() <= columns && windows[i].Slots() <= slots
    {
    }

    lemma AllFed(log: seq<TableEvent>, n: nat, now: int, before: seq<WindowState>)
      requires |before| == |windows| && n < |log| && FedUpTo(log, n, now, |windows|, before)
      ensures WindowsValid(log, n + 1)
      ensures forall w :: 0 <= w < |windows| ==> Advanced(log[n], n, now, windows[w], before[w])
    {
    }

    // ---------- A group met for the first time ----------

    lemma AllAllocated()
      ensures forall c :: c in AllColumns() ==> allocated(c)
      ensures forall s :: s in AllSlots() ==> allocated(s)
      ensures forall w, c :: 0 <= w < |windows| && c in windows[w].Columns() ==> allocated(c)
      ensures forall w, s :: 0 <= w < |windows| && s in windows[w].Slots() ==> allocated(s)
    {
    }

    /** Columns for a new group over its block of slots; everything else about the window is as before. */
    ghost predicate Made(g: string, block: seq<Slot>, before: WindowState, now: WindowState)
      requires |info.operators| == |info.defaults| == |columnIds|
    {
      var m := now.groupColumns;
      && now == before.(groupColumns := m)
      && g in m && m == before.groupColumns[g := m[g]]
      && MadeFor(m[g], id, g, columnIds, info.operators, info.integral, block)
      && |m[g]| == KnownOperators(info.operators)
      && forall k :: 0 <= k < |m[g]| ==> m[g][k].config.default == info.defaults[k]
    }

    /** One block of slots per window, all different, holding the defaults. */
    ghost predicate NewBlocks(blocks: seq<seq<Slot>>)
      reads set w, k | 0 <= w < |blocks| && 0 <= k < |blocks[w]| :: blocks[w][k]
      requires Arranged()
    {
      && |blocks| == |windows|
      && (forall w :: 0 <= w < |blocks| ==> |blocks[w]| == |columnIds|)
      && (forall w, k :: 0 <= w < |blocks| && 0 <= k < |columnIds| ==> blocks[w][k].value == info.defaults[k])
      && Different(blocks)
    }

    ghost predicate MadeUpTo(log: seq<TableEvent>, n: nat, g: string, blocks: seq<seq<Slot>>, i: nat,
        before: seq<WindowState>)
      reads windows, set w, c | w in windows && c in w.Columns() :: c, set w, s | w in windows && s in w.Slots() :: s
      requires |before| == |windows| && |blocks| == |windows| && Arranged()
    {
      && (forall w :: 0 <= w < |windows| ==> windows[w].Valid(log, n))
      && (forall w :: i <= w < |windows| ==> StateOf(windows[w]) == before[w])
      && (forall w :: 0 <= w < |windows| && w < i ==> Made(g, blocks[w], before[w], StateOf(windows[w])))
    }

    method MakeOne(g: string, i: nat, block: seq<Slot>, ghost log: seq<TableEvent>, ghost n: nat) returns (ok: bool)
      requires Arranged() && i < |windows| && windows[i].Valid(log, n) && g !in windows[i].groupColumns
      requires |block| == |columnIds| && forall k :: 0 <= k < |block| ==> block[k].value == info.defaults[k]
      requires forall k, l :: 0 <= k < l < |block| ==> block[k] != block[l]
      requires forall k :: 0 <= k < |block| ==> block[k] !in windows[i].Slots()
      modifies windows[i]
      ensures windows[i].Valid(log, n) && Made(g, block, old(StateOf(windows[i])), StateOf(windows[i]))
      ensures g in windows[i].groupColumns
      ensures forall c :: c in windows[i].groupColumns[g] ==> fresh(c) && c.slot in block
      ensures ok <==> KnownOperators(info.operators) == |info.operators|
    {
      hide TimeBasedRollingWindow.Valid, ColumnsOf, SlotsOf, Block, KnownOperators, ParseOperator;
      ok := windows[i].CreateAggregateColumnsForGroup(g, columnIds, info.operators, info.integral, block, log, n);
    }

    /** What the next window needs in order to be given columns. */
    lemma ReadyToMake(g: string, blocks: seq<seq<Slot>>, i: nat, log: seq<TableEvent>, n: nat, before: seq<WindowState>)
      requires Arranged() && i < |windows| && |before| == |windows| && NewBlocks(blocks)
      requires Unused(Maps(), blocks, i) && MadeUpTo(log, n, g, blocks, i, before)
      ensures windows[i].Valid(log, n) && StateOf(windows[i]) == before[i] == States()[i]
      ensures windows[i].groupColumns == before[i].groupColumns
      ensures |blocks[i]| == |columnIds| && forall k :: 0 <= k < |blocks[i]| ==> blocks[i][k].value == info.defaults[k]
      ensures forall k, l :: 0 <= k < l < |blocks[i]| ==> blocks[i][k] != blocks[i][l]
      ensures forall k :: 0 <= k < |blocks[i]| ==> blocks[i][k] !in windows[i].Slots()
      ensures forall w :: 0 <= w < |windows| && w != i ==> windows[w] != windows[i]
      ensures forall w :: 0 <= w < |windows| ==> windows[w].Valid(log, n) && StateOf(windows[w]) == States()[w]
    {
      hide TimeBasedRollingWindow.Valid, ColumnsOf, SlotsOf, WellFormed, Block;
      assert Maps()[i] == windows[i].groupColumns;
    }

    /** The states before, with the one window changed, are the states now. */
    lemma OneMade(g: string, blocks: seq<seq<Slot>>, i: nat, log: seq<TableEvent>, n: nat, before: seq<WindowState>,
        maps: seq<map<string, seq<AggregateColumn>>>, states: seq<WindowState>)
      requires Arranged() && i < |windows| && |before| == |windows| == |blocks| == |states| == |maps|
      requires PairwiseApart(maps) && Unused(maps, blocks, i) && Different(blocks) && g !in before[i].groupColumns
      requires forall w :: 0 <= w < |windows| ==> maps[w] == states[w].groupColumns
      requires forall w :: i <= w < |windows| ==> states[w] == before[w]
      requires forall w :: 0 <= w < |windows| && w < i ==> Made(g, blocks[w], before[w], states[w])
      requires forall w :: 0 <= w < |windows| ==> windows[w].Valid(log, n)
      requires forall w :: 0 <= w < |windows| && w != i ==> StateOf(windows[w]) == states[w]
      requires Made(g, blocks[i], before[i], StateOf(windows[i]))
      requires g in windows[i].groupColumns
      requires forall v, c :: 0 <= v < |maps| && c in windows[i].groupColumns[g] ==> c !in ColumnsOf(maps[v])
      requires forall c :: c in windows[i].groupColumns[g] ==> c.slot in blocks[i]
      ensures Separate() && Unused(Maps(), blocks, i + 1) && MadeUpTo(log, n, g, blocks, i + 1, before)
    {
      assert windows[i].groupColumns == before[i].groupColumns[g := windows[i].groupColumns[g]];
      hide TimeBasedRollingWindow.Valid, ColumnsOf, SlotsOf, Made, PairwiseApart, Unused, Different, WellFormed, Block;
      StillApart(maps, blocks, i, g, windows[i].groupColumns[g]);
      assert Maps() == maps[i := windows[i].groupColumns];
    }

    lemma StatesMade(g: string, blocks: seq<seq<Slot>>, i: nat, log: seq<TableEvent>, n: nat, before: seq<WindowState>)
      requires Arranged() && i < |windows| && |before| == |windows| && NewBlocks(blocks)
      requires Separate() && MadeUpTo(log, n, g, blocks, i, before)
      ensures |blocks| == |windows| && Different(blocks) && PairwiseApart(Maps()) && |Maps()| == |windows|
      ensures forall w :: 0 <= w < |windows| ==>
        Maps()[w] == States()[w].groupColumns && ColumnsOf(Maps()[w]) == windows[w].Columns()
      ensures forall w :: i <= w < |windows| ==> States()[w] == before[w]
      ensures forall w :: 0 <= w < |windows| && w < i ==> Made(g, blocks[w], before[w], States()[w])
    {
      hide TimeBasedRollingWindow.Valid, ColumnsOf, SlotsOf, Made, PairwiseApart, Different, WellFormed, Block;
    }

    method MakeNext(g: string, blocks: seq<seq<Slot>>, i: nat, ghost log: seq<TableEvent>, ghost n: nat,
        ghost before: seq<WindowState>)
      returns (ok: bool)
      requires Arranged() && i < |windows| && |before| == |windows| && NewBlocks(blocks)
      requires Separate() && Unused(Maps(), blocks, i) && MadeUpTo(log, n, g, blocks, i, before)
      requires g !in before[i].groupColumns
      modifies windows[i]
      ensures Separate() && Unused(Maps(), blocks, i + 1) && MadeUpTo(log, n, g, blocks, i + 1, before)
      ensures g in windows[i].groupColumns && forall c :: c in windows[i].groupColumns[g] ==> fresh(c)
      ensures ok <==> KnownOperators(info.operators) == |info.operators|
    {
      hide *;
      ghost var maps, states := Maps(), States();
      ReadyToMake(g, blocks, i, log, n, before);
      StatesMade(g, blocks, i, log, n, before);
      AllAllocated();
      ok := MakeOne(g, i, blocks[i], log, n);
      forall w | 0 <= w < |windows| && w != i ensures windows[w].Valid(log, n) && StateOf(windows[w]) == states[w] {
        assert old(windows[w].Columns()) == windows[w].Columns() && old(windows[w].Slots()) == windows[w].Slots();
        assert forall c :: c in old(windows[w].Columns()) ==> unchanged(c);
      }
      OneMade(g, blocks, i, log, n, before, maps, states);
    }

    /** A vector of new slots holding the default feature. */
    method NewVector() returns (slots: seq<Slot>)
      ensures |slots| == |defaultFeature|
      ensures forall i :: 0 <= i < |slots| ==>
        fresh(slots[i]) && slots[i].value == defaultFeature[i] && slots[i].owner == id
      ensures forall i, j :: 0 <= i < j < |slots| ==> slots[i] != slots[j]
    {
      slots := [];
      while |slots| < |defaultFeature|
        invariant |slots| <= |defaultFeature|
        invariant forall i :: 0 <= i < |slots| ==>
          fresh(slots[i]) && slots[i].value == defaultFeature[i] && slots[i].owner == id
        invariant forall i, j :: 0 <= i < j < |slots| ==> slots[i] != slots[j]
        decreases |defaultFeature| - |slots|
      {
        var slot := new Slot(defaultFeature[|slots|], id);
        slots := slots + [slot];
      }
    }

    /** The blocks of a vector are different slots, and hold the defaults. */
    lemma BlocksOfVector(slots: seq<Slot>, blocks: seq<seq<Slot>>)
      requires Arranged() && |slots| == |defaultFeature| && |blocks| == |windows|
      requires forall w :: 0 <= w < |windows| ==> blocks[w] == Block(slots, w, |windows|, |columnIds|)
      requires forall i :: 0 <= i < |slots| ==> slots[i].value == defaultFeature[i]
      requires forall i, j :: 0 <= i < j < |slots| ==> slots[i] != slots[j]
      ensures NewBlocks(blocks)
    {
      BlocksDifferent(slots, blocks, |windows|, |columnIds|);
      hide Different, Block, WellFormed;
      forall w, k | 0 <= w < |blocks| && 0 <= k < |columnIds|
        ensures |blocks[w]| == |columnIds| && blocks[w][k].value == info.defaults[k]
      {
        BlockAt(defaultFeature, w, |windows|, |columnIds|, k);
        BlockAt(slots, w, |windows|, |columnIds|, k);
      }
      forall w | 0 <= w < |blocks| ensures |blocks[w]| == |columnIds| {
        BlockLength(slots, w, |windows|, |columnIds|);
      }
    }

    ghost predicate UselessBy(known: bool)
      reads this
    {
      useless <==> known && windows != [] && KnownOperators(info.operators) < |info.operators|
    }

    /** New slots are not yet used by any window. */
    lemma NewUnused(slots: seq<Slot>, blocks: seq<seq<Slot>>)
      requires Arranged() && |slots| == |defaultFeature| && |blocks| == |windows|
      requires forall w :: 0 <= w < |windows| ==> blocks[w] == Block(slots, w, |windows|, |columnIds|)
      requires forall w, s :: 0 <= w < |windows| && s in windows[w].Slots() ==> s !in slots
      ensures Unused(Maps(), blocks, 0)
    {
      hide SlotsOf, WellFormed, Block;
      forall v, w, k | 0 <= v < |windows| && 0 <= w < |blocks| && 0 <= k < |blocks[w]|
        ensures blocks[w][k] !in SlotsOf(Maps()[v])
      {
        BlockLength(slots, w, |windows|, |columnIds|);
        BlockAt(slots, w, |windows|, |columnIds|, k);
        assert blocks[w][k] in slots;
        assert SlotsOf(Maps()[v]) == windows[v].Slots();
      }
    }

    lemma LaidAfter(w: nat, g: string, slots: seq<Slot>, block: seq<Slot>, features: map<string, seq<Slot>>,
        before: WindowState)
      requires Arranged() && w < |windows| && |slots| == |defaultFeature|
      requires forall i :: 0 <= i < |slots| ==> slots[i].owner == id
      requires g !in features && Laid(w, before.groupColumns, features)
      requires block == Block(slots, w, |windows|, |columnIds|) && Made(g, block, before, StateOf(windows[w]))
      ensures Laid(w, windows[w].groupColumns, features[g := slots])
    {
      hide MadeFor, Block, WellFormed, KnownOperators;
    }

    lemma AllMade(log: seq<TableEvent>, n: nat, g: string, slots: seq<Slot>, blocks: seq<seq<Slot>>,
        features: map<string, seq<Slot>>, before: seq<WindowState>)
      requires Arranged() && |before| == |windows| == |blocks| && |slots| == |defaultFeature|
      requires forall i :: 0 <= i < |slots| ==> slots[i].owner == id
      requires forall w :: 0 <= w < |windows| ==> blocks[w] == Block(slots, w, |windows|, |columnIds|)
      requires g !in features && forall w :: 0 <= w < |windows| ==> Laid(w, before[w].groupColumns, features)
      requires forall h :: h in features ==> |features[h]| == |defaultFeature|
      requires MadeUpTo(log, n, g, blocks, |windows|, before) && groupFeatures == features[g := slots]
      ensures AllLaid() && WindowsValid(log, n)
      ensures forall w :: 0 <= w < |windows| ==>
        StateOf(windows[w]) == before[w].(groupColumns := windows[w].groupColumns)
    {
      hide Laid, Block, TimeBasedRollingWindow.Valid, Separate;
      forall w | 0 <= w < |windows| ensures Laid(w, windows[w].groupColumns, groupFeatures) {
        LaidAfter(w, g, slots, blocks[w], features, before[w]);
      }
    }

    /** The new columns, and their slots, are what the windows own in addition. */
    lemma OwnedAfter(w: nat, g: string, slots: seq<Slot>, block: seq<Slot>, before: WindowState)
      requires Arranged() && w < |windows| && |slots| == |defaultFeature| && g !in before.groupColumns
      requires block == Block(slots, w, |windows|, |columnIds|) && Made(g, block, before, StateOf(windows[w]))
      ensures g in windows[w].groupColumns
      ensures forall c :: c in windows[w].Columns() ==>
        c in ColumnsOf(before.groupColumns) || c in windows[w].groupColumns[g]
      ensures forall s :: s in windows[w].Slots() ==> s in SlotsOf(before.groupColumns) || s in slots
    {
      var columns := windows[w].groupColumns[g];
      assert windows[w].Columns() == ColumnsOf(windows[w].groupColumns);
      assert windows[w].Slots() == SlotsOf(windows[w].groupColumns);
      assert windows[w].groupColumns == before.groupColumns[g := columns];
      assert MadeFor(columns, id, g, columnIds, info.operators, info.integral, block);
      hide *;
      ColumnsOfUpdate(before.groupColumns, g, columns);
      SlotsOfUpdate(before.groupColumns, g, columns);
      BlockWithin(slots, w, |windows|, |columnIds|);
      SlotsMade(columns, g, block);
    }

    static lemma BlockWithin(slots: seq<Slot>, w: nat, windows: nat, size: nat)
      requires w < windows && |slots| == windows * size
      ensures forall s :: s in Block(slots, w, windows, size) ==> s in slots
    {
      BlockBounds(w, windows, size);
    }

    lemma SlotsMade(columns: seq<AggregateColumn>, g: string, block: seq<Slot>)
      requires MadeFor(columns, id, g, columnIds, info.operators, info.integral, block)
      ensures forall c :: c in columns ==> c.slot in block
    {
      hide ParseOperator;
    }

    lemma AllOwnedAfter(log: seq<TableEvent>, n: nat, g: string, slots: seq<Slot>, blocks: seq<seq<Slot>>,
        before: seq<WindowState>,
        columnsBefore: set<AggregateColumn>, slotsBefore: set<Slot>)
      requires Arranged() && |before| == |windows| == |blocks| && |slots| == |defaultFeature|
      requires forall w :: 0 <= w < |windows| ==>
        blocks[w] == Block(slots, w, |windows|, |columnIds|) && g !in before[w].groupColumns
      requires MadeUpTo(log, n, g, blocks, |windows|, before) && Snapshot(before, columnsBefore, slotsBefore)
      ensures forall w :: 0 <= w < |windows| ==> g in windows[w].groupColumns
      ensures forall c :: c in AllColumns() && c !in columnsBefore ==>
        exists w :: 0 <= w < |windows| && c in windows[w].groupColumns[g]
      ensures forall s :: s in AllSlots() && s !in slotsBefore ==> s in slots
    {
      hide TimeBasedRollingWindow.Valid, Made, Block, ColumnsOf, SlotsOf, Apart, WellFormed;
      forall w | 0 <= w < |windows|
        ensures g in windows[w].groupColumns
        ensures forall c :: c in windows[w].Columns() - columnsBefore ==> c in windows[w].groupColumns[g]
        ensures forall s :: s in windows[w].Slots() - slotsBefore ==> s in slots
      {
        OwnedAfter(w, g, slots, blocks[w], before[w]);
      }
    }

    /** A vector for a new group, and its blocks. */
    method NewGroupVector(g: string, ghost log: seq<TableEvent>, ghost n: nat, ghost before: seq<WindowState>)
      returns (slots: seq<Slot>, blocks: seq<seq<Slot>>)
      requires Arranged() && WindowsValid(log, n) && |before| == |windows|
      requires forall w :: 0 <= w < |windows| ==> before[w] == StateOf(windows[w])
      ensures |slots| == |defaultFeature| && |blocks| == |windows|
      ensures forall i :: 0 <= i < |slots| ==> slots[i].owner == id && fresh(slots[i])
      ensures forall w :: 0 <= w < |windows| ==> blocks[w] == Block(slots, w, |windows|, |columnIds|)
      ensures NewBlocks(blocks) && Unused(Maps(), blocks, 0) && MadeUpTo(log, n, g, blocks, 0, before)
    {
      AllAllocated();
      slots := NewVector();
      blocks := seq(|windows|, w requires 0 <= w < |windows| => Block(slots, w, |windows|, |columnIds|));
      BlocksOfVector(slots, blocks);
      NewUnused(slots, blocks);
      hide Block, NewBlocks, Unused, TimeBasedRollingWindow.Valid, Made;
    }

    lemma MetBefore(g: string, log: seq<TableEvent>, n: nat, before: seq<WindowState>)
      requires Valid(log, n) && g !in groupFeatures && |before| == |windows|
      requires forall w :: 0 <= w < |windows| ==> before[w] == StateOf(windows[w])
      ensures forall w :: 0 <= w < |windows| ==>
        Laid(w, before[w].groupColumns, groupFeatures) && g !in before[w].groupColumns
      ensures forall h :: h in groupFeatures ==> |groupFeatures[h]| == |defaultFeature|
    {
    }

    /** Columns in every window over its block. */
    method MakeInAll(g: string, blocks: seq<seq<Slot>>, ghost log: seq<TableEvent>, ghost n: nat,
        ghost before: seq<WindowState>)
      returns (ok: bool)
      requires Arranged() && |before| == |windows| == |blocks| && NewBlocks(blocks)
      requires Separate() && Unused(Maps(), blocks, 0) && MadeUpTo(log, n, g, blocks, 0, before)
      requires forall w :: 0 <= w < |windows| ==> g !in before[w].groupColumns
      modifies windows
      ensures Separate() && MadeUpTo(log, n, g, blocks, |windows|, before)
      ensures forall w :: 0 <= w < |windows| ==> g in windows[w].groupColumns
      ensures forall w, c :: 0 <= w < |windows| && c in windows[w].groupColumns[g] ==> fresh(c)
      ensures ok <==> windows == [] || KnownOperators(info.operators) == |info.operators|
    {
      hide *;
      WindowsApart();
      ok := true;
      var i := 0;
      while i < |windows|
        invariant i <= |windows|
        invariant Separate() && Unused(Maps(), blocks, i) && NewBlocks(blocks) && MadeUpTo(log, n, g, blocks, i, before)
        invariant forall w :: 0 <= w < i ==> g in windows[w].groupColumns
        invariant forall w, c :: 0 <= w < i && c in windows[w].groupColumns[g] ==> fresh(c)
        invariant ok <==> i == 0 || KnownOperators(info.operators) == |info.operators|
      {
        var made := MakeNext(g, blocks, i, log, n, before);
        ok := ok && made;
        i := i + 1;
      }
    }

    lemma WindowsApart()
      requires Arranged()
      ensures forall v, w :: 0 <= v < |windows| && 0 <= w < |windows| && v != w ==> windows[v] != windows[w]
    {
      hide WellFormed, Block;
    }

    /** The columns made, and the slots they write, are all that the windows come to own. */
    method MakeOwned(g: string, slots: seq<Slot>, blocks: seq<seq<Slot>>, ghost log: seq<TableEvent>, ghost n: nat,
        ghost before: seq<WindowState>)
      returns (ok: bool)
      requires Arranged() && |before| == |windows| == |blocks| && |slots| == |defaultFeature| && NewBlocks(blocks)
      requires forall w :: 0 <= w < |windows| ==>
        blocks[w] == Block(slots, w, |windows|, |columnIds|) && g !in before[w].groupColumns
      requires Separate() && Unused(Maps(), blocks, 0) && MadeUpTo(log, n, g, blocks, 0, before)
      requires forall w :: 0 <= w < |windows| ==> before[w] == StateOf(windows[w])
      modifies windows
      ensures Separate() && MadeUpTo(log, n, g, blocks, |windows|, before)
      ensures forall c :: c in AllColumns() && c !in old(AllColumns()) ==> fresh(c)
      ensures forall s :: s in AllSlots() && s !in old(AllSlots()) ==> s in slots
      ensures ok <==> windows == [] || KnownOperators(info.operators) == |info.operators|
    {
      hide *;
      ghost var columnsBefore, slotsBefore := AllColumns(), AllSlots();
      TakeSnapshot(before);
      ok := MakeInAll(g, blocks, log, n, before);
      AllOwnedAfter(log, n, g, slots, blocks, before, columnsBefore, slotsBefore);
      forall c | c in AllColumns() && c !in columnsBefore ensures fresh(c) {
        var w :| 0 <= w < |windows| && c in windows[w].groupColumns[g];
      }
    }

    /** Columns in every window for a group that has its vector. */
    method MakeGroupColumns(g: string, slots: seq<Slot>, blocks: seq<seq<Slot>>, ghost log: seq<TableEvent>,
        ghost n: nat,
        ghost features: map<string, seq<Slot>>, ghost before: seq<WindowState>)
      requires Arranged() && Separate() && |before| == |windows| == |blocks| && |slots| == |defaultFeature|
      requires forall w :: 0 <= w < |windows| ==> blocks[w] == Block(slots, w, |windows|, |columnIds|)
      requires forall i :: 0 <= i < |slots| ==> slots[i].owner == id
      requires NewBlocks(blocks) && Unused(Maps(), blocks, 0) && MadeUpTo(log, n, g, blocks, 0, before)
      requires forall w :: 0 <= w < |windows| ==> before[w] == StateOf(windows[w])
      requires g !in features && groupFeatures == features[g := slots]
      requires forall h :: h in features ==> |features[h]| == |defaultFeature|
      requires forall w :: 0 <= w < |windows| ==>
        Laid(w, before[w].groupColumns, features) && g !in before[w].groupColumns
      modifies this`useless, windows
      ensures Separate() && AllLaid() && WindowsValid(log, n)
      ensures useless == (old(useless) || (windows != [] && KnownOperators(info.operators) < |info.operators|))
      ensures forall c :: c in AllColumns() && c !in old(AllColumns()) ==> fresh(c)
      ensures forall s :: s in AllSlots() && s !in old(AllSlots()) ==> s in slots
      ensures forall w :: 0 <= w < |windows| ==>
        StateOf(windows[w]) == before[w].(groupColumns := windows[w].groupColumns)
    {
      hide MadeUpTo, Unused, NewBlocks, AllLaid, WindowsValid, Block;
      hide PairwiseApart, Laid, ColumnsOf, SlotsOf, WellFormed, AllColumns, AllSlots;
      var ok := MakeOwned(g, slots, blocks, log, n, before);
      if !ok {
        useless := true;
      }
      AllMade(log, n, g, slots, blocks, features, before);
    }

    /** The group's vector, and its columns in every window. */
    method MakeGroup(g: string, ghost log: seq<TableEvent>, ghost n: nat)
      requires Valid(log, n) && g !in groupFeatures
      modifies this, windows
      ensures Arranged() && Separate() && AllLaid() && WindowsValid(log, n) && UselessBy(true)
      ensures groupFeatures.Keys == old(groupFeatures.Keys) + {g}
      ensures forall c :: c in AllColumns() && c !in old(AllColumns()) ==> fresh(c)
      ensures forall s :: s in AllSlots() && s !in old(AllSlots()) ==> fresh(s)
      ensures forall w :: 0 <= w < |windows| ==>
        StateOf(windows[w]) == old(StateOf(windows[w])).(groupColumns := windows[w].groupColumns)
    {
      hide *;
      ghost var before := States();
      ghost var features, was := groupFeatures, useless;
      MetBefore(g, log, n, before);
      BeforeMeeting(log, n);
      AllAllocated();
      var slots, blocks := NewGroupVector(g, log, n, before);
      groupFeatures := groupFeatures[g := slots];
      MakeGroupColumns(g, slots, blocks, log, n, features, before);
      UselessAfter(was);
    }

    lemma BeforeMeeting(log: seq<TableEvent>, n: nat)
      requires Valid(log, n)
      ensures n <= |log| && Arranged() && Separate() && WindowsValid(log, n)
      ensures useless ==> windows != [] && KnownOperators(info.operators) < |info.operators|
    {
      hide Arranged, Separate, WindowsValid, AllLaid, Keyed, KnownOperators;
    }

    lemma UselessAfter(was: bool)
      requires was ==> windows != [] && KnownOperators(info.operators) < |info.operators|
      requires useless == (was || (windows != [] && KnownOperators(info.operators) < |info.operators|))
      ensures UselessBy(true)
    {
      hide KnownOperators;
    }

    lemma KnowsNext(log: seq<TableEvent>, n: nat)
      requires Arranged() && AllLaid() && WindowsValid(log, n)
      requires n < |log| && Keyed(log[n]) && log[n].groups[id] in groupFeatures
      ensures forall w :: 0 <= w < |windows| ==> windows[w].Known(log, n + 1)
    {
    }

    lemma BeforeTelling()
      requires Arranged() && Separate() && AllLaid()
      ensures PairwiseApart(Maps()) && |Maps()| == |windows|
      ensures forall h :: h in groupFeatures ==> |groupFeatures[h]| == |defaultFeature|
      ensures forall w :: 0 <= w < |windows| ==>
        && Laid(w, Maps()[w], groupFeatures) && Maps()[w] == States()[w].groupColumns == windows[w].groupColumns
        && States()[w] == StateOf(windows[w])
        && Coverages()[w] == Coverage(States()[w].oldestIndex, States()[w].covered)
    {
      hide Laid, PairwiseApart, WellFormed, Block;
    }

    lemma AllTold(e: TableEvent, n: nat, now: int, states: seq<WindowState>,
        maps: seq<map<string, seq<AggregateColumn>>>, covered: seq<Coverage>)
      requires Arranged() && |states| == |maps| == |covered| == |windows| && PairwiseApart(maps)
      requires forall h :: h in groupFeatures ==> |groupFeatures[h]| == |defaultFeature|
      requires forall w :: 0 <= w < |windows| ==>
        && Laid(w, maps[w], groupFeatures) && maps[w] == states[w].groupColumns
        && covered[w] == Coverage(states[w].oldestIndex, states[w].covered)
        && Advanced(e, n, now, windows[w], states[w])
      ensures Separate() && AllLaid() && ClocksAt(now) && Coverages() == NextAll(covered, e, n, now)
      ensures forall w :: 0 <= w < |windows| ==> windows[w].groupColumns == maps[w]
    {
      hide Laid, PairwiseApart, WellFormed, Block, Expired;
      assert Maps() == maps;
    }

    /** All windows are told of an event whose group has its columns. */
    method TellWindows(log: seq<TableEvent>, n: nat, now: int)
      requires Arranged() && Separate() && AllLaid() && WindowsValid(log, n) && n < |log|
      requires Keyed(log[n]) && log[n].groups[id] in groupFeatures && ClocksBefore(now) && StaleFirst(log[n], now)
      modifies windows, AllColumns(), AllSlots()
      ensures Separate() && AllLaid() && WindowsValid(log, n + 1)
      ensures AllColumns() == old(AllColumns()) && AllSlots() == old(AllSlots())
      ensures ClocksAt(now) && Coverages() == NextAll(old(Coverages()), log[n], n, now)
    {
      hide *;
      ghost var states, maps, covered := States(), Maps(), Coverages();
      BeforeTelling();
      KnowsNext(log, n);
      AddToWindows(log, n, now);
      AllTold(log[n], n, now, states, maps, covered);
      assert forall w :: 0 <= w < |windows| ==> windows[w].groupColumns == old(windows[w].groupColumns);
    }

    /** The group of event `n` has its vector and its columns, if not from before. */
    method MeetGroup(log: seq<TableEvent>, n: nat, ghost now: int)
      requires Valid(log, n) && n < |log| && Keyed(log[n]) && ClocksBefore(now) && StaleFirst(log[n], now)
      modifies this, windows
      ensures Arranged() && Separate() && AllLaid() && WindowsValid(log, n) && UselessBy(true)
      ensures groupFeatures.Keys == old(groupFeatures.Keys) + {log[n].groups[id]}
      ensures forall c :: c in AllColumns() && c !in old(AllColumns()) ==> fresh(c)
      ensures forall s :: s in AllSlots() && s !in old(AllSlots()) ==> fresh(s)
      ensures Coverages() == old(Coverages()) && ClocksBefore(now) && StaleFirst(log[n], now)
    {
      hide WindowsValid, PairwiseApart, Laid, WellFormed, Keys, AllColumns, AllSlots, KeyOf, GroupCells, Expired;
      var g := log[n].groups[id];
      if g !in groupFeatures {
        MakeGroup(g, log, n);
      }
    }

    lemma Taken(log: seq<TableEvent>, n: nat)
      requires Arranged() && Separate() && AllLaid() && n < |log| && WindowsValid(log, n + 1) && UselessBy(true)
      requires (forall i :: 0 <= i < n ==> Keyed(log[i])) && Keyed(log[n])
      requires groupFeatures.Keys == Keys(id, log, n) + {log[n].groups[id]}
      ensures Valid(log, n + 1)
    {
      KeysNext(log, n);
      hide PairwiseApart, Laid, WindowsValid, Keys, KeyOf, GroupCells, WellFormed;
    }

    /** The preprocessor takes in event `n`. */
    method AddEvent(log: seq<TableEvent>, n: nat, now: int)
      requires Valid(log, n) && n < |log| && Keyed(log[n]) && ClocksBefore(now) && StaleFirst(log[n], now)
      modifies this, windows, AllColumns(), AllSlots()
      ensures Valid(log, n + 1)
      ensures forall c :: c in AllColumns() && c !in old(AllColumns()) ==> fresh(c)
      ensures forall s :: s in AllSlots() && s !in old(AllSlots()) ==> fresh(s)
      ensures ClocksAt(now) && Coverages() == NextAll(old(Coverages()), log[n], n, now)
    {
      assert forall i :: 0 <= i < n ==> Keyed(log[i]);
      hide *;
      MeetGroup(log, n, now);
      TellWindows(log, n, now);
      Taken(log, n);
    }

    // ---------- get_model_input ----------

    /** The first `i` windows have been updated at time `now`, the others are as before. */
    ghost predicate UpdatedUpTo(log: seq<TableEvent>, now: int, i: nat, before: seq<WindowState>)
      reads windows, set w, c | w in windows && c in w.Columns() :: c, set w, s | w in windows && s in w.Slots() :: s
      requires |before| == |windows|
    {
      && (forall w :: 0 <= w < |windows| ==> windows[w].Valid(log, |log|))
      && (forall w :: i <= w < |windows| ==> StateOf(windows[w]) == before[w])
      && (forall w :: 0 <= w < |windows| && w < i ==> Refreshed(log, now, windows[w], before[w]))
    }

    lemma OwnedPartOf(log: seq<TableEvent>, now: int, i: nat, before: seq<WindowState>,
        columns: set<AggregateColumn>, slots: set<Slot>)
      requires i < |windows| && Snapshot(before, columns, slots) && UpdatedUpTo(log, now, i, before)
      ensures StateOf(windows[i]) == before[i]
      ensures windows[i].Columns() <= columns && windows[i].Slots() <= slots
    {
    }

    method UpdateNext(log: seq<TableEvent>, now: int, i: nat, ghost before: seq<WindowState>,
        ghost columns: set<AggregateColumn>, ghost slots: set<Slot>)
      requires i < |windows| && Snapshot(before, columns, slots) && UpdatedUpTo(log, now, i, before)
      requires Sorted(log) && before[i].clock <= now
      modifies windows[i], windows[i].Columns(), windows[i].Slots()
      ensures UpdatedUpTo(log, now, i + 1, before)
    {
      hide TimeBasedRollingWindow.Valid, WellFormed, Block, ColumnsOf, SlotsOf;
      assert StateOf(windows[i]) == before[i];
      forall w | 0 <= w < |windows| && w != i
        ensures windows[w] != windows[i] && windows[w].Columns() !! windows[i].Columns()
        ensures windows[w].Slots() !! windows[i].Slots()
      {
        assert StateOf(windows[w]).groupColumns == before[w].groupColumns;
        assert Apart(before[i].groupColumns, before[w].groupColumns);
      }
      UpdateOne(windows[i], log, now);
    }

    method UpdateWindows(log: seq<TableEvent>, now: int)
      requires Arranged() && Separate() && WindowsValid(log, |log|) && Sorted(log) && ClocksBefore(now)
      modifies windows, AllColumns(), AllSlots()
      ensures WindowsValid(log, |log|)
      ensures forall w :: 0 <= w < |windows| ==> Refreshed(log, now, windows[w], old(StateOf(windows[w])))
    {
      ghost var before := States();
      ghost var columns, slots := AllColumns(), AllSlots();
      TakeSnapshot(before);
      assert forall w :: 0 <= w < |windows| ==> before[w].clock <= now;
      assert UpdatedUpTo(log, now, 0, before);
      hide UpdatedUpTo, Snapshot;
      var i := 0;
      while i < |windows|
        invariant i <= |windows| && UpdatedUpTo(log, now, i, before)
      {
        OwnedPartOf(log, now, i, before, columns, slots);
        UpdateNext(log, now, i, before, columns, slots);
        i := i + 1;
      }
      AllUpdated(log, now, before);
    }

    lemma AllUpdated(log: seq<TableEvent>, now: int, before: seq<WindowState>)
      requires |before| == |windows| && UpdatedUpTo(log, now, |windows|, before)
      ensures WindowsValid(log, |log|)
      ensures forall w :: 0 <= w < |windows| ==> Refreshed(log, now, windows[w], before[w])
    {
    }

    static ghost function Contents(slots: seq<Slot>): (vs: seq<real>)
      reads slots
      ensures |vs| == |slots|
    {
      seq(|slots|, i requires 0 <= i < |slots| reads slots => slots[i].value)
    }

    /** Every column of a group's vector holds its aggregate. */
    lemma SlotHolds(g: string, w: nat, k: nat, log: seq<TableEvent>)
      requires Valid(log, |log|) && !useless && g in groupFeatures && w < |windows| && k < |columnIds|
      ensures |groupFeatures[g]| == |windows| * |columnIds|
      ensures |Block(groupFeatures[g], w, |windows|, |columnIds|)| == |columnIds|
      ensures Block(groupFeatures[g], w, |windows|, |columnIds|)[k].value
           == Row(id, columnIds, info, g, log, windows[w].covered)[k]
    {
      BlockLength(groupFeatures[g], w, |windows|, |columnIds|);
      var columns := windows[w].groupColumns[g];
      assert GroupLaid(w, g, columns, groupFeatures[g]);
      assert groupFeatures != map[];
      assert columns[k] in windows[w].Columns();
      assert windows[w].Valid(log, |log|);
      assert columns[k].Covers(log, windows[w].covered, |log|);
      hide Block, Aggregate, Values, KnownOperators, ColumnsOf, WellShaped, KnownIn;
    }

    lemma ContentsHold(g: string, w: nat, k: nat, log: seq<TableEvent>)
      requires Valid(log, |log|) && !useless && g in groupFeatures && w < |windows| && k < |columnIds|
      ensures |groupFeatures[g]| == |windows| * |columnIds|
      ensures |Block(Contents(groupFeatures[g]), w, |windows|, |columnIds|)| == |columnIds|
      ensures Block(Contents(groupFeatures[g]), w, |windows|, |columnIds|)[k]
           == Row(id, columnIds, info, g, log, windows[w].covered)[k]
    {
      SlotHolds(g, w, k, log);
      hide *;
      BlockContents(groupFeatures[g], w, |windows|, |columnIds|, k);
    }

    static lemma BlockContents(slots: seq<Slot>, w: nat, windows: nat, size: nat, k: nat)
      requires w < windows && |slots| == windows * size && k < size
      ensures |Block(slots, w, windows, size)| == |Block(Contents(slots), w, windows, size)| == size
      ensures Block(Contents(slots), w, windows, size)[k] == Block(slots, w, windows, size)[k].value
    {
      hide *;
      BlockAt(Contents(slots), w, windows, size, k);
      BlockAt(slots, w, windows, size, k);
      ContentsAt(slots, w * size + k);
    }

    static lemma ContentsAt(slots: seq<Slot>, i: nat)
      requires i < |slots|
      ensures Contents(slots)[i] == slots[i].value
    {
    }

    /** Block `w` of a group's vector is what window `w` contributes. */
    lemma VectorHolds(g: string, w: nat, log: seq<TableEvent>)
      requires Valid(log, |log|) && !useless && g in groupFeatures && w < |windows|
      ensures |groupFeatures[g]| == |windows| * |columnIds|
      ensures Block(Contents(groupFeatures[g]), w, |windows|, |columnIds|)
           == Row(id, columnIds, info, g, log, windows[w].covered)
    {
      assert |groupFeatures[g]| == |windows| * |columnIds|;
      hide *;
      BlockLength(Contents(groupFeatures[g]), w, |windows|, |columnIds|);
      forall k | 0 <= k < |columnIds|
        ensures Block(Contents(groupFeatures[g]), w, |windows|, |columnIds|)[k]
             == Row(id, columnIds, info, g, log, windows[w].covered)[k]
      {
        ContentsHold(g, w, k, log);
      }
    }

    /** A window contributes the defaults for a group of which no event was met. */
    lemma DefaultRow(g: string, w: nat, log: seq<TableEvent>)
      requires Valid(log, |log|) && g !in groupFeatures && w < |windows|
      ensures Row(id, columnIds, info, g, log, windows[w].covered) == info.defaults
    {
      assert Laid(w, windows[w].groupColumns, groupFeatures) && windows[w].Valid(log, |log|);
      hide Laid, ColumnsOf, WellShaped, Values, AggregateColumn.Covers;
      forall k | 0 <= k < |columnIds|
        ensures Row(id, columnIds, info, g, log, windows[w].covered)[k] == info.defaults[k]
      {
        windows[w].EmptyGroup(Selector(id, columnIds[k], g), log, windows[w].covered, |log|);
      }
    }

    method CopyVector(slots: seq<Slot>) returns (vs: seq<real>)
      ensures vs == Contents(slots)
    {
      vs := [];
      while |vs| < |slots|
        invariant |vs| <= |slots| && vs == Contents(slots)[..|vs|]
      {
        vs := vs + [slots[|vs|].value];
      }
    }

    /** What is handed out for one group. */
    ghost predicate Describes(feature: seq<real>, g: string, log: seq<TableEvent>)
      reads windows
      requires Arranged()
    {
      && |feature| == |defaultFeature|
      && forall w :: 0 <= w < |windows| ==>
          Block(feature, w, |windows|, |columnIds|) == Row(id, columnIds, info, g, log, windows[w].covered)
    }

    lemma VectorDescribes(g: string, log: seq<TableEvent>)
      requires Valid(log, |log|) && !useless && g in groupFeatures
      ensures Arranged() && |groupFeatures[g]| == |defaultFeature| && Describes(Contents(groupFeatures[g]), g, log)
    {
      assert Arranged() && AllLaid();
      hide Valid, Row, Block, Laid;
      forall w | 0 <= w < |windows|
        ensures |groupFeatures[g]| == |windows| * |columnIds|
        ensures Block(Contents(groupFeatures[g]), w, |windows|, |columnIds|)
             == Row(id, columnIds, info, g, log, windows[w].covered)
      {
        VectorHolds(g, w, log);
      }
    }

    lemma DefaultDescribes(g: string, log: seq<TableEvent>)
      requires Valid(log, |log|) && g !in groupFeatures
      ensures Arranged() && Describes(defaultFeature, g, log)
    {
      assert Arranged();
      hide Valid, Row, Block;
      forall w | 0 <= w < |windows|
        ensures Block(defaultFeature, w, |windows|, |columnIds|) == Row(id, columnIds, info, g, log, windows[w].covered)
      {
        DefaultRow(g, w, log);
      }
    }

    method FeatureOf(g: string, ghost log: seq<TableEvent>) returns (feature: seq<real>)
      requires Valid(log, |log|) && !useless
      ensures Arranged() && |feature| == |defaultFeature| && Describes(feature, g, log)
    {
      hide *;
      if g !in groupFeatures {
        DefaultDescribes(g, log);
        feature := defaultFeature;
      } else {
        AllAllocated();
        VectorDescribes(g, log);
        feature := CopyVector(groupFeatures[g]);
      }
    }

    ghost predicate AllDescribed(output: seq<real>, n: nat, groups: seq<string>, log: seq<TableEvent>)
      reads windows
      requires Arranged() && n <= |groups|
    {
      && |output| == n * |defaultFeature|
      && forall i :: 0 <= i < n ==> Describes(Block(output, i, n, |defaultFeature|), groups[i], log)
    }

    lemma OneMore(output: seq<real>, feature: seq<real>, n: nat, groups: seq<string>, log: seq<TableEvent>)
      requires Arranged() && n < |groups| && AllDescribed(output, n, groups, log)
      requires |feature| == |defaultFeature| && Describes(feature, groups[n], log)
      ensures AllDescribed(output + feature, n + 1, groups, log)
    {
      hide Arranged, Describes, Block;
      BlockAppend(output, feature, n, n);
      forall j | 0 <= j <= n ensures Describes(Block(output + feature, j, n + 1, |defaultFeature|), groups[j], log) {
        BlockAppend(output, feature, n, j);
      }
    }

    method FeaturesOf(groups: seq<string>, ghost log: seq<TableEvent>) returns (output: seq<real>)
      requires Valid(log, |log|) && !useless
      ensures AllDescribed(output, |groups|, groups, log)
    {
      assert Arranged();
      assert AllDescribed([], 0, groups, log);
      hide Valid, Arranged, AllDescribed, Describes;
      output := [];
      var i := 0;
      while i < |groups|
        invariant i <= |groups| && AllDescribed(output, i, groups, log)
      {
        var feature := FeatureOf(groups[i], log);
        OneMore(output, feature, i, groups, log);
        output := output + feature;
        i := i + 1;
      }
    }

    twostate lemma SameOwned()
      requires forall w :: 0 <= w < |windows| ==> windows[w].groupColumns == old(windows[w].groupColumns)
      ensures AllColumns() == old(AllColumns()) && AllSlots() == old(AllSlots())
    {
      assert forall w :: w in windows ==> w.groupColumns == old(w.groupColumns);
    }

    /** All windows are updated; at the moment they were fed that changes nothing. */
    method UpdateAll(log: seq<TableEvent>, now: int)
      requires Valid(log, |log|) && Sorted(log) && ClocksBefore(now)
      modifies windows, AllColumns(), AllSlots()
      ensures Valid(log, |log|) && ClocksAt(now)
      ensures old(FedAt(log, |log|, now)) ==> FedAt(log, |log|, now)
      ensures forall w :: 0 <= w < |windows| ==> Refreshed(log, now, windows[w], old(StateOf(windows[w])))
      ensures AllColumns() == old(AllColumns()) && AllSlots() == old(AllSlots())
    {
      hide *;
      ghost var before := States();
      BeforeMeeting(log, |log|);
      FedBefore(log, now, before);
      UpdateWindows(log, now);
      RefreshedAll(log, now, before);
      SameOwned();
      ValidAsBefore(log);
      if old(FedAt(log, |log|, now)) {
        FedRefreshed(log, now, before);
      }
    }

    lemma FedBefore(log: seq<TableEvent>, now: int, before: seq<WindowState>)
      requires |before| == |windows| && forall w :: 0 <= w < |windows| ==> before[w] == StateOf(windows[w])
      ensures forall w :: 0 <= w < |windows| ==> before[w].groupColumns == windows[w].groupColumns
      ensures FedAt(log, |log|, now) ==> forall w :: 0 <= w < |windows| ==>
        Coverage(before[w].oldestIndex, before[w].covered) == FedAll(log, |log|, now)[w]
    {
      assert forall w :: 0 <= w < |windows| ==> Coverage(before[w].oldestIndex, before[w].covered) == Coverages()[w];
    }

    lemma RefreshedAll(log: seq<TableEvent>, now: int, before: seq<WindowState>)
      requires |before| == |windows|
      requires forall w :: 0 <= w < |windows| ==> Refreshed(log, now, windows[w], before[w])
      ensures ClocksAt(now)
      ensures forall w :: 0 <= w < |windows| ==> windows[w].groupColumns == before[w].groupColumns
    {
      hide FirstFresh;
    }

    /** Groups and vectors are as they were. */
    twostate lemma ValidAsBefore(log: seq<TableEvent>)
      requires old(Valid(log, |log|)) && WindowsValid(log, |log|)
      requires groupFeatures == old(groupFeatures) && useless == old(useless)
      requires forall w :: 0 <= w < |windows| ==> windows[w].groupColumns == old(windows[w].groupColumns)
      ensures Valid(log, |log|)
    {
      assert Maps() == old(Maps());
      hide WindowsValid, PairwiseApart, Laid, Block, WellFormed, Keys, Keyed, KnownOperators;
    }

    /** The vectors of the given groups, one after the other, or nothing when an operator was not known. */
    method GetModelInput(groups: seq<string>, log: seq<TableEvent>, now: int) returns (r: Option<seq<real>>)
      requires Valid(log, |log|) && Sorted(log) && ClocksBefore(now)
      modifies windows, AllColumns(), AllSlots()
      ensures Valid(log, |log|) && (r.None? <==> useless) && ClocksBefore(now)
      ensures old(FedAt(log, |log|, now)) ==> FedAt(log, |log|, now)
      ensures forall w :: 0 <= w < |windows| ==>
        if useless then StateOf(windows[w]) == old(StateOf(windows[w]))
        else Refreshed(log, now, windows[w], old(StateOf(windows[w])))
      ensures r.Some? ==> AllDescribed(r.value, |groups|, groups, log)
      ensures useless ==> Coverages() == old(Coverages())
      ensures AllColumns() == old(AllColumns()) && AllSlots() == old(AllSlots())
    {
      hide Valid, FedAt, Refreshed, AllDescribed, Arranged, Coverages, AllColumns, AllSlots;
      if useless {
        return None;
      }
      UpdateAll(log, now);
      AllAllocated();
      var output := FeaturesOf(groups, log);
      return Some(output);
    }
  }

  // ---------- A preprocessor created late ----------

  ghost predicate SameSetting(p: PreProcessor, q: PreProcessor) {
    p.info == q.info && p.groupIds == q.groupIds && p.columnIds == q.columnIds
  }

  lemma RowsAlike(p: PreProcessor, q: PreProcessor, log: seq<TableEvent>, other: seq<TableEvent>, g: string, low: nat)
    requires SameSetting(p, q) && SameRows(log, other) && p.Arranged()
    requires forall i :: 0 <= i < |log| ==> p.Keyed(log[i]) && q.Keyed(other[i])
    ensures Row(p.id, p.columnIds, p.info, g, log, low) == Row(q.id, q.columnIds, q.info, g, other, low)
  {
    forall k | 0 <= k < |p.columnIds|
      ensures Row(p.id, p.columnIds, p.info, g, log, low)[k] == Row(q.id, q.columnIds, q.info, g, other, low)[k]
    {
      ValuesAlike(Selector(p.id, p.columnIds[k], g), Selector(q.id, q.columnIds[k], g), log, other, low, |log|);
    }
  }

  lemma KeysAlike(p: PreProcessor, q: PreProcessor, log: seq<TableEvent>, other: seq<TableEvent>)
    requires SameSetting(p, q) && SameRows(log, other)
    requires forall i :: 0 <= i < |log| ==> p.Keyed(log[i]) && q.Keyed(other[i])
    ensures PreProcessor.Keys(p.id, log, |log|) == PreProcessor.Keys(q.id, other, |other|)
  {
    var a, b := PreProcessor.Keys(p.id, log, |log|), PreProcessor.Keys(q.id, other, |other|);
    hide KeyOf, GroupCells;
    forall g | g in a ensures g in b {
      var i :| 0 <= i < |log| && p.id < |log[i].groups| && log[i].groups[p.id] == g;
      assert p.Keyed(log[i]) && q.Keyed(other[i]);
    }
    forall g | g in b ensures g in a {
      var i :| 0 <= i < |other| && q.id < |other[i].groups| && other[i].groups[q.id] == g;
      assert p.Keyed(log[i]) && q.Keyed(other[i]);
    }
  }

  /**
   * Two preprocessors of one setting that were told of the same rows at the same moment, however many other
   * preprocessors there are, are in the same state: same groups, same windows, same feature vectors.
   */
  lemma ReplayedAlike(p: PreProcessor, q: PreProcessor, log: seq<TableEvent>, other: seq<TableEvent>, now: int)
    requires SameSetting(p, q) && SameRows(log, other)
    requires p.Valid(log, |log|) && p.FedAt(log, |log|, now)
    requires q.Valid(other, |other|) && q.FedAt(other, |other|, now)
    ensures p.useless == q.useless && p.groupFeatures.Keys == q.groupFeatures.Keys && |p.windows| == |q.windows|
    ensures forall w :: 0 <= w < |p.windows| ==> CoverageOf(p.windows[w]) == CoverageOf(q.windows[w])
    ensures forall g, w :: g in p.groupFeatures && 0 <= w < |p.windows| && !p.useless ==>
      && |p.groupFeatures[g]| == |q.groupFeatures[g]| == |p.windows| * |p.columnIds|
      && Block(PreProcessor.Contents(p.groupFeatures[g]), w, |p.windows|, |p.columnIds|)
      == Block(PreProcessor.Contents(q.groupFeatures[g]), w, |p.windows|, |p.columnIds|)
  {
    KeysAlike(p, q, log, other);
    forall w | 0 <= w < |p.windows| ensures CoverageOf(p.windows[w]) == CoverageOf(q.windows[w]) {
      assert CoverageOf(p.windows[w]) == p.Coverages()[w] && CoverageOf(q.windows[w]) == q.Coverages()[w];
      FedAlike(log, other, |log|, p.windows[w].windowTime, now);
    }
    assert p.useless == q.useless;
    forall g, w | g in p.groupFeatures && 0 <= w < |p.windows| && !p.useless
      ensures
        && |p.groupFeatures[g]| == |q.groupFeatures[g]| == |p.windows| * |p.columnIds|
        && Block(PreProcessor.Contents(p.groupFeatures[g]), w, |p.windows|, |p.columnIds|)
        == Block(PreProcessor.Contents(q.groupFeatures[g]), w, |p.windows|, |p.columnIds|)
    {
      p.VectorHolds(g, w, log);
      q.VectorHolds(g, w, other);
      RowsAlike(p, q, log, other, g, p.windows[w].covered);
    }
  }
}
