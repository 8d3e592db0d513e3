/** TableStore: the event log of a table, and the preprocessors that follow it. */
module TableStores {
  import opened Results
  import opened Ordering
  import opened Aggregates
  import opened Columns
  import opened RollingWindows
  import opened GroupKeys
  import opened PreProcessors

  // ---------- Preprocessors side by side ----------

  ghost function WindowsIn(ps: seq<PreProcessor>): set<TimeBasedRollingWindow>
  {
    set p, w | 0 <= p < |ps| && 0 <= w < |ps[p].windows| :: ps[p].windows[w]
  }

  ghost function ColumnsIn(ps: seq<PreProcessor>): set<AggregateColumn>
    reads WindowsIn(ps)`groupColumns
  {
    set p, c | 0 <= p < |ps| && c in ps[p].AllColumns() :: c
  }

  ghost function SlotsIn(ps: seq<PreProcessor>): set<Slot>
    reads WindowsIn(ps)`groupColumns
  {
    set p, s | 0 <= p < |ps| && s in ps[p].AllSlots() :: s
  }

  ghost function CoveragesIn(ps: seq<PreProcessor>): (cs: seq<seq<Coverage>>)
    reads WindowsIn(ps)
    ensures |cs| == |ps| && forall p :: 0 <= p < |ps| ==> cs[p] == ps[p].Coverages()
  {
    if ps == [] then [] else CoveragesIn(ps[..|ps| - 1]) + [ps[|ps| - 1].Coverages()]
  }

  /** With a negative window time every event is stale when it comes. */
  ghost predicate Tame(p: PreProcessor)
    reads p.windows
  {
    forall w :: 0 <= w < |p.windows| && p.windows[w].windowTime < 0.0 ==> p.windows[w].oldestIndex == -1
  }

  /** The preprocessor has taken in the first `n` events, no later than at time `clock`. */
  ghost predicate Sound(p: PreProcessor, id: nat, width: nat, log: seq<TableEvent>, n: nat, clock: int)
    reads p, p.windows, p.AllColumns(), p.AllSlots()
  {
    p.id == id && p.width == width && p.Valid(log, n) && p.ClocksBefore(clock) && Tame(p)
  }

  /** All have taken in the whole log. */
  ghost predicate AllSound(ps: seq<PreProcessor>, width: nat, log: seq<TableEvent>, clock: int)
    reads ps, WindowsIn(ps), ColumnsIn(ps), SlotsIn(ps)
  {
    forall p :: 0 <= p < |ps| ==> Sound(ps[p], p, width, log, |log|, clock)
  }

  lemma SoundIn(ps: seq<PreProcessor>, width: nat, log: seq<TableEvent>, clock: int, p: nat)
    requires AllSound(ps, width, log, clock) && p < |ps|
    ensures Sound(ps[p], p, width, log, |log|, clock)
  {
  }

  lemma AllAreSound(ps: seq<PreProcessor>, width: nat, log: seq<TableEvent>, clock: int)
    requires forall p :: 0 <= p < |ps| ==> Sound(ps[p], p, width, log, |log|, clock)
    ensures AllSound(ps, width, log, clock)
  {
  }

  /** What a preprocessor owns carries its id. */
  lemma Owned(p: PreProcessor, id: nat, width: nat, log: seq<TableEvent>, n: nat, clock: int)
    requires Sound(p, id, width, log, n, clock)
    ensures forall w :: w in p.windows ==> w.preprocessorId == id
    ensures forall c :: c in p.AllColumns() ==> c.config.selector.preprocessor == id
    ensures forall s :: s in p.AllSlots() ==> s.owner == id
  {
    forall w | w in p.windows
      ensures w.preprocessorId == id
      ensures forall c :: c in w.Columns() ==> c.config.selector.preprocessor == id && c.slot.owner == id
    {
      var i :| 0 <= i < |p.windows| && p.windows[i] == w;
      OwnedByWindow(p, i, log, n);
    }
  }

  lemma OwnedByWindow(p: PreProcessor, i: nat, log: seq<TableEvent>, n: nat)
    requires p.Valid(log, n) && i < |p.windows|
    ensures p.windows[i].preprocessorId == p.id
    ensures forall c :: c in p.windows[i].Columns() ==> c.config.selector.preprocessor == p.id && c.slot.owner == p.id
  {
    var w := p.windows[i];
    assert w.Shaped() && p.Laid(i, w.groupColumns, p.groupFeatures) && p.Arranged() by {
      assert w.Valid(log, n);
    }
    hide PreProcessor.Valid, PreProcessor.GroupLaid, WellFormed, Block;
    forall c | c in w.Columns() ensures c.config.selector.preprocessor == p.id && c.slot.owner == p.id {
      var g, k :| g in w.groupColumns && 0 <= k < |w.groupColumns[g]| && w.groupColumns[g][k] == c;
      LaidOwners(p, i, g, w.groupColumns[g], p.groupFeatures[g]);
    }
  }

  lemma LaidOwners(p: PreProcessor, w: nat, g: string, columns: seq<AggregateColumn>, vector: seq<Slot>)
    requires p.Arranged() && w < |p.windows| && p.GroupLaid(w, g, columns, vector)
    ensures forall k :: 0 <= k < |columns| ==> columns[k].slot.owner == p.id
  {
    hide Block, PreProcessor.Arranged, WellFormed, ParseOperator;
    forall k | 0 <= k < |columns| ensures columns[k].slot.owner == p.id {
      BlockLength(vector, w, |p.windows|, |p.columnIds|);
      BlockAt(vector, w, |p.windows|, |p.columnIds|, k);
    }
  }

  /** Two preprocessors share nothing. */
  lemma ShareNothing(p: PreProcessor, q: PreProcessor, i: nat, j: nat, width: nat, log: seq<TableEvent>, m: nat,
      n: nat, clock: int)
    requires Sound(p, i, width, log, m, clock) && Sound(q, j, width, log, n, clock) && i != j
    ensures p != q && (forall w :: w in p.windows ==> w !in q.windows)
    ensures p.AllColumns() !! q.AllColumns() && p.AllSlots() !! q.AllSlots()
  {
    Owned(p, i, width, log, m, clock);
    Owned(q, j, width, log, n, clock);
    hide PreProcessor.Valid, PreProcessor.AllColumns, PreProcessor.AllSlots;
  }

  // ---------- One more event ----------

  /** The first `p` preprocessors have taken in event `n`, the others are as before. */
  ghost predicate TakenUpTo(ps: seq<PreProcessor>, width: nat, log: seq<TableEvent>, n: nat, e: TableEvent, now: int,
      p: nat,
      before: seq<seq<Coverage>>, columns: set<AggregateColumn>, slots: set<Slot>)
    reads ps, WindowsIn(ps), ColumnsIn(ps), SlotsIn(ps)
    requires |before| == |ps| && forall q :: 0 <= q < |ps| ==> |before[q]| == |ps[q].windows|
  {
    && (forall q :: 0 <= q < |ps| && q < p ==>
        && Sound(ps[q], q, width, log, n + 1, now)
        && ps[q].Coverages() == ps[q].NextAll(before[q], e, n, now))
    && (forall q :: p <= q < |ps| ==>
        && Sound(ps[q], q, width, log, n, now)
        && ps[q].Coverages() == before[q]
        && ps[q].AllColumns() <= columns && ps[q].AllSlots() <= slots)
  }

  lemma TakenByAll(ps: seq<PreProcessor>, width: nat, log: seq<TableEvent>, n: nat, e: TableEvent, now: int,
      before: seq<seq<Coverage>>, columns: set<AggregateColumn>, slots: set<Slot>)
    requires |before| == |ps| && forall q :: 0 <= q < |ps| ==> |before[q]| == |ps[q].windows|
    requires TakenUpTo(ps, width, log, n, e, now, |ps|, before, columns, slots)
    ensures forall q :: 0 <= q < |ps| ==> Sound(ps[q], q, width, log, n + 1, now)
    ensures forall q :: 0 <= q < |ps| ==> ps[q].Coverages() == ps[q].NextAll(before[q], e, n, now)
  {
    hide Sound;
  }

  lemma SoundAlike(p: PreProcessor, id: nat, width: nat, log: seq<TableEvent>, other: seq<TableEvent>, n: nat,
      clock: int)
    requires Sound(p, id, width, log, n, clock) && AlikeFor(id, log, other, n)
    ensures Sound(p, id, width, other, n, clock)
  {
    hide PreProcessor.Valid, AlikeFor;
    p.ValidAlike(log, other, n);
  }

  lemma KeyAddedAlike(log: seq<TableEvent>, n: nat, key: string, all: nat, q: nat)
    requires n < |log| && q < all && forall i :: 0 <= i < n ==> |log[i].groups| == all
    ensures var other := log[n := log[n].(groups := log[n].groups + [key])];
      && AlikeFor(q, log, other, n) && (q < |log[n].groups| ==> AlikeFor(q, log, other, n + 1))
  {
    var e := log[n].(groups := log[n].groups + [key]);
    assert q < |log[n].groups| ==> e.groups[q] == log[n].groups[q];
  }

  /** Adding a key to event `n` changes nothing for those that have their keys. */
  lemma KeyAdded(ps: seq<PreProcessor>, width: nat, log: seq<TableEvent>, n: nat, e: TableEvent, now: int, p: nat,
      before: seq<seq<Coverage>>, columns: set<AggregateColumn>, slots: set<Slot>, key: string)
    requires |before| == |ps| && forall q :: 0 <= q < |ps| ==> |before[q]| == |ps[q].windows|
    requires n < |log| && |log[n].groups| == p
    requires forall i :: 0 <= i < n ==> |log[i].groups| == |ps|
    requires TakenUpTo(ps, width, log, n, e, now, p, before, columns, slots)
    ensures TakenUpTo(ps, width, log[n := log[n].(groups := log[n].groups + [key])], n, e, now, p, before, columns,
      slots)
  {
    hide Sound, PreProcessor.AllColumns, PreProcessor.AllSlots, PreProcessor.Coverages, PreProcessor.NextAll;
    var other := log[n := log[n].(groups := log[n].groups + [key])];
    assert forall q :: 0 <= q < |ps| ==> Sound(ps[q], q, width, log, if q < p then n + 1 else n, now);
    forall q | 0 <= q < |ps| ensures Sound(ps[q], q, width, other, if q < p then n + 1 else n, now) {
      hide *;
      KeyAddedAlike(log, n, key, |ps|, q);
      SoundAlike(ps[q], q, width, log, other, if q < p then n + 1 else n, now);
    }
    TakenOn(ps, width, log, other, n, e, now, p, before, columns, slots);
  }

  lemma TakenOn(ps: seq<PreProcessor>, width: nat, log: seq<TableEvent>, other: seq<TableEvent>, n: nat, e: TableEvent,
      now: int, p: nat, before: seq<seq<Coverage>>, columns: set<AggregateColumn>, slots: set<Slot>)
    requires |before| == |ps| && forall q :: 0 <= q < |ps| ==> |before[q]| == |ps[q].windows|
    requires TakenUpTo(ps, width, log, n, e, now, p, before, columns, slots)
    requires forall q :: 0 <= q < |ps| ==> Sound(ps[q], q, width, other, if q < p then n + 1 else n, now)
    ensures TakenUpTo(ps, width, other, n, e, now, p, before, columns, slots)
  {
    hide Sound, PreProcessor.AllColumns, PreProcessor.AllSlots, PreProcessor.Coverages, PreProcessor.NextAll;
  }

  lemma NextIsSound(ps: seq<PreProcessor>, width: nat, log: seq<TableEvent>, n: nat, e: TableEvent, now: int, p: nat,
      before: seq<seq<Coverage>>, columns: set<AggregateColumn>, slots: set<Slot>)
    requires |before| == |ps| && p < |ps| && forall q :: 0 <= q < |ps| ==> |before[q]| == |ps[q].windows|
    requires TakenUpTo(ps, width, log, n, e, now, p, before, columns, slots)
    ensures ps[p].id == p && ps[p].width == width && forall k :: 0 <= k < |ps[p].groupIds| ==> ps[p].groupIds[k] < width
    ensures ps[p].AllColumns() <= columns && ps[p].AllSlots() <= slots
  {
    assert Sound(ps[p], p, width, log, n, now);
  }

  lemma PartsIn(ps: seq<PreProcessor>, p: nat)
    requires p < |ps|
    ensures forall w :: w in ps[p].windows ==> w in WindowsIn(ps)
    ensures ps[p].AllColumns() <= ColumnsIn(ps) && ps[p].AllSlots() <= SlotsIn(ps)
  {
  }

  lemma AllSoundLater(ps: seq<PreProcessor>, width: nat, log: seq<TableEvent>, clock: int, now: int)
    requires AllSound(ps, width, log, clock) && clock <= now
    ensures AllSound(ps, width, log, now)
  {
    forall p | 0 <= p < |ps| ensures Sound(ps[p], p, width, log, |log|, now) {
      hide PreProcessor.Valid;
      assert Sound(ps[p], p, width, log, |log|, clock);
    }
  }

  lemma AllPartsAllocated(ps: seq<PreProcessor>)
    ensures forall w :: w in WindowsIn(ps) ==> allocated(w)
    ensures forall c :: c in ColumnsIn(ps) ==> allocated(c)
    ensures forall s :: s in SlotsIn(ps) ==> allocated(s)
  {
  }

  lemma PartsAllocated(p: PreProcessor)
    ensures forall w :: w in p.windows ==> allocated(w)
    ensures forall c :: c in p.AllColumns() ==> allocated(c)
    ensures forall s :: s in p.AllSlots() ==> allocated(s)
  {
  }

  /** An event stamped now is stale only for a negative window time. */
  lemma LiveIsFresh(p: PreProcessor, e: TableEvent, now: int)
    requires Tame(p) && e.timestamp == now
    ensures p.StaleFirst(e, now)
  {
  }

  method GiveTo(p: PreProcessor, id: nat, log: seq<TableEvent>, n: nat, now: int, ghost width: nat)
    requires n < |log| && Sound(p, id, width, log, n, now) && p.Keyed(log[n]) && log[n].timestamp == now
    modifies p, p.windows, p.AllColumns(), p.AllSlots()
    ensures Sound(p, id, width, log, n + 1, now)
    ensures p.Coverages() == p.NextAll(old(p.Coverages()), log[n], n, now)
    ensures forall c :: c in p.AllColumns() && c !in old(p.AllColumns()) ==> fresh(c)
    ensures forall s :: s in p.AllSlots() && s !in old(p.AllSlots()) ==> fresh(s)
  {
    hide PreProcessor.Valid, PreProcessor.Keyed, PreProcessor.AllColumns, PreProcessor.AllSlots;
    LiveIsFresh(p, log[n], now);
    ghost var before := p.Coverages();
    p.AddEvent(log, n, now);
    forall w | 0 <= w < |p.windows| && p.windows[w].windowTime < 0.0 ensures p.windows[w].oldestIndex == -1 {
      assert p.Coverages()[w] == Next(before[w], log[n], n, p.windows[w].windowTime, now);
    }
  }

  /** Only the time of an event matters to the windows. */
  lemma NextByTime(p: PreProcessor, cs: seq<Coverage>, e: TableEvent, f: TableEvent, n: nat, now: int)
    requires |cs| == |p.windows| && e.timestamp == f.timestamp
    ensures p.NextAll(cs, e, n, now) == p.NextAll(cs, f, n, now)
  {
  }

  method GiveNext(ps: seq<PreProcessor>, log: seq<TableEvent>, n: nat, p: nat, now: int, ghost width: nat,
      ghost e: TableEvent,
      ghost before: seq<seq<Coverage>>, ghost columns: set<AggregateColumn>, ghost slots: set<Slot>)
    requires p < |ps| && n < |log| && |before| == |ps| && forall q :: 0 <= q < |ps| ==> |before[q]| == |ps[q].windows|
    requires TakenUpTo(ps, width, log, n, e, now, p, before, columns, slots)
    requires ps[p].Keyed(log[n]) && log[n].timestamp == now == e.timestamp
    modifies ps[p], ps[p].windows, ps[p].AllColumns(), ps[p].AllSlots()
    ensures TakenUpTo(ps, width, log, n, e, now, p + 1, before, columns, slots)
    ensures forall c :: c in ColumnsIn(ps) && c !in old(ColumnsIn(ps)) ==> fresh(c)
    ensures forall s :: s in SlotsIn(ps) && s !in old(SlotsIn(ps)) ==> fresh(s)
  {
    hide Sound, PreProcessor.Keyed, PreProcessor.NextAll;
    hide PreProcessor.AllColumns, PreProcessor.AllSlots, PreProcessor.Coverages;
    forall q | 0 <= q < |ps| && q != p
      ensures ps[p] != ps[q] && (forall w :: w in ps[p].windows ==> w !in ps[q].windows)
      ensures ps[p].AllColumns() !! ps[q].AllColumns() && ps[p].AllSlots() !! ps[q].AllSlots()
    {
      ShareNothing(ps[p], ps[q], p, q, width, log, n, if q < p then n + 1 else n, now);
    }
    forall q | 0 <= q < |ps| {
      PartsAllocated(ps[q]);
    }
    GiveTo(ps[p], p, log, n, now, width);
    forall q | 0 <= q < |ps| && q != p
      ensures ps[q].AllColumns() == old(ps[q].AllColumns()) && ps[q].AllSlots() == old(ps[q].AllSlots())
      ensures ps[q].Coverages() == old(ps[q].Coverages())
      ensures Sound(ps[q], q, width, log, if q < p then n + 1 else n, now)
    {
      assert forall w :: w in ps[q].windows ==> unchanged(w);
      forall k | 0 <= k < |ps[q].windows| ensures unchanged(ps[q].windows[k]) {
        assert ps[q].windows[k] in ps[q].windows;
      }
      assert forall c :: c in old(ps[q].AllColumns()) ==> unchanged(c);
      assert forall s :: s in old(ps[q].AllSlots()) ==> unchanged(s);
    }
    NextByTime(ps[p], before[p], log[n], e, n, now);
  }

  /** What the preprocessors own is what they owned. */
  twostate lemma SameParts(ps: seq<PreProcessor>)
    requires forall q :: 0 <= q < |ps| ==>
      ps[q].AllColumns() == old(ps[q].AllColumns()) && ps[q].AllSlots() == old(ps[q].AllSlots())
    ensures ColumnsIn(ps) == old(ColumnsIn(ps)) && SlotsIn(ps) == old(SlotsIn(ps))
  {
    hide PreProcessor.AllColumns, PreProcessor.AllSlots;
  }

  // ---------- All events again ----------

  ghost function KeyIn(e: TableEvent, id: nat): string {
    if id < |e.groups| then e.groups[id] else ""
  }

  /** The events as they were, the first `i` with one more key. */
  ghost predicate KeyedUpTo(log: seq<TableEvent>, before: seq<TableEvent>, width: nat, id: nat, i: nat) {
    && |log| == |before|
    && forall j :: 0 <= j < |before| ==>
        && |before[j].groups| == id && |before[j].row| == width
        && log[j] == before[j].(groups := if j < i then before[j].groups + [KeyIn(log[j], id)] else before[j].groups)
  }

  lemma KeyedToBegin(log: seq<TableEvent>, width: nat, id: nat)
    requires forall i :: 0 <= i < |log| ==> |log[i].groups| == id && |log[i].row| == width
    ensures KeyedUpTo(log, log, width, id, 0)
  {
  }

  lemma KeyedLength(log: seq<TableEvent>, before: seq<TableEvent>, width: nat, id: nat, i: nat)
    requires KeyedUpTo(log, before, width, id, i)
    ensures |log| == |before|
  {
  }

  /** The same events, each with one key more. */
  ghost predicate OneMoreKey(log: seq<TableEvent>, before: seq<TableEvent>, n: nat) {
    SameRows(log, before) && forall i :: 0 <= i < |log| ==>
      |log[i].groups| == n + 1 && log[i].groups[..n] == before[i].groups
  }

  lemma LaterTimed(log: seq<TableEvent>, clock: int, now: int)
    requires TimedBy(log, clock) && clock <= now
    ensures TimedBy(log, now)
  {
  }

  lemma NewIsSound(p: PreProcessor, log: seq<TableEvent>, width: nat, now: int)
    requires p.Valid(log, 0) && p.width == width && p.ClocksAt(now) && p.FedAt(log, 0, now)
    ensures Sound(p, p.id, width, log, 0, now)
  {
    FedMeans(p, log, 0, now);
    hide PreProcessor.Valid, PreProcessor.FedAt;
    forall w | 0 <= w < |p.windows| ensures p.windows[w].oldestIndex == -1 {
      assert p.Coverages()[w] == p.FedAll(log, 0, now)[w];
    }
  }

  /** In order, and none from the future. */
  ghost predicate TimedBy(log: seq<TableEvent>, now: int) {
    Sorted(log) && forall i :: 0 <= i < |log| ==> log[i].timestamp <= now
  }

  ghost predicate TameIn(p: PreProcessor, cs: seq<Coverage>)
    requires |cs| == |p.windows|
  {
    forall w :: 0 <= w < |p.windows| && p.windows[w].windowTime < 0.0 ==> cs[w].oldestIndex == -1
  }

  lemma EventToReplay(p: PreProcessor, log: seq<TableEvent>, before: seq<TableEvent>, width: nat, i: nat, now: int)
    requires KeyedUpTo(log, before, width, p.id, i) && i < |before| && Sound(p, p.id, width, log, i, now)
    ensures |log| == |before| && forall k :: 0 <= k < |p.groupIds| ==> p.groupIds[k] < |log[i].row|
  {
  }

  /** Fed at this moment, the windows have found stale whatever comes before a stale event. */
  lemma ReplayIsInOrder(p: PreProcessor, log: seq<TableEvent>, i: nat, now: int)
    requires i < |log| && p.FedAt(log, i, now) && Sorted(log)
    ensures p.StaleFirst(log[i], now)
  {
    forall w | 0 <= w < |p.windows| && Expired(log[i], p.windows[w].windowTime, now)
      ensures p.windows[w].oldestIndex == -1
    {
      FedCoversFresh(log, i, p.windows[w].windowTime, now);
      assert p.Coverages()[w] == p.FedAll(log, i, now)[w];
    }
  }

  lemma KeyGiven(p: PreProcessor, log: seq<TableEvent>, before: seq<TableEvent>, width: nat, i: nat, key: string,
      now: int)
    requires KeyedUpTo(log, before, width, p.id, i) && i < |before| && TimedBy(before, now)
    requires Sound(p, p.id, width, log, i, now) && p.FedAt(log, i, now)
    requires |log| == |before| && forall k :: 0 <= k < |p.groupIds| ==> p.groupIds[k] < |log[i].row|
    requires key == KeyOf(GroupCells(p.groupIds, log[i].row))
    ensures var after := log[i := log[i].(groups := log[i].groups + [key])];
      && KeyedUpTo(after, before, width, p.id, i + 1) && TimedBy(after, now)
      && p.Valid(after, i) && p.Coverages() == p.FedAll(after, i, now) && p.ClocksBefore(now)
      && TameIn(p, p.Coverages()) && p.width == width
      && p.Keyed(after[i]) && p.StaleFirst(after[i], now)
  {
    var after := log[i := log[i].(groups := log[i].groups + [key])];
    hide PreProcessor.Valid, PreProcessor.FedAt, KeyOf, GroupCells, PreProcessor.Coverages;
    p.ValidAlike(log, after, i);
    p.FedAtAlike(log, after, i, now);
    ReplayIsInOrder(p, after, i, now);
    FedMeans(p, after, i, now);
    forall w | 0 <= w < |p.windows| ensures p.Coverages()[w].oldestIndex == p.windows[w].oldestIndex {
      CoverageAt(p, w);
    }
  }

  lemma FedMeans(p: PreProcessor, log: seq<TableEvent>, i: nat, now: int)
    requires i <= |log| && p.FedAt(log, i, now)
    ensures p.Coverages() == p.FedAll(log, i, now)
  {
  }

  lemma CoverageAt(p: PreProcessor, w: nat)
    requires w < |p.windows|
    ensures p.Coverages()[w] == CoverageOf(p.windows[w])
  {
  }

  lemma EventReplayed(p: PreProcessor, log: seq<TableEvent>, width: nat, i: nat, now: int, covered: seq<Coverage>)
    requires i < |log| && TimedBy(log, now) && p.Valid(log, i + 1) && p.ClocksAt(now) && p.width == width
    requires |covered| == |p.windows| && covered == p.FedAll(log, i, now) && TameIn(p, covered)
    requires p.Coverages() == p.NextAll(covered, log[i], i, now)
    ensures Sound(p, p.id, width, log, i + 1, now) && p.FedAt(log, i + 1, now)
  {
    p.FedNext(log, i, now, covered);
    hide PreProcessor.Valid, PreProcessor.FedAt;
    forall w | 0 <= w < |p.windows| && p.windows[w].windowTime < 0.0 ensures p.windows[w].oldestIndex == -1 {
      assert p.Coverages()[w] == Next(covered[w], log[i], i, p.windows[w].windowTime, now);
    }
  }

  // ---------- The class ----------

  datatype TableRow = TableRow(row: map<string, Cell>, timestamp: int)

  datatype PreProcessorInfo = PreProcessorInfo(groupColumns: seq<string>, columnsToAggregate: seq<string>, info: Info)

  function Lower(s: string): string {
    seq(|s|, i requires 0 <= i < |s| => if 'A' <= s[i] <= 'Z' then (s[i] as int + 32) as char else s[i])
  }

  predicate Contains(s: string, part: string) {
    part <= s || (s != "" && Contains(s[1..], part))
  }

  /** The data type is declared as text. */
  predicate IsText(dataType: string) {
    Contains(Lower(dataType), "varchar")
  }

  /** Letter by letter, in upper or lower case. */
  predicate ReadsAt(s: string, lower: string, upper: string, i: nat) {
    && |lower| == |upper| && i + |lower| <= |s|
    && forall j :: 0 <= j < |lower| ==> s[i + j] == lower[j] || s[i + j] == upper[j]
  }

  predicate PartAt(s: string, part: string, i: nat) {
    i + |part| <= |s| && s[i..i + |part|] == part
  }

  lemma PartOfTail(s: string, part: string, i: nat)
    requires s != ""
    ensures PartAt(s[1..], part, i) <==> PartAt(s, part, i + 1)
  {
    if i + 1 + |part| <= |s| {
      assert s[1..][i..i + |part|] == s[i + 1..i + 1 + |part|];
    }
  }

  lemma PartAtStart(s: string, part: string)
    ensures PartAt(s, part, 0) <==> part <= s
  {
  }

  lemma {:induction false} ContainsExact(s: string, part: string)
    ensures Contains(s, part) <==> exists i: nat :: PartAt(s, part, i)
  {
    PartAtStart(s, part);
    if s == "" {
      assert forall i: nat :: PartAt(s, part, i) ==> i == 0;
    } else {
      ContainsExact(s[1..], part);
      forall i: nat ensures PartAt(s[1..], part, i) <==> PartAt(s, part, i + 1) {
        PartOfTail(s, part, i);
      }
      hide PartAt;
      forall i: nat | PartAt(s, part, i) ensures i == 0 || PartAt(s[1..], part, i - 1) {
        assert i > 0 ==> (PartAt(s[1..], part, i - 1) <==> PartAt(s, part, (i - 1) + 1));
      }
    }
  }

  /** "varchar" is somewhere in it, in upper or lower case. */
  ghost predicate DeclaredText(dataType: string) {
    exists i: nat :: ReadsAt(dataType, "varchar", "VARCHAR", i)
  }

  lemma IsTextExact(dataType: string)
    ensures IsText(dataType) <==> DeclaredText(dataType)
  {
    var lowered := Lower(dataType);
    ContainsExact(lowered, "varchar");
    forall i: nat ensures PartAt(lowered, "varchar", i) <==> ReadsAt(dataType, "varchar", "VARCHAR", i) {
      if i + 7 <= |lowered| {
        SameLetters(dataType, i);
      }
    }
    hide PartAt, ReadsAt;
  }

  lemma SameLetters(s: string, i: nat)
    requires i + 7 <= |s|
    ensures Lower(s)[i..i + 7] == "varchar" <==> ReadsAt(s, "varchar", "VARCHAR", i)
  {
    var part := Lower(s)[i..i + 7];
    assert forall j :: 0 <= j < 7 ==> part[j] == Lower(s)[i + j];
    assert part == "varchar" <==> forall j :: 0 <= j < 7 ==> part[j] == "varchar"[j];
    forall j | 0 <= j < 7 ensures part[j] == "varchar"[j] <==> s[i + j] == "varchar"[j] || s[i + j] == "VARCHAR"[j] {
    }
  }

  /** What an entity gives for a column; of several values the last counts. */
  function Given(entity: seq<(string, string)>, column: string): Option<string> {
    if entity == [] then None
    else
      var (key, value) := entity[|entity| - 1];
      if key == column then Some(value) else Given(entity[..|entity| - 1], column)
  }

  /** The last pair for the column has the value. */
  ghost predicate Gives(entity: seq<(string, string)>, column: string, value: string) {
    exists j :: 0 <= j < |entity| && entity[j] == (column, value)
      && forall l :: j < l < |entity| ==> entity[l].0 != column
  }

  lemma GivesLast(entity: seq<(string, string)>, column: string, value: string)
    requires entity != []
    ensures var n := |entity| - 1;
      Gives(entity, column, value) <==>
        if entity[n].0 == column then value == entity[n].1 else Gives(entity[..n], column, value)
  {
    var n := |entity| - 1;
    if entity[n].0 == column {
      assert entity[n] == (column, entity[n].1);
    } else {
      if Gives(entity[..n], column, value) {
        var j :| 0 <= j < n && entity[..n][j] == (column, value)
          && forall l :: j < l < n ==> entity[..n][l].0 != column;
        assert entity[j] == (column, value);
      }
      if Gives(entity, column, value) {
        var j :| 0 <= j <= n && entity[j] == (column, value) && forall l :: j < l <= n ==> entity[l].0 != column;
        assert j < n && entity[..n][j] == (column, value);
      }
    }
  }

  lemma {:induction false} GivenExact(entity: seq<(string, string)>, column: string)
    ensures forall value :: Given(entity, column) == Some(value) <==> Gives(entity, column, value)
    ensures Given(entity, column) == None <==> forall j :: 0 <= j < |entity| ==> entity[j].0 != column
  {
    if entity != [] {
      var n := |entity| - 1;
      GivenExact(entity[..n], column);
      forall value { GivesLast(entity, column, value); }
      hide Gives;
    }
  }

  lemma GivenNext(entity: seq<(string, string)>, j: nat)
    requires j < |entity|
    ensures forall column ::
      Given(entity[..j + 1], column) == if entity[j].0 == column then Some(entity[j].1) else Given(entity[..j], column)
  {
    var upTo := entity[..j + 1];
    assert upTo[..j] == entity[..j] && upTo[|upTo| - 1] == entity[j];
    forall column
      ensures Given(upTo, column) == if entity[j].0 == column then Some(entity[j].1) else Given(entity[..j], column)
    {
    }
  }

  /** Positions in a row follow the order of the column names. */
  predicate Indexed(schema: map<string, string>, columns: seq<string>, columnToId: map<string, nat>) {
    && columns == SortedKeys(schema.Keys) && columnToId.Keys == schema.Keys
    && forall i :: 0 <= i < |columns| ==> columns[i] in columnToId && columnToId[columns[i]] == i
  }

  /** The positions of the names among the columns, in the order of the names. */
  predicate PositionsOf(ids: seq<nat>, names: seq<string>, columns: seq<string>) {
    |ids| == |names| && forall k :: 0 <= k < |ids| ==> ids[k] < |columns| && columns[ids[k]] == names[k]
  }

  /** All columns exist, and one declared as text is only counted. */
  ghost predicate Suits(schema: map<string, string>, c: PreProcessorInfo)
    requires |c.info.operators| == |c.columnsToAggregate|
  {
    && (forall k :: 0 <= k < |c.groupColumns| ==> c.groupColumns[k] in schema)
    && forall k :: 0 <= k < |c.columnsToAggregate| ==>
        && c.columnsToAggregate[k] in schema
        && (c.info.operators[k] == "Count" || !DeclaredText(schema[c.columnsToAggregate[k]]))
  }

  class TableStore {
    const schema: map<string, string>
    const columns: seq<string>
    const columnToId: map<string, nat>
    var allEvents: seq<TableEvent>
    var preprocessors: seq<PreProcessor>
    var modelInputIds: map<string, nat>
    var ready: bool
    /** The latest clock reading. */
    ghost var clock: int

    constructor (schema: map<string, string>, ghost clock: int)
      ensures Valid() && this.schema == schema && !ready && this.clock == clock
      ensures allEvents == [] && preprocessors == [] && modelInputIds == map[]
    {
      var names, ids := IndexColumns(schema);
      this.schema, columns, columnToId := schema, names, ids;
      allEvents, preprocessors, modelInputIds, ready, this.clock := [], [], map[], false, clock;
    }

    static method IndexColumns(schema: map<string, string>) returns (names: seq<string>, ids: map<string, nat>)
      ensures Indexed(schema, names, ids)
    {
      hide *;
      names := SortedKeys(schema.Keys);
      SortedKeysDistinct(schema.Keys);
      ids := map[];
      var i := 0;
      while i < |names|
        invariant i <= |names|
        invariant forall k :: k in ids ==> k in names
        invariant forall j :: 0 <= j < i ==> names[j] in ids && ids[names[j]] == j
      {
        ids := ids[names[i] := i];
        i := i + 1;
      }
      AllIndexed(schema, names, ids);
    }

    static lemma AllIndexed(schema: map<string, string>, names: seq<string>, ids: map<string, nat>)
      requires names == SortedKeys(schema.Keys) && forall k :: k in ids ==> k in names
      requires forall j :: 0 <= j < |names| ==> names[j] in ids && ids[names[j]] == j
      ensures Indexed(schema, names, ids)
    {
      hide SortedKeys;
      assert forall k :: k in schema.Keys ==> k in names;
      assert forall k :: k in names ==> k in ids && k in schema.Keys;
    }

    /** The log is in time order, and every event has a full row and one key per preprocessor. */
    ghost predicate LogKept()
      reads this
    {
      && Sorted(allEvents)
      && forall i :: 0 <= i < |allEvents| ==>
          && allEvents[i].timestamp <= clock
          && |allEvents[i].groups| == |preprocessors| && |allEvents[i].row| == |columns|
    }

    ghost predicate Valid()
      reads this, preprocessors, WindowsIn(preprocessors), ColumnsIn(preprocessors), SlotsIn(preprocessors)
    {
      && Indexed(schema, columns, columnToId)
      && LogKept()
      && AllSound(preprocessors, |columns|, allEvents, clock)
      && (forall name :: name in modelInputIds ==> modelInputIds[name] < |preprocessors|)
    }

    method SetToFillInMemory()
      requires Valid()
      modifies this`ready
      ensures Valid() && ready
    {
      hide Sound, Indexed, Sorted;
      ready := true;
      forall p | 0 <= p < |preprocessors| ensures Sound(preprocessors[p], p, |columns|, allEvents, |allEvents|, clock) {
        var q := preprocessors[p];
        assert unchanged(q);
        assert forall k :: 0 <= k < |q.windows| ==> unchanged(q.windows[k]);
        assert forall c :: c in old(q.AllColumns()) ==> unchanged(c);
        assert forall s :: s in old(q.AllSlots()) ==> unchanged(s);
      }
    }

    // ---------- check_columns_of_row ----------

    method CheckColumnsOfRow(r: TableRow) returns (ok: bool)
      ensures ok <==> r.row.Keys == columnToId.Keys
    {
      hide *;
      var given := SortedKeys(r.row.Keys);
      var i := 0;
      while i < |given|
        invariant i <= |given| && forall j :: 0 <= j < i ==> given[j] in columnToId
      {
        if given[i] !in columnToId {
          return false;
        }
        i := i + 1;
      }
      var expected := SortedKeys(columnToId.Keys);
      i := 0;
      while i < |expected|
        invariant i <= |expected| && forall j :: 0 <= j < i ==> expected[j] in r.row
      {
        if expected[i] !in r.row {
          return false;
        }
        i := i + 1;
      }
      return true;
    }

    // ---------- add_row ----------

    /** The cells in the order of their column names, unless one is in no column. */
    method CellsOf(r: TableRow) returns (cells: seq<Cell>, known: bool)
      ensures known <==> r.row.Keys <= columnToId.Keys
      ensures known ==> cells == RowCells(r)
    {
      hide *;
      var given := SortedKeys(r.row.Keys);
      cells := [];
      var i := 0;
      while i < |given|
        invariant i == |cells| <= |given|
        invariant forall j :: 0 <= j < i ==> given[j] in given && given[j] in columnToId && cells[j] == r.row[given[j]]
      {
        assert given[i] in given;
        if given[i] !in columnToId {
          return cells, false;
        }
        cells := cells + [r.row[given[i]]];
        i := i + 1;
      }
      AllCells(r, cells);
      return cells, true;
    }

    static lemma AllCells(r: TableRow, cells: seq<Cell>)
      requires var given := SortedKeys(r.row.Keys);
        |cells| == |given| && forall j :: 0 <= j < |given| ==> given[j] in given && cells[j] == r.row[given[j]]
      ensures cells == RowCells(r)
    {
      hide SortedKeys;
    }

    static function RowCells(r: TableRow): seq<Cell> {
      var given := SortedKeys(r.row.Keys);
      seq(|given|, i requires 0 <= i < |given| => r.row[given[i]])
    }

    /** Preprocessor `p` computes its key of event `n`, and takes the event in. */
    method TellPreprocessor(n: nat, p: nat, now: int, ghost e: TableEvent,
        ghost before: seq<seq<Coverage>>, ghost columnsBefore: set<AggregateColumn>, ghost slotsBefore: set<Slot>)
      requires |before| == |preprocessors|
      requires forall q :: 0 <= q < |preprocessors| ==> |before[q]| == |preprocessors[q].windows|
      requires p < |preprocessors| && |allEvents| == n + 1 && |allEvents[n].groups| == p
      requires forall i :: 0 <= i < n ==> |allEvents[i].groups| == |preprocessors|
      requires |allEvents[n].row| == |columns| && allEvents[n].timestamp == now == e.timestamp
      requires TakenUpTo(preprocessors, |columns|, allEvents, n, e, now, p, before, columnsBefore, slotsBefore)
      modifies this`allEvents, preprocessors[p], preprocessors[p].windows
      modifies preprocessors[p].AllColumns(), preprocessors[p].AllSlots()
      ensures |allEvents| == n + 1 && |allEvents[n].groups| == p + 1
      ensures allEvents == old(allEvents)[n := old(allEvents)[n].(groups := allEvents[n].groups)]
      ensures TakenUpTo(preprocessors, |columns|, allEvents, n, e, now, p + 1, before, columnsBefore, slotsBefore)
      ensures forall c :: c in ColumnsIn(preprocessors) && c !in old(ColumnsIn(preprocessors)) ==> fresh(c)
      ensures forall s :: s in SlotsIn(preprocessors) && s !in old(SlotsIn(preprocessors)) ==> fresh(s)
    {
      hide *;
      NextIsSound(preprocessors, |columns|, allEvents, n, e, now, p, before, columnsBefore, slotsBefore);
      AllPartsAllocated(preprocessors);
      var key := preprocessors[p].GetGroupFromEvent(allEvents[n]);
      KeyedNow(preprocessors[p], allEvents, n, key);
      KeyAdded(preprocessors, |columns|, allEvents, n, e, now, p, before, columnsBefore, slotsBefore, key);
      allEvents := allEvents[n := allEvents[n].(groups := allEvents[n].groups + [key])];
      GiveNext(preprocessors, allEvents, n, p, now, |columns|, e, before, columnsBefore, slotsBefore);
    }

    /** With its key the event is one that the preprocessor can take in. */
    static lemma KeyedNow(p: PreProcessor, log: seq<TableEvent>, n: nat, key: string)
      requires n < |log| && |log[n].groups| == p.id && |log[n].row| == p.width
      requires forall k :: 0 <= k < |p.groupIds| ==> p.groupIds[k] < |log[n].row|
      requires key == KeyOf(GroupCells(p.groupIds, log[n].row))
      ensures p.Keyed(log[n := log[n].(groups := log[n].groups + [key])][n])
    {
      hide KeyOf, GroupCells;
    }

    /** The event that a row becomes: its keys follow. */
    static function EventOf(r: TableRow): TableEvent {
      TableEvent([], r.timestamp, RowCells(r))
    }

    lemma TakenByNone(r: TableRow, now: int, before: seq<seq<Coverage>>)
      requires Valid() && clock <= now && |before| == |preprocessors|
      requires forall p :: 0 <= p < |preprocessors| ==> before[p] == preprocessors[p].Coverages()
      ensures forall p :: 0 <= p < |preprocessors| ==> |before[p]| == |preprocessors[p].windows|
      ensures TakenUpTo(preprocessors, |columns|, allEvents + [EventOf(r)], |allEvents|, EventOf(r), now, 0, before,
          ColumnsIn(preprocessors), SlotsIn(preprocessors))
    {
      var log := allEvents + [EventOf(r)];
      forall p | 0 <= p < |preprocessors| ensures Sound(preprocessors[p], p, |columns|, log, |allEvents|, now) {
        SoundWithMore(r, now, p);
      }
      hide Valid, Sound, EventOf, PreProcessor.AllColumns, PreProcessor.AllSlots;
    }

    /** An event more in the log makes no difference to what was taken in. */
    lemma SoundWithMore(r: TableRow, now: int, p: nat)
      requires Valid() && clock <= now && p < |preprocessors|
      ensures Sound(preprocessors[p], p, |columns|, allEvents + [EventOf(r)], |allEvents|, now)
    {
      SoundAt(p);
      SoundLater(preprocessors[p], p, |columns|, allEvents, |allEvents|, clock, now);
      Kept();
      hide Valid, Sound, EventOf;
      SoundAlike(preprocessors[p], p, |columns|, allEvents, allEvents + [EventOf(r)], |allEvents|, now);
    }

    static lemma SoundLater(p: PreProcessor, id: nat, width: nat, log: seq<TableEvent>, n: nat, clock: int, now: int)
      requires Sound(p, id, width, log, n, clock) && clock <= now
      ensures Sound(p, id, width, log, n, now)
    {
      hide PreProcessor.Valid;
    }

    lemma WidthOfRow(r: TableRow)
      requires Indexed(schema, columns, columnToId) && r.row.Keys == columnToId.Keys
      ensures |RowCells(r)| == |columns|
      ensures forall i :: 0 <= i < |columns| ==> columns[i] in r.row && RowCells(r)[i] == r.row[columns[i]]
    {
    }

    /** Every preprocessor is told of the event just put into the log. */
    method TellAll(n: nat, now: int, ghost e: TableEvent, ghost before: seq<seq<Coverage>>,
        ghost columnsBefore: set<AggregateColumn>, ghost slotsBefore: set<Slot>)
      requires |before| == |preprocessors|
      requires forall q :: 0 <= q < |preprocessors| ==> |before[q]| == |preprocessors[q].windows|
      requires |allEvents| == n + 1 && allEvents[n] == e && e.groups == []
      requires forall i :: 0 <= i < n ==> |allEvents[i].groups| == |preprocessors|
      requires |e.row| == |columns| && (preprocessors == [] || e.timestamp == now)
      requires TakenUpTo(preprocessors, |columns|, allEvents, n, e, now, 0, before, columnsBefore, slotsBefore)
      modifies this`allEvents, preprocessors, WindowsIn(preprocessors), columnsBefore, slotsBefore
      ensures |allEvents| == n + 1 && |allEvents[n].groups| == |preprocessors|
      ensures allEvents == old(allEvents)[n := e.(groups := allEvents[n].groups)]
      ensures TakenUpTo(preprocessors, |columns|, allEvents, n, e, now, |preprocessors|, before, columnsBefore,
        slotsBefore)
      ensures forall c :: c in ColumnsIn(preprocessors) && c !in old(ColumnsIn(preprocessors)) ==> fresh(c)
      ensures forall s :: s in SlotsIn(preprocessors) && s !in old(SlotsIn(preprocessors)) ==> fresh(s)
    {
      hide TakenUpTo;
      var p := 0;
      while p < |preprocessors|
        invariant p <= |preprocessors| && |allEvents| == n + 1 && |allEvents[n].groups| == p
        invariant allEvents == old(allEvents)[n := e.(groups := allEvents[n].groups)]
        invariant TakenUpTo(preprocessors, |columns|, allEvents, n, e, now, p, before, columnsBefore, slotsBefore)
        invariant forall c :: c in ColumnsIn(preprocessors) && c !in old(ColumnsIn(preprocessors)) ==> fresh(c)
        invariant forall s :: s in SlotsIn(preprocessors) && s !in old(SlotsIn(preprocessors)) ==> fresh(s)
      {
        NextIsSound(preprocessors, |columns|, allEvents, n, e, now, p, before, columnsBefore, slotsBefore);
        TellPreprocessor(n, p, now, e, before, columnsBefore, slotsBefore);
        p := p + 1;
      }
    }

    /** The new event is put into the log, and given its keys. */
    method AppendEvent(r: TableRow, cells: seq<Cell>, now: int)
      requires Valid() && clock <= now && columnToId.Keys == r.row.Keys && cells == RowCells(r)
      requires r.timestamp <= now && (preprocessors != [] ==> r.timestamp == now)
      requires forall i :: 0 <= i < |allEvents| ==> allEvents[i].timestamp <= r.timestamp
      modifies this`allEvents, this`clock, preprocessors
      modifies WindowsIn(preprocessors), ColumnsIn(preprocessors), SlotsIn(preprocessors)
      ensures Valid() && clock == now && |allEvents| == |old(allEvents)| + 1
      ensures allEvents[..|old(allEvents)|] == old(allEvents)
      ensures allEvents[|old(allEvents)|] == EventOf(r).(groups := allEvents[|old(allEvents)|].groups)
      ensures forall p :: 0 <= p < |preprocessors| ==>
        preprocessors[p].Coverages()
          == preprocessors[p].NextAll(old(CoveragesIn(preprocessors))[p], EventOf(r), |old(allEvents)|, now)
      ensures forall c :: c in ColumnsIn(preprocessors) && c !in old(ColumnsIn(preprocessors)) ==> fresh(c)
      ensures forall s :: s in SlotsIn(preprocessors) && s !in old(SlotsIn(preprocessors)) ==> fresh(s)
    {
      hide *;
      ghost var before := CoveragesIn(preprocessors);
      ghost var columnsBefore, slotsBefore := ColumnsIn(preprocessors), SlotsIn(preprocessors);
      TakenByNone(r, now, before);
      BeforeAppend(r);
      var n := |allEvents|;
      var e := TableEvent([], r.timestamp, cells);
      allEvents, clock := allEvents + [e], now;
      TellAll(n, now, e, before, columnsBefore, slotsBefore);
      TakenByAll(preprocessors, |columns|, allEvents, n, e, now, before, columnsBefore, slotsBefore);
      StillValid(old(allEvents), old(clock), allEvents[n]);
    }

    lemma BeforeAppend(r: TableRow)
      requires Valid() && columnToId.Keys == r.row.Keys
      ensures Indexed(schema, columns, columnToId) && Sorted(allEvents)
      ensures EventOf(r) == TableEvent([], r.timestamp, RowCells(r))
      ensures forall i :: 0 <= i < |allEvents| ==>
        allEvents[i].timestamp <= clock && |allEvents[i].groups| == |preprocessors| && |allEvents[i].row| == |columns|
      ensures forall name :: name in modelInputIds ==> modelInputIds[name] < |preprocessors|
      ensures |RowCells(r)| == |columns|
    {
      WidthOfRow(r);
      hide Sound;
    }

    lemma StillValid(before: seq<TableEvent>, clockBefore: int, e: TableEvent)
      requires Indexed(schema, columns, columnToId) && clockBefore <= clock
      requires Sorted(before)
      requires forall i :: 0 <= i < |before| ==>
        before[i].timestamp <= clockBefore && |before[i].groups| == |preprocessors| && |before[i].row| == |columns|
      requires forall i :: 0 <= i < |before| ==> before[i].timestamp <= e.timestamp
      requires e.timestamp <= clock && |e.groups| == |preprocessors| && |e.row| == |columns|
      requires allEvents == before + [e]
      requires forall p :: 0 <= p < |preprocessors| ==>
        Sound(preprocessors[p], p, |columns|, allEvents, |allEvents|, clock)
      requires forall name :: name in modelInputIds ==> modelInputIds[name] < |preprocessors|
      ensures Valid()
    {
      hide Sound, Indexed;
    }

    /** A row becomes the last event, and every preprocessor takes it in. */
    method AddRow(r: TableRow, now: int)
      requires Valid() && clock <= now && columnToId.Keys <= r.row.Keys
      requires r.timestamp <= now && (preprocessors != [] ==> r.timestamp == now)
      requires forall i :: 0 <= i < |allEvents| ==> allEvents[i].timestamp <= r.timestamp
      modifies this`allEvents, this`clock, preprocessors
      modifies WindowsIn(preprocessors), ColumnsIn(preprocessors), SlotsIn(preprocessors)
      ensures Valid()
      ensures var n, taken := |old(allEvents)|, ready && r.row.Keys <= columnToId.Keys;
        if !taken then allEvents == old(allEvents) && clock == old(clock)
        else
          && |allEvents| == n + 1 && allEvents[..n] == old(allEvents) && clock == now
          && allEvents[n] == EventOf(r).(groups := allEvents[n].groups)
          && forall p :: 0 <= p < |preprocessors| ==>
              preprocessors[p].Coverages()
                == preprocessors[p].NextAll(old(CoveragesIn(preprocessors))[p], EventOf(r), n, now)
      ensures forall c :: c in ColumnsIn(preprocessors) && c !in old(ColumnsIn(preprocessors)) ==> fresh(c)
      ensures forall s :: s in SlotsIn(preprocessors) && s !in old(SlotsIn(preprocessors)) ==> fresh(s)
    {
      hide *;
      if !ready {
        return;
      }
      AllPartsAllocated(preprocessors);
      var cells, known := CellsOf(r);
      if !known {
        return;
      }
      AppendEvent(r, cells, now);
    }

    // ---------- create_preprocessor ----------

    /** The columns exist, and a text column is only counted. */
    predicate Acceptable(c: PreProcessorInfo)
      requires Indexed(schema, columns, columnToId) && |c.info.operators| == |c.columnsToAggregate|
    {
      && (forall k :: 0 <= k < |c.groupColumns| ==> c.groupColumns[k] in columnToId)
      && (forall k :: 0 <= k < |c.columnsToAggregate| ==> c.columnsToAggregate[k] in columnToId)
      && (forall k :: 0 <= k < |c.columnsToAggregate| ==> Aggregable(c, k))
    }

    function Ids(names: seq<string>): (ids: seq<nat>)
      requires forall k :: 0 <= k < |names| ==> names[k] in columnToId
      ensures |ids| == |names|
    {
      seq(|names|, k requires 0 <= k < |names| => columnToId[names[k]])
    }

    /** The column may be aggregated as the `k`-th. */
    predicate Aggregable(c: PreProcessorInfo, k: nat)
      requires k < |c.info.operators| == |c.columnsToAggregate| && columnToId.Keys == schema.Keys
    {
      && c.columnsToAggregate[k] in columnToId
      && (c.info.operators[k] == "Count" || !IsText(schema[c.columnsToAggregate[k]]))
    }

    method Resolve(c: PreProcessorInfo) returns (groupIds: seq<nat>, columnIds: seq<nat>, ok: bool)
      requires Indexed(schema, columns, columnToId) && |c.info.operators| == |c.columnsToAggregate|
      ensures ok <==> Acceptable(c)
      ensures ok ==> groupIds == Ids(c.groupColumns) && columnIds == Ids(c.columnsToAggregate)
      ensures ok ==>
        PositionsOf(groupIds, c.groupColumns, columns) && PositionsOf(columnIds, c.columnsToAggregate, columns)
    {
      hide Indexed, Aggregable, SortedKeys, PositionsOf;
      KeysOfSchema();
      groupIds, columnIds, ok := [], [], false;
      while |groupIds| < |c.groupColumns|
        invariant |groupIds| <= |c.groupColumns|
        invariant forall k :: 0 <= k < |groupIds| ==>
          c.groupColumns[k] in columnToId && groupIds[k] == columnToId[c.groupColumns[k]]
      {
        var name := c.groupColumns[|groupIds|];
        if name !in columnToId {
          return;
        }
        groupIds := groupIds + [columnToId[name]];
      }
      assert groupIds == Ids(c.groupColumns);
      columnIds, ok := ResolveAggregated(c);
      IdsArePositions(c.groupColumns);
      if ok {
        IdsArePositions(c.columnsToAggregate);
      }
    }

    lemma IdsArePositions(names: seq<string>)
      requires Indexed(schema, columns, columnToId)
      requires forall k :: 0 <= k < |names| ==> names[k] in columnToId
      ensures PositionsOf(Ids(names), names, columns)
    {
      KeysOfSchema();
      hide Indexed;
    }

    lemma AcceptableSuits(c: PreProcessorInfo)
      requires Indexed(schema, columns, columnToId) && |c.info.operators| == |c.columnsToAggregate|
      ensures Acceptable(c) <==> Suits(schema, c)
    {
      assert columnToId.Keys == schema.Keys;
      hide Indexed, IsText, DeclaredText;
      forall dataType ensures IsText(dataType) <==> DeclaredText(dataType) {
        IsTextExact(dataType);
      }
      assert forall k :: 0 <= k < |c.columnsToAggregate| ==> (Aggregable(c, k) <==>
        && c.columnsToAggregate[k] in schema
        && (c.info.operators[k] == "Count" || !DeclaredText(schema[c.columnsToAggregate[k]])));
      hide Aggregable;
    }

    method ResolveAggregated(c: PreProcessorInfo) returns (columnIds: seq<nat>, ok: bool)
      requires columnToId.Keys == schema.Keys && |c.info.operators| == |c.columnsToAggregate|
      ensures ok ==> forall k :: 0 <= k < |c.columnsToAggregate| ==> Aggregable(c, k)
      ensures !ok ==> exists k :: 0 <= k < |c.columnsToAggregate| && !Aggregable(c, k)
      ensures ok ==> (forall k :: 0 <= k < |c.columnsToAggregate| ==> c.columnsToAggregate[k] in columnToId)
      ensures ok ==> columnIds == Ids(c.columnsToAggregate)
    {
      hide IsText;
      columnIds := [];
      while |columnIds| < |c.columnsToAggregate|
        invariant |columnIds| <= |c.columnsToAggregate|
        invariant forall k :: 0 <= k < |columnIds| ==>
          Aggregable(c, k) && columnIds[k] == columnToId[c.columnsToAggregate[k]]
      {
        var name, operator := c.columnsToAggregate[|columnIds|], c.info.operators[|columnIds|];
        if name !in columnToId || (operator != "Count" && IsText(schema[name])) {
          assert !Aggregable(c, |columnIds|);
          return columnIds, false;
        }
        columnIds := columnIds + [columnToId[name]];
      }
      return columnIds, true;
    }

    lemma KeysOfSchema()
      requires Indexed(schema, columns, columnToId)
      ensures columnToId.Keys == schema.Keys && |columns| == |schema|
      ensures forall name :: name in columnToId ==> columnToId[name] < |columns| && columns[columnToId[name]] == name
      ensures forall i :: 0 <= i < |columns| ==> columns[i] in columnToId
      ensures forall i, j :: 0 <= i < j < |columns| ==> columns[i] != columns[j]
    {
      SortedKeysDistinct(schema.Keys);
      forall name | name in columnToId ensures columnToId[name] < |columns| && columns[columnToId[name]] == name {
        assert name in columns;
      }
    }

    /** The new preprocessor, given the next event's key, takes the event in. */
    method ReplayEvent(p: PreProcessor, i: nat, now: int, ghost before: seq<TableEvent>)
      requires KeyedUpTo(allEvents, before, |columns|, p.id, i) && i < |before| && TimedBy(before, now)
      requires Sound(p, p.id, |columns|, allEvents, i, now) && p.FedAt(allEvents, i, now)
      modifies this`allEvents, p, p.windows, p.AllColumns(), p.AllSlots()
      ensures KeyedUpTo(allEvents, before, |columns|, p.id, i + 1)
      ensures Sound(p, p.id, |columns|, allEvents, i + 1, now) && p.FedAt(allEvents, i + 1, now)
      ensures forall c :: c in p.AllColumns() && c !in old(p.AllColumns()) ==> fresh(c)
      ensures forall s :: s in p.AllSlots() && s !in old(p.AllSlots()) ==> fresh(s)
    {
      hide *;
      PartsAllocated(p);
      EventToReplay(p, allEvents, before, |columns|, i, now);
      var key := p.GetGroupFromEvent(allEvents[i]);
      KeyGiven(p, allEvents, before, |columns|, i, key, now);
      allEvents := allEvents[i := allEvents[i].(groups := allEvents[i].groups + [key])];
      ghost var covered := p.Coverages();
      p.AddEvent(allEvents, i, now);
      EventReplayed(p, allEvents, |columns|, i, now, covered);
    }

    /** The new preprocessor is told of all events. */
    method Replay(p: PreProcessor, now: int)
      requires TimedBy(allEvents, now)
      requires forall i :: 0 <= i < |allEvents| ==> |allEvents[i].groups| == p.id && |allEvents[i].row| == |columns|
      requires Sound(p, p.id, |columns|, allEvents, 0, now) && p.FedAt(allEvents, 0, now)
      requires p.AllColumns() == {} && p.AllSlots() == {}
      modifies this`allEvents, p, p.windows
      ensures KeyedUpTo(allEvents, old(allEvents), |columns|, p.id, |allEvents|)
      ensures Sound(p, p.id, |columns|, allEvents, |allEvents|, now) && p.FedAt(allEvents, |allEvents|, now)
      ensures forall c :: c in p.AllColumns() ==> fresh(c)
      ensures forall s :: s in p.AllSlots() ==> fresh(s)
    {
      hide *;
      ghost var before := allEvents;
      KeyedToBegin(before, |columns|, p.id);
      var i := 0;
      while i < |allEvents|
        invariant i <= |allEvents| == |before|
        invariant KeyedUpTo(allEvents, before, |columns|, p.id, i)
        invariant Sound(p, p.id, |columns|, allEvents, i, now) && p.FedAt(allEvents, i, now)
        invariant forall c :: c in p.AllColumns() ==> fresh(c)
        invariant forall s :: s in p.AllSlots() ==> fresh(s)
      {
        ReplayEvent(p, i, now, before);
        KeyedLength(allEvents, before, |columns|, p.id, i + 1);
        i := i + 1;
      }
    }

    /** A preprocessor for the named model input, unless a column is missing or not to be aggregated. */
    method CreatePreprocessor(name: string, c: PreProcessorInfo, now: int) returns (ok: bool)
      requires Valid() && |c.info.operators| == |c.info.defaults| == |c.columnsToAggregate| && clock <= now
      modifies this`allEvents, this`preprocessors, this`modelInputIds, this`clock
      ensures Valid() && (ok <==> Acceptable(c)) && (ok <==> Suits(schema, c))
      ensures !ok ==> unchanged(this)
      ensures ok ==> clock == now && modelInputIds == old(modelInputIds)[name := |old(preprocessors)|]
      ensures ok ==>
        |preprocessors| == |old(preprocessors)| + 1 && preprocessors[..|old(preprocessors)|] == old(preprocessors)
      ensures ok ==> OneMoreKey(allEvents, old(allEvents), |old(preprocessors)|)
      ensures ok ==> var p := preprocessors[|old(preprocessors)|];
        && fresh(p) && (forall w :: 0 <= w < |p.windows| ==> fresh(p.windows[w]))
        && (forall c :: c in p.AllColumns() ==> fresh(c)) && (forall s :: s in p.AllSlots() ==> fresh(s))
        && p.FedAt(allEvents, |allEvents|, now)
        && p.info == c.info && p.groupIds == Ids(c.groupColumns) && p.columnIds == Ids(c.columnsToAggregate)
        && PositionsOf(p.groupIds, c.groupColumns, columns) && PositionsOf(p.columnIds, c.columnsToAggregate, columns)
    {
      hide *;
      Kept();
      AcceptableSuits(c);
      AllPartsAllocated(preprocessors);
      var groupIds, columnIds;
      groupIds, columnIds, ok := Resolve(c);
      if !ok {
        return;
      }
      ghost var before := allEvents;
      IdsFit(c);
      var p := new PreProcessor(|preprocessors|, c.info, groupIds, columnIds, |columns|, now);
      NewIsSound(p, allEvents, |columns|, now);
      LaterTimed(allEvents, clock, now);
      Replay(p, now);
      KeyedLength(allEvents, before, |columns|, p.id, |allEvents|);
      Join(p, name, before, now);
    }

    /** The new preprocessor, fed, is entered beside the others. */
    method Join(p: PreProcessor, name: string, ghost before: seq<TableEvent>, ghost now: int)
      requires Indexed(schema, columns, columnToId) && p.id == |preprocessors| && clock <= now
      requires forall name :: name in modelInputIds ==> modelInputIds[name] < |preprocessors|
      requires TimedBy(before, now) && AllSound(preprocessors, |columns|, before, clock)
      requires KeyedUpTo(allEvents, before, |columns|, p.id, |before|)
      requires Sound(p, p.id, |columns|, allEvents, |allEvents|, now) && p.FedAt(allEvents, |allEvents|, now)
      modifies this`preprocessors, this`modelInputIds, this`clock
      ensures Valid() && clock == now && modelInputIds == old(modelInputIds)[name := p.id]
      ensures preprocessors == old(preprocessors) + [p]
      ensures OneMoreKey(allEvents, before, |old(preprocessors)|) && p.FedAt(allEvents, |allEvents|, now)
      ensures p.AllColumns() == old(p.AllColumns()) && p.AllSlots() == old(p.AllSlots())
    {
      hide *;
      AllPartsAllocated(preprocessors);
      preprocessors, modelInputIds, clock := preprocessors + [p], modelInputIds[name := p.id], now;
      assert forall k :: 0 <= k < |p.windows| ==> unchanged(p.windows[k]);
      assert forall c :: c in old(p.AllColumns()) ==> unchanged(c);
      assert forall s :: s in old(p.AllSlots()) ==> unchanged(s);
      Joined(before, old(preprocessors), p, old(clock), now);
      Reassembled();
    }

    lemma IdsFit(c: PreProcessorInfo)
      requires |c.info.operators| == |c.info.defaults| == |c.columnsToAggregate|
      requires Indexed(schema, columns, columnToId) && Acceptable(c)
      ensures WellFormed(c.info, Ids(c.columnsToAggregate), Ids(c.groupColumns), |columns|)
    {
      hide Indexed, Aggregable;
      KeysOfSchema();
    }

    lemma Kept()
      requires Valid()
      ensures Indexed(schema, columns, columnToId) && TimedBy(allEvents, clock)
      ensures AllSound(preprocessors, |columns|, allEvents, clock)
      ensures forall i :: 0 <= i < |allEvents| ==>
        |allEvents[i].groups| == |preprocessors| && |allEvents[i].row| == |columns|
      ensures forall name :: name in modelInputIds ==> modelInputIds[name] < |preprocessors|
    {
    }

    /** The new preprocessor stands beside the old ones. */
    lemma Joined(before: seq<TableEvent>, ps: seq<PreProcessor>, p: PreProcessor, clockBefore: int, now: int)
      requires TimedBy(before, now) && AllSound(ps, |columns|, before, clockBefore) && clockBefore <= now
      requires p.id == |ps| && KeyedUpTo(allEvents, before, |columns|, p.id, |before|)
      requires Sound(p, p.id, |columns|, allEvents, |allEvents|, now)
      ensures AllSound(ps + [p], |columns|, allEvents, now) && TimedBy(allEvents, now)
      ensures forall i :: 0 <= i < |allEvents| ==> |allEvents[i].groups| == |ps| + 1 && |allEvents[i].row| == |columns|
      ensures OneMoreKey(allEvents, before, |ps|)
    {
      hide Sound;
      forall q | 0 <= q < |ps| ensures Sound(ps[q], q, |columns|, allEvents, |allEvents|, now) {
        SoundLater(ps[q], q, |columns|, before, |before|, clockBefore, now);
        SoundAlike(ps[q], q, |columns|, before, allEvents, |allEvents|, now);
      }
    }

    lemma Reassembled()
      requires Indexed(schema, columns, columnToId) && TimedBy(allEvents, clock)
      requires AllSound(preprocessors, |columns|, allEvents, clock)
      requires forall i :: 0 <= i < |allEvents| ==>
        |allEvents[i].groups| == |preprocessors| && |allEvents[i].row| == |columns|
      requires forall name :: name in modelInputIds ==> modelInputIds[name] < |preprocessors|
      ensures Valid()
    {
      hide Sound, Indexed, AllSound;
    }

    // ---------- get_model_input ----------

    /** Row and marks hold what the entity gives. */
    ghost predicate FilledFrom(row: seq<string>, filled: seq<bool>, entity: seq<(string, string)>) {
      && |row| == |filled| == |columns|
      && (forall i :: 0 <= i < |columns| ==> filled[i] == Given(entity, columns[i]).Some?)
      && (forall i :: 0 <= i < |columns| && filled[i] ==> row[i] == Given(entity, columns[i]).value)
    }

    lemma FilledNext(row: seq<string>, filled: seq<bool>, entity: seq<(string, string)>, j: nat)
      requires Indexed(schema, columns, columnToId) && j < |entity| && FilledFrom(row, filled, entity[..j])
      ensures entity[j].0 !in columnToId ==> FilledFrom(row, filled, entity[..j + 1])
      ensures entity[j].0 in columnToId ==>
        && columnToId[entity[j].0] < |columns|
        && FilledFrom(row[columnToId[entity[j].0] := entity[j].1], filled[columnToId[entity[j].0] := true],
          entity[..j + 1])
    {
      hide Given, Indexed;
      KeysOfSchema();
      GivenNext(entity, j);
      var (key, value) := entity[j];
      if key in columnToId {
        var c := columnToId[key];
        forall i | 0 <= i < |columns| ensures columns[i] == key <==> i == c {
        }
      }
    }

    method NoCells() returns (row: seq<string>, filled: seq<bool>)
      ensures |row| == |filled| == |columns| && forall i :: 0 <= i < |columns| ==> !filled[i]
    {
      row := seq(|columns|, i => "");
      filled := seq(|columns|, i => false);
    }

    lemma NothingFilled(row: seq<string>, filled: seq<bool>, entity: seq<(string, string)>)
      requires |row| == |filled| == |columns| && forall i :: 0 <= i < |columns| ==> !filled[i]
      ensures FilledFrom(row, filled, entity[..0])
    {
    }

    lemma FilledLength(row: seq<string>, filled: seq<bool>, entity: seq<(string, string)>)
      requires FilledFrom(row, filled, entity)
      ensures |row| == |filled| == |columns|
    {
    }

    /** The cells of an entity by column position; keys that are no column are passed over. */
    method RowOf(entity: seq<(string, string)>) returns (row: seq<string>, filled: seq<bool>)
      requires Indexed(schema, columns, columnToId)
      ensures FilledFrom(row, filled, entity)
    {
      hide *;
      row, filled := NoCells();
      NothingFilled(row, filled, entity);
      var j := 0;
      while j < |entity|
        invariant j <= |entity| && FilledFrom(row, filled, entity[..j])
      {
        FilledNext(row, filled, entity, j);
        FilledLength(row, filled, entity[..j]);
        var (key, value) := entity[j];
        if key in columnToId {
          filled := filled[columnToId[key] := true];
          row := row[columnToId[key] := value];
        }
        j := j + 1;
      }
      assert entity[..j] == entity;
    }

    /** An entity's key: that of its cells in the group columns, or "" when one is not given or there are none. */
    function KeyOfEntity(groupIds: seq<nat>, entity: seq<(string, string)>): string
      requires forall k :: 0 <= k < |groupIds| ==> groupIds[k] < |columns|
    {
      if forall k :: 0 <= k < |groupIds| ==> Given(entity, columns[groupIds[k]]).Some? then
        KeyOf(CellsGiven(groupIds, entity))
      else ""
    }

    /** What an entity gives for the group columns; "" for a column it does not give. */
    function CellsGiven(groupIds: seq<nat>, entity: seq<(string, string)>): (cells: seq<string>)
      requires forall k :: 0 <= k < |groupIds| ==> groupIds[k] < |columns|
      ensures |cells| == |groupIds|
    {
      seq(|groupIds|, k requires 0 <= k < |groupIds| =>
        match Given(entity, columns[groupIds[k]]) case Some(cell) => cell case None => "")
    }

    method KeyFor(p: PreProcessor, entity: seq<(string, string)>) returns (group: string)
      requires Indexed(schema, columns, columnToId) && forall k :: 0 <= k < |p.groupIds| ==> p.groupIds[k] < |columns|
      ensures group == KeyOfEntity(p.groupIds, entity)
    {
      hide KeyOf, Indexed, Given;
      var row, filled := RowOf(entity);
      group := p.GetGroupFromRow(row, filled);
      if forall k :: 0 <= k < |p.groupIds| ==> filled[p.groupIds[k]] {
        assert seq(|p.groupIds|, k requires 0 <= k < |p.groupIds| => row[p.groupIds[k]])
            == CellsGiven(p.groupIds, entity);
      }
    }

    function KeysOfEntities(groupIds: seq<nat>, entities: seq<seq<(string, string)>>): (keys: seq<string>)
      requires forall k :: 0 <= k < |groupIds| ==> groupIds[k] < |columns|
      ensures |keys| == |entities|
    {
      seq(|entities|, i requires 0 <= i < |entities| => KeyOfEntity(groupIds, entities[i]))
    }

    method KeysFor(p: PreProcessor, entities: seq<seq<(string, string)>>) returns (groups: seq<string>, ok: bool)
      requires Indexed(schema, columns, columnToId) && forall k :: 0 <= k < |p.groupIds| ==> p.groupIds[k] < |columns|
      ensures ok <==> "" !in KeysOfEntities(p.groupIds, entities)
      ensures ok ==> |groups| == |entities| && groups == KeysOfEntities(p.groupIds, entities)
    {
      hide Indexed, KeyOfEntity;
      groups := [];
      while |groups| < |entities|
        invariant |groups| <= |entities|
        invariant "" !in groups && groups == KeysOfEntities(p.groupIds, entities)[..|groups|]
      {
        var group := KeyFor(p, entities[|groups|]);
        assert group == KeysOfEntities(p.groupIds, entities)[|groups|];
        if group == "" {
          return groups, false;
        }
        groups := groups + [group];
      }
      return groups, true;
    }

    lemma SoundAt(p: nat)
      requires Valid() && p < |preprocessors|
      ensures Sound(preprocessors[p], p, |columns|, allEvents, |allEvents|, clock)
      ensures Indexed(schema, columns, columnToId) && Sorted(allEvents)
      ensures preprocessors[p].Valid(allEvents, |allEvents|) && preprocessors[p].ClocksBefore(clock)
      ensures forall k :: 0 <= k < |preprocessors[p].groupIds| ==> preprocessors[p].groupIds[k] < |columns|
    {
    }

    /** One preprocessor hands out its vectors; the others are not concerned. */
    method Serve(p: nat, groups: seq<string>, now: int) returns (r: Option<seq<real>>)
      requires p < |preprocessors| && AllSound(preprocessors, |columns|, allEvents, clock) && Sorted(allEvents)
      requires clock <= now
      modifies preprocessors[p].windows, preprocessors[p].AllColumns(), preprocessors[p].AllSlots()
      ensures AllSound(preprocessors, |columns|, allEvents, now)
      ensures preprocessors[p].Arranged() && (r.None? <==> preprocessors[p].useless)
      ensures r.Some? ==> preprocessors[p].AllDescribed(r.value, |groups|, groups, allEvents)
      ensures old(preprocessors[p].FedAt(allEvents, |allEvents|, now)) ==>
        preprocessors[p].FedAt(allEvents, |allEvents|, now)
      ensures r.Some? ==> forall w :: 0 <= w < |preprocessors[p].windows| ==>
        Refreshed(allEvents, now, preprocessors[p].windows[w], old(StateOf(preprocessors[p].windows[w])))
      ensures forall q :: 0 <= q < |preprocessors| && (q != p || r.None?) ==>
        preprocessors[q].Coverages() == old(CoveragesIn(preprocessors)[q])
      ensures ColumnsIn(preprocessors) == old(ColumnsIn(preprocessors))
      ensures SlotsIn(preprocessors) == old(SlotsIn(preprocessors))
    {
      hide *;
      forall q | 0 <= q < |preprocessors| && q != p
        ensures preprocessors[p] != preprocessors[q]
        ensures (forall w :: w in preprocessors[p].windows ==> w !in preprocessors[q].windows)
        ensures preprocessors[p].AllColumns() !! preprocessors[q].AllColumns()
        ensures preprocessors[p].AllSlots() !! preprocessors[q].AllSlots()
        ensures Sound(preprocessors[q], q, |columns|, allEvents, |allEvents|, clock)
      {
        SoundIn(preprocessors, |columns|, allEvents, clock, p);
        SoundIn(preprocessors, |columns|, allEvents, clock, q);
        ShareNothing(preprocessors[p], preprocessors[q], p, q, |columns|, allEvents, |allEvents|, |allEvents|, clock);
      }
      forall q | 0 <= q < |preprocessors| {
        PartsAllocated(preprocessors[q]);
      }
      SoundIn(preprocessors, |columns|, allEvents, clock, p);
      r := ServeOne(preprocessors[p], p, groups, now);
      forall q | 0 <= q < |preprocessors| && q != p
        ensures Sound(preprocessors[q], q, |columns|, allEvents, |allEvents|, now)
        ensures preprocessors[q].AllColumns() == old(preprocessors[q].AllColumns())
        ensures preprocessors[q].AllSlots() == old(preprocessors[q].AllSlots())
        ensures preprocessors[q].Coverages() == old(preprocessors[q].Coverages())
      {
        assert forall w :: w in preprocessors[q].windows ==> unchanged(w);
        forall k | 0 <= k < |preprocessors[q].windows| ensures unchanged(preprocessors[q].windows[k]) {
          assert preprocessors[q].windows[k] in preprocessors[q].windows;
        }
        assert forall c :: c in old(preprocessors[q].AllColumns()) ==> unchanged(c);
        assert forall s :: s in old(preprocessors[q].AllSlots()) ==> unchanged(s);
        SoundLater(preprocessors[q], q, |columns|, allEvents, |allEvents|, clock, now);
      }
      AllAreSound(preprocessors, |columns|, allEvents, now);
      SameParts(preprocessors);
    }

    method ServeOne(p: PreProcessor, id: nat, groups: seq<string>, now: int) returns (r: Option<seq<real>>)
      requires Sound(p, id, |columns|, allEvents, |allEvents|, clock) && Sorted(allEvents) && clock <= now
      modifies p.windows, p.AllColumns(), p.AllSlots()
      ensures Sound(p, id, |columns|, allEvents, |allEvents|, now)
      ensures p.Arranged() && (r.None? <==> p.useless)
      ensures r.Some? ==> p.AllDescribed(r.value, |groups|, groups, allEvents)
      ensures old(p.FedAt(allEvents, |allEvents|, now)) ==> p.FedAt(allEvents, |allEvents|, now)
      ensures r.Some? ==>
        forall w :: 0 <= w < |p.windows| ==> Refreshed(allEvents, now, p.windows[w], old(StateOf(p.windows[w])))
      ensures r.None? ==> p.Coverages() == old(p.Coverages())
      ensures p.AllColumns() == old(p.AllColumns()) && p.AllSlots() == old(p.AllSlots())
    {
      assert p.Arranged();
      hide PreProcessor.Valid, PreProcessor.AllDescribed;
      r := p.GetModelInput(groups, allEvents, now);
    }

    /** The preprocessor for a model input. */
    ghost function ProcessorFor(name: string): (p: PreProcessor)
      reads this, preprocessors, WindowsIn(preprocessors), ColumnsIn(preprocessors), SlotsIn(preprocessors)
      requires Valid() && name in modelInputIds
      ensures forall k :: 0 <= k < |p.groupIds| ==> p.groupIds[k] < |columns|
    {
      SoundAt(modelInputIds[name]);
      preprocessors[modelInputIds[name]]
    }

    /** The vectors of the given entities, one after the other. */
    method GetModelInput(name: string, entities: seq<seq<(string, string)>>, now: int) returns (r: Option<seq<real>>)
      requires Valid() && clock <= now
      modifies this`clock, WindowsIn(preprocessors), ColumnsIn(preprocessors), SlotsIn(preprocessors)
      ensures Valid()
      ensures r.Some? <==>
        && name in modelInputIds
        && "" !in KeysOfEntities(ProcessorFor(name).groupIds, entities)
        && !ProcessorFor(name).useless
      ensures r.Some? ==> var p := ProcessorFor(name);
        && p.Arranged() && p.AllDescribed(r.value, |entities|, KeysOfEntities(p.groupIds, entities), allEvents)
        && (forall w :: 0 <= w < |p.windows| ==> Refreshed(allEvents, now, p.windows[w], old(StateOf(p.windows[w]))))
      ensures old(clock) <= clock <= now
      ensures forall q :: 0 <= q < |preprocessors| && (r.Some? ==> q != modelInputIds[name]) ==>
        preprocessors[q].Coverages() == old(CoveragesIn(preprocessors)[q])
      ensures ColumnsIn(preprocessors) == old(ColumnsIn(preprocessors))
      ensures SlotsIn(preprocessors) == old(SlotsIn(preprocessors))
    {
      hide *;
      if name !in modelInputIds {
        return None;
      }
      Kept();
      var index := modelInputIds[name];
      SoundAt(index);
      PartsIn(preprocessors, index);
      AllPartsAllocated(preprocessors);
      ProcessorIs(name);
      var groups, ok := KeysFor(preprocessors[index], entities);
      if !ok {
        ProcessorIs(name);
        return None;
      }
      r := ServeNow(index, groups, now);
      ProcessorIs(name);
    }

    method ServeNow(index: nat, groups: seq<string>, now: int) returns (r: Option<seq<real>>)
      requires Valid() && index < |preprocessors| && clock <= now
      modifies this`clock, preprocessors[index].windows
      modifies preprocessors[index].AllColumns(), preprocessors[index].AllSlots()
      ensures Valid() && clock == now
      ensures preprocessors[index].Arranged() && (r.None? <==> preprocessors[index].useless)
      ensures r.Some? ==> preprocessors[index].AllDescribed(r.value, |groups|, groups, allEvents)
      ensures r.Some? ==> forall w :: 0 <= w < |preprocessors[index].windows| ==>
        Refreshed(allEvents, now, preprocessors[index].windows[w], old(StateOf(preprocessors[index].windows[w])))
      ensures forall q :: 0 <= q < |preprocessors| && (q != index || r.None?) ==>
        preprocessors[q].Coverages() == old(CoveragesIn(preprocessors)[q])
      ensures ColumnsIn(preprocessors) == old(ColumnsIn(preprocessors))
      ensures SlotsIn(preprocessors) == old(SlotsIn(preprocessors))
    {
      hide *;
      Kept();
      AllPartsAllocated(preprocessors);
      AllSoundLater(preprocessors, |columns|, allEvents, clock, now);
      LaterTimed(allEvents, clock, now);
      clock := now;
      r := Serve(index, groups, now);
      Reassembled();
    }

    lemma ProcessorIs(name: string)
      requires Valid() && name in modelInputIds
      ensures modelInputIds[name] < |preprocessors| && ProcessorFor(name) == preprocessors[modelInputIds[name]]
    {
      Kept();
      hide Valid;
    }
  }
}
