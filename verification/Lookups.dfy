/** What a lookup returns, in terms of the rows alone. */
module Lookups {
  import opened Aggregates
  import opened RollingWindows
  import opened GroupKeys
  import opened PreProcessors
  import opened TableStores

  // ---------- Which events a block is about ----------

  /** The values of a column in those of the events `low..high` whose group columns hold the given cells. */
  function MatchingValues(groupIds: seq<nat>, cells: seq<string>, column: nat, log: seq<TableEvent>, low: nat,
      high: nat): seq<real>
    requires high <= |log|
    requires forall i, k :: low <= i < high && 0 <= k < |groupIds| ==> groupIds[k] < |log[i].row|
    requires forall i :: low <= i < high ==> column < |log[i].row|
    decreases high
  {
    if high <= low then []
    else
      var e := log[high - 1];
      MatchingValues(groupIds, cells, column, log, low, high - 1)
        + if GroupCells(groupIds, e.row) == cells then [e.row[column].number] else []
  }

  /** Without plus signs in the group columns a key stands for its cells. */
  lemma {:induction false} KeyStandsForCells(id: nat, groupIds: seq<nat>, cells: seq<string>, column: nat,
      log: seq<TableEvent>, low: nat, high: nat)
    requires high <= |log| && |cells| == |groupIds| && PlusFree(cells)
    requires forall i :: low <= i < high ==> KeyedBy(id, groupIds, log[i]) && PlusFree(GroupCells(groupIds, log[i].row))
    requires forall i, k :: low <= i < high && 0 <= k < |groupIds| ==> groupIds[k] < |log[i].row|
    requires forall i :: low <= i < high ==> column < |log[i].row|
    ensures Values(Selector(id, column, KeyOf(cells)), log, low, high)
         == MatchingValues(groupIds, cells, column, log, low, high)
    decreases high
  {
    hide Picked, KeyOf, GroupCells, PlusFree;
    if low < high {
      var e := log[high - 1];
      KeyStandsForCells(id, groupIds, cells, column, log, low, high - 1);
      OneEvent(id, groupIds, e, cells, column);
    }
  }

  lemma OneEvent(id: nat, groupIds: seq<nat>, e: TableEvent, cells: seq<string>, column: nat)
    requires KeyedBy(id, groupIds, e) && PlusFree(GroupCells(groupIds, e.row))
    requires |cells| == |groupIds| && PlusFree(cells) && column < |e.row|
    ensures Picked(Selector(id, column, KeyOf(cells)), e)
         == if GroupCells(groupIds, e.row) == cells then [e.row[column].number] else []
  {
    KeysOfPlusFree(GroupCells(groupIds, e.row), cells);
    hide KeyOf, GroupCells, PlusFree;
  }

  /** From its key, each element of a block is the aggregate over the matching events, or the default. */
  lemma BlockOfMatching(p: PreProcessor, cells: seq<string>, log: seq<TableEvent>, low: nat, k: nat)
    requires p.Arranged() && k < |p.columnIds| && low <= |log|
    requires |cells| == |p.groupIds| && PlusFree(cells)
    requires forall i :: 0 <= i < |log| ==> p.Keyed(log[i]) && PlusFree(GroupCells(p.groupIds, log[i].row))
    requires ParseOperator(p.info.operators[k]).Known?
    ensures forall i, j :: low <= i < |log| && 0 <= j < |p.groupIds| ==> p.groupIds[j] < |log[i].row|
    ensures forall i :: low <= i < |log| ==> p.columnIds[k] < |log[i].row|
    ensures Row(p.id, p.columnIds, p.info, KeyOf(cells), log, low)[k]
         == Aggregate(ParseOperator(p.info.operators[k]).op, p.info.integral,
              MatchingValues(p.groupIds, cells, p.columnIds[k], log, low, |log|), p.info.defaults[k])
  {
    assert forall i :: 0 <= i < |log| ==>
      p.Keyed(log[i]) && |log[i].row| == p.width && KeyedBy(p.id, p.groupIds, log[i]);
    KeyStandsForCells(p.id, p.groupIds, cells, p.columnIds[k], log, low, |log|);
    hide KeyOf, GroupCells, PlusFree, ParseOperator, Aggregate, Values, MatchingValues, Block;
  }

  // ---------- When the vectors are those of the window ----------

  /** An updated window covers exactly its unexpired events unless it has expired only in part. */
  lemma CoversExactlyUnlessPartly(log: seq<TableEvent>, now: int, w: TimeBasedRollingWindow, before: WindowState)
    requires Sorted(log) && Refreshed(log, now, w, before)
    requires before.covered <= FirstFresh(log, w.windowTime, now, |log|)
    ensures w.covered <= FirstFresh(log, w.windowTime, now, |log|)
    ensures w.covered == FirstFresh(log, w.windowTime, now, |log|) <==>
      !PartlyExpired(log, w.windowTime, now, before.covered)
  {
    var f := FirstFresh(log, w.windowTime, now, |log|);
    if f < |log| {
      FreshFromHere(log, w.windowTime, now, f);
    }
  }

  /** Then a group that still has an expired event counted gets a count that is too high. */
  lemma CountsExpired(p: PreProcessor, log: seq<TableEvent>, low: nat, f: nat, k: nat)
    requires p.Arranged() && k < |p.columnIds| && p.info.operators[k] == "Count"
    requires low < f <= |log| && p.Keyed(log[low]) && p.info.defaults[k] == 0.0
    ensures Row(p.id, p.columnIds, p.info, log[low].groups[p.id], log, low)[k]
          > Row(p.id, p.columnIds, p.info, log[low].groups[p.id], log, f)[k]
  {
    var s := Selector(p.id, p.columnIds[k], log[low].groups[p.id]);
    ValuesSplit(s, log, low, f, |log|);
    ValuesFront(s, log, low, f);
    hide Values, KeyOf, GroupCells, Block;
  }

  /** So counts that start at 0 show whether the columns cover exactly the events from `f` on. */
  lemma CountsVisible(p: PreProcessor, log: seq<TableEvent>, low: nat, f: nat, k: nat)
    requires p.Arranged() && k < |p.columnIds| && p.info.operators[k] == "Count" && p.info.defaults[k] == 0.0
    requires low <= f <= |log| && forall i :: 0 <= i < |log| ==> p.Keyed(log[i])
    ensures (forall g :: Row(p.id, p.columnIds, p.info, g, log, low)[k] == Row(p.id, p.columnIds, p.info, g, log, f)[k])
        <==> low == f
  {
    hide Row, Block;
    if low < f {
      CountsExpired(p, log, low, f, k);
    }
  }

  /** For instance: a window of 5 seconds, events at times 0 and 10, asked at time 11. */
  lemma PartlyExpiredExample(e: TableEvent, f: TableEvent)
    requires e.timestamp == 0 && f.timestamp == 10
    ensures PartlyExpired([e, f], 5.0, 11, 0) && FirstFresh([e, f], 5.0, 11, 2) == 1
  {
    var log := [e, f];
    assert Expired(log[0], 5.0, 11) && !Expired(log[1], 5.0, 11);
  }

  // ---------- The table ----------

  /** Every event has one key per preprocessor, which that preprocessor computes from the event's row. */
  lemma OneKeyEach(t: TableStore, i: nat, p: nat)
    requires t.Valid() && i < |t.allEvents| && p < |t.preprocessors|
    ensures |t.allEvents[i].groups| == |t.preprocessors| && |t.allEvents[i].row| == |t.columns|
    ensures var q := t.preprocessors[p];
      && (forall k :: 0 <= k < |q.groupIds| ==> q.groupIds[k] < |t.columns|)
      && t.allEvents[i].groups[p] == KeyOf(GroupCells(q.groupIds, t.allEvents[i].row))
  {
    t.SoundAt(p);
    var q := t.preprocessors[p];
    assert q.Keyed(t.allEvents[i]);
    hide KeyOf, GroupCells;
  }

  /** In every state of the table every window still covers all events that have not expired. */
  lemma UnexpiredIsCovered(t: TableStore, p: nat, w: nat, i: nat)
    requires t.Valid() && p < |t.preprocessors| && w < |t.preprocessors[p].windows| && i < |t.allEvents|
    requires !Expired(t.allEvents[i], t.preprocessors[p].windows[w].windowTime, t.clock)
    ensures t.preprocessors[p].windows[w].covered <= i
  {
    t.SoundAt(p);
    hide TableStore.Valid;
    var window := t.preprocessors[p].windows[w];
    assert window.Valid(t.allEvents, |t.allEvents|) && window.clock <= t.clock;
    assert i < window.covered ==> Expired(t.allEvents[i], window.windowTime, window.clock);
  }

  /** A cell's position in its event is the position of its column in the table. */
  lemma PositionsMatch(t: TableStore, r: TableRow, name: string)
    requires t.Valid() && r.row.Keys == t.columnToId.Keys && name in r.row
    ensures t.columnToId[name] < |TableStore.RowCells(r)| && TableStore.RowCells(r)[t.columnToId[name]] == r.row[name]
  {
    t.Kept();
    hide TableStore.Valid, Indexed, TableStore.RowCells;
    t.KeysOfSchema();
    t.WidthOfRow(r);
  }

  /** Fed row by row at one moment, a preprocessor is as if told of the whole log at that moment. */
  lemma RowByRow(p: PreProcessor, before: seq<TableEvent>, log: seq<TableEvent>, e: TableEvent, now: int,
      cs: seq<Coverage>)
    requires |log| == |before| + 1 && AlikeFor(p.id, before, log, |before|) && log[|before|].timestamp == e.timestamp
    requires cs == p.FedAll(before, |before|, now) && p.Coverages() == p.NextAll(cs, e, |before|, now)
    ensures p.FedAt(log, |log|, now)
  {
    var n := |before|;
    forall w | 0 <= w < |p.windows| ensures p.FedAll(log, n, now)[w] == cs[w] {
      FedAlike(before, log, n, p.windows[w].windowTime, now);
    }
    assert p.FedAll(log, n, now) == cs;
    NextByTime(p, cs, e, log[n], n, now);
    p.FedNext(log, n, now, cs);
  }
}
