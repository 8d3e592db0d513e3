/** What holds of a table after any calls, in whatever order they come. */
module TableHistories {
  import opened Aggregates
  import opened RollingWindows
  import opened GroupKeys
  import opened PreProcessors
  import opened TableStores
  import opened TableModels

  // ---------- Which rows are in the table ----------

  /** The rows that all calls bring. */
  function Accepted(t: TableStore, calls: seq<Call>): seq<TableRow> {
    if calls == [] then [] else Accepted(t, calls[..|calls| - 1]) + Brought(t, calls[|calls| - 1])
  }

  /** The row that a call brings, if it fits the table's columns. */
  function Brought(t: TableStore, call: Call): seq<TableRow> {
    if call.AddEvent? && call.row.Keys == t.columnToId.Keys then [TableRow(call.row, call.now)] else []
  }

  lemma RowsAfter(t: TableStore, s: Table, call: Call)
    requires Fit(t, s) && Parsed(call)
    ensures After(t, s, call).0.rows == s.rows + Brought(t, call)
  {
    hide Log, Output, Useless, Indexed, TableStore.Acceptable;
  }

  /** Preprocessors and lookups make no difference to the rows. */
  lemma {:induction false} RowsOfRun(t: TableStore, s: Table, calls: seq<Call>)
    requires Fit(t, s) && forall i :: 0 <= i < |calls| ==> Parsed(calls[i])
    ensures Run(t, s, calls).0.rows == s.rows + Accepted(t, calls)
  {
    hide Fit, After, Brought;
    if calls != [] {
      var n := |calls| - 1;
      RowsOfRun(t, s, calls[..n]);
      RowsAfter(t, Run(t, s, calls[..n]).0, calls[n]);
    }
  }

  // ---------- No event is forgotten too early ----------

  /** What a window covers begins no later than its first event that has not expired. */
  ghost predicate Kept(c: Coverage, log: seq<TableEvent>, windowTime: real, clock: int) {
    && (windowTime < 0.0 ==> c.oldestIndex == -1)
    && if c.oldestIndex == -1 then
         c.covered == |log| && forall i :: 0 <= i < |log| ==> Expired(log[i], windowTime, clock)
       else
         && c.covered <= c.oldestIndex <= |log|
         && forall i :: 0 <= i < c.oldestIndex ==> Expired(log[i], windowTime, clock)
  }

  ghost predicate AllKept(t: TableStore, s: Table, clock: int)
    requires Fit(t, s)
  {
    forall p, w :: 0 <= p < |s.followers| && 0 <= w < |s.followers[p].coverages| ==>
      Kept(s.followers[p].coverages[w], Log(s), s.followers[p].info.windowTimes[w], clock)
  }

  lemma KeptLater(c: Coverage, log: seq<TableEvent>, windowTime: real, clock: int, now: int)
    requires Kept(c, log, windowTime, clock) && clock <= now
    ensures Kept(c, log, windowTime, now)
  {
  }

  /** Only the times of the events matter. */
  lemma KeptAlike(c: Coverage, log: seq<TableEvent>, other: seq<TableEvent>, windowTime: real, clock: int)
    requires Kept(c, log, windowTime, clock)
    requires |log| == |other| && forall i :: 0 <= i < |log| ==> log[i].timestamp == other[i].timestamp
    ensures Kept(c, other, windowTime, clock)
  {
  }

  lemma KeptNext(c: Coverage, log: seq<TableEvent>, e: TableEvent, windowTime: real, clock: int)
    requires Kept(c, log, windowTime, clock) && e.timestamp == clock
    ensures Kept(Next(c, e, |log|, windowTime, clock), log + [e], windowTime, clock)
  {
  }

  lemma KeptRenewed(c: Coverage, log: seq<TableEvent>, windowTime: real, clock: int)
    requires Kept(c, log, windowTime, clock) && Sorted(log)
    ensures Kept(Renewed(c, log, windowTime, clock), log, windowTime, clock)
    ensures Renewed(c, log, windowTime, clock).covered <= FirstFresh(log, windowTime, clock, |log|)
    ensures c.covered <= FirstFresh(log, windowTime, clock, |log|)
  {
    var f := FirstFresh(log, windowTime, clock, |log|);
    if f < |log| {
      FreshFromHere(log, windowTime, clock, f);
    }
  }

  lemma KeptFed(log: seq<TableEvent>, windowTime: real, clock: int)
    requires Sorted(log) && forall i :: 0 <= i < |log| ==> log[i].timestamp <= clock
    ensures Kept(Fed(log, |log|, windowTime, clock), log, windowTime, clock)
  {
    FedCoversFresh(log, |log|, windowTime, clock);
  }

  lemma SortedLog(t: TableStore, s: Table, clock: int)
    requires Fit(t, s) && InTime(s.rows, clock)
    ensures Sorted(Log(s)) && forall i :: 0 <= i < |Log(s)| ==> Log(s)[i].timestamp <= clock
  {
    RowsInside(t, s);
  }

  lemma AddedAt(t: TableStore, s: Table, row: map<string, Cell>, now: int, p: nat, w: nat)
    requires Fit(t, s) && row.Keys == t.columnToId.Keys && p < |s.followers| && w < |s.followers[p].coverages|
    ensures var after, e := RowAdded(t, s, row, now).0, TableStore.EventOf(TableRow(row, now));
      && Fits(s.followers[p], |t.columns|) && e.timestamp == now
      && after.followers[p] == s.followers[p].(coverages := after.followers[p].coverages)
      && |after.followers[p].coverages| == |s.followers[p].coverages|
      && after.followers[p].coverages[w]
          == Next(s.followers[p].coverages[w], e, |Log(s)|, s.followers[p].info.windowTimes[w], now)
      && |Log(after)| == |Log(s)| + 1
      && forall i :: 0 <= i < |Log(after)| ==> Log(after)[i].timestamp == (Log(s) + [e])[i].timestamp
  {
    hide Indexed, KeyFor, Next, TableStore.RowCells;
  }

  lemma AddedKept(t: TableStore, s: Table, row: map<string, Cell>, now: int)
    requires Fit(t, s) && AllKept(t, s, now) && row.Keys == t.columnToId.Keys
    requires Fit(t, RowAdded(t, s, row, now).0)
    ensures AllKept(t, RowAdded(t, s, row, now).0, now)
  {
    var after, e := RowAdded(t, s, row, now).0, TableStore.EventOf(TableRow(row, now));
    assert |after.followers| == |s.followers|;
    hide Fit, Kept, Next, Log, RowAdded, TableStore.EventOf;
    forall p, w | 0 <= p < |after.followers| && 0 <= w < |after.followers[p].coverages|
      ensures Kept(after.followers[p].coverages[w], Log(after), after.followers[p].info.windowTimes[w], now)
    {
      var f := s.followers[p];
      AddedLength(t, s, row, now, p);
      AddedAt(t, s, row, now, p, w);
      assert Kept(f.coverages[w], Log(s), f.info.windowTimes[w], now);
      KeptNext(f.coverages[w], Log(s), e, f.info.windowTimes[w], now);
      KeptAlike(after.followers[p].coverages[w], Log(s) + [e], Log(after), f.info.windowTimes[w], now);
    }
  }

  lemma AddedLength(t: TableStore, s: Table, row: map<string, Cell>, now: int, p: nat)
    requires Fit(t, s) && row.Keys == t.columnToId.Keys && p < |s.followers|
    ensures |RowAdded(t, s, row, now).0.followers[p].coverages| == |s.followers[p].coverages|
  {
  }

  lemma CreatedKept(t: TableStore, s: Table, name: string, c: PreProcessorInfo, now: int)
    requires Fit(t, s) && Parsed(CreatePreprocessor(name, c, now)) && AllKept(t, s, now) && InTime(s.rows, now)
    requires Fit(t, FollowerCreated(t, s, name, c, now).0)
    ensures AllKept(t, FollowerCreated(t, s, name, c, now).0, now)
  {
    var after, loaded := FollowerCreated(t, s, name, c, now).0, s.(ready := true);
    RowsInside(t, s);
    RowsInside(t, after);
    RowsInside(t, loaded);
    SortedLog(t, loaded, now);
    hide Indexed, KeyFor, Kept, Fed, TableStore.Acceptable;
    forall p, w | 0 <= p < |after.followers| && 0 <= w < |after.followers[p].coverages|
      ensures Kept(after.followers[p].coverages[w], Log(after), after.followers[p].info.windowTimes[w], now)
    {
      var f := after.followers[p];
      if p < |s.followers| {
        assert Kept(s.followers[p].coverages[w], Log(s), f.info.windowTimes[w], now);
        KeptAlike(f.coverages[w], Log(s), Log(after), f.info.windowTimes[w], now);
      } else {
        KeptFed(Log(loaded), f.info.windowTimes[w], now);
        KeptAlike(f.coverages[w], Log(loaded), Log(after), f.info.windowTimes[w], now);
      }
    }
  }

  lemma LookedUpKept(t: TableStore, s: Table, name: string, entities: seq<seq<(string, string)>>, now: int)
    requires Fit(t, s) && AllKept(t, s, now) && InTime(s.rows, now)
    requires Fit(t, LookedUp(t, s, name, entities, now).0)
    ensures AllKept(t, LookedUp(t, s, name, entities, now).0, now)
  {
    var after := LookedUp(t, s, name, entities, now).0;
    RowsInside(t, s);
    RowsInside(t, after);
    SortedLog(t, s, now);
    hide Indexed, KeyFor, Kept, Renewed, Output, Log, Useless;
    forall p, w | 0 <= p < |after.followers| && 0 <= w < |after.followers[p].coverages|
      ensures Kept(after.followers[p].coverages[w], Log(after), after.followers[p].info.windowTimes[w], now)
    {
      var f := s.followers[p];
      assert Kept(f.coverages[w], Log(s), f.info.windowTimes[w], now);
      KeptRenewed(f.coverages[w], Log(s), f.info.windowTimes[w], now);
      KeptAlike(after.followers[p].coverages[w], Log(s), Log(after), f.info.windowTimes[w], now);
    }
  }

  lemma BroughtNow(t: TableStore, rows: seq<TableRow>, call: Call)
    requires InTime(rows, call.now)
    ensures InTime(rows + Brought(t, call), call.now)
  {
  }

  lemma InTimeLater(rows: seq<TableRow>, clock: int, now: int)
    requires InTime(rows, clock) && clock <= now
    ensures InTime(rows, now)
  {
  }

  lemma AfterKept(t: TableStore, s: Table, call: Call, clock: int)
    requires Fit(t, s) && Parsed(call) && AllKept(t, s, clock) && InTime(s.rows, clock) && clock <= call.now
    ensures Fit(t, After(t, s, call).0) && AllKept(t, After(t, s, call).0, call.now)
    ensures InTime(After(t, s, call).0.rows, call.now)
  {
    AfterFits(t, s, call);
    RowsAfter(t, s, call);
    InTimeLater(s.rows, clock, call.now);
    BroughtNow(t, s.rows, call);
    hide Indexed, Kept, Fit, InTime, Brought;
    assert AllKept(t, s, call.now) by {
      forall p, w | 0 <= p < |s.followers| && 0 <= w < |s.followers[p].coverages|
        ensures Kept(s.followers[p].coverages[w], Log(s), s.followers[p].info.windowTimes[w], call.now)
      {
        KeptLater(s.followers[p].coverages[w], Log(s), s.followers[p].info.windowTimes[w], clock, call.now);
      }
    }
    match call
    case AddEvent(row, now) =>
      if row.Keys == t.columnToId.Keys {
        AddedKept(t, s, row, now);
      }
    case CreatePreprocessor(name, info, now) => CreatedKept(t, s, name, info, now);
    case GetModelInput(name, entities, now) => LookedUpKept(t, s, name, entities, now);
  }

  /** The latest clock reading. */
  function ClockAfter(calls: seq<Call>, clock: int): int {
    if calls == [] then clock else calls[|calls| - 1].now
  }

  /** Over any calls in the order of their clock readings, from a table without preprocessors. */
  lemma {:induction false} RunKept(t: TableStore, s: Table, calls: seq<Call>, clock: int)
    requires Fit(t, s) && AllKept(t, s, clock) && InTime(s.rows, clock)
    requires InOrder(calls, clock) && forall i :: 0 <= i < |calls| ==> Parsed(calls[i])
    ensures AllKept(t, Run(t, s, calls).0, ClockAfter(calls, clock))
    ensures InTime(Run(t, s, calls).0.rows, ClockAfter(calls, clock))
  {
    hide Fit, AllKept, After;
    if calls != [] {
      var n := |calls| - 1;
      RunKept(t, s, calls[..n], clock);
      AfterKept(t, Run(t, s, calls[..n]).0, calls[n], ClockAfter(calls[..n], clock));
    }
  }

  /**
   * After any calls, a lookup that is answered is about a range of events that begins with or before the first
   * one that has not expired; exactly there unless the window has expired only in part.
   */
  lemma LookupAfterRun(t: TableStore, rows: seq<TableRow>, calls: seq<Call>, now: int, clock: int, p: nat, w: nat)
    requires var s := NewTable(rows);
      && Fit(t, s) && InTime(rows, clock) && InOrder(calls, clock) && ClockAfter(calls, clock) <= now
      && (forall i :: 0 <= i < |calls| ==> Parsed(calls[i]))
      && p < |Run(t, s, calls).0.followers| && w < |Run(t, s, calls).0.followers[p].coverages|
    ensures var s := Run(t, NewTable(rows), calls).0;
      var f := s.followers[p];
      && w < |f.info.windowTimes|
      && var first := FirstFresh(Log(s), f.info.windowTimes[w], now, |Log(s)|);
      && Renewed(f.coverages[w], Log(s), f.info.windowTimes[w], now).covered <= first
      && (Renewed(f.coverages[w], Log(s), f.info.windowTimes[w], now).covered == first
          <==> !PartlyExpired(Log(s), f.info.windowTimes[w], now, f.coverages[w].covered))
  {
    var start := NewTable(rows);
    RunKept(t, start, calls, clock);
    var s := Run(t, start, calls).0;
    var f := s.followers[p];
    assert Fits(f, |t.columns|);
    SortedLog(t, s, ClockAfter(calls, clock));
    hide Run, Fit, Log, Indexed;
    KeptLater(f.coverages[w], Log(s), f.info.windowTimes[w], ClockAfter(calls, clock), now);
    KeptRenewed(f.coverages[w], Log(s), f.info.windowTimes[w], now);
    var first := FirstFresh(Log(s), f.info.windowTimes[w], now, |Log(s)|);
    if first < |Log(s)| {
      FreshFromHere(Log(s), f.info.windowTimes[w], now, first);
    }
  }

  // ---------- Preprocessors created early or late ----------

  /** Every preprocessor is as if created now. */
  ghost predicate AllFed(t: TableStore, s: Table, now: int)
    requires Fit(t, s)
  {
    forall p :: 0 <= p < |s.followers| ==>
      s.followers[p].coverages == FedCoverages(s.followers[p].info.windowTimes, Log(s), now)
  }

  lemma FedCoveragesAlike(windowTimes: seq<real>, log: seq<TableEvent>, other: seq<TableEvent>, now: int)
    requires |log| == |other| && forall i :: 0 <= i < |log| ==> log[i].timestamp == other[i].timestamp
    ensures FedCoverages(windowTimes, log, now) == FedCoverages(windowTimes, other, now)
  {
    forall w | 0 <= w < |windowTimes|
      ensures Fed(log, |log|, windowTimes[w], now) == Fed(other, |other|, windowTimes[w], now)
    {
      FedAlike(log, other, |log|, windowTimes[w], now);
    }
  }

  lemma ToldFed(f: Follower, log: seq<TableEvent>, e: TableEvent, now: int)
    requires f.coverages == FedCoverages(f.info.windowTimes, log, now)
    ensures Told(f, e, |log|, now).coverages == FedCoverages(f.info.windowTimes, log + [e], now)
  {
    forall w | 0 <= w < |f.coverages| ensures Fed(log, |log|, f.info.windowTimes[w], now)
        == Fed(log + [e], |log|, f.info.windowTimes[w], now)
    {
      FedAlike(log, log + [e], |log|, f.info.windowTimes[w], now);
    }
  }

  /** An update at that same moment changes nothing. */
  lemma UpdatedFed(f: Follower, log: seq<TableEvent>, now: int)
    requires f.coverages == FedCoverages(f.info.windowTimes, log, now) && Sorted(log)
    ensures Updated(f, log, now) == f
  {
    forall w | 0 <= w < |f.coverages|
      ensures Renewed(f.coverages[w], log, f.info.windowTimes[w], now) == f.coverages[w]
    {
      FedCoversFresh(log, |log|, f.info.windowTimes[w], now);
    }
  }

  lemma AfterFed(t: TableStore, s: Table, call: Call)
    requires Fit(t, s) && Parsed(call) && AllFed(t, s, call.now) && InTime(s.rows, call.now)
    ensures Fit(t, After(t, s, call).0) && AllFed(t, After(t, s, call).0, call.now)
  {
    AfterFits(t, s, call);
    var after, now := After(t, s, call).0, call.now;
    RowsInside(t, s);
    RowsInside(t, after);
    SortedLog(t, s, now);
    assert s.followers != [] ==> s.ready;
    hide Indexed, KeyFor, Fed, Renewed, Output, Useless, TableStore.Acceptable, TableStore.RowCells, Log;
    forall p | 0 <= p < |after.followers|
      ensures after.followers[p].coverages == FedCoverages(after.followers[p].info.windowTimes, Log(after), now)
    {
      var windowTimes := after.followers[p].info.windowTimes;
      match call
      case AddEvent(row, _) =>
        if row.Keys == t.columnToId.Keys {
          var e := TableStore.EventOf(TableRow(row, now));
          ToldFed(s.followers[p], Log(s), e, now);
          FedCoveragesAlike(windowTimes, Log(s) + [e], Log(after), now);
        }
      case CreatePreprocessor(_, _, _) =>
        var loaded := s.(ready := true);
        RowsInside(t, loaded);
        if p < |s.followers| {
          FedCoveragesAlike(windowTimes, Log(s), Log(after), now);
        } else {
          FedCoveragesAlike(windowTimes, Log(loaded), Log(after), now);
        }
      case GetModelInput(_, _, _) =>
        UpdatedFed(s.followers[p], Log(s), now);
        FedCoveragesAlike(windowTimes, Log(s), Log(after), now);
    }
  }

  lemma {:induction false} RunFed(t: TableStore, s: Table, calls: seq<Call>, now: int)
    requires Fit(t, s) && AllFed(t, s, now) && InTime(s.rows, now)
    requires forall i :: 0 <= i < |calls| ==> Parsed(calls[i]) && calls[i].now == now
    ensures AllFed(t, Run(t, s, calls).0, now) && InTime(Run(t, s, calls).0.rows, now)
  {
    hide Fit, AllFed, After, Brought;
    if calls != [] {
      var n := |calls| - 1;
      var before := Run(t, s, calls[..n]).0;
      RunFed(t, s, calls[..n], now);
      AfterFed(t, before, calls[n]);
      RowsAfter(t, before, calls[n]);
      BroughtNow(t, before.rows, calls[n]);
    }
  }

  lemma SamePicked(groupIds: seq<nat>, column: nat, key: string, p: nat, e: TableEvent, q: nat, f: TableEvent)
    requires KeyedBy(p, groupIds, e) && KeyedBy(q, groupIds, f) && e.row == f.row
    ensures Picked(Selector(p, column, key), e) == Picked(Selector(q, column, key), f)
  {
    hide KeyOf, GroupCells;
  }

  lemma SameCells(s: Table, r: Table)
    requires s.rows == r.rows && s.ready && r.ready
    ensures |Log(s)| == |Log(r)| && forall i :: 0 <= i < |Log(s)| ==> Log(s)[i].row == Log(r)[i].row
  {
  }

  lemma SameRow(t: TableStore, s: Table, p: nat, r: Table, q: nat, key: string, w: nat)
    requires Fit(t, s) && Fit(t, r) && s.rows == r.rows && s.ready && r.ready
    requires p < |s.followers| && q < |r.followers| && s.followers[p] == r.followers[q]
    requires Fits(s.followers[p], |t.columns|)
    requires w < |s.followers[p].coverages|
    ensures RowsOf(p, s.followers[p], key, Log(s))[w] == RowsOf(q, r.followers[q], key, Log(r))[w]
  {
    var f, low := s.followers[p], s.followers[p].coverages[w].covered;
    KeysInLog(t, s, p);
    KeysInLog(t, r, q);
    SameCells(s, r);
    hide Fit, KeyedBy, Values, Picked, Aggregate, Log, ParseOperator;
    forall k | 0 <= k < |f.columnIds|
      ensures Row(p, f.columnIds, f.info, key, Log(s), low)[k] == Row(q, f.columnIds, f.info, key, Log(r), low)[k]
    {
      forall i | 0 <= i < |Log(s)|
        ensures Picked(Selector(p, f.columnIds[k], key), Log(s)[i])
             == Picked(Selector(q, f.columnIds[k], key), Log(r)[i])
      {
        SamePicked(f.groupIds, f.columnIds[k], key, p, Log(s)[i], q, Log(r)[i]);
      }
      ValuesAlike(Selector(p, f.columnIds[k], key), Selector(q, f.columnIds[k], key), Log(s), Log(r), low, |Log(s)|);
    }
  }

  /** Where a preprocessor stands among the others makes no difference to its vectors. */
  lemma SameOutput(t: TableStore, s: Table, p: nat, r: Table, q: nat, keys: seq<string>)
    requires Fit(t, s) && Fit(t, r) && s.rows == r.rows && s.ready && r.ready
    requires p < |s.followers| && q < |r.followers| && s.followers[p] == r.followers[q]
    ensures Fits(s.followers[p], |t.columns|)
    ensures Output(p, s.followers[p], keys, Log(s)) == Output(q, r.followers[q], keys, Log(r))
  {
    var f := s.followers[p];
    assert Fits(f, |t.columns|);
    hide Fit, Row, Joined, RowsOf, Log;
    forall i | 0 <= i < |keys| ensures VectorOf(p, f, keys[i], Log(s)) == VectorOf(q, f, keys[i], Log(r)) {
      forall w | 0 <= w < |f.coverages| ensures RowsOf(p, f, keys[i], Log(s))[w] == RowsOf(q, f, keys[i], Log(r))[w] {
        SameRow(t, s, p, r, q, keys[i], w);
      }
      assert RowsOf(p, f, keys[i], Log(s)) == RowsOf(q, f, keys[i], Log(r));
    }
    assert VectorsOf(p, f, keys, Log(s)) == VectorsOf(q, f, keys, Log(r));
  }

  predicate SetAlike(f: Follower, g: Follower) {
    f.info == g.info && f.groupIds == g.groupIds && f.columnIds == g.columnIds
  }

  /**
   * Two runs at one moment that bring the same rows, however calls that create preprocessors and ask them stand
   * between: preprocessors of one setting then answer alike.
   */
  lemma EarlyOrLate(t: TableStore, rows: seq<TableRow>, calls: seq<Call>, others: seq<Call>, now: int, name: string,
      other: string, entities: seq<seq<(string, string)>>)
    requires Fit(t, NewTable(rows)) && InTime(rows, now) && Accepted(t, calls) == Accepted(t, others)
    requires forall i :: 0 <= i < |calls| ==> Parsed(calls[i]) && calls[i].now == now
    requires forall i :: 0 <= i < |others| ==> Parsed(others[i]) && others[i].now == now
    requires var s, r := Run(t, NewTable(rows), calls).0, Run(t, NewTable(rows), others).0;
      && name in s.inputs && other in r.inputs
      && SetAlike(s.followers[s.inputs[name]], r.followers[r.inputs[other]])
    ensures var s, r := Run(t, NewTable(rows), calls).0, Run(t, NewTable(rows), others).0;
      LookedUp(t, s, name, entities, now).1 == LookedUp(t, r, other, entities, now).1
  {
    var start := NewTable(rows);
    RunFed(t, start, calls, now);
    RunFed(t, start, others, now);
    RowsOfRun(t, start, calls);
    RowsOfRun(t, start, others);
    var s, r := Run(t, start, calls).0, Run(t, start, others).0;
    SameAnswer(t, s, name, r, other, entities, now);
  }

  lemma SameAnswer(t: TableStore, s: Table, name: string, r: Table, other: string,
      entities: seq<seq<(string, string)>>, now: int)
    requires Fit(t, s) && Fit(t, r) && s.rows == r.rows && AllFed(t, s, now) && AllFed(t, r, now)
    requires InTime(s.rows, now) && name in s.inputs && other in r.inputs
    requires SetAlike(s.followers[s.inputs[name]], r.followers[r.inputs[other]])
    ensures LookedUp(t, s, name, entities, now).1 == LookedUp(t, r, other, entities, now).1
  {
    var p, q := s.inputs[name], r.inputs[other];
    var f := s.followers[p];
    assert s.ready && r.ready;
    RowsInside(t, s);
    RowsInside(t, r);
    SortedLog(t, s, now);
    SortedLog(t, r, now);
    FedCoveragesAlike(f.info.windowTimes, Log(s), Log(r), now);
    UpdatedFed(f, Log(s), now);
    UpdatedFed(r.followers[q], Log(r), now);
    SameOutput(t, s, p, r, q, t.KeysOfEntities(f.groupIds, entities));
    hide Indexed, Output, Log, Updated;
  }
}
