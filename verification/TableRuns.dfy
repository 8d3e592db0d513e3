/** UserEventsManager, for one table: the calls an application makes, in any order. */
module TableRuns {
  import opened Results
  import opened Aggregates
  import opened RollingWindows
  import opened GroupKeys
  import opened PreProcessors
  import opened TableStores
  import opened Lookups
  import opened TableModels

  // ---------- A preprocessor and the follower it stands for ----------

  ghost predicate SetAs(p: PreProcessor, f: Follower) {
    p.info == f.info && p.groupIds == f.groupIds && p.columnIds == f.columnIds
  }

  ghost predicate Matches(p: PreProcessor, f: Follower)
    reads p.windows
  {
    SetAs(p, f) && p.Coverages() == f.coverages
  }

  lemma MatchesNext(p: PreProcessor, f: Follower, e: TableEvent, n: nat, now: int)
    requires p.Arranged() && SetAs(p, f)
    requires |f.coverages| == |p.windows| && p.Coverages() == p.NextAll(f.coverages, e, n, now)
    ensures |f.coverages| == |f.info.windowTimes| && Matches(p, Told(f, e, n, now))
  {
    hide WellFormed;
  }

  lemma MatchesFed(p: PreProcessor, f: Follower, log: seq<TableEvent>, other: seq<TableEvent>, now: int)
    requires p.Arranged() && SetAs(p, f)
    requires |log| == |other| && forall i :: 0 <= i < |log| ==> log[i].timestamp == other[i].timestamp
    requires p.FedAt(log, |log|, now) && f.coverages == FedCoverages(f.info.windowTimes, other, now)
    ensures Matches(p, f)
  {
    forall w | 0 <= w < |p.windows| ensures p.Coverages()[w] == f.coverages[w] {
      FedAlike(log, other, |log|, p.windows[w].windowTime, now);
      assert p.Coverages()[w] == p.FedAll(log, |log|, now)[w];
    }
  }

  lemma MatchesUpdated(p: PreProcessor, f: Follower, log: seq<TableEvent>, now: int, before: seq<WindowState>)
    requires p.Arranged() && SetAs(p, f)
    requires |f.coverages| == |p.windows| == |before|
    requires forall w :: 0 <= w < |p.windows| ==>
      && Refreshed(log, now, p.windows[w], before[w])
      && f.coverages[w] == Coverage(before[w].oldestIndex, before[w].covered)
    ensures |f.coverages| == |f.info.windowTimes| && Matches(p, Updated(f, log, now))
  {
    forall w | 0 <= w < |p.windows| ensures p.Coverages()[w] == Updated(f, log, now).coverages[w] {
      assert p.Coverages()[w] == CoverageOf(p.windows[w]) && Refreshed(log, now, p.windows[w], before[w]);
    }
  }

  lemma MatchesUseless(p: PreProcessor, f: Follower, log: seq<TableEvent>)
    requires p.Valid(log, |log|) && SetAs(p, f)
    ensures p.useless <==> Useless(f, log)
  {
    hide KnownOperators, PreProcessor.AllLaid, PreProcessor.WindowsValid, PreProcessor.Separate, WellFormed;
    if log != [] {
      assert p.Keyed(log[0]);
      assert log[0].groups[p.id] in PreProcessor.Keys(p.id, log, |log|);
    }
  }

  /** What is handed out, from its description. */
  lemma VectorDescribed(p: PreProcessor, f: Follower, v: seq<real>, key: string, log: seq<TableEvent>)
    requires p.Arranged() && Matches(p, f) && p.Describes(v, key, log)
    ensures |f.info.operators| == |f.info.defaults| == |f.columnIds| && v == VectorOf(p.id, f, key, log)
  {
    hide Row, Block;
    var rows := RowsOf(p.id, f, key, log);
    forall w | 0 <= w < |rows|
      ensures |v| == |rows| * |f.columnIds| && Block(v, w, |rows|, |f.columnIds|) == rows[w]
    {
      assert p.Coverages()[w].covered == p.windows[w].covered;
    }
    JoinedBlocks(v, rows, |f.columnIds|);
  }

  lemma OutputDescribed(p: PreProcessor, f: Follower, output: seq<real>, keys: seq<string>, log: seq<TableEvent>)
    requires p.Arranged() && Matches(p, f) && p.AllDescribed(output, |keys|, keys, log)
    ensures |f.info.operators| == |f.info.defaults| == |f.columnIds| && output == Output(p.id, f, keys, log)
  {
    assert |f.info.operators| == |f.info.defaults| == |f.columnIds|;
    assert |p.defaultFeature| == |f.coverages| * |f.columnIds|;
    hide PreProcessor.Arranged, PreProcessor.Describes, Matches, Block;
    var vectors := VectorsOf(p.id, f, keys, log);
    forall i | 0 <= i < |keys| ensures Block(output, i, |keys|, |p.defaultFeature|) == vectors[i] {
      VectorDescribed(p, f, Block(output, i, |keys|, |p.defaultFeature|), keys[i], log);
    }
    JoinedBlocks(output, vectors, |p.defaultFeature|);
  }

  // ---------- The class ----------

  class UserEventsManager {
    const table: TableStore
    /** The rows in the database, in the order in which they came. */
    var stored: seq<TableRow>
    /** The latest clock reading. */
    ghost var clock: int

    /** A table whose database may hold rows from earlier. */
    constructor (schema: map<string, string>, stored: seq<TableRow>, ghost clock: int)
      requires InTime(stored, clock) && forall i :: 0 <= i < |stored| ==> stored[i].row.Keys == schema.Keys
      ensures table.schema == schema && this.clock == clock
      ensures Represents(NewTable(stored)) && forall o :: o in Parts() ==> fresh(o)
    {
      hide *;
      var store := new TableStore(schema, clock);
      AllPartsAllocated(store.preprocessors);
      table, this.stored, this.clock := store, stored, clock;
      new;
      AtFirst();
    }

    lemma AtFirst()
      requires table.Valid() && !table.ready && table.allEvents == [] && table.preprocessors == []
      requires table.modelInputIds == map[] && table.clock == clock
      requires InTime(stored, clock) && forall i :: 0 <= i < |stored| ==> stored[i].row.Keys == table.schema.Keys
      ensures Represents(NewTable(stored)) && Parts() == {this, table}
    {
      hide *;
      table.Kept();
      table.KeysOfSchema();
      FirstFits();
      Represent(NewTable(stored));
      OwnParts();
    }

    lemma FirstFits()
      requires Indexed(table.schema, table.columns, table.columnToId)
      requires forall i :: 0 <= i < |stored| ==> stored[i].row.Keys == table.columnToId.Keys
      ensures Fit(table, NewTable(stored)) && Log(NewTable(stored)) == []
      ensures NewTable(stored) == Table(stored, false, [], map[])
    {
      hide Indexed;
    }

    lemma OwnParts()
      requires table.preprocessors == []
      ensures Parts() == {this, table}
    {
    }

    /** All objects that belong to the table. */
    ghost function Parts(): set<object>
      reads table`preprocessors, WindowsIn(table.preprocessors)`groupColumns
    {
      {this, table} + (set p | p in table.preprocessors) + WindowsIn(table.preprocessors)
        + ColumnsIn(table.preprocessors) + SlotsIn(table.preprocessors)
    }

    ghost predicate Represents(s: Table)
      reads this, table, table.preprocessors, WindowsIn(table.preprocessors)
      reads ColumnsIn(table.preprocessors), SlotsIn(table.preprocessors)
    {
      && table.Valid() && Fit(table, s) && InTime(s.rows, clock) && table.clock <= clock
      && stored == s.rows && table.ready == s.ready && table.modelInputIds == s.inputs
      && table.allEvents == Log(s) && |table.preprocessors| == |s.followers|
      && forall p :: 0 <= p < |s.followers| ==> Matches(table.preprocessors[p], s.followers[p])
    }

    lemma PartsAre()
      ensures this in Parts() && table in Parts() && WindowsIn(table.preprocessors) <= Parts()
      ensures ColumnsIn(table.preprocessors) <= Parts() && SlotsIn(table.preprocessors) <= Parts()
      ensures forall p :: p in table.preprocessors ==> p in Parts()
    {
    }

    twostate lemma NewParts()
      requires table.preprocessors == old(table.preprocessors)
      requires forall c :: c in ColumnsIn(table.preprocessors) && c !in old(ColumnsIn(table.preprocessors)) ==> fresh(c)
      requires forall s :: s in SlotsIn(table.preprocessors) && s !in old(SlotsIn(table.preprocessors)) ==> fresh(s)
      ensures forall o :: o in Parts() && o !in old(Parts()) ==> fresh(o)
    {
      hide ColumnsIn, SlotsIn, WindowsIn;
    }

    lemma Represented(s: Table)
      requires Represents(s)
      ensures table.Valid() && Fit(table, s) && InTime(s.rows, clock) && table.clock <= clock
      ensures stored == s.rows && table.ready == s.ready && table.modelInputIds == s.inputs
      ensures table.allEvents == Log(s) && |table.preprocessors| == |s.followers|
      ensures forall p :: 0 <= p < |s.followers| ==>
        && Matches(table.preprocessors[p], s.followers[p]) && SetAs(table.preprocessors[p], s.followers[p])
        && table.preprocessors[p].Coverages() == s.followers[p].coverages
      ensures !s.ready ==> table.preprocessors == [] && table.allEvents == []
    {
    }

    lemma Represent(s: Table)
      requires table.Valid() && Fit(table, s) && InTime(s.rows, clock) && table.clock <= clock
      requires stored == s.rows && table.ready == s.ready && table.modelInputIds == s.inputs
      requires table.allEvents == Log(s) && |table.preprocessors| == |s.followers|
      requires forall p :: 0 <= p < |s.followers| ==> Matches(table.preprocessors[p], s.followers[p])
      ensures Represents(s)
    {
    }

    /** The keys in the log are those that the preprocessors compute. */
    lemma KeysInTable(s: Table)
      requires table.Valid() && Fit(table, s) && s.ready && |table.allEvents| == |s.rows|
      requires |table.preprocessors| == |s.followers|
      requires forall p :: 0 <= p < |s.followers| ==> SetAs(table.preprocessors[p], s.followers[p])
      requires forall i :: 0 <= i < |s.rows| ==>
        && table.allEvents[i].row == TableStore.RowCells(s.rows[i])
        && table.allEvents[i].timestamp == s.rows[i].timestamp
      ensures table.allEvents == Log(s)
    {
      hide TableStore.Valid, Fit, TableStore.RowCells, KeyOf, GroupCells;
      forall i | 0 <= i < |s.rows| ensures table.allEvents[i] == Log(s)[i] {
        forall p | 0 <= p < |s.followers|
          ensures |table.allEvents[i].groups| == |s.followers| && table.allEvents[i].groups[p] == Log(s)[i].groups[p]
        {
          OneKeyEach(table, i, p);
        }
        assert |table.allEvents[i].groups| == |s.followers| by { table.Kept(); }
      }
    }

    // ---------- add_event ----------

    method AddEvent(row: map<string, Cell>, now: int, ghost s: Table) returns (ok: bool)
      requires Represents(s) && clock <= now
      modifies Parts()
      ensures clock == now && forall o :: o in Parts() && o !in old(Parts()) ==> fresh(o)
      ensures Fit(table, s)
      ensures Represents(RowAdded(table, s, row, now).0) && RowAdded(table, s, row, now).1 == Done(ok)
    {
      hide *;
      Represented(s);
      PartsAre();
      AllPartsAllocated(table.preprocessors);
      RowCanBeAdded(s, row, now);
      var r := TableRow(row, now);
      ok := table.CheckColumnsOfRow(r);
      clock := now;
      if !ok {
        Represent(s);
        NewParts();
        return;
      }
      stored := stored + [r];
      ghost var before := CoveragesIn(table.preprocessors);
      table.AddRow(r, now);
      NewParts();
      RowIsAdded(s, row, now, before);
    }

    lemma RowCanBeAdded(s: Table, row: map<string, Cell>, now: int)
      requires Represents(s) && clock <= now
      ensures Fit(table, s) && RowAdded(table, s, row, now).1 == Done(row.Keys == table.columnToId.Keys)
      ensures row.Keys != table.columnToId.Keys ==> RowAdded(table, s, row, now).0 == s
      ensures InTime(s.rows, now) && table.clock <= now && (s.followers != [] ==> s.ready)
      ensures forall i :: 0 <= i < |table.allEvents| ==> table.allEvents[i].timestamp <= now
    {
    }

    lemma RowIsAdded(s: Table, row: map<string, Cell>, now: int, before: seq<seq<Coverage>>)
      requires table.Valid() && Fit(table, s) && row.Keys == table.columnToId.Keys
      requires clock == now && table.clock <= now && InTime(s.rows, now)
      requires stored == s.rows + [TableRow(row, now)] && table.ready == s.ready && table.modelInputIds == s.inputs
      requires |table.preprocessors| == |s.followers| == |before|
      requires forall p :: 0 <= p < |s.followers| ==>
        SetAs(table.preprocessors[p], s.followers[p]) && before[p] == s.followers[p].coverages
      requires forall p :: 0 <= p < |before| ==> |before[p]| == |table.preprocessors[p].windows|
      requires var n, e := |Log(s)|, TableStore.EventOf(TableRow(row, now));
        if s.ready then
          && |table.allEvents| == n + 1 && table.allEvents[..n] == Log(s)
          && table.allEvents[n] == e.(groups := table.allEvents[n].groups)
          && forall p :: 0 <= p < |s.followers| ==>
              table.preprocessors[p].Coverages() == table.preprocessors[p].NextAll(before[p], e, n, now)
        else table.allEvents == []
      ensures Represents(RowAdded(table, s, row, now).0)
    {
      hide *;
      var after := RowAdded(table, s, row, now).0;
      RowAddedMeans(table, s, row, now);
      if s.ready {
        forall p | 0 <= p < |s.followers| ensures SetAs(table.preprocessors[p], after.followers[p]) {
          SetAsTold(table.preprocessors[p], s.followers[p], TableStore.EventOf(TableRow(row, now)), |s.rows|, now);
        }
        GrownLog(s, table.allEvents, TableRow(row, now));
        KeysInTable(after);
      }
      forall p | 0 <= p < |s.followers| ensures Matches(table.preprocessors[p], after.followers[p]) {
        table.SoundAt(p);
        MatchesNext(table.preprocessors[p], s.followers[p], TableStore.EventOf(TableRow(row, now)), |s.rows|, now);
      }
      Represent(after);
    }

    // ---------- create_preprocessor ----------

    /** The first preprocessor of a table makes it take in the rows of the database. */
    method Load(now: int, ghost s: Table)
      requires Represents(s) && !s.ready && clock <= now
      modifies table`ready, table`allEvents, table`clock
      ensures table.Valid() && table.ready && table.clock <= now && table.allEvents == Log(s.(ready := true))
    {
      hide *;
      Represented(s);
      NoParts(table.preprocessors);
      NotYetLoaded(s);
      table.SetToFillInMemory();
      var i := 0;
      while i < |stored|
        invariant i <= |stored| && table.Valid() && table.ready && table.clock <= now
        invariant UpTo(i)
      {
        RowToLoad(s, i, now);
        label before:
        table.AddRow(stored[i], now);
        RowLoaded@before(i);
        i := i + 1;
      }
      AllLoaded(s);
    }

    /** The first `i` rows of the database are in the log. */
    ghost predicate UpTo(i: nat)
      reads this`stored, table`allEvents
    {
      && i == |table.allEvents| <= |stored|
      && forall j :: 0 <= j < i ==>
          && table.allEvents[j].row == TableStore.RowCells(stored[j])
          && table.allEvents[j].timestamp == stored[j].timestamp
    }

    lemma NotYetLoaded(s: Table)
      requires Represents(s) && !s.ready
      ensures UpTo(0)
    {
    }

    lemma RowToLoad(s: Table, i: nat, now: int)
      requires Fit(table, s) && InTime(s.rows, now) && stored == s.rows && i < |stored| && UpTo(i)
      ensures |table.allEvents| == i && stored[i].row.Keys == table.columnToId.Keys && stored[i].timestamp <= now
      ensures forall j :: 0 <= j < |table.allEvents| ==> table.allEvents[j].timestamp <= stored[i].timestamp
    {
    }

    twostate lemma RowLoaded(i: nat)
      requires stored == old(stored) && i < |stored| && old(UpTo(i))
      requires |table.allEvents| == i + 1 && table.allEvents[..i] == old(table.allEvents)
      requires table.allEvents[i] == TableStore.EventOf(stored[i]).(groups := table.allEvents[i].groups)
      ensures UpTo(i + 1)
    {
      hide TableStore.RowCells;
      assert forall j :: 0 <= j < i ==> table.allEvents[j] == old(table.allEvents)[j];
    }

    lemma AllLoaded(s: Table)
      requires Fit(table, s) && stored == s.rows && UpTo(|stored|) && table.Valid()
      requires table.preprocessors == [] && s.followers == []
      ensures table.allEvents == Log(s.(ready := true))
    {
      hide TableStore.RowCells, TableStore.Valid, Indexed;
      KeysInTable(s.(ready := true));
    }

    method CreatePreprocessor(name: string, c: PreProcessorInfo, now: int, ghost s: Table) returns (ok: bool)
      requires Represents(s) && |c.info.operators| == |c.info.defaults| == |c.columnsToAggregate| && clock <= now
      modifies Parts()
      ensures clock == now && forall o :: o in Parts() && o !in old(Parts()) ==> fresh(o)
      ensures Fit(table, s)
      ensures Represents(FollowerCreated(table, s, name, c, now).0)
      ensures FollowerCreated(table, s, name, c, now).1 == Done(ok)
    {
      hide *;
      Represented(s);
      PartsAre();
      EachAllocated(table.preprocessors);
      LoadedFits(table, s, now, clock);
      if !table.ready {
        Load(now, s);
      }
      clock := now;
      Represent(s.(ready := true));
      ok := Create(name, c, now, s.(ready := true));
      LoadedFirst(table, s, name, c, now);
    }

    /** The table has its rows. */
    method Create(name: string, c: PreProcessorInfo, now: int, ghost s: Table) returns (ok: bool)
      requires Represents(s) && |c.info.operators| == |c.info.defaults| == |c.columnsToAggregate| && clock == now
      requires s.ready
      modifies table`allEvents, table`preprocessors, table`modelInputIds, table`clock
      ensures forall o :: o in Parts() && o !in old(Parts()) ==> fresh(o)
      ensures Fit(table, s) && clock == now
      ensures Represents(FollowerCreated(table, s, name, c, now).0)
      ensures FollowerCreated(table, s, name, c, now).1 == Done(ok)
    {
      hide *;
      Represented(s);
      EachAllocated(table.preprocessors);
      ghost var ps := table.preprocessors;
      ok := table.CreatePreprocessor(name, c, now);
      assert forall q, w :: 0 <= q < |ps| && 0 <= w < |ps[q].windows| ==> unchanged(ps[q].windows[w]);
      if !ok {
        NotCreated(table, s, name, c, now);
        Represent(s);
        NewParts();
        return;
      }
      JoinedParts();
      IsCreated(s, name, c, now);
    }

    /** One more preprocessor, with objects of its own. */
    twostate lemma JoinedParts()
      requires table.preprocessors != [] && table.preprocessors[..|table.preprocessors| - 1] == old(table.preprocessors)
      requires var p := table.preprocessors[|table.preprocessors| - 1];
        && fresh(p) && (forall w :: 0 <= w < |p.windows| ==> fresh(p.windows[w]))
        && (forall c :: c in p.AllColumns() ==> fresh(c)) && (forall s :: s in p.AllSlots() ==> fresh(s))
      requires var ps := old(table.preprocessors);
        forall q, w :: 0 <= q < |ps| && 0 <= w < |ps[q].windows| ==>
          ps[q].windows[w].groupColumns == old(ps[q].windows[w].groupColumns)
      ensures forall o :: o in Parts() && o !in old(Parts()) ==> fresh(o)
    {
      hide ColumnsIn, SlotsIn, WindowsIn, PreProcessor.AllColumns, PreProcessor.AllSlots;
      var ps, p := old(table.preprocessors), table.preprocessors[|table.preprocessors| - 1];
      assert table.preprocessors == ps + [p];
      OldParts(ps);
      JoinedSets(ps, p);
    }

    lemma IsCreated(s: Table, name: string, c: PreProcessorInfo, now: int)
      requires table.Valid() && Fit(table, s) && |c.info.operators| == |c.info.defaults| == |c.columnsToAggregate|
      requires s.ready
      requires table.Acceptable(c) && InTime(s.rows, now) && table.clock == clock == now && stored == s.rows
      requires table.ready && table.modelInputIds == s.inputs[name := |s.followers|]
      requires |table.preprocessors| == |s.followers| + 1 && OneMoreKey(table.allEvents, Log(s), |s.followers|)
      requires forall q :: 0 <= q < |s.followers| ==> Matches(table.preprocessors[q], s.followers[q])
      requires var p := table.preprocessors[|s.followers|];
        && p.FedAt(table.allEvents, |table.allEvents|, now) && p.info == c.info
        && p.groupIds == table.Ids(c.groupColumns) && p.columnIds == table.Ids(c.columnsToAggregate)
      ensures Represents(FollowerCreated(table, s, name, c, now).0)
      ensures FollowerCreated(table, s, name, c, now).1 == Done(true)
    {
      hide *;
      var n, after := |s.followers|, FollowerCreated(table, s, name, c, now).0;
      table.Kept();
      table.KeysOfSchema();
      FollowerCreatedMeans(table, s, name, c, now);
      table.SoundAt(n);
      ValidIsArranged(table.preprocessors[n], table.allEvents);
      OneKeyMeans(table.allEvents, Log(s), n);
      SetAsIs(table.preprocessors[n], after.followers[n]);
      forall q | 0 <= q < n ensures SetAs(table.preprocessors[q], after.followers[q]) {
        assert after.followers[q] == after.followers[..n][q];
        MatchesMeans(table.preprocessors[q], s.followers[q]);
      }
      MatchesFed(table.preprocessors[n], after.followers[n], table.allEvents, Log(s), now);
      RowsOfLog(s);
      KeysInTable(after);
      Represent(after);
    }

    // ---------- get_model_input ----------

    method GetModelInput(name: string, entities: seq<seq<(string, string)>>, now: int, ghost s: Table)
      returns (r: Option<seq<real>>)
      requires Represents(s) && clock <= now
      modifies Parts()
      ensures clock == now && forall o :: o in Parts() && o !in old(Parts()) ==> fresh(o)
      ensures Fit(table, s)
      ensures Represents(LookedUp(table, s, name, entities, now).0)
      ensures LookedUp(table, s, name, entities, now).1 == Vectors(r)
    {
      hide *;
      Represented(s);
      PartsAre();
      EachAllocated(table.preprocessors);
      LoadedFits(table, s, now, clock);
      ghost var before := CoveragesIn(table.preprocessors);
      ghost var states := StatesIn(table.preprocessors);
      clock := now;
      r := table.GetModelInput(name, entities, now);
      NewParts();
      if r.Some? {
        table.ProcessorIs(name);
      }
      IsLookedUp(s, name, entities, now, r, before, states);
    }

    lemma IsLookedUp(s: Table, name: string, entities: seq<seq<(string, string)>>, now: int, r: Option<seq<real>>,
        before: seq<seq<Coverage>>, states: seq<seq<WindowState>>)
      requires table.Valid() && Fit(table, s) && InTime(s.rows, clock) && table.clock <= clock == now
      requires stored == s.rows && table.ready == s.ready && table.modelInputIds == s.inputs
      requires table.allEvents == Log(s) && |table.preprocessors| == |s.followers| == |before| == |states|
      requires forall p :: 0 <= p < |s.followers| ==>
        && SetAs(table.preprocessors[p], s.followers[p]) && before[p] == s.followers[p].coverages
        && |states[p]| == |table.preprocessors[p].windows| == |before[p]|
        && forall w :: 0 <= w < |states[p]| ==> before[p][w] == Coverage(states[p][w].oldestIndex, states[p][w].covered)
      requires r.Some? <==>
        && name in table.modelInputIds
        && "" !in table.KeysOfEntities(table.ProcessorFor(name).groupIds, entities) && !table.ProcessorFor(name).useless
      requires forall q :: 0 <= q < |s.followers| && (r.Some? ==> q != s.inputs[name]) ==>
        table.preprocessors[q].Coverages() == before[q]
      requires r.Some? ==> var p := table.ProcessorFor(name);
        && p.Arranged()
        && p.AllDescribed(r.value, |entities|, table.KeysOfEntities(p.groupIds, entities), table.allEvents)
        && s.inputs[name] < |states|
        && forall w :: 0 <= w < |p.windows| && w < |states[s.inputs[name]]| ==>
            Refreshed(table.allEvents, now, p.windows[w], states[s.inputs[name]][w])
      ensures Represents(LookedUp(table, s, name, entities, now).0)
      ensures LookedUp(table, s, name, entities, now).1 == Vectors(r)
    {
      hide *;
      LookedUpMeans(table, s, name, entities, now);
      forall q | 0 <= q < |s.followers| && (r.Some? ==> q != s.inputs[name])
        ensures Matches(table.preprocessors[q], s.followers[q])
      {
        MatchesIs(table.preprocessors[q], s.followers[q]);
      }
      if name in s.inputs {
        var q := s.inputs[name];
        table.ProcessorIs(name);
        table.SoundAt(q);
        SoundMeans(table.preprocessors[q], q, |table.columns|, table.allEvents, table.clock);
        SetAsMeans(table.preprocessors[q], s.followers[q]);
        MatchesUseless(table.preprocessors[q], s.followers[q], Log(s));
        if r.Some? {
          MatchesUpdated(table.preprocessors[q], s.followers[q], Log(s), now, states[q]);
          var keys := table.KeysOfEntities(s.followers[q].groupIds, entities);
          OutputDescribed(table.preprocessors[q], Updated(s.followers[q], Log(s), now), r.value, keys, Log(s));
        }
      }
      LookedUpLog(table, s, name, entities, now);
      Represent(LookedUp(table, s, name, entities, now).0);
    }

    // ---------- Any calls ----------

    /** All calls, one after the other: what the table answers is what the table without objects answers. */
    method Perform(calls: seq<Call>, ghost s: Table) returns (answers: seq<Answer>)
      requires Represents(s) && InOrder(calls, clock) && forall i :: 0 <= i < |calls| ==> Parsed(calls[i])
      modifies Parts()
      ensures forall o :: o in Parts() && o !in old(Parts()) ==> fresh(o)
      ensures Fit(table, s) && Represents(Run(table, s, calls).0) && answers == Run(table, s, calls).1
      ensures clock == if calls == [] then old(clock) else calls[|calls| - 1].now
    {
      hide *;
      Represented(s);
      NothingRun(table, s, calls);
      answers := [];
      var i := 0;
      while i < |calls|
        invariant i <= |calls| && Fit(table, s) && (forall j :: 0 <= j < |calls| ==> Parsed(calls[j]))
        invariant Represents(Run(table, s, calls[..i]).0) && answers == Run(table, s, calls[..i]).1
        invariant clock == if i == 0 then old(clock) else calls[i - 1].now
        invariant forall o :: o in Parts() && o !in old(Parts()) ==> fresh(o)
      {
        ghost var before := Run(table, s, calls[..i]).0;
        CallInOrder(calls, old(clock), i);
        OneMoreRun(table, s, calls, i);
        var answer := Answered(calls[i], before);
        answers := answers + [answer];
        i := i + 1;
      }
      assert calls[..i] == calls;
    }

    method Answered(call: Call, ghost s: Table) returns (answer: Answer)
      requires Represents(s) && clock <= call.now && Parsed(call)
      modifies Parts()
      ensures clock == call.now && forall o :: o in Parts() && o !in old(Parts()) ==> fresh(o)
      ensures Fit(table, s) && Represents(After(table, s, call).0) && After(table, s, call).1 == answer
    {
      hide *;
      Represented(s);
      AfterMeans(table, s, call);
      match call
      case AddEvent(row, now) =>
        var ok := AddEvent(row, now, s);
        answer := Done(ok);
      case CreatePreprocessor(name, info, now) =>
        var ok := CreatePreprocessor(name, info, now, s);
        answer := Done(ok);
      case GetModelInput(name, entities, now) =>
        var r := GetModelInput(name, entities, now, s);
        answer := Vectors(r);
    }
  }

  lemma RowAddedMeans(t: TableStore, s: Table, row: map<string, Cell>, now: int)
    requires Fit(t, s) && row.Keys == t.columnToId.Keys && InTime(s.rows, now)
    ensures var r, after := TableRow(row, now), RowAdded(t, s, row, now).0;
      && Fit(t, after) && InTime(after.rows, now)
      && after.rows == s.rows + [r] && after.ready == s.ready && after.inputs == s.inputs
      && |after.followers| == |s.followers| && (!s.ready ==> s.followers == [] && Log(s) == Log(after) == [])
      && (s.ready ==> |Log(s)| == |s.rows|)
      && (forall p :: 0 <= p < |s.followers| ==>
          && |s.followers[p].coverages| == |s.followers[p].info.windowTimes|
          && after.followers[p] == Told(s.followers[p], TableStore.EventOf(r), |s.rows|, now))
  {
    AfterMeans(t, s, AddEvent(row, now));
    AfterFits(t, s, AddEvent(row, now));
    FollowersFit(t, s);
    OneMoreInTime(s.rows, TableRow(row, now));
    hide Fit, InTime, After, TableStore.EventOf, Told;
  }

  lemma OneMoreInTime(rows: seq<TableRow>, r: TableRow)
    requires InTime(rows, r.timestamp)
    ensures InTime(rows + [r], r.timestamp)
  {
  }

  lemma FollowersFit(t: TableStore, s: Table)
    requires Fit(t, s)
    ensures forall p :: 0 <= p < |s.followers| ==> |s.followers[p].coverages| == |s.followers[p].info.windowTimes|
    ensures !s.ready ==> s.followers == []
  {
    hide Indexed, WellFormed;
  }

  lemma EachAllocated(ps: seq<PreProcessor>)
    ensures forall q, w :: 0 <= q < |ps| && 0 <= w < |ps[q].windows| ==> allocated(ps[q].windows[w])
    ensures forall w :: w in WindowsIn(ps) ==> allocated(w)
    ensures forall c :: c in ColumnsIn(ps) ==> allocated(c)
    ensures forall s :: s in SlotsIn(ps) ==> allocated(s)
  {
    AllPartsAllocated(ps);
  }

  lemma LoadedFits(t: TableStore, s: Table, now: int, clock: int)
    requires Fit(t, s) && InTime(s.rows, clock) && clock <= now
    ensures Fit(t, s.(ready := true)) && InTime(s.rows, now)
    ensures s.ready ==> s.(ready := true) == s
  {
    hide Indexed;
  }

  lemma LoadedFirst(t: TableStore, s: Table, name: string, c: PreProcessorInfo, now: int)
    requires Fit(t, s) && Fit(t, s.(ready := true)) && |c.info.operators| == |c.columnsToAggregate|
    ensures FollowerCreated(t, s, name, c, now) == FollowerCreated(t, s.(ready := true), name, c, now)
  {
    hide Indexed, TableStore.Acceptable, Log;
  }

  lemma NotCreated(t: TableStore, s: Table, name: string, c: PreProcessorInfo, now: int)
    requires Fit(t, s) && s.ready && |c.info.operators| == |c.columnsToAggregate| && !t.Acceptable(c)
    ensures FollowerCreated(t, s, name, c, now) == (s, Done(false))
  {
    hide Indexed, TableStore.Acceptable;
  }

  lemma FollowerCreatedMeans(t: TableStore, s: Table, name: string, c: PreProcessorInfo, now: int)
    requires Fit(t, s) && s.ready && |c.info.operators| == |c.info.defaults| == |c.columnsToAggregate|
    requires t.Acceptable(c) && t.columnToId.Keys == t.schema.Keys
    ensures var (after, answer) := FollowerCreated(t, s, name, c, now);
      && Fit(t, after) && answer == Done(true) && after.rows == s.rows && after.ready
      && after.inputs == s.inputs[name := |s.followers|] && |after.followers| == |s.followers| + 1
      && after.followers[..|s.followers|] == s.followers
      && after.followers[|s.followers|] == Follower(c.info, t.Ids(c.groupColumns), t.Ids(c.columnsToAggregate),
          FedCoverages(c.info.windowTimes, Log(s), now))
  {
    AfterFits(t, s, CreatePreprocessor(name, c, now));
    hide Indexed, TableStore.Acceptable, FedCoverages;
  }

  lemma OneKeyMeans(log: seq<TableEvent>, before: seq<TableEvent>, n: nat)
    requires OneMoreKey(log, before, n)
    ensures |log| == |before|
    ensures forall i :: 0 <= i < |log| ==> log[i].row == before[i].row && log[i].timestamp == before[i].timestamp
  {
  }

  lemma RowsOfLog(s: Table)
    requires s.ready
    ensures |Log(s)| == |s.rows|
    ensures forall i :: 0 <= i < |s.rows| ==>
      Log(s)[i].row == TableStore.RowCells(s.rows[i]) && Log(s)[i].timestamp == s.rows[i].timestamp
  {
  }

  lemma JoinedSets(ps: seq<PreProcessor>, p: PreProcessor)
    ensures forall w :: w in WindowsIn(ps + [p]) <==> w in WindowsIn(ps) || w in p.windows
    ensures ColumnsIn(ps + [p]) == ColumnsIn(ps) + p.AllColumns() && SlotsIn(ps + [p]) == SlotsIn(ps) + p.AllSlots()
  {
    hide PreProcessor.AllColumns, PreProcessor.AllSlots;
    var qs := ps + [p];
    assert forall q :: 0 <= q < |ps| ==> qs[q] == ps[q];
    assert qs[|ps|] == p;
    forall w | w in p.windows ensures w in WindowsIn(qs) {
      var i :| 0 <= i < |p.windows| && p.windows[i] == w;
      assert qs[|ps|].windows[i] == w;
    }
    forall w | w in WindowsIn(ps) ensures w in WindowsIn(qs) {
      var q, i :| 0 <= q < |ps| && 0 <= i < |ps[q].windows| && ps[q].windows[i] == w;
      assert qs[q].windows[i] == w;
    }
    forall c | c in ColumnsIn(ps) + p.AllColumns() ensures c in ColumnsIn(qs) {
      if c in ColumnsIn(ps) {
        var q :| 0 <= q < |ps| && c in ps[q].AllColumns();
        assert c in qs[q].AllColumns();
      } else {
        assert c in qs[|ps|].AllColumns();
      }
    }
    forall c | c in SlotsIn(ps) + p.AllSlots() ensures c in SlotsIn(qs) {
      if c in SlotsIn(ps) {
        var q :| 0 <= q < |ps| && c in ps[q].AllSlots();
        assert c in qs[q].AllSlots();
      } else {
        assert c in qs[|ps|].AllSlots();
      }
    }
  }

  ghost function StatesIn(ps: seq<PreProcessor>): (states: seq<seq<WindowState>>)
    reads WindowsIn(ps)
    ensures |states| == |ps|
    ensures forall p :: 0 <= p < |ps| ==> |states[p]| == |ps[p].windows| == |ps[p].Coverages()|
    ensures forall p, w :: 0 <= p < |ps| && 0 <= w < |ps[p].windows| ==> states[p][w] == StateOf(ps[p].windows[w])
    ensures forall p, w :: 0 <= p < |ps| && 0 <= w < |ps[p].windows| ==>
      ps[p].Coverages()[w] == Coverage(states[p][w].oldestIndex, states[p][w].covered)
  {
    if ps == [] then [] else StatesIn(ps[..|ps| - 1]) + [ps[|ps| - 1].States()]
  }

  lemma LookedUpMeans(t: TableStore, s: Table, name: string, entities: seq<seq<(string, string)>>, now: int)
    requires Fit(t, s)
    ensures name !in s.inputs ==> LookedUp(t, s, name, entities, now) == (s, Vectors(None))
    ensures name in s.inputs ==>
      var q := s.inputs[name];
      && q < |s.followers| && Fits(s.followers[q], |t.columns|)
      && var f := s.followers[q];
      && |f.info.operators| == |f.info.defaults| == |f.columnIds| && |f.coverages| == |f.info.windowTimes|
      && (forall k :: 0 <= k < |f.groupIds| ==> f.groupIds[k] < |t.columns|)
      && var keys, g := t.KeysOfEntities(f.groupIds, entities), Updated(f, Log(s), now);
      && g.info == f.info && g.columnIds == f.columnIds && g.groupIds == f.groupIds
      && LookedUp(t, s, name, entities, now) == if "" in keys || Useless(f, Log(s)) then (s, Vectors(None))
          else (s.(followers := s.followers[q := g]), Vectors(Some(Output(q, g, keys, Log(s)))))
    ensures Fit(t, LookedUp(t, s, name, entities, now).0)
  {
    AfterFits(t, s, GetModelInput(name, entities, now));
    hide Log, Output, Useless, Indexed;
  }

  /** The keys do not depend on what the windows cover. */
  lemma LookedUpLog(t: TableStore, s: Table, name: string, entities: seq<seq<(string, string)>>, now: int)
    requires Fit(t, s)
    ensures Log(LookedUp(t, s, name, entities, now).0) == Log(s)
  {
    hide *;
    LookedUpMeans(t, s, name, entities, now);
    if name in s.inputs {
      LogAlike(s, s.inputs[name], Updated(s.followers[s.inputs[name]], Log(s), now));
    }
  }

  lemma LogAlike(s: Table, q: nat, g: Follower)
    requires q < |s.followers| && g.groupIds == s.followers[q].groupIds
    ensures Log(s.(followers := s.followers[q := g])) == Log(s)
  {
    var after := s.followers[q := g];
    hide KeyFor, TableStore.RowCells;
    forall i | 0 <= i < |s.rows| ensures EventWith(after, s.rows[i]) == EventWith(s.followers, s.rows[i]) {
      assert forall p :: 0 <= p < |after| ==> after[p].groupIds == s.followers[p].groupIds;
    }
  }

  lemma AfterMeans(t: TableStore, s: Table, call: Call)
    requires Fit(t, s) && Parsed(call)
    ensures call.AddEvent? ==> After(t, s, call) == RowAdded(t, s, call.row, call.now)
    ensures call.CreatePreprocessor? ==> var c := call.info;
      && |c.info.operators| == |c.info.defaults| == |c.columnsToAggregate|
      && After(t, s, call) == FollowerCreated(t, s, call.name, c, call.now)
    ensures call.GetModelInput? ==> After(t, s, call) == LookedUp(t, s, call.name, call.entities, call.now)
  {
    hide Fit, RowAdded, FollowerCreated, LookedUp;
  }

  lemma NothingRun(t: TableStore, s: Table, calls: seq<Call>)
    requires Fit(t, s)
    ensures Run(t, s, calls[..0]) == (s, [])
  {
    hide Fit;
  }

  lemma OneMoreRun(t: TableStore, s: Table, calls: seq<Call>, i: nat)
    requires Fit(t, s) && i < |calls| && forall j :: 0 <= j < |calls| ==> Parsed(calls[j])
    ensures var (before, answers) := Run(t, s, calls[..i]);
      var (after, answer) := After(t, before, calls[i]);
      Run(t, s, calls[..i + 1]) == (after, answers + [answer])
  {
    hide Fit, After;
    assert calls[..i + 1][..i] == calls[..i];
  }

  lemma CallInOrder(calls: seq<Call>, clock: int, i: nat)
    requires InOrder(calls, clock) && i < |calls|
    ensures (if i == 0 then clock else calls[i - 1].now) <= calls[i].now
  {
  }

  lemma MatchesMeans(p: PreProcessor, f: Follower)
    requires Matches(p, f)
    ensures SetAs(p, f)
  {
  }

  lemma MatchesIs(p: PreProcessor, f: Follower)
    requires SetAs(p, f) && p.Coverages() == f.coverages
    ensures Matches(p, f)
  {
  }

  lemma SetAsMeans(p: PreProcessor, f: Follower)
    requires SetAs(p, f)
    ensures p.info == f.info && p.groupIds == f.groupIds && p.columnIds == f.columnIds
  {
  }

  lemma SoundMeans(p: PreProcessor, id: nat, width: nat, log: seq<TableEvent>, clock: int)
    requires Sound(p, id, width, log, |log|, clock)
    ensures p.id == id && p.Arranged()
  {
  }

  lemma SetAsIs(p: PreProcessor, f: Follower)
    requires p.info == f.info && p.groupIds == f.groupIds && p.columnIds == f.columnIds
    ensures SetAs(p, f)
  {
  }

  lemma ValidIsArranged(p: PreProcessor, log: seq<TableEvent>)
    requires p.Valid(log, |log|)
    ensures p.Arranged()
  {
  }

  twostate lemma OldParts(ps: seq<PreProcessor>)
    requires forall q, w :: 0 <= q < |ps| && 0 <= w < |ps[q].windows| ==>
      ps[q].windows[w].groupColumns == old(ps[q].windows[w].groupColumns)
    ensures ColumnsIn(ps) == old(ColumnsIn(ps)) && SlotsIn(ps) == old(SlotsIn(ps))
  {
    hide *;
    forall q | 0 <= q < |ps|
      ensures ps[q].AllColumns() == old(ps[q].AllColumns()) && ps[q].AllSlots() == old(ps[q].AllSlots())
    {
      ps[q].SameOwned();
    }
    SameParts(ps);
  }

  lemma NoParts(ps: seq<PreProcessor>)
    requires ps == []
    ensures WindowsIn(ps) == {} && ColumnsIn(ps) == {} && SlotsIn(ps) == {}
  {
  }

  lemma SetAsTold(p: PreProcessor, f: Follower, e: TableEvent, n: nat, now: int)
    requires SetAs(p, f) && |f.coverages| == |f.info.windowTimes|
    ensures SetAs(p, Told(f, e, n, now))
  {
  }

  lemma GrownLog(s: Table, events: seq<TableEvent>, r: TableRow)
    requires s.ready && |events| == |s.rows| + 1 && events[..|s.rows|] == Log(s)
    requires events[|s.rows|] == TableStore.EventOf(r).(groups := events[|s.rows|].groups)
    ensures forall i :: 0 <= i < |events| ==>
      && events[i].row == TableStore.RowCells((s.rows + [r])[i])
      && events[i].timestamp == (s.rows + [r])[i].timestamp
  {
    RowsOfLog(s);
    EventOfRow(r);
    hide *;
    var rows := s.rows + [r];
    forall i | 0 <= i < |events|
      ensures events[i].row == TableStore.RowCells(rows[i]) && events[i].timestamp == rows[i].timestamp
    {
      if i < |s.rows| {
        assert events[i] == events[..|s.rows|][i] && rows[i] == s.rows[i];
      }
    }
  }

  lemma EventOfRow(r: TableRow)
    ensures TableStore.EventOf(r).row == TableStore.RowCells(r) && TableStore.EventOf(r).timestamp == r.timestamp
  {
    hide TableStore.RowCells;
  }

  /**
   * An application's calls from the start, on a database that may hold rows from earlier: any interleaving of events,
   * new preprocessors and lookups. The answers are those of the table without objects, and every event ends up with
   * one key per preprocessor.
   */
  method Session(schema: map<string, string>, stored: seq<TableRow>, calls: seq<Call>, ghost clock: int)
    returns (manager: UserEventsManager, answers: seq<Answer>)
    requires InTime(stored, clock) && forall i :: 0 <= i < |stored| ==> stored[i].row.Keys == schema.Keys
    requires InOrder(calls, clock) && forall i :: 0 <= i < |calls| ==> Parsed(calls[i])
    ensures manager.table.schema == schema && Fit(manager.table, NewTable(stored))
    ensures var (after, expected) := Run(manager.table, NewTable(stored), calls);
      && answers == expected && manager.Represents(after)
    ensures manager.table.Valid()
    ensures var t := manager.table;
      forall i :: 0 <= i < |t.allEvents| ==> |t.allEvents[i].groups| == |t.preprocessors|
  {
    hide *;
    manager := new UserEventsManager(schema, stored, clock);
    answers := manager.Perform(calls, NewTable(stored));
    manager.Represented(Run(manager.table, NewTable(stored), calls).0);
    manager.table.Kept();
  }
}
