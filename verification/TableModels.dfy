/** A table without objects: its rows, its preprocessors, and which events each window covers. */
module TableModels {
  import opened Results
  import opened Aggregates
  import opened RollingWindows
  import opened GroupKeys
  import opened PreProcessors
  import opened TableStores
  import opened Lookups

  // ---------- Calls and states ----------

  datatype Call =
    | AddEvent(row: map<string, Cell>, now: int)
    | CreatePreprocessor(name: string, info: PreProcessorInfo, now: int)
    | GetModelInput(name: string, entities: seq<seq<(string, string)>>, now: int)

  datatype Answer = Done(ok: bool) | Vectors(values: Option<seq<real>>)

  /** A preprocessor: its setting, and what its windows cover. */
  datatype Follower = Follower(info: Info, groupIds: seq<nat>, columnIds: seq<nat>, coverages: seq<Coverage>)

  /** `inputs` says which preprocessor serves a model input; the rows are followed once the table is `ready`. */
  datatype Table = Table(rows: seq<TableRow>, ready: bool, followers: seq<Follower>, inputs: map<string, nat>)

  /** A table whose database may hold rows from earlier, before any call. */
  function NewTable(rows: seq<TableRow>): Table {
    Table(rows, false, [], map[])
  }

  function KeyFor(groupIds: seq<nat>, cells: seq<Cell>): string {
    if forall k :: 0 <= k < |groupIds| ==> groupIds[k] < |cells| then KeyOf(GroupCells(groupIds, cells)) else ""
  }

  /** A row with one key per preprocessor. */
  function EventWith(followers: seq<Follower>, r: TableRow): TableEvent {
    TableEvent(seq(|followers|, p requires 0 <= p < |followers| =>
      KeyFor(followers[p].groupIds, TableStore.RowCells(r))), r.timestamp, TableStore.RowCells(r))
  }

  /** The events of the table. */
  function Log(s: Table): (log: seq<TableEvent>)
    ensures |log| == if s.ready then |s.rows| else 0
  {
    if s.ready then seq(|s.rows|, i requires 0 <= i < |s.rows| => EventWith(s.followers, s.rows[i])) else []
  }

  // ---------- What states are possible ----------

  /** The lists of a preprocessor's JSON description come from one list of objects. */
  predicate Parsed(call: Call) {
    call.CreatePreprocessor? ==>
      |call.info.info.operators| == |call.info.info.defaults| == |call.info.columnsToAggregate|
  }

  predicate Fits(f: Follower, width: nat) {
    WellFormed(f.info, f.columnIds, f.groupIds, width) && |f.coverages| == |f.info.windowTimes|
  }

  predicate Fit(t: TableStore, s: Table) {
    && Indexed(t.schema, t.columns, t.columnToId)
    && (forall p :: 0 <= p < |s.followers| ==> Fits(s.followers[p], |t.columns|))
    && (forall name :: name in s.inputs ==> s.inputs[name] < |s.followers|)
    && (forall i :: 0 <= i < |s.rows| ==> s.rows[i].row.Keys == t.columnToId.Keys)
    && (!s.ready ==> s.followers == [] && s.inputs == map[])
  }

  /** In order of time, none from the future. */
  predicate InTime(rows: seq<TableRow>, clock: int) {
    && (forall i, j :: 0 <= i < j < |rows| ==> rows[i].timestamp <= rows[j].timestamp)
    && (forall i :: 0 <= i < |rows| ==> rows[i].timestamp <= clock)
  }

  predicate InOrder(calls: seq<Call>, clock: int) {
    && (forall i, j :: 0 <= i < j < |calls| ==> calls[i].now <= calls[j].now)
    && (forall i :: 0 <= i < |calls| ==> clock <= calls[i].now)
  }

  // ---------- One call ----------

  function Told(f: Follower, e: TableEvent, n: nat, now: int): Follower
    requires |f.coverages| == |f.info.windowTimes|
  {
    f.(coverages := seq(|f.coverages|, w requires 0 <= w < |f.coverages| =>
      Next(f.coverages[w], e, n, f.info.windowTimes[w], now)))
  }

  function FedCoverages(windowTimes: seq<real>, log: seq<TableEvent>, now: int): seq<Coverage> {
    seq(|windowTimes|, w requires 0 <= w < |windowTimes| => Fed(log, |log|, windowTimes[w], now))
  }

  /** A window after an update. */
  function Renewed(c: Coverage, log: seq<TableEvent>, windowTime: real, now: int): Coverage {
    var f := FirstFresh(log, windowTime, now, |log|);
    Coverage(if c.oldestIndex == -1 then -1 else f, if f == |log| then |log| else c.covered)
  }

  function Updated(f: Follower, log: seq<TableEvent>, now: int): Follower
    requires |f.coverages| == |f.info.windowTimes|
  {
    f.(coverages := seq(|f.coverages|, w requires 0 <= w < |f.coverages| =>
      Renewed(f.coverages[w], log, f.info.windowTimes[w], now)))
  }

  /** An operator was not known when the first group was met. */
  predicate Useless(f: Follower, log: seq<TableEvent>) {
    log != [] && f.info.windowTimes != [] && KnownOperators(f.info.operators) < |f.info.operators|
  }

  function RowAdded(t: TableStore, s: Table, row: map<string, Cell>, now: int): (Table, Answer)
    requires Fit(t, s)
  {
    if row.Keys != t.columnToId.Keys then (s, Done(false))
    else
      var r := TableRow(row, now);
      (s.(rows := s.rows + [r], followers := seq(|s.followers|, p requires 0 <= p < |s.followers| =>
        Told(s.followers[p], TableStore.EventOf(r), |s.rows|, now))), Done(true))
  }

  function FollowerCreated(t: TableStore, s: Table, name: string, c: PreProcessorInfo, now: int): (Table, Answer)
    requires Fit(t, s) && |c.info.operators| == |c.columnsToAggregate|
  {
    var loaded := s.(ready := true);
    if !t.Acceptable(c) then (loaded, Done(false))
    else
      var f := Follower(c.info, t.Ids(c.groupColumns), t.Ids(c.columnsToAggregate),
        FedCoverages(c.info.windowTimes, Log(loaded), now));
      (loaded.(followers := s.followers + [f], inputs := s.inputs[name := |s.followers|]), Done(true))
  }

  function LookedUp(t: TableStore, s: Table, name: string, entities: seq<seq<(string, string)>>,
      now: int): (Table, Answer)
    requires Fit(t, s)
  {
    if name !in s.inputs then (s, Vectors(None))
    else
      var p := s.inputs[name];
      var f := s.followers[p];
      assert Fits(f, |t.columns|);
      var keys := t.KeysOfEntities(f.groupIds, entities);
      if "" in keys || Useless(f, Log(s)) then (s, Vectors(None))
      else
        var g := Updated(f, Log(s), now);
        (s.(followers := s.followers[p := g]), Vectors(Some(Output(p, g, keys, Log(s)))))
  }

  function After(t: TableStore, s: Table, call: Call): (Table, Answer)
    requires Fit(t, s) && Parsed(call)
  {
    match call
    case AddEvent(row, now) => RowAdded(t, s, row, now)
    case CreatePreprocessor(name, info, now) => FollowerCreated(t, s, name, info, now)
    case GetModelInput(name, entities, now) => LookedUp(t, s, name, entities, now)
  }

  lemma AfterFits(t: TableStore, s: Table, call: Call)
    requires Fit(t, s) && Parsed(call)
    ensures Fit(t, After(t, s, call).0)
  {
    hide Indexed, TableStore.Acceptable, TableStore.Ids, WellFormed, Log, Output, Useless, TableStore.KeysOfEntities;
    if call.CreatePreprocessor? && t.Acceptable(call.info) {
      t.IdsFit(call.info);
    }
  }

  /** All calls one after the other, with their answers. */
  function Run(t: TableStore, s: Table, calls: seq<Call>): (r: (Table, seq<Answer>))
    requires Fit(t, s) && forall i :: 0 <= i < |calls| ==> Parsed(calls[i])
    ensures Fit(t, r.0) && |r.1| == |calls|
  {
    if calls == [] then (s, [])
    else
      var n := |calls| - 1;
      var (before, answers) := Run(t, s, calls[..n]);
      AfterFits(t, before, calls[n]);
      var (after, answer) := After(t, before, calls[n]);
      (after, answers + [answer])
  }

  // ---------- What a lookup hands out ----------

  /** All parts one after the other. */
  function Joined<T>(parts: seq<seq<T>>): seq<T> {
    if parts == [] then [] else Joined(parts[..|parts| - 1]) + parts[|parts| - 1]
  }

  lemma {:induction false} JoinedBlock<T>(parts: seq<seq<T>>, size: nat, w: nat)
    requires w < |parts| && forall i :: 0 <= i < |parts| ==> |parts[i]| == size
    ensures |Joined(parts)| == |parts| * size && Block(Joined(parts), w, |parts|, size) == parts[w]
  {
    var n := |parts| - 1;
    JoinedLength(parts[..n], size);
    if w < n {
      JoinedBlock(parts[..n], size, w);
    }
    BlockAppend(Joined(parts[..n]), parts[n], n, w);
  }

  lemma {:induction false} JoinedLength<T>(parts: seq<seq<T>>, size: nat)
    requires forall i :: 0 <= i < |parts| ==> |parts[i]| == size
    ensures |Joined(parts)| == |parts| * size
  {
    if parts != [] {
      var n := |parts| - 1;
      JoinedLength(parts[..n], size);
      assert |parts| * size == n * size + size;
    }
  }

  /** A vector of equal blocks is what its blocks make it. */
  lemma {:induction false} JoinedBlocks<T>(v: seq<T>, parts: seq<seq<T>>, size: nat)
    requires forall i :: 0 <= i < |parts| ==> |parts[i]| == size
    requires |v| == |parts| * size && forall w :: 0 <= w < |parts| ==> Block(v, w, |parts|, size) == parts[w]
    ensures v == Joined(parts)
  {
    if parts != [] {
      var n := |parts| - 1;
      BlockBounds(n, |parts|, size);
      assert n * size + size == |v|;
      var front := v[..n * size];
      forall w | 0 <= w < n ensures Block(front, w, n, size) == parts[..n][w] {
        BlockBounds(w, n, size);
        assert Block(front, w, n, size) == Block(v, w, |parts|, size);
      }
      JoinedBlocks(front, parts[..n], size);
      assert v == front + Block(v, n, |parts|, size);
    }
  }

  lemma RowsInside(t: TableStore, s: Table)
    requires Fit(t, s)
    ensures forall i :: 0 <= i < |Log(s)| ==> |Log(s)[i].row| == |t.columns|
    ensures forall i :: 0 <= i < |Log(s)| ==> Log(s)[i].timestamp == s.rows[i].timestamp
    ensures forall i :: 0 <= i < |Log(s)| ==> |Log(s)[i].groups| == |s.followers|
  {
    forall i | 0 <= i < |Log(s)| ensures |Log(s)[i].row| == |t.columns| {
      t.WidthOfRow(s.rows[i]);
    }
  }

  /** Every event has one key per preprocessor: that of its cells in the group columns. */
  lemma KeysInLog(t: TableStore, s: Table, p: nat)
    requires Fit(t, s) && p < |s.followers|
    ensures Fits(s.followers[p], |t.columns|)
    ensures forall i :: 0 <= i < |Log(s)| ==> KeyedBy(p, s.followers[p].groupIds, Log(s)[i])
  {
    RowsInside(t, s);
    hide KeyOf, GroupCells, Indexed;
  }

  lemma JoinedAt<T>(parts: seq<seq<T>>, size: nat, w: nat, k: nat)
    requires w < |parts| && k < size && forall i :: 0 <= i < |parts| ==> |parts[i]| == size
    ensures w * size + k < |Joined(parts)| == |parts| * size && Joined(parts)[w * size + k] == parts[w][k]
  {
    hide *;
    JoinedBlock(parts, size, w);
    BlockAt(Joined(parts), w, |parts|, size, k);
  }

  function RowsOf(p: nat, f: Follower, key: string, log: seq<TableEvent>): (rows: seq<seq<real>>)
    requires |f.info.operators| == |f.info.defaults| == |f.columnIds|
    ensures |rows| == |f.coverages|
    ensures forall w :: 0 <= w < |rows| ==> |rows[w]| == |f.columnIds|
    ensures forall w :: 0 <= w < |rows| ==> rows[w] == Row(p, f.columnIds, f.info, key, log, f.coverages[w].covered)
  {
    seq(|f.coverages|, w requires 0 <= w < |f.coverages| =>
      Row(p, f.columnIds, f.info, key, log, f.coverages[w].covered))
  }

  /** The vector of one group: the windows' rows one after the other. */
  function VectorOf(p: nat, f: Follower, key: string, log: seq<TableEvent>): (vector: seq<real>)
    requires |f.info.operators| == |f.info.defaults| == |f.columnIds|
    ensures |vector| == |f.coverages| * |f.columnIds|
  {
    JoinedLength(RowsOf(p, f, key, log), |f.columnIds|);
    Joined(RowsOf(p, f, key, log))
  }

  function VectorsOf(p: nat, f: Follower, keys: seq<string>, log: seq<TableEvent>): (vectors: seq<seq<real>>)
    requires |f.info.operators| == |f.info.defaults| == |f.columnIds|
    ensures |vectors| == |keys| && forall i :: 0 <= i < |vectors| ==> vectors[i] == VectorOf(p, f, keys[i], log)
  {
    seq(|keys|, i requires 0 <= i < |keys| => VectorOf(p, f, keys[i], log))
  }

  /** The vectors of the groups with the given keys. */
  function Output(p: nat, f: Follower, keys: seq<string>, log: seq<TableEvent>): seq<real>
    requires |f.info.operators| == |f.info.defaults| == |f.columnIds|
  {
    Joined(VectorsOf(p, f, keys, log))
  }

  /** Where the number for entity `i`, window `w` and column `k` is. */
  function Place(f: Follower, i: nat, w: nat, k: nat): nat {
    i * (|f.coverages| * |f.columnIds|) + (w * |f.columnIds| + k)
  }

  lemma OutputAt(p: nat, f: Follower, keys: seq<string>, log: seq<TableEvent>, i: nat, w: nat, k: nat)
    requires |f.info.operators| == |f.info.defaults| == |f.columnIds|
    requires i < |keys| && w < |f.coverages| && k < |f.columnIds|
    ensures Place(f, i, w, k) < |Output(p, f, keys, log)|
    ensures Output(p, f, keys, log)[Place(f, i, w, k)]
         == Row(p, f.columnIds, f.info, keys[i], log, f.coverages[w].covered)[k]
  {
    hide Row, Joined, RowsOf, VectorsOf;
    var size := |f.coverages| * |f.columnIds|;
    JoinedAt(RowsOf(p, f, keys[i], log), |f.columnIds|, w, k);
    assert VectorOf(p, f, keys[i], log) == Joined(RowsOf(p, f, keys[i], log));
    JoinedAt(VectorsOf(p, f, keys, log), size, i, w * |f.columnIds| + k);
  }

  // ---------- What an answer says ----------

  predicate AllRowsHave(log: seq<TableEvent>, width: nat) {
    forall i :: 0 <= i < |log| ==> |log[i].row| == width
  }

  predicate NoPlusSigns(f: Follower, log: seq<TableEvent>, width: nat)
    requires Fits(f, width) && AllRowsHave(log, width)
  {
    forall i :: 0 <= i < |log| ==> PlusFree(GroupCells(f.groupIds, log[i].row))
  }

  /** The `k`-th aggregate over those events from `low` on whose group columns hold the given cells. */
  function MatchingAggregate(f: Follower, cells: seq<string>, k: nat, log: seq<TableEvent>, low: nat, width: nat): real
    requires Fits(f, width) && AllRowsHave(log, width) && k < |f.columnIds|
  {
    var op := ParseOperator(f.info.operators[k]);
    Aggregate(if op.Known? then op.op else Count, f.info.integral,
      MatchingValues(f.groupIds, cells, f.columnIds[k], log, low, |log|), f.info.defaults[k])
  }

  lemma RowOfMatching(p: nat, f: Follower, cells: seq<string>, k: nat, log: seq<TableEvent>, low: nat, width: nat)
    requires Fits(f, width) && AllRowsHave(log, width) && NoPlusSigns(f, log, width) && k < |f.columnIds|
    requires |cells| == |f.groupIds| && PlusFree(cells)
    requires forall i :: 0 <= i < |log| ==> KeyedBy(p, f.groupIds, log[i])
    ensures Row(p, f.columnIds, f.info, KeyOf(cells), log, low)[k] == MatchingAggregate(f, cells, k, log, low, width)
  {
    hide KeyOf, GroupCells, PlusFree, Aggregate, Values, MatchingValues, ParseOperator;
    KeyStandsForCells(p, f.groupIds, cells, f.columnIds[k], log, low, |log|);
  }

  /** An entity that gives all its group columns has the key of its cells. */
  lemma KeyOfGiven(t: TableStore, groupIds: seq<nat>, entities: seq<seq<(string, string)>>, i: nat)
    requires forall k :: 0 <= k < |groupIds| ==> groupIds[k] < |t.columns|
    requires "" !in t.KeysOfEntities(groupIds, entities) && i < |entities|
    ensures |t.KeysOfEntities(groupIds, entities)| == |entities|
    ensures t.KeysOfEntities(groupIds, entities)[i] == KeyOf(t.CellsGiven(groupIds, entities[i]))
  {
    assert t.KeysOfEntities(groupIds, entities)[i] == t.KeyOfEntity(groupIds, entities[i]);
    hide KeyOf, Given;
  }

  lemma AnswerIsOutput(t: TableStore, s: Table, name: string, entities: seq<seq<(string, string)>>, now: int,
      vector: seq<real>)
    requires Fit(t, s) && LookedUp(t, s, name, entities, now).1 == Vectors(Some(vector))
    ensures name in s.inputs && s.inputs[name] < |s.followers|
    ensures var p := s.inputs[name];
      var f := s.followers[p];
      && Fits(f, |t.columns|) && "" !in t.KeysOfEntities(f.groupIds, entities)
      && Indexed(t.schema, t.columns, t.columnToId)
      && vector == Output(p, Updated(f, Log(s), now), t.KeysOfEntities(f.groupIds, entities), Log(s))
  {
    hide Indexed, Output, Log;
  }

  /**
   * An answer holds one number per entity, window and column: the aggregate over the covered events whose group
   * columns hold the entity's cells, when no cell has a plus sign.
   */
  lemma AnswerOfMatching(t: TableStore, s: Table, name: string, entities: seq<seq<(string, string)>>, now: int,
      vector: seq<real>, f: Follower, i: nat, w: nat, k: nat)
    requires Fit(t, s) && LookedUp(t, s, name, entities, now).1 == Vectors(Some(vector))
    requires name in s.inputs && f == s.followers[s.inputs[name]] && Fits(f, |t.columns|)
    requires AllRowsHave(Log(s), |t.columns|) && NoPlusSigns(f, Log(s), |t.columns|)
    requires i < |entities| && w < |f.coverages| && k < |f.columnIds|
    requires PlusFree(t.CellsGiven(f.groupIds, entities[i]))
    ensures var low := Renewed(f.coverages[w], Log(s), f.info.windowTimes[w], now).covered;
      && Place(f, i, w, k) < |vector|
      && vector[Place(f, i, w, k)]
          == MatchingAggregate(f, t.CellsGiven(f.groupIds, entities[i]), k, Log(s), low, |t.columns|)
  {
    hide *;
    FitsMeans(f, |t.columns|);
    var p, log, cells := s.inputs[name], Log(s), t.CellsGiven(f.groupIds, entities[i]);
    var g := Updated(f, log, now);
    var keys := t.KeysOfEntities(f.groupIds, entities);
    AnswerIsOutput(t, s, name, entities, now, vector);
    KeysInLog(t, s, p);
    KeyOfGiven(t, f.groupIds, entities, i);
    UpdatedAt(f, log, now, w);
    OutputAt(p, g, keys, log, i, w, k);
    RowOfMatching(p, f, cells, k, log, g.coverages[w].covered, |t.columns|);
  }

  lemma FitsMeans(f: Follower, width: nat)
    requires Fits(f, width)
    ensures |f.info.operators| == |f.info.defaults| == |f.columnIds| && |f.coverages| == |f.info.windowTimes|
    ensures forall k :: 0 <= k < |f.groupIds| ==> f.groupIds[k] < width
  {
  }

  lemma UpdatedAt(f: Follower, log: seq<TableEvent>, now: int, w: nat)
    requires |f.coverages| == |f.info.windowTimes| && w < |f.coverages|
    ensures |Updated(f, log, now).coverages| == |f.coverages| && Updated(f, log, now).(coverages := f.coverages) == f
    ensures Updated(f, log, now).coverages[w] == Renewed(f.coverages[w], log, f.info.windowTimes[w], now)
    ensures forall i, k :: Place(f, i, w, k) == Place(Updated(f, log, now), i, w, k)
  {
  }
}
