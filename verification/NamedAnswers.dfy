/** What a lookup answers, in terms of the names in a configuration and of the rows alone. */
module NamedAnswers {
  import opened Results
  import opened Aggregates
  import opened RollingWindows
  import opened GroupKeys
  import opened PreProcessors
  import opened TableStores
  import opened Lookups
  import opened TableModels
  import opened TableHistories

  // ---------- Rows by names ----------

  /** The row has the given texts in the named columns. */
  predicate RowHas(r: TableRow, names: seq<string>, texts: seq<string>) {
    |names| == |texts| && forall g :: 0 <= g < |names| ==> names[g] in r.row && r.row[names[g]].text == texts[g]
  }

  /** The numbers in a column of those of the rows `low..high` that have the given texts. */
  function NumbersOf(rows: seq<TableRow>, names: seq<string>, texts: seq<string>, column: string, low: nat,
      high: nat): seq<real>
    requires high <= |rows|
    decreases high
  {
    if high <= low then []
    else
      var r := rows[high - 1];
      NumbersOf(rows, names, texts, column, low, high - 1)
        + if RowHas(r, names, texts) && column in r.row then [r.row[column].number] else []
  }

  lemma CellsByName(t: TableStore, r: TableRow, ids: seq<nat>, names: seq<string>)
    requires Indexed(t.schema, t.columns, t.columnToId) && r.row.Keys == t.columnToId.Keys
    requires PositionsOf(ids, names, t.columns)
    ensures |TableStore.RowCells(r)| == |t.columns|
    ensures forall k :: 0 <= k < |ids| ==>
      ids[k] < |t.columns| && names[k] in r.row && TableStore.RowCells(r)[ids[k]] == r.row[names[k]]
  {
    t.WidthOfRow(r);
    hide Indexed, TableStore.RowCells;
  }

  /** A row matches by positions exactly when it matches by names. */
  lemma RowMatches(t: TableStore, r: TableRow, ids: seq<nat>, names: seq<string>, texts: seq<string>)
    requires Indexed(t.schema, t.columns, t.columnToId) && r.row.Keys == t.columnToId.Keys
    requires PositionsOf(ids, names, t.columns) && |texts| == |names|
    ensures |TableStore.RowCells(r)| == |t.columns| && forall k :: 0 <= k < |ids| ==> ids[k] < |t.columns|
    ensures GroupCells(ids, TableStore.RowCells(r)) == texts <==> RowHas(r, names, texts)
  {
    CellsByName(t, r, ids, names);
    hide Indexed, TableStore.RowCells;
    var cells := GroupCells(ids, TableStore.RowCells(r));
    assert forall g :: 0 <= g < |names| ==> cells[g] == r.row[names[g]].text;
  }

  /** The event matches by positions when the row matches by names, and has its number. */
  ghost predicate Tells(e: TableEvent, r: TableRow, groupIds: seq<nat>, names: seq<string>, texts: seq<string>,
      columnId: nat, column: string)
  {
    && (forall k :: 0 <= k < |groupIds| ==> groupIds[k] < |e.row|) && columnId < |e.row| && column in r.row
    && e.row[columnId] == r.row[column] && (GroupCells(groupIds, e.row) == texts <==> RowHas(r, names, texts))
  }

  lemma EventTells(t: TableStore, s: Table, groupIds: seq<nat>, names: seq<string>, texts: seq<string>,
      columnId: nat, column: string, i: nat)
    requires Fit(t, s) && s.ready && i < |s.rows| && |texts| == |names|
    requires PositionsOf(groupIds, names, t.columns) && PositionsOf([columnId], [column], t.columns)
    ensures Tells(Log(s)[i], s.rows[i], groupIds, names, texts, columnId, column)
  {
    var r, e := s.rows[i], Log(s)[i];
    assert e.row == TableStore.RowCells(r);
    assert [columnId][0] == columnId && [column][0] == column;
    RowMatches(t, r, groupIds, names, texts);
    CellsByName(t, r, [columnId], [column]);
    hide Fit, Log, GroupCells, RowHas, TableStore.RowCells, PositionsOf;
    assert TableStore.RowCells(r)[[columnId][0]] == r.row[[column][0]];
  }

  lemma TellsCells(log: seq<TableEvent>, rows: seq<TableRow>, groupIds: seq<nat>, names: seq<string>,
      texts: seq<string>, columnId: nat, column: string)
    requires |log| == |rows|
    requires forall i :: 0 <= i < |log| ==> Tells(log[i], rows[i], groupIds, names, texts, columnId, column)
    ensures forall i :: 0 <= i < |log| ==> columnId < |log[i].row|
    ensures forall i, k :: 0 <= i < |log| && 0 <= k < |groupIds| ==> groupIds[k] < |log[i].row|
  {
    forall i | 0 <= i < |log|
      ensures columnId < |log[i].row| && forall k :: 0 <= k < |groupIds| ==> groupIds[k] < |log[i].row|
    {
      assert Tells(log[i], rows[i], groupIds, names, texts, columnId, column);
    }
  }

  lemma {:induction false} ValuesAlike(log: seq<TableEvent>, rows: seq<TableRow>, groupIds: seq<nat>,
      names: seq<string>, texts: seq<string>, columnId: nat, column: string, low: nat, high: nat)
    requires high <= |log| == |rows|
    requires forall i :: 0 <= i < |log| ==> Tells(log[i], rows[i], groupIds, names, texts, columnId, column)
    ensures forall i :: low <= i < high ==> columnId < |log[i].row|
    ensures forall i, k :: low <= i < high && 0 <= k < |groupIds| ==> groupIds[k] < |log[i].row|
    ensures MatchingValues(groupIds, texts, columnId, log, low, high)
         == NumbersOf(rows, names, texts, column, low, high)
    decreases high
  {
    TellsCells(log, rows, groupIds, names, texts, columnId, column);
    if low < high {
      ValuesAlike(log, rows, groupIds, names, texts, columnId, column, low, high - 1);
      assert Tells(log[high - 1], rows[high - 1], groupIds, names, texts, columnId, column);
      hide GroupCells, RowHas;
    }
  }

  /** What matches by positions in the log is what matches by names in the rows. */
  lemma ValuesByName(t: TableStore, s: Table, groupIds: seq<nat>, names: seq<string>, texts: seq<string>,
      columnId: nat, column: string, low: nat, high: nat)
    requires Fit(t, s) && s.ready && high <= |s.rows| && |texts| == |names|
    requires PositionsOf(groupIds, names, t.columns) && PositionsOf([columnId], [column], t.columns)
    requires AllRowsHave(Log(s), |t.columns|)
    ensures forall k :: 0 <= k < |groupIds| ==> groupIds[k] < |t.columns|
    ensures columnId < |t.columns|
    ensures MatchingValues(groupIds, texts, columnId, Log(s), low, high)
         == NumbersOf(s.rows, names, texts, column, low, high)
  {
    assert [columnId][0] == columnId;
    forall i | 0 <= i < |s.rows| ensures Tells(Log(s)[i], s.rows[i], groupIds, names, texts, columnId, column) {
      EventTells(t, s, groupIds, names, texts, columnId, column, i);
    }
    hide Fit, Log, Tells;
    ValuesAlike(Log(s), s.rows, groupIds, names, texts, columnId, column, low, high);
  }

  // ---------- Which configuration a model input has ----------

  /** The call makes a preprocessor for the model input. */
  predicate Creates(call: Call, answer: Answer, name: string) {
    call.CreatePreprocessor? && call.name == name && answer == Done(true)
  }

  /** Call `i` is the last that makes one. */
  ghost predicate CreatedLast(calls: seq<Call>, answers: seq<Answer>, name: string, i: nat) {
    && i < |calls| == |answers| && Creates(calls[i], answers[i], name)
    && forall j :: i < j < |calls| ==> !Creates(calls[j], answers[j], name)
  }

  /** The model input has the configuration, its names turned into positions. */
  ghost predicate SetBy(t: TableStore, s: Table, name: string, c: PreProcessorInfo) {
    && name in s.inputs && s.inputs[name] < |s.followers|
    && var f := s.followers[s.inputs[name]];
    && f.info == c.info && PositionsOf(f.groupIds, c.groupColumns, t.columns)
    && PositionsOf(f.columnIds, c.columnsToAggregate, t.columns)
  }

  /** The model input keeps its preprocessor, and all preprocessors their settings. */
  ghost predicate Follows(s: Table, after: Table, name: string) {
    && (name in after.inputs <==> name in s.inputs) && (name in s.inputs ==> after.inputs[name] == s.inputs[name])
    && |s.followers| <= |after.followers|
    && forall p :: 0 <= p < |s.followers| ==> var (f, g) := (s.followers[p], after.followers[p]);
         f.info == g.info && f.groupIds == g.groupIds && f.columnIds == g.columnIds
  }

  lemma FollowsKeeps(t: TableStore, s: Table, after: Table, name: string)
    requires Follows(s, after, name)
    ensures forall c :: SetBy(t, s, name, c) ==> SetBy(t, after, name, c)
  {
    hide PositionsOf;
  }

  lemma AddedFollows(t: TableStore, s: Table, row: map<string, Cell>, now: int, name: string)
    requires Fit(t, s)
    ensures Follows(s, RowAdded(t, s, row, now).0, name)
  {
    hide Indexed, Next, TableStore.EventOf;
  }

  lemma LookedUpFollows(t: TableStore, s: Table, other: string, entities: seq<seq<(string, string)>>, now: int,
      name: string)
    requires Fit(t, s)
    ensures Follows(s, LookedUp(t, s, other, entities, now).0, name)
  {
    hide Indexed, Log, Output, Useless, TableStore.KeysOfEntities, Renewed;
  }

  lemma CreatedSets(t: TableStore, s: Table, other: string, c: PreProcessorInfo, now: int, name: string)
    requires Fit(t, s) && |c.info.operators| == |c.columnsToAggregate|
    ensures var (after, answer) := FollowerCreated(t, s, other, c, now);
      if t.Acceptable(c) && other == name then answer == Done(true) && name in after.inputs && SetBy(t, after, name, c)
      else (answer == Done(true) ==> other != name) && Follows(s, after, name)
  {
    hide Indexed, PositionsOf, Log, TableStore.Acceptable, TableStore.Ids, FedCoverages;
    if t.Acceptable(c) {
      var f := CreatedFollower(t, s, other, c, now);
      var after := FollowerCreated(t, s, other, c, now).0;
      hide FollowerCreated, Fit;
      assert after.followers[|s.followers|] == f;
    }
  }

  lemma CreatedFollower(t: TableStore, s: Table, other: string, c: PreProcessorInfo, now: int) returns (f: Follower)
    requires Fit(t, s) && |c.info.operators| == |c.columnsToAggregate| && t.Acceptable(c)
    ensures f.info == c.info && PositionsOf(f.groupIds, c.groupColumns, t.columns)
    ensures PositionsOf(f.columnIds, c.columnsToAggregate, t.columns)
    ensures var (after, answer) := FollowerCreated(t, s, other, c, now);
      after.followers == s.followers + [f] && after.inputs == s.inputs[other := |s.followers|] && answer == Done(true)
  {
    AcceptedPositions(t, c);
    hide Indexed, PositionsOf, Log, TableStore.Acceptable, TableStore.Ids, FedCoverages;
    f := FollowerCreated(t, s, other, c, now).0.followers[|s.followers|];
  }

  lemma AcceptedPositions(t: TableStore, c: PreProcessorInfo)
    requires Indexed(t.schema, t.columns, t.columnToId) && |c.info.operators| == |c.columnsToAggregate|
    requires t.Acceptable(c)
    ensures PositionsOf(t.Ids(c.groupColumns), c.groupColumns, t.columns)
    ensures PositionsOf(t.Ids(c.columnsToAggregate), c.columnsToAggregate, t.columns)
  {
    t.IdsArePositions(c.groupColumns);
    t.IdsArePositions(c.columnsToAggregate);
  }

  lemma AfterSetting(t: TableStore, s: Table, call: Call, name: string)
    requires Fit(t, s) && Parsed(call)
    ensures var (after, answer) := After(t, s, call);
      && (Creates(call, answer, name) ==> name in after.inputs && SetBy(t, after, name, call.info))
      && (!Creates(call, answer, name) ==>
          (name in after.inputs <==> name in s.inputs)
          && forall c :: SetBy(t, s, name, c) ==> SetBy(t, after, name, c))
  {
    var (after, answer) := After(t, s, call);
    match call {
      case AddEvent(row, now) => AddedFollows(t, s, row, now, name);
      case CreatePreprocessor(other, info, now) => CreatedSets(t, s, other, info, now, name);
      case GetModelInput(other, entities, now) => LookedUpFollows(t, s, other, entities, now, name);
    }
    hide Fit, SetBy, RowAdded, FollowerCreated, LookedUp, TableStore.Acceptable;
    if Follows(s, after, name) {
      FollowsKeeps(t, s, after, name);
    }
  }

  /**
   * A model input has a preprocessor exactly when some call made one for it, and then its configuration is that of
   * the last such call.
   */
  lemma {:induction false} RunSetting(t: TableStore, rows: seq<TableRow>, calls: seq<Call>, name: string)
    requires Fit(t, NewTable(rows)) && forall i :: 0 <= i < |calls| ==> Parsed(calls[i])
    ensures var (s, answers) := Run(t, NewTable(rows), calls);
      && (name in s.inputs <==> exists i: nat :: CreatedLast(calls, answers, name, i))
      && forall i: nat :: CreatedLast(calls, answers, name, i) ==> SetBy(t, s, name, calls[i].info)
    decreases |calls|
  {
    hide Fit, After, SetBy, Creates;
    if calls != [] {
      var n := |calls| - 1;
      var front := calls[..n];
      RunSetting(t, rows, front, name);
      var (before, answers) := Run(t, NewTable(rows), front);
      var (after, answer) := After(t, before, calls[n]);
      AfterSetting(t, before, calls[n], name);
      assert front + [calls[n]] == calls;
      assert Run(t, NewTable(rows), calls) == (after, answers + [answer]);
      hide Run, CreatedLast;
      OneMoreCall(t, before, after, front, answers, calls[n], answer, name);
    }
  }

  /** After one more call the last creation is this call, or the one before. */
  lemma OneMoreCall(t: TableStore, before: Table, after: Table, front: seq<Call>, answers: seq<Answer>, call: Call,
      answer: Answer, name: string)
    requires |front| == |answers|
    requires name in before.inputs <==> exists i: nat :: CreatedLast(front, answers, name, i)
    requires forall i: nat :: CreatedLast(front, answers, name, i) ==> SetBy(t, before, name, front[i].info)
    requires Creates(call, answer, name) ==> name in after.inputs && SetBy(t, after, name, call.info)
    requires !Creates(call, answer, name) ==>
      (name in after.inputs <==> name in before.inputs)
      && forall c :: SetBy(t, before, name, c) ==> SetBy(t, after, name, c)
    ensures name in after.inputs <==> exists i: nat :: CreatedLast(front + [call], answers + [answer], name, i)
    ensures forall i: nat :: CreatedLast(front + [call], answers + [answer], name, i) ==>
      SetBy(t, after, name, (front + [call])[i].info)
  {
    LastCreation(front, answers, call, answer, name);
    hide SetBy;
    var calls, all := front + [call], answers + [answer];
    forall i: nat | CreatedLast(calls, all, name, i)
      ensures calls[i].CreatePreprocessor? && SetBy(t, after, name, calls[i].info)
    {
      CreatedCall(calls, all, name, i);
      if !Creates(call, answer, name) {
        CreatedCall(front, answers, name, i);
        assert front[i] == calls[i] && SetBy(t, before, name, front[i].info);
      }
    }
    hide CreatedLast, Creates;
    if Creates(call, answer, name) {
      assert CreatedLast(calls, all, name, |front|);
    }
  }

  lemma CreatedCall(calls: seq<Call>, answers: seq<Answer>, name: string, i: nat)
    requires CreatedLast(calls, answers, name, i)
    ensures i < |calls| && calls[i].CreatePreprocessor? && calls[i].name == name
  {
  }

  lemma LastCreation(front: seq<Call>, answers: seq<Answer>, call: Call, answer: Answer, name: string)
    requires |front| == |answers|
    ensures forall i: nat :: CreatedLast(front + [call], answers + [answer], name, i) <==>
      if Creates(call, answer, name) then i == |front| else CreatedLast(front, answers, name, i)
  {
    hide Creates;
    var calls, all := front + [call], answers + [answer];
    assert forall j :: 0 <= j < |front| ==> calls[j] == front[j] && all[j] == answers[j];
    assert calls[|front|] == call && all[|front|] == answer;
  }

  // ---------- One number of an answer ----------

  /** Where the number for entity `e`, window `w` and column `k` is. */
  function NumberAt(c: PreProcessorInfo, e: nat, w: nat, k: nat): nat {
    e * (|c.info.windowTimes| * |c.columnsToAggregate|) + (w * |c.columnsToAggregate| + k)
  }

  /** The entity gives the texts for the named columns. */
  ghost predicate GivesAll(entity: seq<(string, string)>, names: seq<string>, texts: seq<string>) {
    |names| == |texts| && forall g :: 0 <= g < |names| ==> Gives(entity, names[g], texts[g])
  }

  /** No row has a plus sign in the named columns. */
  predicate NoPluses(rows: seq<TableRow>, names: seq<string>) {
    forall j, g :: 0 <= j < |rows| && 0 <= g < |names| && names[g] in rows[j].row ==> '+' !in rows[j].row[names[g]].text
  }

  lemma SettingOf(t: TableStore, s: Table, name: string, c: PreProcessorInfo) returns (f: Follower)
    requires Fit(t, s) && SetBy(t, s, name, c)
    ensures Indexed(t.schema, t.columns, t.columnToId) && s.ready
    ensures name in s.inputs && s.inputs[name] < |s.followers| && f == s.followers[s.inputs[name]]
    ensures f.info == c.info && Fits(f, |t.columns|)
    ensures PositionsOf(f.groupIds, c.groupColumns, t.columns)
    ensures PositionsOf(f.columnIds, c.columnsToAggregate, t.columns)
    ensures |f.groupIds| == |c.groupColumns| && |f.columnIds| == |c.columnsToAggregate|
    ensures |f.coverages| == |c.info.windowTimes| && |c.info.operators| == |c.info.defaults| == |c.columnsToAggregate|
    ensures forall k :: 0 <= k < |f.groupIds| ==> f.groupIds[k] < |t.columns|
  {
    f := s.followers[s.inputs[name]];
    hide Indexed;
  }

  lemma CellsGivenAre(t: TableStore, ids: seq<nat>, names: seq<string>, entity: seq<(string, string)>,
      texts: seq<string>)
    requires PositionsOf(ids, names, t.columns) && GivesAll(entity, names, texts)
    ensures forall k :: 0 <= k < |ids| ==> ids[k] < |t.columns|
    ensures t.CellsGiven(ids, entity) == texts
  {
    forall g | 0 <= g < |ids| ensures Given(entity, t.columns[ids[g]]) == Some(texts[g]) {
      GivenExact(entity, names[g]);
    }
    hide Given, Gives;
  }

  lemma NoPlusesInLog(t: TableStore, s: Table, f: Follower, names: seq<string>)
    requires Fit(t, s) && s.ready && Fits(f, |t.columns|) && PositionsOf(f.groupIds, names, t.columns)
    requires NoPluses(s.rows, names)
    ensures AllRowsHave(Log(s), |t.columns|) && NoPlusSigns(f, Log(s), |t.columns|)
  {
    RowsInside(t, s);
    forall i | 0 <= i < |s.rows| ensures PlusFree(GroupCells(f.groupIds, Log(s)[i].row)) {
      assert Log(s)[i].row == TableStore.RowCells(s.rows[i]);
      CellsByName(t, s.rows[i], f.groupIds, names);
      hide Log, TableStore.RowCells, Fit;
      var cells := GroupCells(f.groupIds, Log(s)[i].row);
      forall g | 0 <= g < |cells| ensures '+' !in cells[g] {
        assert cells[g] == s.rows[i].row[names[g]].text;
      }
    }
    hide Log, Fit;
  }

  /** An unknown operator can only be asked of a table without rows. */
  lemma KnownUnlessEmpty(t: TableStore, s: Table, name: string, entities: seq<seq<(string, string)>>, now: int,
      vector: seq<real>, f: Follower, k: nat)
    requires Fit(t, s) && LookedUp(t, s, name, entities, now).1 == Vectors(Some(vector))
    requires name in s.inputs && f == s.followers[s.inputs[name]] && f.info.windowTimes != [] && k < |f.info.operators|
    ensures Log(s) == [] || ParseOperator(f.info.operators[k]).Known?
  {
    assert !Useless(f, Log(s));
    hide Fit, LookedUp, Log, ParseOperator;
    AllKnown(f.info.operators);
  }

  lemma {:induction false} AllKnown(names: seq<string>)
    ensures KnownOperators(names) == |names| ==> forall k :: 0 <= k < |names| ==> ParseOperator(names[k]).Known?
  {
    hide ParseOperator;
    if names != [] && ParseOperator(names[0]).Known? {
      AllKnown(names[1..]);
    }
  }

  lemma AggregateByName(name: string, integral: bool, vs: seq<real>, default: real)
    ensures var op := ParseOperator(name);
      op.Known? || vs == [] ==>
        IsAggregate(name, integral, vs, default, Aggregate(if op.Known? then op.op else Count, integral, vs, default))
  {
    var op := ParseOperator(name);
    if op.Known? {
      AggregateIs(name, op.op, integral, vs, default);
    }
    hide Total, Extreme, Quotient, Whole, Short;
  }

  /** In any state of the table: a number is the named aggregate of the numbers in the rows that match. */
  lemma NumberByNames(t: TableStore, s: Table, name: string, entities: seq<seq<(string, string)>>, now: int,
      vector: seq<real>, c: PreProcessorInfo, e: nat, w: nat, k: nat, texts: seq<string>)
    requires Fit(t, s) && LookedUp(t, s, name, entities, now).1 == Vectors(Some(vector)) && SetBy(t, s, name, c)
    requires e < |entities| && w < |c.info.windowTimes| && k < |c.columnsToAggregate|
    requires GivesAll(entities[e], c.groupColumns, texts) && PlusFree(texts) && NoPluses(s.rows, c.groupColumns)
    ensures name in s.inputs && s.inputs[name] < |s.followers| && s.ready
    ensures var f := s.followers[s.inputs[name]];
      && w < |f.coverages| && k < |c.info.operators| == |c.info.defaults| && NumberAt(c, e, w, k) < |vector|
      && var low := Renewed(f.coverages[w], Log(s), c.info.windowTimes[w], now).covered;
      IsAggregate(c.info.operators[k], c.info.integral,
        NumbersOf(s.rows, c.groupColumns, texts, c.columnsToAggregate[k], low, |s.rows|),
        c.info.defaults[k], vector[NumberAt(c, e, w, k)])
  {
    hide *;
    var f := SettingOf(t, s, name, c);
    var log, low := Log(s), Renewed(f.coverages[w], Log(s), c.info.windowTimes[w], now).covered;
    CellsGivenAre(t, f.groupIds, c.groupColumns, entities[e], texts);
    NoPlusesInLog(t, s, f, c.groupColumns);
    AnswerOfMatching(t, s, name, entities, now, vector, f, e, w, k);
    PlaceIs(f, c, e, w, k);
    OnePosition(f.columnIds, c.columnsToAggregate, t.columns, k);
    ValuesByName(t, s, f.groupIds, c.groupColumns, texts, f.columnIds[k], c.columnsToAggregate[k], low, |s.rows|);
    KnownUnlessEmpty(t, s, name, entities, now, vector, f, k);
    var vs := NumbersOf(s.rows, c.groupColumns, texts, c.columnsToAggregate[k], low, |s.rows|);
    NoNumbers(s.rows, c.groupColumns, texts, c.columnsToAggregate[k], low);
    AggregateByName(c.info.operators[k], c.info.integral, vs, c.info.defaults[k]);
    MatchingIs(f, texts, k, log, low, |t.columns|);
  }

  lemma PlaceIs(f: Follower, c: PreProcessorInfo, e: nat, w: nat, k: nat)
    requires |f.coverages| == |c.info.windowTimes| && |f.columnIds| == |c.columnsToAggregate|
    ensures Place(f, e, w, k) == NumberAt(c, e, w, k)
  {
  }

  lemma OnePosition(ids: seq<nat>, names: seq<string>, columns: seq<string>, k: nat)
    requires PositionsOf(ids, names, columns) && k < |ids|
    ensures k < |names| && PositionsOf([ids[k]], [names[k]], columns)
  {
  }

  lemma NoNumbers(rows: seq<TableRow>, names: seq<string>, texts: seq<string>, column: string, low: nat)
    ensures rows == [] ==> NumbersOf(rows, names, texts, column, low, |rows|) == []
  {
  }

  lemma MatchingIs(f: Follower, cells: seq<string>, k: nat, log: seq<TableEvent>, low: nat, width: nat)
    requires Fits(f, width) && AllRowsHave(log, width) && k < |f.columnIds|
    ensures var op := ParseOperator(f.info.operators[k]);
      MatchingAggregate(f, cells, k, log, low, width) == Aggregate(if op.Known? then op.op else Count, f.info.integral,
        MatchingValues(f.groupIds, cells, f.columnIds[k], log, low, |log|), f.info.defaults[k])
  {
    hide Aggregate, MatchingValues, ParseOperator;
  }

  /** A preprocessor is made, and an event taken, exactly when the columns are the table's. */
  lemma AnswersToOthers(t: TableStore, s: Table, call: Call)
    requires Fit(t, s) && Parsed(call)
    ensures call.AddEvent? ==> After(t, s, call).1 == Done(call.row.Keys == t.schema.Keys)
    ensures call.CreatePreprocessor? ==> (After(t, s, call).1 == Done(true) <==> Suits(t.schema, call.info))
    ensures call.CreatePreprocessor? ==> (After(t, s, call).1 == Done(false) <==> !Suits(t.schema, call.info))
  {
    t.KeysOfSchema();
    if call.CreatePreprocessor? {
      t.AcceptableSuits(call.info);
    }
    hide Indexed, Suits, TableStore.Acceptable, Log, Output, Useless;
  }

  // ---------- When there is no answer ----------

  const OPERATORS := {"Sum", "Count", "Min", "Max", "Avg"}

  /** An entity does not give a group column, or there is none; or an operator is not known and a row has shown it. */
  ghost predicate Unanswered(c: PreProcessorInfo, entities: seq<seq<(string, string)>>, rows: seq<TableRow>) {
    || (exists e, g :: 0 <= e < |entities| && 0 <= g < |c.groupColumns| && Lacks(entities[e], c.groupColumns[g]))
    || (c.groupColumns == [] && entities != [])
    || (rows != [] && c.info.windowTimes != []
        && exists k :: 0 <= k < |c.info.operators| && c.info.operators[k] !in OPERATORS)
  }

  predicate Lacks(entity: seq<(string, string)>, column: string) {
    forall j :: 0 <= j < |entity| ==> entity[j].0 != column
  }

  lemma NoKeyExactly(t: TableStore, ids: seq<nat>, names: seq<string>, entity: seq<(string, string)>)
    requires PositionsOf(ids, names, t.columns)
    ensures forall k :: 0 <= k < |ids| ==> ids[k] < |t.columns|
    ensures t.KeyOfEntity(ids, entity) == "" <==>
      names == [] || exists g :: 0 <= g < |names| && Lacks(entity, names[g])
  {
    forall g | 0 <= g < |names| ensures Given(entity, names[g]).None? <==> Lacks(entity, names[g]) {
      GivenExact(entity, names[g]);
    }
    var cells := t.CellsGiven(ids, entity);
    if cells != [] {
      KeyOfFront(cells);
    }
    hide Given, Lacks, Gives, TableStore.CellsGiven;
    assert forall k :: 0 <= k < |ids| ==> t.columns[ids[k]] == names[k];
  }

  lemma NoKeyAmong(t: TableStore, ids: seq<nat>, names: seq<string>, entities: seq<seq<(string, string)>>)
    requires PositionsOf(ids, names, t.columns)
    ensures forall k :: 0 <= k < |ids| ==> ids[k] < |t.columns|
    ensures "" in t.KeysOfEntities(ids, entities) <==>
      || (exists e, g :: 0 <= e < |entities| && 0 <= g < |names| && Lacks(entities[e], names[g]))
      || (names == [] && entities != [])
  {
    forall e | 0 <= e < |entities|
      ensures t.KeyOfEntity(ids, entities[e]) == "" <==>
        names == [] || exists g :: 0 <= g < |names| && Lacks(entities[e], names[g])
    {
      NoKeyExactly(t, ids, names, entities[e]);
    }
    hide TableStore.KeyOfEntity, Lacks;
    var keys := t.KeysOfEntities(ids, entities);
    assert forall e :: 0 <= e < |entities| ==> keys[e] == t.KeyOfEntity(ids, entities[e]);
    assert entities != [] ==> keys[0] in keys;
  }

  lemma {:induction false} UnknownAmong(names: seq<string>)
    ensures KnownOperators(names) < |names| <==> exists k :: 0 <= k < |names| && names[k] !in OPERATORS
  {
    if names != [] {
      UnknownAmong(names[1..]);
      assert forall k :: 1 <= k < |names| ==> names[k] == names[1..][k - 1];
    }
  }

  /** In any state of the table a lookup is not answered exactly then. */
  lemma UnansweredExactly(t: TableStore, s: Table, name: string, entities: seq<seq<(string, string)>>, now: int,
      c: PreProcessorInfo)
    requires Fit(t, s) && SetBy(t, s, name, c)
    ensures LookedUp(t, s, name, entities, now).1 == Vectors(None) <==> Unanswered(c, entities, s.rows)
  {
    var f := SettingOf(t, s, name, c);
    NoKeyAmong(t, f.groupIds, c.groupColumns, entities);
    UnknownAmong(c.info.operators);
    hide Fit, SetBy, Output, KnownOperators, TableStore.KeysOfEntities, Lacks, PositionsOf;
    assert Log(s) == [] <==> s.rows == [];
  }

  // ---------- Over any run ----------

  /** The table when call `n` comes. */
  ghost function Before(t: TableStore, rows: seq<TableRow>, calls: seq<Call>, n: nat): (r: (Table, seq<Answer>))
    requires Fit(t, NewTable(rows)) && n <= |calls| && forall i :: 0 <= i < |calls| ==> Parsed(calls[i])
    ensures Fit(t, r.0) && |r.1| == n
  {
    Run(t, NewTable(rows), calls[..n])
  }

  lemma {:induction false} AnswerAt(t: TableStore, rows: seq<TableRow>, calls: seq<Call>, n: nat)
    requires Fit(t, NewTable(rows)) && n < |calls| && forall i :: 0 <= i < |calls| ==> Parsed(calls[i])
    ensures Run(t, NewTable(rows), calls).1[..n] == Before(t, rows, calls, n).1
    ensures Run(t, NewTable(rows), calls).1[n] == After(t, Before(t, rows, calls, n).0, calls[n]).1
    decreases |calls|
  {
    hide Fit, After;
    var m := |calls| - 1;
    if n < m {
      var front := calls[..m];
      AnswerAt(t, rows, front, n);
      assert front[..n] == calls[..n];
    }
  }

  lemma RowsBefore(t: TableStore, rows: seq<TableRow>, calls: seq<Call>, n: nat)
    requires Fit(t, NewTable(rows)) && n <= |calls| && forall i :: 0 <= i < |calls| ==> Parsed(calls[i])
    ensures Before(t, rows, calls, n).0.rows == rows + Accepted(t, calls[..n])
  {
    hide Fit;
    RowsOfRun(t, NewTable(rows), calls[..n]);
  }

  /** From row `low` on none has expired; or the window has expired only in part, and the row at `low` has. */
  ghost predicate BeginsAt(rows: seq<TableRow>, windowTime: real, now: int, low: nat) {
    && low <= |rows|
    && (forall j :: 0 <= j < low ==> windowTime < (now - rows[j].timestamp) as real)
    && ((forall j :: low <= j < |rows| ==> (now - rows[j].timestamp) as real <= windowTime)
        || (low < |rows| && windowTime < (now - rows[low].timestamp) as real
            && (now - rows[|rows| - 1].timestamp) as real <= windowTime))
  }

  lemma RangeBegins(t: TableStore, rows: seq<TableRow>, calls: seq<Call>, now: int, clock: int, p: nat, w: nat)
    requires Fit(t, NewTable(rows)) && InTime(rows, clock) && InOrder(calls, clock) && ClockAfter(calls, clock) <= now
    requires forall i :: 0 <= i < |calls| ==> Parsed(calls[i])
    requires var s := Run(t, NewTable(rows), calls).0; s.ready && p < |s.followers| && w < |s.followers[p].coverages|
    ensures var s := Run(t, NewTable(rows), calls).0;
      var f := s.followers[p];
      && w < |f.info.windowTimes|
      && BeginsAt(s.rows, f.info.windowTimes[w], now,
        Renewed(f.coverages[w], Log(s), f.info.windowTimes[w], now).covered)
  {
    LookupAfterRun(t, rows, calls, now, clock, p, w);
    RunKept(t, NewTable(rows), calls, clock);
    var s := Run(t, NewTable(rows), calls).0;
    SortedLog(t, s, ClockAfter(calls, clock));
    RowsInside(t, s);
    var f := s.followers[p];
    var windowTime, low := f.info.windowTimes[w], Renewed(f.coverages[w], Log(s), f.info.windowTimes[w], now).covered;
    hide Run, Fit, AllKept, Log, InTime, InOrder;
    BeginsHere(s.rows, Log(s), windowTime, now, f.coverages[w], low);
  }

  lemma BeginsHere(rows: seq<TableRow>, log: seq<TableEvent>, windowTime: real, now: int, c: Coverage, low: nat)
    requires |log| == |rows| && Sorted(log) && forall i :: 0 <= i < |log| ==> log[i].timestamp == rows[i].timestamp
    requires low == Renewed(c, log, windowTime, now).covered
    requires low <= FirstFresh(log, windowTime, now, |log|)
    requires low == FirstFresh(log, windowTime, now, |log|) <==> !PartlyExpired(log, windowTime, now, c.covered)
    ensures BeginsAt(rows, windowTime, now, low)
  {
    FirstFreshExact(log, windowTime, now, FirstFresh(log, windowTime, now, |log|));
    hide FirstFresh, Sorted;
  }

  /**
   * The answers of any run, in terms of the calls alone: the number for an entity, a window and a column is the
   * aggregate the configuration names, over the numbers in the named column of those of the rows brought so far, from
   * some row on, that hold in the named group columns what the entity gives. The rows before that one have expired;
   * and none from it on has, unless the window has expired only in part.
   */
  lemma AnswerInRun(t: TableStore, rows: seq<TableRow>, calls: seq<Call>, clock: int, n: nat, i: nat,
      vector: seq<real>, e: nat, w: nat, k: nat, texts: seq<string>) returns (low: nat)
    requires Fit(t, NewTable(rows)) && InTime(rows, clock) && InOrder(calls, clock)
    requires forall j :: 0 <= j < |calls| ==> Parsed(calls[j])
    requires n < |calls| && calls[n].GetModelInput? && Run(t, NewTable(rows), calls).1[n] == Vectors(Some(vector))
    requires CreatedLast(calls[..n], Run(t, NewTable(rows), calls).1[..n], calls[n].name, i)
    requires var c := calls[i].info;
      && e < |calls[n].entities| && w < |c.info.windowTimes| && k < |c.columnsToAggregate|
      && GivesAll(calls[n].entities[e], c.groupColumns, texts) && PlusFree(texts)
      && NoPluses(rows + Accepted(t, calls[..n]), c.groupColumns)
    ensures var c, seen := calls[i].info, rows + Accepted(t, calls[..n]);
      && k < |c.info.operators| == |c.info.defaults| && NumberAt(c, e, w, k) < |vector|
      && BeginsAt(seen, c.info.windowTimes[w], calls[n].now, low)
      && IsAggregate(c.info.operators[k], c.info.integral,
          NumbersOf(seen, c.groupColumns, texts, c.columnsToAggregate[k], low, |seen|),
          c.info.defaults[k], vector[NumberAt(c, e, w, k)])
  {
    hide *;
    var front, name, now := calls[..n], calls[n].name, calls[n].now;
    var s, answers := LookupAt(t, rows, calls, n);
    OrderOfFront(calls, clock, n);
    CreatedCall(front, answers, name, i);
    assert front[i] == calls[i];
    var c := calls[i].info;
    RunSetting(t, rows, front, name);
    var f := SettingOf(t, s, name, c);
    NumberByNames(t, s, name, calls[n].entities, now, vector, c, e, w, k, texts);
    RangeBegins(t, rows, front, now, clock, s.inputs[name], w);
    low := Renewed(f.coverages[w], Log(s), c.info.windowTimes[w], now).covered;
  }

  /** The table when the lookup comes, and its answer. */
  lemma LookupAt(t: TableStore, rows: seq<TableRow>, calls: seq<Call>, n: nat) returns (s: Table, answers: seq<Answer>)
    requires Fit(t, NewTable(rows)) && forall i :: 0 <= i < |calls| ==> Parsed(calls[i])
    requires n < |calls| && calls[n].GetModelInput?
    ensures (s, answers) == Run(t, NewTable(rows), calls[..n]) && Fit(t, s) && |answers| == n
    ensures |Run(t, NewTable(rows), calls).1| == |calls| && Run(t, NewTable(rows), calls).1[..n] == answers
    ensures Run(t, NewTable(rows), calls).1[n]
         == LookedUp(t, s, calls[n].name, calls[n].entities, calls[n].now).1
    ensures s.rows == rows + Accepted(t, calls[..n])
  {
    AnswerAt(t, rows, calls, n);
    RowsBefore(t, rows, calls, n);
    s, answers := Before(t, rows, calls, n).0, Before(t, rows, calls, n).1;
    AfterMeansLookup(t, s, calls[n]);
    hide Fit, Run, LookedUp;
  }

  lemma NoInput(t: TableStore, s: Table, name: string, entities: seq<seq<(string, string)>>, now: int)
    requires Fit(t, s)
    ensures name !in s.inputs ==> LookedUp(t, s, name, entities, now).1 == Vectors(None)
  {
    hide Fit;
  }

  lemma AfterMeansLookup(t: TableStore, s: Table, call: Call)
    requires Fit(t, s) && call.GetModelInput?
    ensures After(t, s, call) == LookedUp(t, s, call.name, call.entities, call.now)
  {
    hide LookedUp, Fit;
  }

  lemma OrderOfFront(calls: seq<Call>, clock: int, n: nat)
    requires InOrder(calls, clock) && n < |calls|
    ensures InOrder(calls[..n], clock) && ClockAfter(calls[..n], clock) <= calls[n].now
  {
  }

  /** And a lookup of any run goes unanswered exactly when no call has made a preprocessor for it, or for its names. */
  lemma UnansweredInRun(t: TableStore, rows: seq<TableRow>, calls: seq<Call>, n: nat)
    requires Fit(t, NewTable(rows)) && forall j :: 0 <= j < |calls| ==> Parsed(calls[j])
    requires n < |calls| && calls[n].GetModelInput?
    ensures var answers, seen := Run(t, NewTable(rows), calls).1, rows + Accepted(t, calls[..n]);
      answers[n] == Vectors(None) <==>
        forall i: nat :: CreatedLast(calls[..n], answers[..n], calls[n].name, i) ==>
          Unanswered(calls[i].info, calls[n].entities, seen)
  {
    hide *;
    var front, name := calls[..n], calls[n].name;
    var s, answers := LookupAt(t, rows, calls, n);
    RunSetting(t, rows, front, name);
    NoInput(t, s, name, calls[n].entities, calls[n].now);
    forall i: nat | CreatedLast(front, answers, name, i)
      ensures i < n && calls[i].CreatePreprocessor? && front[i] == calls[i]
      ensures LookedUp(t, s, name, calls[n].entities, calls[n].now).1 == Vectors(None)
          <==> Unanswered(calls[i].info, calls[n].entities, s.rows)
    {
      CreatedCall(front, answers, name, i);
      UnansweredExactly(t, s, name, calls[n].entities, calls[n].now, calls[i].info);
    }
    OneLast(front, answers, name);
  }

  lemma OneLast(calls: seq<Call>, answers: seq<Answer>, name: string)
    ensures forall i: nat, j: nat ::
      CreatedLast(calls, answers, name, i) && CreatedLast(calls, answers, name, j) ==> i == j
  {
    hide Creates;
  }
}
