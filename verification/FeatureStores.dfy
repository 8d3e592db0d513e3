/** FeatureStore: one loader replaces the feature while any number of inferences read it. */
module FeatureStores {
  import opened Results

  type Buffer = nat

  /** What is to be loaded. */
  datatype Load = Load(bytes: seq<bv8>, dataType: int, version: string)

  datatype Feature = Feature(data: Option<Buffer>, dataType: int, byteLength: int, version: string)

  /** `written` counts the assignments made under the write lock. */
  datatype Loader =
    | Idle
    | Copied(load: Load, buffer: Buffer, previous: Option<Buffer>)
    | Writing(load: Load, buffer: Buffer, previous: Option<Buffer>, written: nat)
    | Unlocked(previous: Option<Buffer>)

  /** `copied` counts the fields copied under the read lock, in the order of their declaration. */
  datatype Reader =
    | Away
    | Checked
    | Reading(seen: Feature, copied: nat)

  /** `live` are the buffers not yet freed, `current` is the last load completed. */
  datatype State = State(feature: Feature, valid: bool, live: map<Buffer, seq<bv8>>,
    loader: Loader, readers: seq<Reader>, current: Option<Load>)

  const NO_FEATURE := Feature(None, -1, 0, "")
  const LOADER_WRITES := 5
  const FIELDS := 4

  ghost predicate Initial(s: State) {
    && s.feature == NO_FEATURE && !s.valid && s.live == map[] && s.loader == Idle && s.current == None
    && forall r :: 0 <= r < |s.readers| ==> s.readers[r] == Away
  }

  ghost predicate SharedLockHeld(s: State) {
    exists r :: 0 <= r < |s.readers| && s.readers[r].Reading?
  }

  ghost predicate WriteLockHeld(s: State) {
    s.loader.Writing?
  }

  // ---------- load_feature_store ----------

  /** The assignment that is made next: data, dataType, byteLength, version, then `_valid`. */
  function Assigned(s: State): State
    requires s.loader.Writing?
  {
    var (l, f) := (s.loader, s.feature);
    s.(
      feature := match l.written
        case 0 => f.(data := Some(l.buffer))
        case 1 => f.(dataType := l.load.dataType)
        case 2 => f.(byteLength := |l.load.bytes|)
        case 3 => f.(version := l.load.version)
        case _ => f,
      valid := if l.written == 4 then true else s.valid,
      loader := l.(written := l.written + 1))
  }

  ghost predicate LoaderStep(s: State, t: State) {
    match s.loader
    case Idle =>
      exists load: Load, buffer: Buffer :: buffer !in s.live && t == Copy(s, load, buffer)
    case Copied(load, buffer, previous) =>
      !SharedLockHeld(s) && t == s.(loader := Writing(load, buffer, previous, 0))
    case Writing(load, buffer, previous, written) =>
      if written < LOADER_WRITES then t == Assigned(s)
      else t == s.(loader := Unlocked(previous), current := Some(load))
    case Unlocked(previous) =>
      t == s.(loader := Idle, live := if previous.Some? then s.live - {previous.value} else s.live)
  }

  /** A new buffer is filled, and the present one is remembered for deletion. */
  function Copy(s: State, load: Load, buffer: Buffer): State {
    s.(live := s.live[buffer := load.bytes], loader := Copied(load, buffer, s.feature.data))
  }

  // ---------- get_read_lock, get_feature ----------

  /** One more field copied. */
  function Seen(seen: Feature, f: Feature, copied: nat): Feature {
    match copied
    case 0 => seen.(dataType := f.dataType)
    case 1 => seen.(data := f.data)
    case 2 => seen.(byteLength := f.byteLength)
    case _ => seen.(version := f.version)
  }

  ghost predicate ReaderStep(s: State, t: State, r: nat) {
    && r < |s.readers|
    && match s.readers[r]
       case Away =>
         // `_valid` is read without the lock.
         t == s.(readers := s.readers[r := if s.valid then Checked else Away])
       case Checked =>
         !WriteLockHeld(s) && t == s.(readers := s.readers[r := Reading(NO_FEATURE, 0)])
       case Reading(seen, copied) =>
         || (copied < FIELDS && t == s.(readers := s.readers[r := Reading(Seen(seen, s.feature, copied), copied + 1)]))
         || (copied == FIELDS && t == s.(readers := s.readers[r := Away]))
  }

  ghost predicate Step(s: State, t: State) {
    LoaderStep(s, t) || exists r: nat :: ReaderStep(s, t, r)
  }

  ghost predicate Run(run: seq<State>) {
    run != [] && Initial(run[0]) && forall i :: 0 <= i < |run| - 1 ==> Step(run[i], run[i + 1])
  }

  // ---------- The invariant ----------

  function FeatureOf(load: Load, buffer: Buffer): Feature {
    Feature(Some(buffer), load.dataType, |load.bytes|, load.version)
  }

  /** The feature is entirely that of the last completed load, or none. */
  ghost predicate Complete(s: State) {
    match s.current
    case None => s.feature == NO_FEATURE
    case Some(load) =>
      && s.feature.data.Some? && s.feature == FeatureOf(load, s.feature.data.value)
      && s.feature.data.value in s.live && s.live[s.feature.data.value] == load.bytes
  }

  /** The first `n` assignments have been made. */
  ghost predicate WrittenSoFar(f: Feature, load: Load, buffer: Buffer, n: nat) {
    && (n > 0 ==> f.data == Some(buffer))
    && (n > 1 ==> f.dataType == load.dataType)
    && (n > 2 ==> f.byteLength == |load.bytes|)
    && (n > 3 ==> f.version == load.version)
  }

  ghost predicate LoaderKept(s: State) {
    match s.loader
    case Idle => Complete(s) && s.live.Keys == Owned(s.feature.data)
    case Copied(load, buffer, previous) =>
      && Complete(s) && previous == s.feature.data && previous != Some(buffer)
      && s.live.Keys == Owned(previous) + {buffer} && s.live[buffer] == load.bytes
    case Writing(load, buffer, previous, written) =>
      && WrittenSoFar(s.feature, load, buffer, written) && previous != Some(buffer)
      && s.live.Keys == Owned(previous) + {buffer} && s.live[buffer] == load.bytes
      && (s.valid ==> s.current.Some? || written == LOADER_WRITES)
      && written <= LOADER_WRITES && (written == LOADER_WRITES ==> s.valid)
    case Unlocked(previous) =>
      && Complete(s) && s.current.Some? && previous != s.feature.data
      && s.live.Keys == Owned(previous) + Owned(s.feature.data)
  }

  function Owned(b: Option<Buffer>): set<Buffer> {
    if b.Some? then {b.value} else {}
  }

  /** What a reader has copied is what the feature holds now. */
  ghost predicate ReaderKept(s: State, r: Reader) {
    match r
    case Away => true
    case Checked => s.valid
    case Reading(seen, copied) =>
      && s.valid && copied <= FIELDS
      && (copied > 0 ==> seen.dataType == s.feature.dataType)
      && (copied > 1 ==> seen.data == s.feature.data)
      && (copied > 2 ==> seen.byteLength == s.feature.byteLength)
      && (copied > 3 ==> seen.version == s.feature.version)
  }

  ghost predicate Kept(s: State) {
    && LoaderKept(s)
    && (s.valid && !s.loader.Writing? ==> s.current.Some?)
    && (s.current.Some? ==> s.valid)
    && (SharedLockHeld(s) ==> !WriteLockHeld(s))
    && forall r :: 0 <= r < |s.readers| ==> ReaderKept(s, s.readers[r])
  }

  lemma LoaderKeeps(s: State, t: State)
    requires Kept(s) && LoaderStep(s, t)
    ensures Kept(t)
  {
    hide Seen;
    assert t.readers == s.readers;
    if s.loader.Idle? {
      var load: Load, buffer: Buffer :| buffer !in s.live && t == Copy(s, load, buffer);
    }
  }

  lemma ReaderKeeps(s: State, t: State, r: nat)
    requires Kept(s) && ReaderStep(s, t, r)
    ensures Kept(t)
  {
    hide FeatureOf, WrittenSoFar;
    assert SharedLockHeld(t) ==> SharedLockHeld(s) || !WriteLockHeld(t);
  }

  lemma {:induction false} RunKeeps(run: seq<State>, i: nat)
    requires Run(run) && i < |run|
    ensures Kept(run[i])
  {
    if i > 0 {
      RunKeeps(run, i - 1);
      var s, t := run[i - 1], run[i];
      assert Step(s, t);
      if LoaderStep(s, t) {
        LoaderKeeps(s, t);
      } else {
        var r: nat :| ReaderStep(s, t, r);
        ReaderKeeps(s, t, r);
      }
    }
  }

  // ---------- Safety ----------

  /**
   * In every run a reader that has copied the feature under the lock holds one load's data, type, length and version,
   * in a buffer that is not freed.
   */
  lemma ReaderSeesOneLoad(run: seq<State>, i: nat, r: nat)
    requires Run(run) && i < |run| && r < |run[i].readers|
    requires run[i].readers[r].Reading? && run[i].readers[r].copied == FIELDS
    ensures var s, seen := run[i], run[i].readers[r].seen;
      && s.current.Some? && seen.data.Some? && seen == FeatureOf(s.current.value, seen.data.value)
      && seen.data.value in s.live && s.live[seen.data.value] == s.current.value.bytes
  {
    RunKeeps(run, i);
    assert SharedLockHeld(run[i]);
  }

  /** While a reader holds the lock neither the feature nor its buffer changes. */
  lemma HeldFeatureStays(s: State, t: State)
    requires Kept(s) && Step(s, t) && SharedLockHeld(s)
    ensures t.feature == s.feature && t.current == s.current
    ensures s.feature.data.Some? && s.feature.data.value in s.live && s.feature.data.value in t.live
    ensures t.live[s.feature.data.value] == s.live[s.feature.data.value]
  {
  }

  /** No buffer is freed twice, and between loads only the feature's own buffer is left. */
  lemma BuffersAreFreedOnce(run: seq<State>, i: nat)
    requires Run(run) && i < |run|
    ensures run[i].loader.Unlocked? && run[i].loader.previous.Some? ==> run[i].loader.previous.value in run[i].live
    ensures run[i].loader.Idle? ==> run[i].live.Keys == Owned(run[i].feature.data)
  {
    RunKeeps(run, i);
  }

  // ---------- A loaded feature can be read ----------

  function Last(run: seq<State>): State
    requires run != []
  {
    run[|run| - 1]
  }

  /** The second run continues the first. */
  ghost predicate Continues(run: seq<State>, longer: seq<State>) {
    Run(longer) && run != [] && run <= longer && |Last(longer).readers| == |Last(run).readers|
  }

  lemma OneStepMore(run: seq<State>, before: seq<State>, t: State)
    requires Continues(run, before) && Step(Last(before), t) && |t.readers| == |Last(before).readers|
    ensures Continues(run, before + [t]) && Last(before + [t]) == t
  {
    hide Step, Initial;
    var longer := before + [t];
    forall i | 0 <= i < |longer| - 1 ensures Step(longer[i], longer[i + 1]) {
      if i < |before| - 1 {
        assert longer[i] == before[i] && longer[i + 1] == before[i + 1];
      }
    }
  }

  /** A load that is being written is completed. */
  lemma {:induction false} LoadFinishes(run: seq<State>, before: seq<State>) returns (longer: seq<State>)
    requires Continues(run, before) && Last(before).loader.Writing? && Last(before).loader.written <= LOADER_WRITES
    ensures Continues(run, longer)
    ensures var s, t := Last(before), Last(longer);
      t.loader.Unlocked? && t.current == Some(s.loader.load) && t.readers == s.readers
    decreases LOADER_WRITES - Last(before).loader.written
  {
    var s := Last(before);
    if s.loader.written < LOADER_WRITES {
      assert LoaderStep(s, Assigned(s));
      OneStepMore(run, before, Assigned(s));
      longer := LoadFinishes(run, before + [Assigned(s)]);
    } else {
      var t := s.(loader := Unlocked(s.loader.previous), current := Some(s.loader.load));
      assert LoaderStep(s, t);
      OneStepMore(run, before, t);
      longer := before + [t];
    }
  }

  /** All but the reader is the same. */
  ghost predicate OnlyReader(s: State, t: State, r: nat) {
    r < |s.readers| == |t.readers| && t == s.(readers := s.readers[r := t.readers[r]])
  }

  lemma ReaderMoves(run: seq<State>, before: seq<State>, r: nat, to: Reader) returns (longer: seq<State>)
    requires Continues(run, before) && r < |Last(before).readers|
    requires ReaderStep(Last(before), Last(before).(readers := Last(before).readers[r := to]), r)
    ensures longer != [] && Continues(run, longer)
    ensures OnlyReader(Last(before), Last(longer), r) && Last(longer).readers[r] == to
  {
    var t := Last(before).(readers := Last(before).readers[r := to]);
    hide ReaderStep;
    assert Step(Last(before), t);
    OneStepMore(run, before, t);
    longer := before + [t];
  }

  /** A reader that is copying can copy the rest. */
  lemma CopyFinishes(run: seq<State>, before: seq<State>, r: nat) returns (longer: seq<State>)
    requires Continues(run, before) && r < |Last(before).readers|
    requires Last(before).readers[r].Reading? && Last(before).readers[r].copied <= FIELDS
    ensures Continues(run, longer) && OnlyReader(Last(before), Last(longer), r)
    ensures Last(longer).readers[r].Reading? && Last(longer).readers[r].copied == FIELDS
    ensures Last(before).readers[r].copied == 0 ==> Last(longer).readers[r].seen == Last(before).feature
  {
    assert before != [];
    hide Continues;
    longer := before;
    var i := Last(before).readers[r].copied;
    var started := i == 0;
    while i < FIELDS
      invariant i <= FIELDS && longer != [] && Continues(run, longer)
      invariant OnlyReader(Last(before), Last(longer), r)
      invariant Last(longer).readers[r].Reading? && Last(longer).readers[r].copied == i
      invariant started ==> var seen, f := Last(longer).readers[r].seen, Last(before).feature;
        && (i > 0 ==> seen.dataType == f.dataType) && (i > 1 ==> seen.data == f.data)
        && (i > 2 ==> seen.byteLength == f.byteLength) && (i > 3 ==> seen.version == f.version)
    {
      var s := Last(longer);
      longer := ReaderMoves(run, longer, r, Reading(Seen(s.readers[r].seen, s.feature, i), i + 1));
      i := i + 1;
    }
  }

  /**
   * From every state after a completed load, or while one is being written, some run leads any reader to a copy of
   * that load's feature. Without this the safety results could hold because nothing is ever read.
   */
  lemma LoadedFeatureIsRead(run: seq<State>, r: nat) returns (longer: seq<State>)
    requires Run(run) && r < |Last(run).readers|
    requires Last(run).current.Some? || Last(run).loader.Writing?
    ensures Continues(run, longer)
    ensures var s, t := Last(run), Last(longer);
      && t.current == (if s.loader.Writing? then Some(s.loader.load) else s.current)
      && t.current.Some? && t.feature.data.Some?
      && t.readers[r] == Reading(FeatureOf(t.current.value, t.feature.data.value), FIELDS)
  {
    RunKeeps(run, |run| - 1);
    longer := run;
    if Last(run).loader.Writing? {
      longer := LoadFinishes(run, run);
    }
    RunKeeps(longer, |longer| - 1);
    assert Last(longer).valid && Complete(Last(longer)) && !Last(longer).loader.Writing?;
    assert Last(longer).readers[r].Reading? ==> Last(longer).readers[r].copied <= FIELDS;
    hide Run, Kept, Complete;
    if Last(longer).readers[r].Reading? {
      longer := CopyFinishes(run, longer, r);
      longer := ReaderMoves(run, longer, r, Away);
    }
    if Last(longer).readers[r].Away? {
      longer := ReaderMoves(run, longer, r, Checked);
    }
    longer := ReaderMoves(run, longer, r, Reading(NO_FEATURE, 0));
    longer := CopyFinishes(run, longer, r);
  }

  /** All readers can let go of the lock. */
  lemma ReadersLeave(run: seq<State>) returns (longer: seq<State>)
    requires Run(run)
    ensures Continues(run, longer)
    ensures Last(longer) == Last(run).(readers := Last(longer).readers) && !SharedLockHeld(Last(longer))
  {
    longer := run;
    var i := 0;
    while i < |Last(run).readers|
      invariant i <= |Last(run).readers| && longer != [] && Continues(run, longer)
      invariant Last(longer) == Last(run).(readers := Last(longer).readers)
      invariant forall r :: 0 <= r < i ==> !Last(longer).readers[r].Reading?
    {
      RunKeeps(longer, |longer| - 1);
      assert Last(longer).readers[i].Reading? ==> Last(longer).readers[i].copied <= FIELDS;
      hide Run, Kept, Continues;
      if Last(longer).readers[i].Reading? {
        longer := CopyFinishes(run, longer, i);
        longer := ReaderMoves(run, longer, i, Away);
      }
      i := i + 1;
    }
  }

  lemma LoaderMoves(run: seq<State>, before: seq<State>, t: State) returns (longer: seq<State>)
    requires Continues(run, before) && LoaderStep(Last(before), t) && |t.readers| == |Last(before).readers|
    ensures longer != [] && Continues(run, longer) && Last(longer) == t
  {
    OneStepMore(run, before, t);
    longer := before + [t];
  }

  /** With no reader in its way the loader comes to the end of what it does. */
  lemma LoaderComesToRest(run: seq<State>, before: seq<State>) returns (longer: seq<State>)
    requires Continues(run, before) && !SharedLockHeld(Last(before))
    ensures longer != [] && Continues(run, longer) && Last(longer).loader.Idle? && !SharedLockHeld(Last(longer))
  {
    longer := before;
    RunKeeps(longer, |longer| - 1);
    hide Run, Kept, Continues;
    if Last(longer).loader.Copied? {
      longer := LoaderMoves(run, longer, Work(Last(longer)));
    }
    if Last(longer).loader.Writing? {
      longer := WritingFinishes(run, longer);
    }
    if Last(longer).loader.Unlocked? {
      longer := LoaderMoves(run, longer, Work(Last(longer)));
    }
  }

  lemma WritingFinishes(run: seq<State>, before: seq<State>) returns (longer: seq<State>)
    requires Continues(run, before) && Last(before).loader.Writing?
    ensures longer != [] && Continues(run, longer)
    ensures var s, t := Last(before), Last(longer);
      t.loader.Unlocked? && t.current == Some(s.loader.load) && t.readers == s.readers
  {
    RunKeeps(before, |before| - 1);
    longer := LoadFinishes(run, before);
  }

  /** From every state some run loads any given feature and leads any reader to it. */
  lemma AnyLoadIsRead(run: seq<State>, load: Load, r: nat) returns (longer: seq<State>)
    requires Run(run) && r < |Last(run).readers|
    ensures Continues(run, longer) && Last(longer).feature.data.Some?
    ensures Last(longer).readers[r] == Reading(FeatureOf(load, Last(longer).feature.data.value), FIELDS)
  {
    longer := ReadersLeave(run);
    longer := LoaderComesToRest(run, longer);
    RunKeeps(longer, |longer| - 1);
    var s := Last(longer);
    var buffer := if s.feature.data.Some? then s.feature.data.value + 1 else 0;
    assert buffer !in s.live;
    hide Run, Kept;
    longer := LoaderMoves(run, longer, Copy(s, load, buffer));
    longer := LoaderMoves(run, longer, Work(Last(longer)));
    longer := WritingFinishes(run, longer);
    var loaded := longer;
    longer := LoadedFeatureIsRead(loaded, r);
  }

  // ---------- Two loaders ----------

  /** The same with a second loader. */
  datatype Two = Two(s: State, second: Loader)

  /** The second loader's view. */
  function Swapped(t: Two): Two {
    Two(t.s.(loader := t.second), t.s.loader)
  }

  ghost predicate FirstSteps(t: Two, u: Two) {
    LoaderStep(t.s, u.s) && u.second == t.second && !(u.s.loader.Writing? && u.second.Writing?)
  }

  ghost predicate TwoRun(run: seq<Two>) {
    forall i :: 0 <= i < |run| - 1 ==>
      FirstSteps(run[i], run[i + 1]) || FirstSteps(Swapped(run[i]), Swapped(run[i + 1]))
  }

  /** What a loader does next, once it has copied. */
  function Work(s: State): State {
    match s.loader
    case Idle => s
    case Copied(load, buffer, previous) => s.(loader := Writing(load, buffer, previous, 0))
    case Writing(load, _, previous, written) =>
      if written < LOADER_WRITES then Assigned(s) else s.(loader := Unlocked(previous), current := Some(load))
    case Unlocked(previous) =>
      s.(loader := Idle, live := if previous.Some? then s.live - {previous.value} else s.live)
  }

  function Works(s: State, n: nat): State {
    if n == 0 then s else Work(Works(s, n - 1))
  }

  /** Eight steps after its copy a loader is done. */
  lemma {:induction false} WorksAre(s: State, n: nat)
    requires s.loader.Copied? && n <= 8
    ensures var t, l := Works(s, n), s.loader;
      && t.readers == s.readers
      && (1 <= n <= 6 ==> t.loader == Writing(l.load, l.buffer, l.previous, n - 1))
      && (n == 7 ==> t.loader == Unlocked(l.previous)) && (n == 8 ==> t.loader == Idle)
      && (n <= 7 ==> t.live == s.live)
      && (n == 8 ==> t.live == if l.previous.Some? then s.live - {l.previous.value} else s.live)
  {
    if n > 0 {
      WorksAre(s, n - 1);
    }
  }

  lemma WorkIsStep(t: Two, n: nat)
    requires t.s.loader.Copied? && !t.second.Writing? && n < 8 && !SharedLockHeld(t.s)
    ensures FirstSteps(Two(Works(t.s, n), t.second), Two(Works(t.s, n + 1), t.second))
  {
    WorksAre(t.s, n);
    WorksAre(t.s, n + 1);
    hide Assigned;
  }

  lemma BothCopy(s: State, a: Load, b: Load, x: Buffer, y: Buffer, p: Buffer) returns (first: Two, both: Two)
    requires s.loader.Idle? && s.feature.data == Some(p) && x !in s.live && y !in s.live && x != y
    requires !SharedLockHeld(s)
    ensures FirstSteps(Two(s, Idle), first) && FirstSteps(Swapped(first), Swapped(both))
    ensures both.s.loader == Copied(a, x, Some(p)) && both.second == Copied(b, y, Some(p)) && !SharedLockHeld(both.s)
  {
    first := Two(Copy(s, a, x), Idle);
    both := Swapped(Two(Copy(Swapped(first).s, b, y), first.s.loader));
  }

  lemma FirstIsDone(both: Two, p: Buffer)
    requires both.s.loader.Copied? && both.s.loader.previous == Some(p) && !SharedLockHeld(both.s)
    requires both.second.Copied? && both.second.previous == Some(p)
    ensures Works(both.s, 0) == both.s
    ensures var next := Swapped(Two(Works(both.s, 8), both.second));
      && next.s.loader == both.second && next.second == Idle && !SharedLockHeld(next.s) && Works(next.s, 0) == next.s
      && Swapped(Two(Works(next.s, 7), next.second)).second == Unlocked(Some(p)) && p !in Works(next.s, 7).live
      && Swapped(Two(Works(next.s, 7), next.second)).s.live == Works(next.s, 7).live
  {
    WorksAre(both.s, 8);
    hide Work, Assigned;
    WorksAre(Swapped(Two(Works(both.s, 8), both.second)).s, 7);
    assert Works(both.s, 0) == both.s;
  }

  /**
   * Two loaders of one feature: both remember its buffer, as it is read before the lock is taken. When the second
   * comes to free that buffer, the first has freed it.
   */
  lemma TwoLoadersFreeTwice(s: State, a: Load, b: Load, x: Buffer, y: Buffer, p: Buffer) returns (run: seq<Two>)
    requires s.loader.Idle? && s.feature.data == Some(p) && x !in s.live && y !in s.live && x != y
    requires !SharedLockHeld(s)
    ensures run != [] && run[0] == Two(s, Idle) && TwoRun(run)
    ensures run[|run| - 1].second == Unlocked(Some(p)) && p !in run[|run| - 1].s.live
  {
    hide *;
    var first, both := BothCopy(s, a, b, x, y, p);
    var next := Swapped(Two(Works(both.s, 8), both.second));
    FirstIsDone(both, p);
    SwappedTwice(Two(Works(both.s, 8), both.second));
    assert Two(next.s, next.second) == next && Two(both.s, both.second) == both;
    run := [Two(s, Idle), first] + seq(8, i requires 0 <= i < 8 => Two(Works(both.s, i), both.second))
      + seq(8, i requires 0 <= i < 8 => Swapped(Two(Works(next.s, i), next.second)));
    forall i | 0 <= i < |run| - 1
      ensures FirstSteps(run[i], run[i + 1]) || FirstSteps(Swapped(run[i]), Swapped(run[i + 1]))
    {
      if 2 <= i < 10 {
        WorkIsStep(both, i - 2);
      } else if 10 <= i {
        SwappedTwice(Two(Works(next.s, i - 10), next.second));
        SwappedTwice(Two(Works(next.s, i - 9), next.second));
        WorkIsStep(next, i - 10);
      }
    }
    IsRun(run);
  }

  lemma SwappedTwice(t: Two)
    ensures Swapped(Swapped(t)) == t
  {
  }

  lemma IsRun(run: seq<Two>)
    requires forall i :: 0 <= i < |run| - 1 ==>
      FirstSteps(run[i], run[i + 1]) || FirstSteps(Swapped(run[i]), Swapped(run[i + 1]))
    ensures TwoRun(run)
  {
  }
}
