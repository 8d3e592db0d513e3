/** JSON Patch (RFC 6902): `patch_inplace` and `patch`. */
module Patch {
  import opened Results
  import opened Pointer
  import opened Documents

  // ---------- Single operations ----------

  /** The parent with the value added. A primitive parent is the case the program only asserts away. */
  function Grown(parent: Json, last: string, v: Json): Result<Json> {
    match parent
    case Null => Ok(Object(map[last := v]))
    case Object(ms) => Ok(Object(ms[last := v]))
    case Array(es) =>
      if last == "-" then Ok(Array(es + [v]))
      else
        var i :- ArrayIndex(last);
        if i > |es| then Err(INDEX_OUT_OF_RANGE) else Ok(Array(es[..i] + [v] + es[i..]))
    case _ => Err(ASSERTION_FAILED)
  }

  /** The parent without the member or element. A primitive one stays, and nothing is reported. */
  function Shrunk(parent: Json, last: string): Result<Json> {
    match parent
    case Object(ms) => if last in ms then Ok(Object(ms - {last})) else Err(KEY_NOT_FOUND)
    case Array(es) =>
      var i :- ArrayIndex(last);
      if i < |es| then Ok(Array(es[..i] + es[i + 1..])) else Err(INDEX_OUT_OF_RANGE)
    case _ => Ok(parent)
  }

  /** `operation_add` */
  function AddAt(doc: Json, ts: seq<string>, v: Json): Result<Json> {
    if ts == [] then Ok(v)
    else if |ts| > 1 && At(doc, ts[..1]).Err? then Err(At(doc, ts[..1]).code)
    else
      var parent :- At(doc, ts[..|ts| - 1]);
      var grown :- Grown(parent, ts[|ts| - 1], v);
      Ok(Put(doc, ts[..|ts| - 1], grown))
  }

  /** `operation_remove` */
  function RemoveAt(doc: Json, ts: seq<string>): Result<Json> {
    if ts == [] then Err(POINTER_NO_PARENT)
    else
      var parent :- At(doc, ts[..|ts| - 1]);
      var shrunk :- Shrunk(parent, ts[|ts| - 1]);
      Ok(Put(doc, ts[..|ts| - 1], shrunk))
  }

  function ReplaceAt(doc: Json, ts: seq<string>, v: Json): Result<Json> {
    var _ :- At(doc, ts);
    Ok(Put(doc, ts, v))
  }

  /** `test`: an out-of-range location is a failed test; a malformed array index is reported as such. */
  function TestAt(doc: Json, ts: seq<string>, v: Json): Result<Json> {
    var found := At(doc, ts);
    if found.Ok? then (if found.value == v then Ok(doc) else Err(TEST_FAILED))
    else if found.code in {INDEX_LEADING_ZERO, INDEX_NOT_NUMBER} then Err(found.code)
    else Err(TEST_FAILED)
  }

  // ---------- One element of the patch array ----------

  /** The document after an operation, and whether the operation threw. */
  datatype Effect = Effect(doc: Json, outcome: Result<()>)

  function Finish(before: Json, r: Result<Json>): Effect {
    if r.Ok? then Effect(r.value, Ok(())) else Effect(before, Err(r.code))
  }

  function Member(ms: map<string, Json>, name: string): Result<Json> {
    if name in ms then Ok(ms[name]) else Err(PATCH_MALFORMED)
  }

  function StringMember(ms: map<string, Json>, name: string): Result<string> {
    if name in ms && ms[name].String? then Ok(ms[name].s) else Err(PATCH_MALFORMED)
  }

  function PointerMember(ms: map<string, Json>, name: string): Result<seq<string>> {
    var text :- StringMember(ms, name);
    Parse(text)
  }

  /** `move` removes before it adds, so a failing addition leaves the value removed. */
  function MoveTo(doc: Json, from: seq<string>, ts: seq<string>): Effect {
    var v := At(doc, from);
    if v.Err? then Effect(doc, Err(v.code))
    else
      var removed := RemoveAt(doc, from);
      if removed.Err? then Effect(doc, Err(removed.code))
      else Finish(removed.value, AddAt(removed.value, ts, v.value))
  }

  function ApplyMembers(doc: Json, ms: map<string, Json>): Effect {
    var op := StringMember(ms, "op");
    if op.Err? then Effect(doc, Err(op.code)) else
    var path := PointerMember(ms, "path");
    if path.Err? then Effect(doc, Err(path.code)) else
    if op.value in {"add", "replace", "test"} then
      var v := Member(ms, "value");
      if v.Err? then Effect(doc, Err(v.code))
      else if op.value == "add" then Finish(doc, AddAt(doc, path.value, v.value))
      else if op.value == "replace" then Finish(doc, ReplaceAt(doc, path.value, v.value))
      else Finish(doc, TestAt(doc, path.value, v.value))
    else if op.value == "remove" then Finish(doc, RemoveAt(doc, path.value))
    else if op.value in {"move", "copy"} then
      var from := PointerMember(ms, "from");
      if from.Err? then Effect(doc, Err(from.code))
      else if op.value == "move" then MoveTo(doc, from.value, path.value)
      else
        var v := At(doc, from.value);
        if v.Err? then Effect(doc, Err(v.code)) else Finish(doc, AddAt(doc, path.value, v.value))
    else Effect(doc, Err(PATCH_MALFORMED))
  }

  function Apply(doc: Json, operation: Json): Effect {
    if operation.Object? then ApplyMembers(doc, operation.members) else Effect(doc, Err(PATCH_NOT_ARRAY))
  }

  // ---------- The whole patch ----------

  /** Operations in order, up to the first that throws. */
  function Run(doc: Json, operations: seq<Json>): Effect
    decreases |operations|
  {
    if operations == [] then Effect(doc, Ok(()))
    else
      var e := Apply(doc, operations[0]);
      if e.outcome.Err? then e else Run(e.doc, operations[1..])
  }

  function RunPatch(doc: Json, patch: Json): Effect {
    if patch.Array? then Run(doc, patch.elems) else Effect(doc, Err(PATCH_NOT_ARRAY))
  }

  lemma {:induction false} RunConcat(doc: Json, a: seq<Json>, b: seq<Json>)
    ensures Run(doc, a + b) == if Run(doc, a).outcome.Err? then Run(doc, a) else Run(Run(doc, a).doc, b)
    decreases |a|
  {
    hide Apply;
    if a == [] {
      assert a + b == b;
    } else {
      assert (a + b)[1..] == a[1..] + b;
      var e := Apply(doc, a[0]);
      if e.outcome.Ok? { RunConcat(e.doc, a[1..], b); }
    }
  }

  /** A value that is patched in place. */
  class Document {
    var root: Json

    constructor (j: Json)
      ensures root == j
    {
      root := j;
    }

    method PatchInPlace(patch: Json) returns (outcome: Result<()>)
      modifies this
      ensures Effect(root, outcome) == RunPatch(old(root), patch)
    {
      if !patch.Array? {
        return Err(PATCH_NOT_ARRAY);
      }
      var i := 0;
      while i < |patch.elems|
        invariant i <= |patch.elems|
        invariant Run(old(root), patch.elems) == Run(root, patch.elems[i..])
      {
        hide Apply;
        assert patch.elems[i..][1..] == patch.elems[i + 1..];
        var e := Apply(root, patch.elems[i]);
        root := e.doc;
        if e.outcome.Err? {
          return e.outcome;
        }
        i := i + 1;
      }
      return Ok(());
    }

    /** `patch`: the same on a copy, so a failing patch leaves this value as it was. */
    method PatchCopy(patch: Json) returns (r: Result<Json>)
      ensures r == var e := RunPatch(root, patch); if e.outcome.Ok? then Ok(e.doc) else Err(e.outcome.code)
    {
      var copy := new Document(root);
      var outcome := copy.PatchInPlace(patch);
      return if outcome.Ok? then Ok(copy.root) else Err(outcome.code);
    }
  }

  // ---------- What undoes what ----------

  lemma AddGrows(doc: Json, init: seq<string>, last: string, v: Json)
    requires AddAt(doc, init + [last], v).Ok?
    ensures At(doc, init).Ok? && Grown(At(doc, init).value, last, v).Ok?
    ensures AddAt(doc, init + [last], v) == Ok(Put(doc, init, Grown(At(doc, init).value, last, v).value))
  {
    var ts := init + [last];
    assert ts[..|ts| - 1] == init && ts[|ts| - 1] == last;
    hide At, Put, ArrayIndex;
  }

  lemma RemoveShrinks(doc: Json, init: seq<string>, last: string)
    ensures RemoveAt(doc, init + [last]) ==
      if At(doc, init).Err? then Err(At(doc, init).code)
      else if Shrunk(At(doc, init).value, last).Err? then Err(Shrunk(At(doc, init).value, last).code)
      else Ok(Put(doc, init, Shrunk(At(doc, init).value, last).value))
  {
    var ts := init + [last];
    assert ts[..|ts| - 1] == init && ts[|ts| - 1] == last;
    hide At, Put, Shrunk;
  }

  lemma ShrunkGrown(parent: Json, last: string, v: Json)
    requires Grown(parent, last, v).Ok? && !(parent.Array? && last == "-")
    ensures var g := Grown(parent, last, v).value;
      !IsPrimitive(g) && Shrunk(g, last).Ok? &&
      (Shrunk(g, last).value == parent <==> parent.Array? || (parent.Object? && last !in parent.members))
  {
    hide ArrayIndex;
    match parent
    case Array(es) =>
      var i := ArrayIndex(last).value;
      var more := es[..i] + [v] + es[i..];
      assert more[..i] + more[i + 1..] == es;
    case Object(ms) =>
      if last !in ms {
        assert ms[last := v] - {last} == ms;
      } else {
        assert last !in ms[last := v] - {last};
      }
    case _ =>
  }

  /** Removing what was just added restores the document exactly when nothing was replaced and no object was made. */
  lemma RemoveUndoesAdd(doc: Json, init: seq<string>, last: string, v: Json)
    requires AddAt(doc, init + [last], v).Ok?
    ensures At(doc, init).Ok?
    ensures var parent := At(doc, init).value;
      !(parent.Array? && last == "-") ==>
        (RemoveAt(AddAt(doc, init + [last], v).value, init + [last]) == Ok(doc) <==>
          parent.Array? || (parent.Object? && last !in parent.members))
  {
    hide *;
    AddGrows(doc, init, last, v);
    var parent := At(doc, init).value;
    if !(parent.Array? && last == "-") {
      var grown := Grown(parent, last, v).value;
      var added := Put(doc, init, grown);
      AtPut(doc, init, grown);
      ShrunkGrown(parent, last, v);
      var back := Shrunk(grown, last).value;
      RemoveShrinks(added, init, last);
      AtPut(doc, init, back);
    }
  }

  /** A tested value is where it was tested, and a test changes nothing. */
  lemma TestMeansEqual(doc: Json, ts: seq<string>, v: Json)
    ensures TestAt(doc, ts, v).Ok? <==> At(doc, ts) == Ok(v)
    ensures TestAt(doc, ts, v).Ok? ==> TestAt(doc, ts, v) == Ok(doc)
  {
    hide At;
  }

  lemma GrownHolds(parent: Json, last: string, v: Json)
    requires Grown(parent, last, v).Ok?
    ensures Child(Grown(parent, last, v).value, last) == if parent.Array? && last == "-" then Err(INDEX_DASH) else Ok(v)
  {
    hide ArrayIndex;
  }

  /** What was added passes a test where it was added; only "-" names no place to test. */
  lemma TestAfterAdd(doc: Json, init: seq<string>, last: string, v: Json)
    requires AddAt(doc, init + [last], v).Ok?
    ensures At(doc, init).Ok?
    ensures var added := AddAt(doc, init + [last], v).value;
      TestAt(added, init + [last], v)
        == if At(doc, init).value.Array? && last == "-" then Err(TEST_FAILED) else Ok(added)
  {
    hide *;
    AddGrows(doc, init, last, v);
    var grown := Grown(At(doc, init).value, last, v).value;
    var added := Put(doc, init, grown);
    AtPut(doc, init, grown);
    GrownHolds(At(doc, init).value, last, v);
    AtConcat(added, init, [last]);
    AtOne(grown, last);
    TestMeansEqual(added, init + [last], v);
    TestOfDash(added, init + [last], v);
  }

  lemma TestOfDash(doc: Json, ts: seq<string>, v: Json)
    ensures At(doc, ts) == Err(INDEX_DASH) ==> TestAt(doc, ts, v) == Err(TEST_FAILED)
  {
    hide At;
  }

  // ---------- Edges of the program's behaviour ----------

  /**
   * RFC 6902 section 4.2 makes removing a missing location an error. The program reports one
   * exactly when the location's parent is not a primitive value.
   */
  lemma RemoveMissing(doc: Json, init: seq<string>, last: string)
    requires At(doc, init + [last]).Err?
    ensures RemoveAt(doc, init + [last]).Ok? <==> At(doc, init).Ok? && IsPrimitive(At(doc, init).value)
    ensures RemoveAt(doc, init + [last]).Ok? ==> RemoveAt(doc, init + [last]) == Ok(doc)
  {
    AtConcat(doc, init, [last]);
    RemoveShrinks(doc, init, last);
    hide At, Put, RemoveAt;
    if At(doc, init).Ok? {
      var parent := At(doc, init).value;
      AtOne(parent, last);
      AtPut(doc, init, parent);
    }
  }

  /** For instance: the member of a text is removed without a word, that of an object is missed. */
  lemma RemoveMissingExample()
    ensures At(String("x"), ["a"]).Err? && RemoveAt(String("x"), ["a"]) == Ok(String("x"))
    ensures At(Object(map[]), ["a"]).Err? && RemoveAt(Object(map[]), ["a"]) == Err(KEY_NOT_FOUND)
  {
    assert ["a"][..0] == [];
  }

  lemma AtOne(j: Json, t: string)
    ensures At(j, [t]) == Child(j, t)
  {
    var c := Child(j, t);
    if c.Ok? { assert At(c.value, [t][1..]) == Ok(c.value); }
  }

  /** "It cannot be primitive", the program says of an existing parent; a one-token pointer into a string is one. */
  lemma AddToPrimitiveParent()
    ensures At(String("x"), []).Ok?
    ensures AddAt(String("x"), ["a"], Null) == Err(ASSERTION_FAILED)
  {
    assert ["a"][..0] == [];
  }

  /** The assertion is reached exactly when the parent resolves to a primitive value other than null. */
  lemma AddAssertionReached(doc: Json, ts: seq<string>, v: Json)
    ensures AddAt(doc, ts, v) == Err(ASSERTION_FAILED) <==>
            && ts != []
            && At(doc, ts[..|ts| - 1]).Ok?
            && IsPrimitive(At(doc, ts[..|ts| - 1]).value)
            && !At(doc, ts[..|ts| - 1]).value.Null?
  {
    AtNeverAsserts(doc, if ts == [] then ts else ts[..|ts| - 1]);
    if |ts| > 1 {
      AtNeverAsserts(doc, ts[..1]);
      assert ts[..|ts| - 1] == ts[..1] + ts[1..|ts| - 1];
      AtConcat(doc, ts[..1], ts[1..|ts| - 1]);
    }
  }

  lemma {:induction false} AtNeverAsserts(j: Json, ts: seq<string>)
    ensures At(j, ts) != Err(ASSERTION_FAILED)
  {
    if ts != [] && Child(j, ts[0]).Ok? {
      AtNeverAsserts(Child(j, ts[0]).value, ts[1..]);
    }
  }

  /** `patch_inplace` is not atomic: an operation that fails leaves the effect of the earlier ones. */
  lemma {:induction false} FailureKeepsPrefix(doc: Json, operations: seq<Json>) returns (n: nat)
    requires Run(doc, operations).outcome.Err?
    ensures n < |operations| && Run(doc, operations[..n]).outcome.Ok?
    ensures Run(doc, operations) == Apply(Run(doc, operations[..n]).doc, operations[n])
    decreases |operations|
  {
    hide Apply;
    var e := Apply(doc, operations[0]);
    if e.outcome.Err? {
      n := 0;
    } else {
      var m := FailureKeepsPrefix(e.doc, operations[1..]);
      n := m + 1;
      assert operations[..n][1..] == operations[1..][..m];
    }
  }
}
