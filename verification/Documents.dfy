/** JSON values, and the subtree a JSON Pointer designates. */
module Documents {
  import opened Results
  import opened Pointer

  /** A JSON value. Numbers are compared by value, so one constructor stands for the three number types. */
  datatype Json =
    | Null
    | Boolean(b: bool)
    | Number(n: real)
    | String(s: string)
    | Binary(bytes: seq<bv8>)
    | Array(elems: seq<Json>)
    | Object(members: map<string, Json>)

  /** The value is neither an array nor an object. */
  predicate IsPrimitive(j: Json) {
    !j.Array? && !j.Object?
  }

  predicate SameType(a: Json, b: Json) {
    match a
    case Null => b.Null?
    case Boolean(_) => b.Boolean?
    case Number(_) => b.Number?
    case String(_) => b.String?
    case Binary(_) => b.Binary?
    case Array(_) => b.Array?
    case Object(_) => b.Object?
  }

  /** No array is longer than `size_type` can count. Every value in memory is like this. */
  ghost predicate Sized(j: Json) {
    match j
    case Array(es) => |es| <= SIZE_MAX && forall i :: 0 <= i < |es| ==> Sized(es[i])
    case Object(ms) => forall k :: k in ms ==> Sized(ms[k])
    case _ => true
  }

  // ---------- at(): checked access ----------

  /** One step of `get_checked`. */
  function Child(j: Json, token: string): Result<Json> {
    match j
    case Object(ms) =>
      if token in ms then Ok(ms[token]) else Err(KEY_NOT_FOUND)
    case Array(es) =>
      if token == "-" then Err(INDEX_DASH)
      else
        var i :- ArrayIndex(token);
        if i < |es| then Ok(es[i]) else Err(INDEX_OUT_OF_RANGE)
    case _ => Err(TOKEN_UNRESOLVED)
  }

  /** `get_checked`: follow all tokens. */
  function At(j: Json, ts: seq<string>): Result<Json> {
    if ts == [] then Ok(j)
    else
      var c :- Child(j, ts[0]);
      At(c, ts[1..])
  }

  function PutChild(j: Json, token: string, v: Json): Json
    requires Child(j, token).Ok?
  {
    match j
    case Object(ms) => Object(ms[token := v])
    case Array(es) => Array(es[ArrayIndex(token).value := v])
  }

  /** Assignment of `v` through the reference that `at(ts)` returns. */
  function Put(j: Json, ts: seq<string>, v: Json): Json
    requires At(j, ts).Ok?
  {
    if ts == [] then v
    else PutChild(j, ts[0], Put(Child(j, ts[0]).value, ts[1..], v))
  }

  lemma ChildOfPut(j: Json, token: string, v: Json)
    requires Child(j, token).Ok?
    ensures Child(PutChild(j, token, v), token) == Ok(v)
    ensures forall w :: PutChild(PutChild(j, token, v), token, w) == PutChild(j, token, w)
    ensures PutChild(j, token, Child(j, token).value) == j
  {
  }

  lemma {:induction false} AtPut(j: Json, ts: seq<string>, v: Json)
    requires At(j, ts).Ok?
    ensures At(Put(j, ts, v), ts) == Ok(v)
    ensures forall w :: Put(Put(j, ts, v), ts, w) == Put(j, ts, w)
    ensures Put(j, ts, At(j, ts).value) == j
  {
    if ts != [] {
      var c := Child(j, ts[0]).value;
      AtPut(c, ts[1..], v);
      ChildOfPut(j, ts[0], Put(c, ts[1..], v));
      ChildOfPut(j, ts[0], c);
      forall w ensures Put(Put(j, ts, v), ts, w) == Put(j, ts, w) {
        assert Put(Put(c, ts[1..], v), ts[1..], w) == Put(c, ts[1..], w);
      }
    }
  }

  lemma {:induction false} AtConcat(j: Json, a: seq<string>, b: seq<string>)
    ensures At(j, a + b) == if At(j, a).Ok? then At(At(j, a).value, b) else At(j, a)
  {
    if a == [] {
      assert a + b == b;
    } else {
      assert (a + b)[1..] == a[1..] + b;
      var c := Child(j, a[0]);
      if c.Ok? { AtConcat(c.value, a[1..], b); }
    }
  }

  lemma {:induction false} PutConcat(j: Json, a: seq<string>, b: seq<string>, v: Json)
    requires At(j, a + b).Ok?
    ensures At(j, a).Ok? && At(At(j, a).value, b).Ok?
    ensures Put(j, a + b, v) == Put(j, a, Put(At(j, a).value, b, v))
  {
    AtConcat(j, a, b);
    if a == [] {
      assert a + b == b;
    } else {
      assert (a + b)[1..] == a[1..] + b;
      PutConcat(Child(j, a[0]).value, a[1..], b, v);
    }
  }

  /** Two tokens of one array name different elements unless they are equal. */
  lemma ChildElsewhere(j: Json, token: string, other: string, v: Json)
    requires token != other && Child(j, token).Ok?
    ensures Child(PutChild(j, token, v), other) == Child(j, other)
  {
    if j.Array? && ArrayIndex(other).Ok? {
      DigitsOfArrayIndex(token);
      DigitsOfArrayIndex(other);
    }
  }

  /** Assignment through a reference leaves every location on a diverging path alone. */
  lemma {:induction false} PutElsewhere(j: Json, common: seq<string>, p: seq<string>, q: seq<string>, v: Json)
    requires p != [] && q != [] && p[0] != q[0]
    requires At(j, common + p).Ok?
    ensures At(Put(j, common + p, v), common + q) == At(j, common + q)
  {
    var jp, jq := common + p, common + q;
    if common == [] {
      assert jp == p && jq == q;
      ChildElsewhere(j, p[0], q[0], Put(Child(j, p[0]).value, p[1..], v));
    } else {
      assert jp[1..] == common[1..] + p && jq[1..] == common[1..] + q;
      var c := Child(j, common[0]).value;
      PutElsewhere(c, common[1..], p, q, v);
      ChildOfPut(j, common[0], Put(c, jp[1..], v));
    }
  }
}
