/** The order in which the paths of a document come out of the flattened object. */
module FlattenOrder {
  import opened Escaping
  import opened Pointer
  import opened Ordering
  import opened Documents
  import opened Flatten
  import opened FlattenPaths

  /** A path through token `t` of the container at `c`. */
  function Through(c: Path, t: string, rest: Path): Path {
    c + ([t] + rest)
  }

  lemma ThroughText(c: Path, t: string, rest: Path)
    ensures ToString(Through(c, t, rest)) == ToString(c) + "/" + (Escape(t) + ToString(rest))
  {
    ToStringConcat(c, [t] + rest);
    ToStringCons(t, rest);
  }

  /** Two paths through one container are ordered by the texts from the token on. */
  lemma ThroughOrder(c: Path, t: string, x: Path, u: string, y: Path)
    ensures Less(ToString(Through(c, t, x)), ToString(Through(c, u, y)))
         == Less(Escape(t) + ToString(x), Escape(u) + ToString(y))
  {
    ThroughText(c, t, x);
    ThroughText(c, u, y);
    LessUnderPrefix(ToString(c) + "/", Escape(t) + ToString(x), Escape(u) + ToString(y));
  }

  lemma EscapeZero()
    ensures Escape("0") == "0" && Digits(0) == "0"
  {
    EscapeDigits("0");
  }

  /** Every path through element 0 of an array comes before every path through another element. */
  lemma IndexZeroFirst(c: Path, x: Path, i: nat, y: Path)
    requires i > 0
    ensures Less(ToString(Through(c, "0", x)), ToString(Through(c, Digits(i), y)))
  {
    ThroughOrder(c, "0", x, Digits(i), y);
    EscapeZero();
    DigitsValue(i);
    EscapeDigits(Digits(i));
    hide *;
    HeadsMore(Digits(i), ToString(y), ToString(x));
  }

  // ---------- The key "0" of an object ----------

  /**
   * Every path through member `k` comes before every path through member "0", whose value is `zero`:
   * `k` is empty, or starts with a character below '0' that is not escaped, or it continues a "0" with a
   * character below '/', while all paths through `zero` continue with '/'.
   */
  predicate SortsBeforeZero(k: string, zero: Json) {
    || k == ""
    || (k[0] < '0' && k[0] != '/')
    || (|k| > 1 && k[0] == '0' && k[1] < '/' && !IsLeaf(zero))
  }

  lemma EscapedHead(k: string)
    requires k != ""
    ensures Escape(k) != "" && Escape(k)[0] == if k[0] in "~/" then '~' else k[0]
    ensures k[0] !in "~/" ==> Escape(k) == [k[0]] + Escape(k[1..])
  {
    EscapeIsEncode(k);
    EscapeIsEncode(k[1..]);
  }

  lemma TextHead(p: Path)
    ensures p == [] ==> ToString(p) == ""
    ensures p != [] ==> ToString(p) != "" && ToString(p)[0] == '/'
  {
    PrintedStartsWithSlash(p);
  }

  lemma BeforeZero(k: string, y: Path, zero: Json, x: Path)
    requires SortsBeforeZero(k, zero) && LeafAt(zero, x)
    ensures Less(Escape(k) + ToString(y), "0" + ToString(x))
  {
    TextHead(x);
    TextHead(y);
    assert x == [] ==> IsLeaf(zero);
    if k == "" {
      EscapeIsEncode("");
      assert Escape(k) == "" && "" + ToString(y) == ToString(y);
      hide ToString, Escape, IsLeaf, LeafAt;
      assert ("0" + ToString(x))[0] == '0';
    } else {
      EscapedHead(k);
      if k[0] == '0' {
        EscapedHead(k[1..]);
      }
      hide ToString, Escape, IsLeaf, LeafAt;
      HeadsLess(Escape(k), ToString(y), ToString(x));
    }
  }

  lemma HeadsLess(e: string, y: string, x: string)
    requires e != "" && (e[0] < '0' || (e[0] == '0' && |e| > 1 && x != "" && e[1] < x[0]))
    ensures Less(e + y, "0" + x)
  {
    var a, b := e + y, "0" + x;
    assert a[0] == e[0] && b[0] == '0' && b[1..] == x;
    assert e[0] == '0' && |e| > 1 ==> a[1..][0] == e[1];
  }

  lemma HeadsMore(e: string, y: string, x: string)
    requires e != "" && (e[0] > '0' || (e[0] == '0' && |e| > 1 && (x == "" || x[0] < e[1])))
    ensures Less("0" + x, e + y)
  {
    var a, b := "0" + x, e + y;
    assert b[0] == e[0] && a[0] == '0' && a[1..] == x;
    assert e[0] == '0' && |e| > 1 ==> b[1..][0] == e[1];
  }

  lemma AfterZero(k: string, y: Path, zero: Json, x: Path)
    requires !SortsBeforeZero(k, zero) && k != "0" && LeafAt(zero, x)
    ensures Less("0" + ToString(x), Escape(k) + ToString(y))
  {
    TextHead(x);
    EscapedHead(k);
    if k[0] == '0' {
      assert k == [k[0]] + k[1..];
      EscapedHead(k[1..]);
      if IsLeaf(zero) && x != [] {
        LeafHasNoChild(zero, x[0]);
      }
    }
    hide ToString, Escape, IsLeaf, LeafAt;
    assert Escape(k)[0] == '0' ==> Escape(k)[1..] == Escape(k[1..]) && Escape(k[1..]) != "";
    HeadsMore(Escape(k), ToString(y), ToString(x));
  }

  /** Where the flattened form of an object shows it to be one: its first path does not go through the key "0". */
  predicate ShowsAsObject(ms: map<string, Json>) {
    "0" in ms ==> exists k :: k in ms && SortsBeforeZero(k, ms["0"])
  }

  /** Every object anywhere in the document, unless empty, shows as an object. */
  predicate Reconstructible(j: Json) {
    match j
    case Array(es) => forall i :: 0 <= i < |es| ==> Reconstructible(es[i])
    case Object(ms) => ShowsAsObject(ms) && forall k :: k in ms ==> Reconstructible(ms[k])
    case _ => true
  }

  /** In particular when no object has the key "0". */
  predicate NoZeroKey(j: Json) {
    match j
    case Array(es) => forall i :: 0 <= i < |es| ==> NoZeroKey(es[i])
    case Object(ms) => "0" !in ms && forall k :: k in ms ==> NoZeroKey(ms[k])
    case _ => true
  }

  lemma {:induction false} NoZeroKeyReconstructible(j: Json)
    requires NoZeroKey(j)
    ensures Reconstructible(j)
  {
    match j
    case Array(es) =>
      forall i | 0 <= i < |es| ensures Reconstructible(es[i]) { NoZeroKeyReconstructible(es[i]); }
    case Object(ms) =>
      forall k | k in ms ensures Reconstructible(ms[k]) { NoZeroKeyReconstructible(ms[k]); }
    case _ =>
  }
}
