/** Escaping of reference tokens, RFC 6901 section 4: `~` is written `~0` and `/` is written `~1`. */
module Escaping {

  const NPOS := -1

  predicate OccursAt(s: string, f: string, p: int) {
    0 <= p <= |s| - |f| && s[p..p + |f|] == f
  }

  /** `std::string::find`: the first occurrence of `f` at or after `from`. */
  function Find(s: string, f: string, from: nat): (p: int)
    ensures p == NPOS || (from <= p && OccursAt(s, f, p))
    ensures forall q :: from <= q && (p == NPOS || q < p) ==> !OccursAt(s, f, q)
    decreases |s| - from
  {
    if |s| < from + |f| then NPOS
    else if OccursAt(s, f, from) then from
    else if from == |s| then NPOS
    else Find(s, f, from + 1)
  }

  /** What one left-to-right pass over `s` makes of it: every occurrence of `f`, found greedily, becomes `t`. */
  function ReplaceAll(s: string, f: string, t: string): string
    requires f != []
  {
    if |s| < |f| then s
    else if s[..|f|] == f then t + ReplaceAll(s[|f|..], f, t)
    else [s[0]] + ReplaceAll(s[1..], f, t)
  }

  lemma OccursInTail(s: string, f: string)
    requires s != []
    ensures forall q: nat :: OccursAt(s[1..], f, q) == OccursAt(s, f, q + 1)
  {
    forall q: nat ensures OccursAt(s[1..], f, q) == OccursAt(s, f, q + 1) {
      if q <= |s| - 1 - |f| {
        assert s[1..][q..q + |f|] == s[q + 1..q + 1 + |f|];
      }
    }
  }

  lemma {:induction false} ReplaceFirst(s: string, f: string, t: string, p: nat)
    requires f != [] && OccursAt(s, f, p)
    requires forall q :: 0 <= q < p ==> !OccursAt(s, f, q)
    ensures ReplaceAll(s, f, t) == s[..p] + t + ReplaceAll(s[p + |f|..], f, t)
  {
    hide *;
    if p == 0 {
      ReplaceHere(s, f, t);
    } else {
      FirstInTail(s, f, p);
      ReplaceFirst(s[1..], f, t, p - 1);
      ReplaceLater(s, f, t, p);
    }
  }

  lemma ReplaceHere(s: string, f: string, t: string)
    requires f != [] && OccursAt(s, f, 0)
    ensures |f| <= |s| && ReplaceAll(s, f, t) == s[..0] + t + ReplaceAll(s[|f|..], f, t)
  {
    ReplaceUnfold(s, f, t);
    hide *;
    assert s[..0] + t == t;
  }

  lemma ReplaceLater(s: string, f: string, t: string, p: nat)
    requires f != [] && 0 < p && p + |f| <= |s| && !OccursAt(s, f, 0)
    requires ReplaceAll(s[1..], f, t) == s[1..][..p - 1] + t + ReplaceAll(s[p + |f|..], f, t)
    ensures ReplaceAll(s, f, t) == s[..p] + t + ReplaceAll(s[p + |f|..], f, t)
  {
    ReplaceUnfold(s, f, t);
    hide *;
    ConsPrefix(s, p, t, ReplaceAll(s[p + |f|..], f, t));
  }

  lemma FirstInTail(s: string, f: string, p: nat)
    requires OccursAt(s, f, p) && p > 0
    requires forall q :: 0 <= q < p ==> !OccursAt(s, f, q)
    ensures p + |f| <= |s| && OccursAt(s[1..], f, p - 1) && s[1..][p - 1 + |f|..] == s[p + |f|..]
    ensures forall q :: 0 <= q < p - 1 ==> !OccursAt(s[1..], f, q)
  {
    OccursInTail(s, f);
  }

  lemma ReplaceUnfold(s: string, f: string, t: string)
    requires f != [] && |s| >= |f|
    ensures OccursAt(s, f, 0) ==> ReplaceAll(s, f, t) == t + ReplaceAll(s[|f|..], f, t)
    ensures !OccursAt(s, f, 0) ==> ReplaceAll(s, f, t) == [s[0]] + ReplaceAll(s[1..], f, t)
  {
    assert s[0..0 + |f|] == s[..|f|];
  }

  lemma ConsPrefix(s: string, p: nat, t: string, r: string)
    requires 0 < p <= |s|
    ensures [s[0]] + (s[1..][..p - 1] + t + r) == s[..p] + t + r
  {
    assert [s[0]] + s[1..][..p - 1] == s[..p];
  }

  lemma {:induction false} ReplaceNone(s: string, f: string, t: string)
    requires f != []
    requires forall q :: 0 <= q ==> !OccursAt(s, f, q)
    ensures ReplaceAll(s, f, t) == s
  {
    if |s| >= |f| {
      assert !OccursAt(s, f, 0);
      OccursInTail(s, f);
      ReplaceNone(s[1..], f, t);
    }
  }

  /** The program's in-place edit: `pos` jumps over each replacement, so inserted text is never searched again. */
  method ReplaceSubstring(original: string, f: string, t: string) returns (s: string)
    requires f != []
    ensures s == ReplaceAll(original, f, t)
  {
    s := original;
    var pos := Find(s, f, 0);
    ghost var done, rest := [], original;
    while pos != NPOS
      invariant s == done + rest
      invariant done + ReplaceAll(rest, f, t) == ReplaceAll(original, f, t)
      invariant pos == Find(s, f, |done|)
      decreases |rest|
    {
      ReplaceStep(done, rest, f, t, pos);
      s := s[..pos] + t + s[pos + |f|..];
      done, rest := s[..pos + |t|], s[pos + |t|..];
      pos := Find(s, f, pos + |t|);
    }
    RestOccurrences(done, rest, f, NPOS);
    ReplaceNone(rest, f, t);
  }

  lemma RestOccurrences(done: string, rest: string, f: string, pos: int)
    requires f != [] && pos == Find(done + rest, f, |done|)
    ensures pos == NPOS ==> forall q :: 0 <= q ==> !OccursAt(rest, f, q)
    ensures pos != NPOS ==> |done| <= pos && OccursAt(rest, f, pos - |done|)
    ensures pos != NPOS ==> forall q :: 0 <= q < pos - |done| ==> !OccursAt(rest, f, q)
  {
    var s := done + rest;
    forall q | 0 <= q ensures OccursAt(rest, f, q) == OccursAt(s, f, q + |done|) {
      if q <= |rest| - |f| {
        assert s[q + |done|..q + |done| + |f|] == rest[q..q + |f|];
      }
    }
    if pos != NPOS {
      assert OccursAt(rest, f, pos - |done|) == OccursAt(s, f, pos);
    }
  }

  /** One replacement moves the boundary past the inserted text and keeps the final result. */
  lemma ReplaceStep(done: string, rest: string, f: string, t: string, pos: int)
    requires f != [] && pos == Find(done + rest, f, |done|) && pos != NPOS
    ensures |done| <= pos && pos + |f| <= |done + rest|
    ensures var s := (done + rest)[..pos] + t + (done + rest)[pos + |f|..];
      && done + ReplaceAll(rest, f, t) == s[..pos + |t|] + ReplaceAll(s[pos + |t|..], f, t)
      && |s[pos + |t|..]| < |rest|
  {
    RestOccurrences(done, rest, f, pos);
    var p := pos - |done|;
    ReplaceFirst(rest, f, t, p);
    var s := (done + rest)[..pos] + t + (done + rest)[pos + |f|..];
    var after := rest[p + |f|..];
    assert s[pos + |t|..] == after;
    assert s[..pos + |t|] == done + rest[..p] + t;
    ConcatAssociates(done, rest[..p], t, ReplaceAll(after, f, t));
  }

  lemma ConcatAssociates(a: string, b: string, c: string, d: string)
    ensures a + (b + c + d) == a + b + c + d
  {
  }

  function Escape(s: string): string {
    ReplaceAll(ReplaceAll(s, "~", "~0"), "/", "~1")
  }

  function Unescape(s: string): string {
    ReplaceAll(ReplaceAll(s, "~1", "/"), "~0", "~")
  }

  method EscapeInPlace(original: string) returns (s: string)
    ensures s == Escape(original)
  {
    s := ReplaceSubstring(original, "~", "~0");
    s := ReplaceSubstring(s, "/", "~1");
  }

  method UnescapeInPlace(original: string) returns (s: string)
    ensures s == Unescape(original)
  {
    s := ReplaceSubstring(original, "~1", "/");
    s := ReplaceSubstring(s, "~0", "~");
  }

  /** RFC 6901 section 3, `reference-token = *( unescaped / escaped )`. */
  predicate IsReferenceToken(x: string) {
    x == [] ||
    if x[0] == '~' then |x| >= 2 && x[1] in "01" && IsReferenceToken(x[2..])
    else x[0] != '/' && IsReferenceToken(x[1..])
  }

  /** Character by character encoding of a key, and decoding of a reference token. */
  function Encode(s: string): string {
    if s == [] then []
    else (if s[0] == '~' then "~0" else if s[0] == '/' then "~1" else [s[0]]) + Encode(s[1..])
  }

  function Decode(x: string): string
    requires IsReferenceToken(x)
  {
    if x == [] then []
    else if x[0] == '~' then (if x[1] == '0' then "~" else "/") + Decode(x[2..])
    else [x[0]] + Decode(x[1..])
  }

  lemma ReplaceHead(s: string, f: string, t: string)
    requires f != [] && s != []
    ensures |s| >= |f| && s[..|f|] == f ==> ReplaceAll(s, f, t) == t + ReplaceAll(s[|f|..], f, t)
    ensures s[0] != f[0] ==> ReplaceAll(s, f, t) == [s[0]] + ReplaceAll(s[1..], f, t)
    ensures |s| >= 2 && |f| == 2 && s[1] != f[1] ==> ReplaceAll(s, f, t) == [s[0]] + ReplaceAll(s[1..], f, t)
  {
    if |s| >= |f| && s[..|f|] == f {
      assert s[0] == s[..|f|][0] && s[|f| - 1] == s[..|f|][|f| - 1];
    } else if |s| < |f| && |s| == 1 {
      assert s == [s[0]] + s[1..];
    } else if |s| < |f| {
      assert s == [s[0]] + s[1..];
    }
  }

  /** The two passes of `escape`, in the program's order, encode each character once. */
  lemma {:induction false} EscapeIsEncode(s: string)
    ensures Escape(s) == Encode(s)
  {
    if s != [] {
      var once := ReplaceAll(s[1..], "~", "~0");
      EscapeIsEncode(s[1..]);
      ReplaceHead(s, "~", "~0");
      hide ReplaceAll;
      if s[0] == '~' {
        SecondPassTilde(once);
      } else {
        SecondPassOther(s[0], once);
      }
    }
  }

  /** What escaping does to each character; and it does so one character after the other. */
  lemma {:induction false} EscapeIsByCharacter(s: string, c: char)
    ensures Escape("") == "" && Escape("~") == "~0" && Escape("/") == "~1"
    ensures c != '~' && c != '/' ==> Escape([c]) == [c]
    ensures Escape(s + [c]) == Escape(s) + Escape([c])
  {
    EscapeIsEncode("");
    EscapeIsEncode("~");
    EscapeIsEncode("/");
    EscapeIsEncode([c]);
    EscapeIsEncode(s);
    EscapeIsEncode(s + [c]);
    hide Escape;
    assert Encode("") == "";
    assert Encode("~") == "~0" + Encode("") && Encode("/") == "~1" + Encode("");
    EncodeLast(s, c);
  }

  lemma {:induction false} EncodeLast(s: string, c: char)
    ensures Encode(s + [c]) == Encode(s) + Encode([c])
  {
    if s == [] {
      assert s + [c] == [c];
    } else {
      EncodeLast(s[1..], c);
      assert (s + [c])[0] == s[0] && (s + [c])[1..] == s[1..] + [c];
    }
  }

  lemma SecondPassTilde(once: string)
    ensures ReplaceAll("~0" + once, "/", "~1") == "~0" + ReplaceAll(once, "/", "~1")
  {
    var u := "~0" + once;
    ReplaceHead(u, "/", "~1");
    assert u[1..] == "0" + once;
    ReplaceHead(u[1..], "/", "~1");
    assert u[1..][1..] == once;
    hide *;
    assert ['~'] + (['0'] + ReplaceAll(once, "/", "~1")) == "~0" + ReplaceAll(once, "/", "~1");
  }

  lemma SecondPassOther(c: char, once: string)
    ensures ReplaceAll([c] + once, "/", "~1") == (if c == '/' then "~1" else [c]) + ReplaceAll(once, "/", "~1")
  {
    var u := [c] + once;
    assert u[1..] == once && u[..1] == [c];
    ReplaceHead(u, "/", "~1");
  }

  /** The two passes of `unescape` decode every reference token of the grammar character by character. */
  lemma {:induction false} UnescapeIsDecode(x: string)
    requires IsReferenceToken(x)
    ensures Unescape(x) == Decode(x)
  {
    if x == [] {
    } else if x[0] != '~' {
      UnescapeIsDecode(x[1..]);
      ReplaceHead(x, "~1", "/");
      var u := [x[0]] + ReplaceAll(x[1..], "~1", "/");
      assert u[1..] == ReplaceAll(x[1..], "~1", "/");
      ReplaceHead(u, "~0", "~");
    } else if x[1] == '1' {
      UnescapeIsDecode(x[2..]);
      assert x[..2] == "~1";
      ReplaceHead(x, "~1", "/");
      var u := "/" + ReplaceAll(x[2..], "~1", "/");
      assert u[1..] == ReplaceAll(x[2..], "~1", "/");
      ReplaceHead(u, "~0", "~");
    } else {
      UnescapeIsDecode(x[2..]);
      ReplaceHead(x, "~1", "/");
      ReplaceHead(x[1..], "~1", "/");
      assert x[1..][1..] == x[2..];
      var u := ['~'] + (['0'] + ReplaceAll(x[2..], "~1", "/"));
      assert u[..2] == "~0" && u[2..] == ReplaceAll(x[2..], "~1", "/");
      ReplaceHead(u, "~0", "~");
    }
  }

  /** Every key survives escaping, and its escaped form is a reference token. */
  lemma {:induction false} EscapeRoundTrip(s: string)
    ensures IsReferenceToken(Escape(s)) && Unescape(Escape(s)) == s
  {
    EscapeIsEncode(s);
    DecodeEncode(s);
    UnescapeIsDecode(Encode(s));
  }

  lemma {:induction false} DecodeEncode(s: string)
    ensures IsReferenceToken(Encode(s)) && Decode(Encode(s)) == s
  {
    if s != [] {
      DecodeEncode(s[1..]);
      var e := Encode(s);
      if s[0] in "~/" {
        assert e[2..] == Encode(s[1..]);
      } else {
        assert e[1..] == Encode(s[1..]);
      }
      assert s == [s[0]] + s[1..];
    }
  }

  /** Every reference token is the escaped form of what it decodes to, so escaping is onto the grammar. */
  lemma {:induction false} UnescapeRoundTrip(x: string)
    requires IsReferenceToken(x)
    ensures Escape(Unescape(x)) == x
  {
    UnescapeIsDecode(x);
    EncodeDecode(x);
    EscapeIsEncode(Decode(x));
  }

  lemma {:induction false} EncodeDecode(x: string)
    requires IsReferenceToken(x)
    ensures Encode(Decode(x)) == x
  {
    if x == [] {
    } else if x[0] == '~' {
      EncodeDecode(x[2..]);
      assert Decode(x)[1..] == Decode(x[2..]);
      assert x == [x[0], x[1]] + x[2..];
    } else {
      EncodeDecode(x[1..]);
      assert Decode(x)[1..] == Decode(x[1..]);
      assert x == [x[0]] + x[1..];
    }
  }
}
