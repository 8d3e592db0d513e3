/** JSON Pointer text: `split`, `to_string` and array indices (RFC 6901 sections 3 and 4). */
module Pointer {
  import opened Results
  import opened Escaping

  // ---------- The grammar of RFC 6901 section 3 ----------

  /** `json-pointer = *( "/" reference-token )`, for given reference tokens. */
  function Join(raw: seq<string>): string {
    if raw == [] then "" else "/" + raw[0] + Join(raw[1..])
  }

  ghost predicate AllReferenceTokens(raw: seq<string>) {
    forall i :: 0 <= i < |raw| ==> IsReferenceToken(raw[i])
  }

  ghost predicate IsPointer(p: string) {
    exists raw :: AllReferenceTokens(raw) && Join(raw) == p
  }

  // ---------- Printing ----------

  /** `to_string`: a left fold over the tokens. */
  function ToString(ts: seq<string>): string {
    if ts == [] then "" else ToString(ts[..|ts| - 1]) + "/" + Escape(ts[|ts| - 1])
  }

  lemma {:induction false} ToStringConcat(a: seq<string>, b: seq<string>)
    ensures ToString(a + b) == ToString(a) + ToString(b)
  {
    if b == [] {
      assert a + b == a;
    } else {
      var c := b[..|b| - 1];
      assert (a + b)[..|a + b| - 1] == a + c;
      ToStringConcat(a, c);
    }
  }

  lemma ToStringSingle(t: string)
    ensures ToString([t]) == "/" + Escape(t)
  {
    assert [t][..0] == [];
  }

  lemma ToStringCons(t: string, ts: seq<string>)
    ensures ToString([t] + ts) == "/" + Escape(t) + ToString(ts)
  {
    ToStringConcat([t], ts);
    ToStringSingle(t);
  }

  // ---------- Parsing ----------

  function FirstSlash(s: string): (k: nat)
    ensures k <= |s| && (k < |s| ==> s[k] == '/')
    ensures forall i :: 0 <= i < k ==> s[i] != '/'
  {
    if s == [] || s[0] == '/' then 0 else 1 + FirstSlash(s[1..])
  }

  /** The text after a slash: tokens separated by slashes. */
  function ParseTokens(s: string): Result<seq<string>> {
    var k := FirstSlash(s);
    if !IsReferenceToken(s[..k]) then Err(POINTER_BAD_ESCAPE)
    else if k == |s| then Ok([Unescape(s[..k])])
    else
      var rest :- ParseTokens(s[k + 1..]);
      Ok([Unescape(s[..k])] + rest)
  }

  /** What `split` answers: the unescaped tokens, or the error it throws. */
  function Parse(p: string): Result<seq<string>> {
    if p == "" then Ok([])
    else if p[0] != '/' then Err(POINTER_NO_SLASH)
    else ParseTokens(p[1..])
  }

  /** A text that is refused for its first character, or for a `~` that escapes nothing. */
  lemma {:induction false} TokensRefused(s: string)
    ensures ParseTokens(s).Err? ==> ParseTokens(s) == Err(POINTER_BAD_ESCAPE)
    decreases |s|
  {
    hide IsReferenceToken, Unescape;
    var k := FirstSlash(s);
    if k < |s| {
      TokensRefused(s[k + 1..]);
    }
  }

  lemma ParseRefuses(p: string)
    ensures Parse(p) == Err(POINTER_NO_SLASH) <==> p != "" && p[0] != '/'
    ensures Parse(p).Err? && Parse(p) != Err(POINTER_NO_SLASH) ==> Parse(p) == Err(POINTER_BAD_ESCAPE)
  {
    if p != "" && p[0] == '/' {
      TokensRefused(p[1..]);
    }
  }

  function Prepend(ts: seq<string>, r: Result<seq<string>>): Result<seq<string>> {
    if r.Ok? then Ok(ts + r.value) else r
  }

  ghost predicate TildesEscaped(x: string, below: int) {
    forall i :: 0 <= i < |x| && i < below && x[i] == '~' ==> i + 1 < |x| && x[i + 1] in "01"
  }

  lemma {:induction false} ReferenceTokenByPosition(x: string)
    ensures IsReferenceToken(x) <==> '/' !in x && TildesEscaped(x, |x|)
  {
    if x == [] {
    } else if x[0] == '~' {
      if |x| >= 2 && x[1] in "01" {
        var y := x[2..];
        ReferenceTokenByPosition(y);
        assert x == x[..2] + y;
        assert forall i :: 0 <= i < |y| ==> y[i] == x[i + 2];
        if TildesEscaped(y, |y|) {
          forall i | 0 <= i < |x| && x[i] == '~' ensures i + 1 < |x| && x[i + 1] in "01" {
            if i >= 2 { assert y[i - 2] == '~'; }
          }
        }
      }
    } else {
      var y := x[1..];
      ReferenceTokenByPosition(y);
      assert x == [x[0]] + y;
      assert forall i :: 0 <= i < |y| ==> y[i] == x[i + 1];
      if TildesEscaped(y, |y|) {
        forall i | 0 <= i < |x| && x[i] == '~' ensures i + 1 < |x| && x[i + 1] in "01" {
          if i >= 1 { assert y[i - 1] == '~'; }
        }
      }
    }
  }

  /** The scan for `~` inside one token. */
  method TokenIsEscaped(token: string) returns (ok: bool)
    requires '/' !in token
    ensures ok == IsReferenceToken(token)
  {
    hide *;
    ReferenceTokenByPosition(token);
    var pos := Find(token, "~", 0);
    TildesBetween(token, 0, pos);
    NoTildes(token, if pos == NPOS then |token| else pos);
    while pos != NPOS
      invariant pos == NPOS || 0 <= pos < |token|
      invariant pos != NPOS ==> token[pos] == '~'
      invariant TildesEscaped(token, if pos == NPOS then |token| else pos)
      decreases if pos == NPOS then 0 else |token| - pos
    {
      TildeHere(token, pos);
      if pos == |token| - 1 || (token[pos + 1] != '0' && token[pos + 1] != '1') {
        return false;
      }
      ghost var before := pos;
      pos := Find(token, "~", pos + 1);
      TildesBetween(token, before + 1, pos);
      TildesFurther(token, before, if pos == NPOS then |token| else pos);
    }
    return true;
  }

  lemma NoTildes(x: string, below: int)
    requires forall i :: 0 <= i < |x| && i < below ==> x[i] != '~'
    ensures TildesEscaped(x, below)
  {
  }

  lemma TildeHere(x: string, pos: nat)
    requires pos < |x| && x[pos] == '~'
    ensures pos == |x| - 1 || (x[pos + 1] != '0' && x[pos + 1] != '1') ==> !TildesEscaped(x, |x|)
  {
  }

  lemma TildesFurther(x: string, pos: nat, below: int)
    requires TildesEscaped(x, pos) && pos + 1 < |x| && x[pos + 1] in "01"
    requires forall i :: pos < i < |x| && i < below ==> x[i] != '~'
    ensures TildesEscaped(x, below)
  {
  }

  lemma TildesBetween(x: string, from: nat, pos: int)
    requires pos == Find(x, "~", from)
    ensures pos != NPOS ==> from <= pos < |x| && x[pos] == '~'
    ensures forall i :: from <= i < |x| && (pos == NPOS || i < pos) ==> x[i] != '~'
  {
    if pos != NPOS { assert x[pos..pos + 1] == "~"; }
    forall i | from <= i < |x| && (pos == NPOS || i < pos) ensures x[i] != '~' {
      assert !OccursAt(x, "~", i) && x[i..i + 1] == [x[i]];
    }
  }

  lemma FirstSlashIs(s: string, k: nat)
    requires k <= |s| && (k < |s| ==> s[k] == '/')
    requires forall i :: 0 <= i < k ==> s[i] != '/'
    ensures FirstSlash(s) == k
  {
  }

  /** `find_first_of('/', from)` over the whole text. */
  lemma SlashFound(p: string, from: nat, slash: int)
    requires from <= |p| && slash == Find(p, "/", from)
    ensures slash == NPOS ==> FirstSlash(p[from..]) == |p| - from
    ensures slash != NPOS ==> from <= slash < |p| && FirstSlash(p[from..]) == slash - from
  {
    hide Find, FirstSlash;
    var end := if slash == NPOS then |p| else slash;
    if slash != NPOS { assert p[slash] == p[slash..slash + 1][0]; }
    forall i | from <= i < end ensures p[i] != '/' {
      assert !OccursAt(p, "/", i) && p[i..i + 1] == [p[i]];
    }
    FirstSlashIs(p[from..], end - from);
  }

  /** Where `split` stands: `result` is read, and `start` is where reading goes on (0 when nothing is left). */
  ghost predicate Reading(p: string, start: nat, result: seq<string>) {
    start <= |p| && Parse(p) == if start == 0 then Ok(result) else Prepend(result, ParseTokens(p[start..]))
  }

  function TokenAt(p: string, start: nat, slash: int): string
    requires start <= |p| && (slash == NPOS || start <= slash <= |p|)
  {
    if slash == NPOS then p[start..] else p[start..slash]
  }

  lemma SplitStep(p: string, start: nat, slash: int, result: seq<string>)
    requires 0 < start <= |p| && slash == Find(p, "/", start) && Reading(p, start, result)
    ensures slash == NPOS || start <= slash < |p|
    ensures var token := TokenAt(p, start, slash);
      && '/' !in token
      && (!IsReferenceToken(token) ==> Parse(p) == Err(POINTER_BAD_ESCAPE))
      && (IsReferenceToken(token) ==> Reading(p, if slash == NPOS then 0 else slash + 1, result + [Unescape(token)]))
  {
    SlashFound(p, start, slash);
    hide IsReferenceToken, Unescape, Find, FirstSlash, ParseTokens, Parse;
    var s := p[start..];
    var k := FirstSlash(s);
    var token := TokenAt(p, start, slash);
    assert token == s[..k];
    ParseTokensUnfold(s, k);
    if slash != NPOS {
      assert s[k + 1..] == p[slash + 1..];
      PrependTwice(result, [Unescape(token)], ParseTokens(p[slash + 1..]));
    }
  }

  lemma PrependTwice(a: seq<string>, b: seq<string>, r: Result<seq<string>>)
    ensures Prepend(a, Prepend(b, r)) == Prepend(a + b, r)
  {
    if r.Ok? { assert a + (b + r.value) == a + b + r.value; }
  }

  /** `split`: `slash` and `start` walk over the text; `start == 0` ends the walk. */
  method Split(p: string) returns (r: Result<seq<string>>)
    ensures r == Parse(p)
  {
    if p == "" {
      return Ok([]);
    }
    if p[0] != '/' {
      return Err(POINTER_NO_SLASH);
    }
    var result: seq<string> := [];
    var slash := Find(p, "/", 1);
    var start := 1;
    PrependNothing(ParseTokens(p[1..]));
    while start != 0
      invariant start >= 0 && Reading(p, start, result)
      invariant start != 0 ==> slash == Find(p, "/", start)
      decreases if start == 0 then 0 else |p| + 1 - start
    {
      SplitStep(p, start, slash, result);
      var token := TokenAt(p, start, slash);
      var escaped := TokenIsEscaped(token);
      if !escaped {
        return Err(POINTER_BAD_ESCAPE);
      }
      var unescaped := UnescapeInPlace(token);
      result := result + [unescaped];
      start := if slash == NPOS then 0 else slash + 1;
      slash := Find(p, "/", start);
    }
    return Ok(result);
  }

  lemma PrependNothing(r: Result<seq<string>>)
    ensures Prepend([], r) == r
  {
    if r.Ok? { assert [] + r.value == r.value; }
  }

  // ---------- Round trips and the accepted language ----------

  lemma NoSlashInToken(x: string)
    requires IsReferenceToken(x)
    ensures '/' !in x
  {
    ReferenceTokenByPosition(x);
  }

  lemma ParseTokensUnfold(s: string, k: nat)
    requires k == FirstSlash(s)
    ensures !IsReferenceToken(s[..k]) ==> ParseTokens(s) == Err(POINTER_BAD_ESCAPE)
    ensures IsReferenceToken(s[..k]) && k == |s| ==> ParseTokens(s) == Ok([Unescape(s[..k])])
    ensures IsReferenceToken(s[..k]) && k < |s| ==>
      ParseTokens(s) == Prepend([Unescape(s[..k])], ParseTokens(s[k + 1..]))
  {
  }

  lemma ParseAfterSlash(s: string)
    ensures Parse("/" + s) == ParseTokens(s)
  {
    hide ParseTokens;
    assert ("/" + s)[1..] == s;
  }

  lemma FirstOfTokens(x: string, rest: string)
    requires IsReferenceToken(x)
    requires rest == "" || rest[0] == '/'
    ensures rest == "" ==> ParseTokens(x + rest) == Ok([Unescape(x)])
    ensures rest != "" ==> ParseTokens(x + rest) == Prepend([Unescape(x)], ParseTokens(rest[1..]))
  {
    NoSlashInToken(x);
    hide *;
    var s := x + rest;
    FirstSlashIs(s, |x|);
    assert s[..|x|] == x;
    ParseTokensUnfold(s, |x|);
    if rest != "" {
      assert s[|x| + 1..] == rest[1..];
    }
  }

  lemma PrependToNothing(t: string)
    ensures Prepend([t], Ok([])) == Ok([t]) && Parse("") == Ok([])
  {
    assert [t] + [] == [t];
  }

  /** One token followed by the rest of a pointer. */
  lemma ParseFirst(x: string, rest: string)
    requires IsReferenceToken(x)
    requires rest == "" || rest[0] == '/'
    ensures Parse("/" + x + rest) == Prepend([Unescape(x)], Parse(rest))
  {
    hide *;
    assert "/" + x + rest == "/" + (x + rest);
    ParseAfterSlash(x + rest);
    FirstOfTokens(x, rest);
    if rest == "" {
      PrependToNothing(Unescape(x));
    } else {
      assert rest == "/" + rest[1..];
      ParseAfterSlash(rest[1..]);
    }
  }

  /** `split(to_string(ts)) == ts` for every list of tokens. */
  lemma {:induction false} ParseToString(ts: seq<string>)
    ensures Parse(ToString(ts)) == Ok(ts)
  {
    if ts != [] {
      assert ts == [ts[0]] + ts[1..];
      ToStringCons(ts[0], ts[1..]);
      EscapeRoundTrip(ts[0]);
      ParseToString(ts[1..]);
      PrintedStartsWithSlash(ts[1..]);
      ParseFirst(Escape(ts[0]), ToString(ts[1..]));
    }
  }

  lemma PrintedStartsWithSlash(ts: seq<string>)
    ensures if ts == [] then ToString(ts) == "" else ToString(ts) != "" && ToString(ts)[0] == '/'
  {
    if ts != [] {
      assert ts == [ts[0]] + ts[1..];
      ToStringCons(ts[0], ts[1..]);
    }
  }

  /** `to_string` is one to one, so distinct token lists are distinct keys of a flattened document. */
  lemma ToStringInjective(a: seq<string>, b: seq<string>)
    requires ToString(a) == ToString(b)
    ensures a == b
  {
    ParseToString(a);
    ParseToString(b);
  }

  lemma {:induction false} ParseTokensToString(s: string)
    requires ParseTokens(s).Ok?
    ensures ToString(ParseTokens(s).value) == "/" + s
  {
    var k := FirstSlash(s);
    UnescapeRoundTrip(s[..k]);
    if k == |s| {
      assert s[..k] == s;
      ToStringSingle(Unescape(s));
    } else {
      ParseTokensToString(s[k + 1..]);
      PrintedPair(Unescape(s[..k]), ParseTokens(s[k + 1..]).value, s[..k], s[k + 1..]);
      SlashedPair(s, k);
    }
  }

  lemma SlashedPair(s: string, k: nat)
    requires k < |s| && s[k] == '/'
    ensures "/" + s[..k] + "/" + s[k + 1..] == "/" + s
  {
  }

  lemma PrintedPair(t: string, ts: seq<string>, x: string, rest: string)
    requires Escape(t) == x && ToString(ts) == "/" + rest
    ensures ToString([t] + ts) == "/" + x + "/" + rest
  {
    ToStringCons(t, ts);
    assert "/" + x + ("/" + rest) == "/" + x + "/" + rest;
  }

  /** `to_string(split(p)) == p` for every accepted text. */
  lemma ToStringParse(p: string)
    requires Parse(p).Ok?
    ensures ToString(Parse(p).value) == p
  {
    if p != "" {
      ParseTokensToString(p[1..]);
      assert p == "/" + p[1..];
    }
  }

  lemma {:induction false} PrintedIsJoined(ts: seq<string>)
    ensures exists raw :: AllReferenceTokens(raw) && Join(raw) == ToString(ts)
  {
    if ts == [] {
      assert AllReferenceTokens([]) && Join([]) == ToString(ts);
    } else {
      PrintedIsJoined(ts[1..]);
      var raw :| AllReferenceTokens(raw) && Join(raw) == ToString(ts[1..]);
      EscapeRoundTrip(ts[0]);
      assert ts == [ts[0]] + ts[1..];
      ToStringCons(ts[0], ts[1..]);
      var longer := [Escape(ts[0])] + raw;
      assert longer[1..] == raw;
      assert AllReferenceTokens(longer) && Join(longer) == ToString(ts);
    }
  }

  lemma {:induction false} JoinedIsParsed(raw: seq<string>)
    requires AllReferenceTokens(raw)
    ensures Parse(Join(raw)).Ok?
  {
    if raw != [] {
      JoinedIsParsed(raw[1..]);
      JoinStartsWithSlash(raw[1..]);
      ParseFirst(raw[0], Join(raw[1..]));
    }
  }

  lemma JoinStartsWithSlash(raw: seq<string>)
    ensures Join(raw) == "" || Join(raw)[0] == '/'
  {
  }

  /** `split` accepts exactly the grammar of RFC 6901 section 3. */
  lemma ParseAcceptsGrammar(p: string)
    ensures Parse(p).Ok? <==> IsPointer(p)
  {
    if Parse(p).Ok? {
      ToStringParse(p);
      PrintedIsJoined(Parse(p).value);
    }
    if IsPointer(p) {
      var raw :| AllReferenceTokens(raw) && Join(raw) == p;
      JoinedIsParsed(raw);
    }
  }

  // ---------- Array indices ----------

  /** The largest `size_type`; an array never has more elements than this. */
  const SIZE_MAX := 0xFFFF_FFFF_FFFF_FFFF

  function DigitOf(d: nat): char
    requires d < 10
  {
    '0' + d as char
  }

  predicate IsDigit(c: char) {
    '0' <= c <= '9'
  }

  /** `std::to_string` of an index. */
  function Digits(n: nat): (s: string)
    ensures s != [] && IsDigit(s[0])
    ensures s[0] == '0' <==> n == 0
    ensures |s| > 1 ==> s[0] != '0'
  {
    if n < 10 then [DigitOf(n)] else Digits(n / 10) + [DigitOf(n % 10)]
  }

  predicate AllDigits(s: string) {
    forall i :: 0 <= i < |s| ==> IsDigit(s[i])
  }

  function ValueOf(s: string): nat
    requires AllDigits(s)
  {
    if s == [] then 0 else ValueOf(s[..|s| - 1]) * 10 + (s[|s| - 1] - '0') as nat
  }

  /** `array_index`: RFC 6901 section 4 allows no sign, no leading zero, and nothing after the digits. */
  function ArrayIndex(s: string): Result<nat> {
    if |s| > 1 && s[0] == '0' then Err(INDEX_LEADING_ZERO)
    else if |s| > 1 && !('1' <= s[0] <= '9') then Err(INDEX_NOT_NUMBER)
    else if s == "" || !AllDigits(s) || ValueOf(s) > SIZE_MAX then Err(TOKEN_UNRESOLVED)
    else if ValueOf(s) >= SIZE_MAX then Err(INDEX_TOO_LARGE)
    else Ok(ValueOf(s))
  }

  lemma {:induction false} DigitsValue(n: nat)
    ensures AllDigits(Digits(n)) && ValueOf(Digits(n)) == n
  {
    if n >= 10 {
      DigitsValue(n / 10);
      var s := Digits(n);
      assert s[..|s| - 1] == Digits(n / 10);
    } else {
      assert Digits(n)[..0] == [];
    }
  }

  lemma DigitsMore(n: nat, c: char)
    requires n > 0 && '0' <= c <= '9'
    ensures Digits(10 * n + (c as int - '0' as int)) == Digits(n) + [c]
  {
  }

  lemma {:induction false} ValueDigits(s: string)
    requires s != [] && AllDigits(s) && (|s| > 1 ==> s[0] != '0')
    ensures Digits(ValueOf(s)) == s
    ensures s[0] != '0' ==> ValueOf(s) > 0
  {
    if |s| > 1 {
      var t := s[..|s| - 1];
      ValueDigits(t);
      assert s == t + [s[|s| - 1]];
      hide Digits;
      DigitsMore(ValueOf(t), s[|s| - 1]);
    } else {
      assert s[..0] == [];
      assert s == [s[0]];
    }
  }

  /** A printed index is read back as itself. */
  lemma ArrayIndexOfDigits(n: nat)
    requires n < SIZE_MAX
    ensures ArrayIndex(Digits(n)) == Ok(n)
  {
    DigitsValue(n);
  }

  /** An accepted index token is the printed form of its value: no two tokens name one element. */
  lemma DigitsOfArrayIndex(s: string)
    requires ArrayIndex(s).Ok?
    ensures Digits(ArrayIndex(s).value) == s
  {
    ValueDigits(s);
  }

  /** Digits need no escaping. */
  lemma {:induction false} EscapeDigits(s: string)
    requires AllDigits(s)
    ensures Escape(s) == s
  {
    EscapeIsEncode(s);
    EncodeDigits(s);
  }

  lemma {:induction false} EncodeDigits(s: string)
    requires AllDigits(s)
    ensures Encode(s) == s
  {
    if s != [] {
      EncodeDigits(s[1..]);
      assert s == [s[0]] + s[1..];
    }
  }
}
