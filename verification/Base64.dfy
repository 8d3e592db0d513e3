/** The base64 codec (section 4 of RFC 4648). */
module Base64 {

  const UPPER := "ABCDEFGHIJKLMNOPQRSTUVWXYZ"
  const LOWER := "abcdefghijklmnopqrstuvwxyz"
  const OTHERS := "0123456789+/"

  function Alphabet(): (s: string)
    ensures |s| == 64
  {
    UPPER + LOWER + OTHERS
  }

  /** `std::string::npos` cut down to a byte. */
  const NOT_FOUND: bv8 := 0xFF

  predicate IsBase64(c: char) {
    'A' <= c <= 'Z' || 'a' <= c <= 'z' || '0' <= c <= '9' || c == '+' || c == '/'
  }

  predicate AllBase64(t: string) {
    forall i :: 0 <= i < |t| ==> IsBase64(t[i])
  }

  lemma AlphabetAt(k: nat)
    requires k < 64
    ensures IsBase64(Alphabet()[k])
    ensures Alphabet()[k] as int ==
      if k < 26 then 65 + k else if k < 52 then 71 + k else if k < 62 then k - 4 else if k == 62 then 43 else 47
  {
    if k < 26 {
      UpperAt(k);
    } else if k < 52 {
      LowerAt(k - 26);
    } else {
      OthersAt(k - 52);
    }
  }

  lemma UpperAt(k: nat)
    requires k < 26
    ensures UPPER[k] as int == 65 + k
  {
  }

  lemma LowerAt(k: nat)
    requires k < 26
    ensures LOWER[k] as int == 97 + k
  {
  }

  lemma OthersAt(k: nat)
    requires k < 12
    ensures OTHERS[k] as int == if k < 10 then 48 + k else if k == 10 then 43 else 47
  {
  }

  function CharOf(sextet: bv8): char
    requires sextet < 64
  {
    Alphabet()[sextet as int]
  }

  /** The byte with a given value. */
  function ByteOf(n: nat): (b: bv8)
    requires n < 256
    ensures b as int == n
  {
    if n == 0 then 0 else ByteOf(n - 1) + 1
  }

  lemma SameByte(a: bv8, b: bv8)
    requires a as int == b as int
    ensures a == b
  {
  }

  lemma SmallByte(b: bv8)
    requires b as int < 64
    ensures b < 64
  {
  }

  /** A character of the alphabet as a byte. */
  function Code(c: char): bv8
    requires c as int < 256
  {
    ByteOf(c as int)
  }

  /** The first place from `k` on where the byte is in the alphabet. */
  function FindFrom(b: bv8, k: nat): bv8
    requires k <= 64
    decreases 64 - k
  {
    if k == 64 then NOT_FOUND
    else if Alphabet()[k] as int == b as int then ByteOf(k)
    else FindFrom(b, k + 1)
  }

  function Find(b: bv8): bv8 {
    FindFrom(b, 0)
  }

  lemma {:induction false} FindReaches(b: bv8, j: nat, k: nat)
    requires j <= k < 64 && b as int == Alphabet()[k] as int
    ensures FindFrom(b, j) == ByteOf(k)
    decreases k - j
  {
    AlphabetAt(j);
    AlphabetAt(k);
    if j < k {
      FindReaches(b, j + 1, k);
    }
  }

  /** A character's place in the alphabet. */
  function Place(c: char): (k: nat)
    requires IsBase64(c)
    ensures k < 64
  {
    var n := c as int;
    if 'A' <= c <= 'Z' then n - 65 else if 'a' <= c <= 'z' then n - 71 else if '0' <= c <= '9' then n + 4
    else if c == '+' then 62 else 63
  }

  lemma PlaceOfChar(k: nat)
    requires k < 64
    ensures IsBase64(Alphabet()[k]) && Place(Alphabet()[k]) == k
  {
    AlphabetAt(k);
  }

  lemma CharOfPlace(c: char)
    requires IsBase64(c)
    ensures Alphabet()[Place(c)] == c && c as int < 256 && Find(Code(c)) == ByteOf(Place(c))
  {
    hide Alphabet, FindFrom;
    AlphabetAt(Place(c));
    assert Alphabet()[Place(c)] as int == c as int;
    FindReaches(Code(c), 0, Place(c));
  }

  /** The value of a character. */
  function Value(c: char): (v: bv8)
    requires IsBase64(c)
    ensures v < 64
  {
    SmallByte(ByteOf(Place(c)));
    ByteOf(Place(c))
  }

  lemma ValueOfChar(v: bv8)
    requires v < 64
    ensures IsBase64(CharOf(v)) && Value(CharOf(v)) == v
  {
    PlaceOfChar(v as int);
    SameByte(ByteOf(v as int), v);
  }

  lemma CharOfValue(c: char)
    requires IsBase64(c)
    ensures CharOf(Value(c)) == c
  {
    hide Alphabet, FindFrom, Place;
    CharOfPlace(c);
  }

  // ---------- Three octets, four sextets ----------

  datatype Sextets = Sextets(p: bv8, q: bv8, r: bv8, s: bv8)

  function ToSextets(a: bv8, b: bv8, c: bv8): (t: Sextets)
    ensures t.p < 64 && t.q < 64 && t.r < 64 && t.s < 64
  {
    Sextets((a & 0xfc) >> 2, ((a & 0x03) << 4) + ((b & 0xf0) >> 4), ((b & 0x0f) << 2) + ((c & 0xc0) >> 6), c & 0x3f)
  }

  datatype Octets = Octets(a: bv8, b: bv8, c: bv8)

  function ToOctets(p: bv8, q: bv8, r: bv8, s: bv8): Octets {
    Octets((p << 2) + ((q & 0x30) >> 4), ((q & 0xf) << 4) + ((r & 0x3c) >> 2), ((r & 0x3) << 6) + s)
  }

  /** The sextets are the 24 bits of the octets, the most significant first. */
  lemma SextetsOfBits(a: bv8, b: bv8, c: bv8)
    ensures var n: bv32 := (a as bv32 << 16) | (b as bv32 << 8) | c as bv32;
      var t := ToSextets(a, b, c);
      && t.p as bv32 == n >> 18 && t.q as bv32 == (n >> 12) & 0x3f
      && t.r as bv32 == (n >> 6) & 0x3f && t.s as bv32 == n & 0x3f
  {
  }

  lemma OctetsOfSextets(a: bv8, b: bv8, c: bv8)
    ensures var t := ToSextets(a, b, c); ToOctets(t.p, t.q, t.r, t.s) == Octets(a, b, c)
  {
  }

  lemma SextetsOfOctets(p: bv8, q: bv8, r: bv8, s: bv8)
    requires p < 64 && q < 64 && r < 64 && s < 64
    ensures var o := ToOctets(p, q, r, s); ToSextets(o.a, o.b, o.c) == Sextets(p, q, r, s)
    ensures r & 0x3 == 0 ==> var o := ToOctets(p, q, r, s);
      var t := ToSextets(o.a, o.b, 0); t.p == p && t.q == q && t.r == r
    ensures q & 0xf == 0 ==> var o := ToOctets(p, q, r, s);
      var t := ToSextets(o.a, 0, 0); t.p == p && t.q == q
  {
  }

  /** Sextets beyond those given do not reach the octets that are complete. */
  lemma FillerIsIgnored(p: bv8, q: bv8, r: bv8, s: bv8, x: bv8, y: bv8)
    ensures ToOctets(p, q, x, y).a == ToOctets(p, q, r, s).a
    ensures ToOctets(p, q, r, y).a == ToOctets(p, q, r, s).a && ToOctets(p, q, r, y).b == ToOctets(p, q, r, s).b
  {
  }

  // ---------- Encoding ----------

  function Quad(t: Sextets): string
    requires t.p < 64 && t.q < 64 && t.r < 64 && t.s < 64
  {
    [CharOf(t.p), CharOf(t.q), CharOf(t.r), CharOf(t.s)]
  }

  /** The last one or two octets, padded. */
  function LastQuad(b: seq<bv8>): string
    requires 1 <= |b| <= 2
  {
    if |b| == 1 then Quad(ToSextets(b[0], 0, 0))[..2] + "==" else Quad(ToSextets(b[0], b[1], 0))[..3] + "="
  }

  function Encode(b: seq<bv8>): (s: string)
    ensures |s| == (|b| + 2) / 3 * 4
  {
    if b == [] then ""
    else if |b| < 3 then LastQuad(b)
    else Quad(ToSextets(b[0], b[1], b[2])) + Encode(b[3..])
  }

  /** The four characters of a group, the first for the most significant bits. */
  lemma EncodeOfThree(a: bv8, b: bv8, c: bv8)
    ensures var n: bv32 := (a as bv32 << 16) | (b as bv32 << 8) | c as bv32;
      Encode([a, b, c]) == [CharOf((n >> 18) as bv8), CharOf(((n >> 12) & 0x3f) as bv8),
        CharOf(((n >> 6) & 0x3f) as bv8), CharOf((n & 0x3f) as bv8)]
  {
    SextetsOfBits(a, b, c);
    hide CharOf, ToSextets;
    assert [a, b, c][3..] == [];
  }

  /** A last group of fewer octets is as if zeros followed, with padding for what they alone would give. */
  lemma EncodeOfFewer(a: bv8, b: bv8)
    ensures Encode([a]) == Encode([a, 0, 0])[..2] + "=="
    ensures Encode([a, b]) == Encode([a, b, 0])[..3] + "="
  {
    hide CharOf, ToSextets;
    assert [a, 0, 0][3..] == [] && [a, b, 0][3..] == [];
    assert Encode([a, 0, 0]) == Quad(ToSextets(a, 0, 0)) + [];
    assert Encode([a, b, 0]) == Quad(ToSextets(a, b, 0)) + [];
  }

  lemma {:induction false} EncodeConcat(a: seq<bv8>, b: seq<bv8>)
    requires |a| % 3 == 0
    ensures Encode(a + b) == Encode(a) + Encode(b)
  {
    hide *;
    if a == [] {
      assert a + b == b;
      EncodeNothing();
    } else {
      assert |a| >= 3;
      EncodeConcat(a[3..], b);
      assert (a + b)[3..] == a[3..] + b;
      EncodeGroup(a);
      EncodeGroup(a + b);
      Associates(Quad(ToSextets(a[0], a[1], a[2])), Encode(a[3..]), Encode(b));
    }
  }

  lemma EncodeGroup(a: seq<bv8>)
    requires |a| >= 3
    ensures Encode(a) == Quad(ToSextets(a[0], a[1], a[2])) + Encode(a[3..])
  {
    hide ToSextets, Quad;
  }

  lemma Associates(x: string, y: string, z: string)
    ensures x + (y + z) == x + y + z
  {
  }

  // ---------- Decoding ----------

  /** The characters before the first that is not of the alphabet. */
  function Accepted(s: string): (t: string)
    ensures AllBase64(t)
  {
    if s == "" || s[0] == '=' || !IsBase64(s[0]) then "" else [s[0]] + Accepted(s[1..])
  }

  function Complete(o: Octets): seq<bv8> {
    [o.a, o.b, o.c]
  }

  /** Up to three characters left over; the places after them count as not found. */
  function LastOctets(t: string): seq<bv8>
    requires |t| < 4 && AllBase64(t)
  {
    if |t| < 2 then []
    else if |t| == 2 then [ToOctets(Value(t[0]), Value(t[1]), NOT_FOUND, NOT_FOUND).a]
    else Complete(ToOctets(Value(t[0]), Value(t[1]), Value(t[2]), NOT_FOUND))[..2]
  }

  function DecodeAccepted(t: string): seq<bv8>
    requires AllBase64(t)
  {
    if |t| < 4 then LastOctets(t)
    else Complete(ToOctets(Value(t[0]), Value(t[1]), Value(t[2]), Value(t[3]))) + DecodeAccepted(t[4..])
  }

  function Decode(s: string): seq<bv8> {
    DecodeAccepted(Accepted(s))
  }

  lemma DecodeGroup(g: string, t: string)
    requires |g| == 4 && AllBase64(g) && AllBase64(t)
    ensures DecodeAccepted(g + t) == DecodeAccepted(g) + DecodeAccepted(t)
  {
    assert (g + t)[4..] == t && g[4..] == "";
    assert LastOctets("") == [];
    hide ToOctets, Value, LastOctets;
  }

  lemma DecodeNothing()
    ensures DecodeAccepted("") == []
  {
  }

  lemma {:induction false} DecodeConcat(a: string, b: string)
    requires |a| % 4 == 0 && AllBase64(a) && AllBase64(b)
    ensures AllBase64(a + b) && DecodeAccepted(a + b) == DecodeAccepted(a) + DecodeAccepted(b)
  {
    hide DecodeAccepted, IsBase64;
    DecodeNothing();
    if a == "" {
      assert a + b == b;
    } else {
      var g, rest := a[..4], a[4..];
      DecodeConcat(rest, b);
      DecodeGroup(g, rest);
      DecodeGroup(g, rest + b);
      assert a == g + rest && a + b == g + (rest + b);
    }
  }

  lemma {:induction false} AcceptedConcat(a: string, b: string)
    requires AllBase64(a)
    ensures Accepted(a + b) == a + Accepted(b)
  {
    if a == "" {
      assert a + b == b;
    } else {
      AcceptedConcat(a[1..], b);
      assert (a + b)[1..] == a[1..] + b;
    }
  }

  // ---------- Round trips ----------

  lemma QuadIsAccepted(t: Sextets)
    requires t.p < 64 && t.q < 64 && t.r < 64 && t.s < 64
    ensures AllBase64(Quad(t))
    ensures Value(Quad(t)[0]) == t.p && Value(Quad(t)[1]) == t.q && Value(Quad(t)[2]) == t.r && Value(Quad(t)[3]) == t.s
  {
    ValueOfChar(t.p);
    ValueOfChar(t.q);
    ValueOfChar(t.r);
    ValueOfChar(t.s);
  }

  lemma DecodedQuad(a: bv8, b: bv8, c: bv8, t: Sextets)
    requires t == ToSextets(a, b, c)
    ensures |Quad(t)| == 4 && AllBase64(Quad(t)) && DecodeAccepted(Quad(t)) == [a, b, c]
  {
    QuadIsAccepted(t);
    OctetsOfSextets(a, b, c);
    hide ToSextets, ToOctets, Value, CharOf;
    assert Quad(t)[4..] == "";
  }

  lemma DecodeIs(s: string)
    ensures Decode(s) == DecodeAccepted(Accepted(s))
  {
    hide DecodeAccepted, Accepted;
  }

  lemma DecodeLast(b: seq<bv8>)
    requires 1 <= |b| <= 2
    ensures Decode(LastQuad(b)) == b
  {
    var t := ToSextets(b[0], if |b| == 2 then b[1] else 0, 0);
    QuadIsAccepted(t);
    OctetsOfSextets(b[0], if |b| == 2 then b[1] else 0, 0);
    FillerIsIgnored(t.p, t.q, t.r, t.s, NOT_FOUND, NOT_FOUND);
    hide ToSextets, ToOctets, Value, CharOf;
    var given := Quad(t)[..|b| + 1];
    AcceptedConcat(given, LastQuad(b)[|b| + 1..]);
    assert LastQuad(b) == given + LastQuad(b)[|b| + 1..];
    assert Accepted(LastQuad(b)) == given;
  }

  /** Decoding undoes encoding, for every sequence of bytes. */
  lemma {:induction false} DecodeEncode(b: seq<bv8>)
    ensures Decode(Encode(b)) == b
  {
    if |b| == 0 {
    } else if |b| < 3 {
      DecodeLast(b);
    } else {
      var t := ToSextets(b[0], b[1], b[2]);
      hide *;
      EncodeGroup(b);
      DecodedQuad(b[0], b[1], b[2], t);
      DecodeEncode(b[3..]);
      DecodeIs(Encode(b));
      DecodeIs(Encode(b[3..]));
      AcceptedConcat(Quad(t), Encode(b[3..]));
      DecodeConcat(Quad(t), Accepted(Encode(b[3..])));
      assert b == [b[0], b[1], b[2]] + b[3..];
    }
  }

  /** What section 4 of RFC 4648 allows: full groups, then at most one padded group whose unused bits are zero. */
  predicate Canonical(s: string) {
    s == "" ||
    (|s| >= 4 && ((FullGroup(s[..4]) && Canonical(s[4..])) || (|s| == 4 && PaddedGroup(s))))
  }

  predicate FullGroup(g: string) {
    |g| == 4 && AllBase64(g)
  }

  predicate PaddedGroup(g: string) {
    && |g| == 4 && IsBase64(g[0]) && IsBase64(g[1]) && g[3] == '='
    && (if g[2] == '=' then Value(g[1]) & 0xf == 0 else IsBase64(g[2]) && Value(g[2]) & 0x3 == 0)
  }

  lemma LastIsPadded(b: seq<bv8>)
    requires 1 <= |b| <= 2
    ensures PaddedGroup(LastQuad(b))
  {
    var t := ToSextets(b[0], if |b| == 2 then b[1] else 0, 0);
    QuadIsAccepted(t);
    assert |b| == 1 ==> t.q & 0xf == 0;
    assert t.r & 0x3 == 0;
    hide ToSextets, Value, CharOf;
    assert LastQuad(b)[..|b| + 1] == Quad(t)[..|b| + 1];
  }

  lemma {:induction false} EncodeIsCanonical(b: seq<bv8>)
    ensures Canonical(Encode(b))
  {
    if |b| == 0 {
    } else if |b| < 3 {
      LastIsPadded(b);
    } else {
      var t := ToSextets(b[0], b[1], b[2]);
      QuadIsAccepted(t);
      hide ToSextets, Value, CharOf, PaddedGroup;
      EncodeIsCanonical(b[3..]);
      assert Encode(b)[..4] == Quad(t) && Encode(b)[4..] == Encode(b[3..]);
    }
  }

  lemma FullGroupBack(g: string)
    requires FullGroup(g)
    ensures Encode(DecodeAccepted(g)) == g && |DecodeAccepted(g)| == 3
  {
    var p, q, r, s := Value(g[0]), Value(g[1]), Value(g[2]), Value(g[3]);
    SextetsOfOctets(p, q, r, s);
    CharOfValue(g[0]);
    CharOfValue(g[1]);
    CharOfValue(g[2]);
    CharOfValue(g[3]);
    hide ToSextets, ToOctets, Value, CharOf;
    assert g[4..] == "";
    var o := ToOctets(p, q, r, s);
    assert DecodeAccepted(g) == [o.a, o.b, o.c];
    assert [o.a, o.b, o.c][3..] == [];
  }

  lemma PaddedGroupBack(g: string)
    requires PaddedGroup(g)
    ensures Encode(Decode(g)) == g
  {
    var n := if g[2] == '=' then 2 else 3;
    var p, q, r := Value(g[0]), Value(g[1]), if n == 3 then Value(g[2]) else NOT_FOUND;
    PaddedGroupIs(g, n);
    SextetsOfOctets(p, q, if n == 3 then r else 0, 0);
    FillerIsIgnored(p, q, if n == 3 then r else 0, 0, NOT_FOUND, NOT_FOUND);
    CharOfValue(g[0]);
    CharOfValue(g[1]);
    if n == 3 { CharOfValue(g[2]); }
    hide ToSextets, ToOctets, Value, CharOf, Accepted;
  }

  lemma PaddedGroupIs(g: string, n: nat)
    requires PaddedGroup(g) && n == if g[2] == '=' then 2 else 3
    ensures Accepted(g) == g[..n]
  {
    AcceptedConcat(g[..n], g[n..]);
    assert g == g[..n] + g[n..] && Accepted(g[n..]) == "";
  }

  lemma {:induction false} CanonicalBack(s: string)
    requires Canonical(s)
    ensures Encode(Decode(s)) == s
  {
    if s == "" {
    } else if FullGroup(s[..4]) && Canonical(s[4..]) {
      var g, rest := s[..4], s[4..];
      assert s == g + rest;
      CanonicalBack(rest);
      FullGroupBack(g);
      hide FullGroup, PaddedGroup, Encode, DecodeAccepted, Canonical;
      FullGroupChars(g);
      AcceptedConcat(g, rest);
      DecodeConcat(g, Accepted(rest));
      EncodeConcat(DecodeAccepted(g), Decode(rest));
    } else {
      PaddedGroupBack(s);
    }
  }

  lemma FullGroupChars(g: string)
    requires FullGroup(g)
    ensures |g| == 4 && AllBase64(g)
  {
  }

  /** Encoding undoes decoding exactly for the texts that section 4 of RFC 4648 allows. */
  lemma EncodeDecodeExact(s: string)
    ensures Encode(Decode(s)) == s <==> Canonical(s)
  {
    EncodeIsCanonical(Decode(s));
    if Canonical(s) {
      CanonicalBack(s);
    }
  }

  // ---------- base64_encode ----------

  lemma SextetsAre(a: bv8, b: bv8, c: bv8)
    ensures ToSextets(a, b, c)
         == Sextets((a & 0xfc) >> 2, ((a & 0x03) << 4) + ((b & 0xf0) >> 4), ((b & 0x0f) << 2) + ((c & 0xc0) >> 6),
           c & 0x3f)
  {
  }

  /** The four values of the three bytes held. */
  method SplitThree(three: array<bv8>, four: array<bv8>)
    requires three.Length == 3 && four.Length == 4
    modifies four
    ensures var t := ToSextets(three[0], three[1], three[2]); four[..] == [t.p, t.q, t.r, t.s]
    ensures four[0] < 64 && four[1] < 64 && four[2] < 64 && four[3] < 64
  {
    var a, b, c := three[0], three[1], three[2];
    hide ToSextets;
    SextetsAre(a, b, c);
    four[0] := (a & 0xfc) >> 2;
    four[1] := ((a & 0x03) << 4) + ((b & 0xf0) >> 4);
    four[2] := ((b & 0x0f) << 2) + ((c & 0xc0) >> 6);
    four[3] := c & 0x3f;
    assert four[..] == [four[0], four[1], four[2], four[3]];
  }

  /** The characters of the first `n` values. */
  method CharsOf(four: array<bv8>, n: nat) returns (text: string)
    requires n <= 4 == four.Length && four[0] < 64 && four[1] < 64 && four[2] < 64 && four[3] < 64
    ensures text == [CharOf(four[0]), CharOf(four[1]), CharOf(four[2]), CharOf(four[3])][..n]
  {
    hide CharOf;
    ghost var all := [CharOf(four[0]), CharOf(four[1]), CharOf(four[2]), CharOf(four[3])];
    text := "";
    for j := 0 to n
      invariant text == all[..j]
    {
      assert all[j] == CharOf(four[j]);
      text := text + [CharOf(four[j])];
    }
  }

  /** The first `n` characters for the three bytes held. */
  method EncodeHeld(three: array<bv8>, four: array<bv8>, n: nat) returns (text: string)
    requires three.Length == 3 && four.Length == 4 && n <= 4
    modifies four
    ensures text == Quad(ToSextets(three[0], three[1], three[2]))[..n]
  {
    hide ToSextets, CharOf;
    SplitThree(three, four);
    text := CharsOf(four, n);
  }

  /** One byte more is held. */
  method Hold(three: array<bv8>, i: nat, b: bv8)
    requires i < three.Length
    modifies three
    ensures three[..i + 1] == old(three[..i]) + [b]
  {
    ghost var held := three[..i];
    three[i] := b;
    assert three[..i] == held && three[..i + 1] == three[..i] + [three[i]];
  }

  method Base64Encode(buf: seq<bv8>) returns (ret: string)
    ensures ret == Encode(buf)
  {
    hide *;
    var three, four := new bv8[3], new bv8[4];
    ret := "";
    var i, n := 0, 0;
    ghost var held := [];
    NothingHeld(buf);
    while n < |buf|
      invariant i < 3 && n <= |buf| && three[..i] == held && Encode(buf) == ret + Encode(held + buf[n..])
    {
      Hold(three, i, buf[n]);
      OneByteMore(held, buf, n);
      held := held + [buf[n]];
      i, n := i + 1, n + 1;
      if i == 3 {
        assert three[0] == held[0] && three[1] == held[1] && three[2] == held[2];
        var text := EncodeHeld(three, four, 4);
        EncodeNext(ret, held, buf[n..]);
        ret, held := ret + text, [];
        i := 0;
      }
    }
    NothingLeft(ret, held, buf);
    if i != 0 {
      var last := EncodeLeft(three, four, i);
      ret := ret + last;
    }
  }

  lemma NothingHeld(buf: seq<bv8>)
    ensures Encode(buf) == "" + Encode([] + buf[0..])
  {
    hide Encode;
    assert [] + buf[0..] == buf && "" + Encode(buf) == Encode(buf);
  }

  lemma OneByteMore(held: seq<bv8>, buf: seq<bv8>, n: nat)
    requires n < |buf|
    ensures held + buf[n..] == held + [buf[n]] + buf[n + 1..]
  {
  }

  lemma NothingLeft(ret: string, held: seq<bv8>, buf: seq<bv8>)
    ensures ret + Encode(held + buf[|buf|..]) == ret + Encode(held)
    ensures held == [] ==> ret + Encode(held) == ret
  {
    EncodeNothing();
    assert held + buf[|buf|..] == held;
    hide Encode;
    assert ret + "" == ret;
  }

  /** The one or two bytes left over, and the padding. */
  method EncodeLeft(three: array<bv8>, four: array<bv8>, left: nat) returns (text: string)
    requires three.Length == 3 && four.Length == 4 && 1 <= left <= 2
    modifies three, four
    ensures text == Encode(old(three[..left]))
  {
    hide *;
    ghost var given := three[..left];
    for j := left to 3
      invariant three[..left] == given && forall k :: left <= k < j ==> three[k] == 0
    {
      three[j] := 0;
    }
    assert given[0] == three[0] && (left == 2 ==> given[1] == three[1]);
    assert three[2] == 0 && (left == 1 ==> three[1] == 0);
    EncodeFew(given);
    PaddingNext(0);
    text := EncodeHeld(three, four, left + 1);
    ghost var chars := text;
    var i := left;
    while i < 3
      invariant left <= i <= 3 && text == chars + Padding(i - left)
    {
      PaddingNext(i - left);
      text := text + "=";
      i := i + 1;
    }
  }

  lemma EncodeNext(ret: string, three: seq<bv8>, rest: seq<bv8>)
    requires |three| == 3
    ensures ret + Encode(three + rest)
         == ret + Quad(ToSextets(three[0], three[1], three[2]))[..4] + Encode([] + rest)
  {
    EncodeGroup(three + rest);
    hide *;
    assert (three + rest)[3..] == rest && [] + rest == rest;
    var quad := Quad(ToSextets(three[0], three[1], three[2]));
    assert |quad| == 4 && quad[..4] == quad by { QuadLength(ToSextets(three[0], three[1], three[2])); }
    Associates(ret, quad, Encode(rest));
  }

  lemma QuadLength(t: Sextets)
    requires t.p < 64 && t.q < 64 && t.r < 64 && t.s < 64
    ensures |Quad(t)| == 4
  {
  }

  lemma EncodeNothing()
    ensures Encode([]) == ""
  {
  }

  function Padding(n: nat): string {
    if n == 0 then "" else Padding(n - 1) + "="
  }

  lemma PaddingNext(n: nat)
    ensures Padding(0) == "" && Padding(n + 1) == Padding(n) + "="
  {
  }

  lemma EncodeFew(b: seq<bv8>)
    requires 1 <= |b| <= 2
    ensures Encode(b) == Quad(ToSextets(b[0], if |b| == 2 then b[1] else 0, 0))[..|b| + 1] + Padding(3 - |b|)
  {
    hide ToSextets, CharOf;
    PaddingNext(0);
    PaddingNext(1);
    assert Padding(2) == "==";
  }

  // ---------- base64_decode ----------

  /** The values are those of the characters; a place without one counts as not found. */
  function ValueAt(t: string, k: nat): bv8
    requires AllBase64(t)
  {
    if k < |t| then Value(t[k]) else NOT_FOUND
  }

  /** Characters held as bytes. */
  ghost predicate Holds(four: seq<bv8>, t: string) {
    |t| <= |four| && AllBase64(t) && forall k :: 0 <= k < |t| ==> t[k] as int < 256 && four[k] == Code(t[k])
  }

  lemma {:induction false} FindNothing(k: nat)
    requires k <= 64
    ensures FindFrom(0, k) == NOT_FOUND
    decreases 64 - k
  {
    if k < 64 {
      AlphabetAt(k);
      hide Alphabet;
      FindNothing(k + 1);
    }
  }

  /** Each byte is replaced by its place in the alphabet. */
  method FindAll(four: array<bv8>, ghost t: string)
    requires four.Length == 4 && Holds(four[..], t) && forall k :: |t| <= k < 4 ==> four[k] == 0
    modifies four
    ensures forall k :: 0 <= k < 4 ==> four[k] == ValueAt(t, k)
  {
    hide Find, Code, Value;
    for j := 0 to 4
      invariant forall k :: 0 <= k < j ==> four[k] == ValueAt(t, k)
      invariant forall k :: j <= k < 4 ==> four[k] == old(four[k])
    {
      FoundValue(t, j);
      four[j] := Find(four[j]);
    }
  }

  lemma FoundValue(t: string, k: nat)
    requires AllBase64(t)
    ensures k < |t| ==> t[k] as int < 256 && Find(Code(t[k])) == ValueAt(t, k)
    ensures k >= |t| ==> Find(0) == ValueAt(t, k)
  {
    if k < |t| {
      CharOfPlace(t[k]);
    } else {
      FindNothing(0);
    }
    hide FindFrom, Code, Place;
  }

  /** The octets of the values held. */
  method JoinFour(four: array<bv8>, n: nat) returns (octets: seq<bv8>)
    requires four.Length == 4 && n <= 3
    ensures octets == Complete(ToOctets(four[0], four[1], four[2], four[3]))[..n]
  {
    hide ToOctets;
    var three := new bv8[3];
    var p, q, r, s := four[0], four[1], four[2], four[3];
    OctetsAre(p, q, r, s);
    three[0] := (p << 2) + ((q & 0x30) >> 4);
    three[1] := ((q & 0xf) << 4) + ((r & 0x3c) >> 2);
    three[2] := ((r & 0x3) << 6) + s;
    assert three[..] == [three[0], three[1], three[2]];
    octets := [];
    for j := 0 to n
      invariant octets == three[..j]
    {
      octets := octets + [three[j]];
    }
  }

  lemma OctetsAre(p: bv8, q: bv8, r: bv8, s: bv8)
    ensures ToOctets(p, q, r, s)
         == Octets((p << 2) + ((q & 0x30) >> 4), ((q & 0xf) << 4) + ((r & 0x3c) >> 2), ((r & 0x3) << 6) + s)
  {
  }

  method Base64Decode(s: string) returns (ret: seq<bv8>)
    ensures ret == Decode(s)
  {
    hide *;
    var four := new bv8[4];
    ret := [];
    var i, n := 0, 0;
    DecodeNothing();
    HoldsNothing(four[..]);
    while n < |s| && s[n] != '=' && IsBase64(s[n])
      invariant i <= n <= |s| && i < 4 && (n - i) % 4 == 0 && AllBase64(s[..n - i])
      invariant Holds(four[..], s[n - i..n]) && ret == DecodeAccepted(s[..n - i])
    {
      HoldsNext(four[..], s[n - i..n], s[n]);
      assert s[n - i..n] + [s[n]] == s[n - i..n + 1];
      four[i] := Code(s[n]);
      i, n := i + 1, n + 1;
      if i == 4 {
        ghost var t := s[n - 4..n];
        HoldsAll(four[..], t);
        FindAll(four, t);
        var octets := JoinFour(four, 3);
        FourDecoded(s, n, t);
        ret := ret + octets;
        i := 0;
        HoldsNothing(four[..]);
        assert s[n..n] == "";
      }
    }
    ghost var t := s[n - i..n];
    HoldsAll(four[..], t);
    Stopped(s, n, i);
    if i != 0 {
      for j := i to 4
        invariant Holds(four[..], t) && forall k :: i <= k < j ==> four[k] == 0
      {
        HoldsStill(four[..], t, j);
        four[j] := 0;
      }
      FindAll(four, t);
      var octets := JoinFour(four, i - 1);
      FewDecoded(t);
      ret := ret + octets;
    } else {
      assert t == "";
    }
  }

  lemma HoldsNothing(four: seq<bv8>)
    ensures Holds(four, "")
  {
  }

  lemma HoldsAll(four: seq<bv8>, t: string)
    requires Holds(four, t)
    ensures AllBase64(t)
  {
  }

  lemma HoldsNext(four: seq<bv8>, t: string, c: char)
    requires Holds(four, t) && |t| < |four| && IsBase64(c)
    ensures c as int < 256 && Holds(four[|t| := Code(c)], t + [c])
  {
    CharOfPlace(c);
    hide Code, Place;
  }

  lemma HoldsStill(four: seq<bv8>, t: string, j: nat)
    requires Holds(four, t) && |t| <= j < |four|
    ensures Holds(four[j := 0], t)
  {
    hide Code;
  }

  lemma FourDecoded(s: string, n: nat, t: string)
    requires 4 <= n <= |s| && (n - 4) % 4 == 0 && t == s[n - 4..n] && AllBase64(t) && AllBase64(s[..n - 4])
    ensures AllBase64(s[..n])
    ensures DecodeAccepted(s[..n]) == DecodeAccepted(s[..n - 4])
      + Complete(ToOctets(ValueAt(t, 0), ValueAt(t, 1), ValueAt(t, 2), ValueAt(t, 3)))[..3]
  {
    hide ToOctets, Value, IsBase64;
    assert s[..n] == s[..n - 4] + t;
    DecodeConcat(s[..n - 4], t);
    DecodeNothing();
    assert t[4..] == "";
  }

  lemma FewDecoded(t: string)
    requires 1 <= |t| < 4 && AllBase64(t)
    ensures DecodeAccepted(t)
         == Complete(ToOctets(ValueAt(t, 0), ValueAt(t, 1), ValueAt(t, 2), ValueAt(t, 3)))[..|t| - 1]
  {
    hide Value;
  }

  /** The characters read are those accepted. */
  lemma Stopped(s: string, n: nat, i: nat)
    requires i <= n <= |s| && i < 4 && (n - i) % 4 == 0 && AllBase64(s[..n - i]) && AllBase64(s[n - i..n])
    requires n == |s| || s[n] == '=' || !IsBase64(s[n])
    ensures Decode(s) == DecodeAccepted(s[..n - i]) + DecodeAccepted(s[n - i..n])
  {
    hide IsBase64, DecodeAccepted;
    assert s[..n] == s[..n - i] + s[n - i..n] && s == s[..n] + s[n..];
    AcceptedConcat(s[..n], s[n..]);
    assert Accepted(s[n..]) == "" && Accepted(s) == s[..n];
    DecodeConcat(s[..n - i], s[n - i..n]);
  }
}
