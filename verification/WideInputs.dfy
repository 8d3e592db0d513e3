/** Input of UTF-32 and UTF-16 text as a stream of UTF-8 bytes. */
module WideInputs {

  /** `std::char_traits<char>::eof()`. */
  const EOF := -1

  // ---------- UTF-8 (section 3 of RFC 3629) ----------

  /** A Unicode scalar value: no surrogate, and not beyond U+10FFFF. */
  predicate IsScalar(c: bv32) {
    c < 0xD800 || 0xDFFF < c <= 0x10FFFF
  }

  predicate IsTail(b: bv32) {
    b & 0xFFFFFFC0 == 0x80
  }

  predicate TwoBytes(a: bv32, b: bv32, c: bv32) {
    a & 0xFFFFFFE0 == 0xC0 && IsTail(b) && c == ((a & 0x1F) << 6) | (b & 0x3F)
  }

  predicate ThreeBytes(a: bv32, b: bv32, d: bv32, c: bv32) {
    a & 0xFFFFFFF0 == 0xE0 && IsTail(b) && IsTail(d) && c == ((a & 0x0F) << 12) | ((b & 0x3F) << 6) | (d & 0x3F)
  }

  predicate FourBytes(a: bv32, b: bv32, d: bv32, e: bv32, c: bv32) {
    && a & 0xFFFFFFF8 == 0xF0 && IsTail(b) && IsTail(d) && IsTail(e)
    && c == ((a & 0x07) << 18) | ((b & 0x3F) << 12) | ((d & 0x3F) << 6) | (e & 0x3F)
  }

  /** The bytes are the UTF-8 form of the character: its table row, with the bits in the marked places. */
  predicate IsUtf8Of(s: seq<bv32>, c: bv32) {
    if c <= 0x7F then s == [c]
    else if c <= 0x7FF then |s| == 2 && TwoBytes(s[0], s[1], c)
    else if c <= 0xFFFF then |s| == 3 && ThreeBytes(s[0], s[1], s[2], c)
    else |s| == 4 && FourBytes(s[0], s[1], s[2], s[3], c)
  }

  lemma TwoUnique(a: bv32, b: bv32, x: bv32, y: bv32, c: bv32)
    requires TwoBytes(a, b, c) && TwoBytes(x, y, c)
    ensures a == x && b == y
  {
  }

  lemma ThreeUnique(a: bv32, b: bv32, d: bv32, x: bv32, y: bv32, z: bv32, c: bv32)
    requires ThreeBytes(a, b, d, c) && ThreeBytes(x, y, z, c)
    ensures a == x && b == y && d == z
  {
  }

  lemma FourUnique(a: bv32, b: bv32, d: bv32, e: bv32, x: bv32, y: bv32, z: bv32, w: bv32, c: bv32)
    requires FourBytes(a, b, d, e, c) && FourBytes(x, y, z, w, c)
    ensures a == x && b == y && d == z && e == w
  {
  }

  /** There is only one UTF-8 form of a character. */
  lemma Utf8IsUnique(s: seq<bv32>, t: seq<bv32>, c: bv32)
    requires IsUtf8Of(s, c) && IsUtf8Of(t, c)
    ensures s == t
  {
    hide TwoBytes, ThreeBytes, FourBytes;
    if c <= 0x7F {
    } else if c <= 0x7FF {
      TwoUnique(s[0], s[1], t[0], t[1], c);
    } else if c <= 0xFFFF {
      ThreeUnique(s[0], s[1], s[2], t[0], t[1], t[2], c);
    } else {
      FourUnique(s[0], s[1], s[2], s[3], t[0], t[1], t[2], t[3], c);
    }
  }

  // ---------- One character ----------

  /** The bytes that the UTF-32 branches write for a character up to U+10FFFF. */
  function Utf8(c: bv32): (bytes: seq<bv32>)
    ensures 1 <= |bytes| <= 4
  {
    if c < 0x80 then [c]
    else if c <= 0x7FF then [0xC0 | ((c >> 6) & 0x1F), 0x80 | (c & 0x3F)]
    else if c <= 0xFFFF then [0xE0 | ((c >> 12) & 0x0F), 0x80 | ((c >> 6) & 0x3F), 0x80 | (c & 0x3F)]
    else [0xF0 | ((c >> 18) & 0x07), 0x80 | ((c >> 12) & 0x3F), 0x80 | ((c >> 6) & 0x3F), 0x80 | (c & 0x3F)]
  }

  lemma TwoAre(c: bv32)
    requires 0x7F < c <= 0x7FF
    ensures TwoBytes(0xC0 | ((c >> 6) & 0x1F), 0x80 | (c & 0x3F), c)
  {
  }

  lemma ThreeAre(c: bv32)
    requires c <= 0xFFFF
    ensures ThreeBytes(0xE0 | ((c >> 12) & 0x0F), 0x80 | ((c >> 6) & 0x3F), 0x80 | (c & 0x3F), c)
  {
  }

  lemma FourAre(c: bv32)
    requires c <= 0x10FFFF
    ensures FourBytes(
      0xF0 | ((c >> 18) & 0x07), 0x80 | ((c >> 12) & 0x3F), 0x80 | ((c >> 6) & 0x3F), 0x80 | (c & 0x3F), c)
  {
  }

  /** They are the UTF-8 form. */
  lemma Utf8IsUtf8(c: bv32)
    requires c <= 0x10FFFF
    ensures IsUtf8Of(Utf8(c), c)
  {
    hide *;
    if c <= 0x7F {
      OneIsForm(c);
    } else if c <= 0x7FF {
      TwoAre(c);
      TwoAreForm(c, 0xC0 | ((c >> 6) & 0x1F), 0x80 | (c & 0x3F));
    } else if c <= 0xFFFF {
      ThreeAre(c);
      ThreeAreForm(c, 0xE0 | ((c >> 12) & 0x0F), 0x80 | ((c >> 6) & 0x3F), 0x80 | (c & 0x3F));
    } else {
      FourAre(c);
      FourAreForm(c,
        0xF0 | ((c >> 18) & 0x07), 0x80 | ((c >> 12) & 0x3F), 0x80 | ((c >> 6) & 0x3F), 0x80 | (c & 0x3F));
    }
  }

  lemma OneIsForm(c: bv32)
    requires c <= 0x7F
    ensures IsUtf8Of(Utf8(c), c)
  {
  }

  lemma TwoAreForm(c: bv32, a: bv32, b: bv32)
    requires 0x7F < c <= 0x7FF && TwoBytes(a, b, c) && a == 0xC0 | ((c >> 6) & 0x1F) && b == 0x80 | (c & 0x3F)
    ensures IsUtf8Of(Utf8(c), c)
  {
    hide TwoBytes, ThreeBytes, FourBytes;
    assert Utf8(c) == [a, b];
  }

  lemma ThreeAreForm(c: bv32, a: bv32, b: bv32, d: bv32)
    requires 0x7FF < c <= 0xFFFF && ThreeBytes(a, b, d, c)
    requires a == 0xE0 | ((c >> 12) & 0x0F) && b == 0x80 | ((c >> 6) & 0x3F) && d == 0x80 | (c & 0x3F)
    ensures IsUtf8Of(Utf8(c), c)
  {
    hide TwoBytes, ThreeBytes, FourBytes;
    assert Utf8(c) == [a, b, d];
  }

  lemma FourAreForm(c: bv32, a: bv32, b: bv32, d: bv32, e: bv32)
    requires 0xFFFF < c <= 0x10FFFF && FourBytes(a, b, d, e, c)
    requires a == 0xF0 | ((c >> 18) & 0x07) && b == 0x80 | ((c >> 12) & 0x3F)
    requires d == 0x80 | ((c >> 6) & 0x3F) && e == 0x80 | (c & 0x3F)
    ensures IsUtf8Of(Utf8(c), c)
  {
    hide TwoBytes, ThreeBytes, FourBytes;
    assert Utf8(c) == [a, b, d, e];
  }

  // ---------- Texts ----------

  function AsInts(s: seq<bv32>): seq<int> {
    seq(|s|, i requires 0 <= i < |s| => s[i] as int)
  }

  /** The UTF-8 form of a text. */
  function Utf8All(text: seq<bv32>): seq<int> {
    if text == [] then [] else AsInts(Utf8(text[0])) + Utf8All(text[1..])
  }

  function High(u: bv32): bv32 {
    0xD800 | (u >> 10)
  }

  function Low(u: bv32): bv32 {
    0xDC00 | (u & 0x3FF)
  }

  /** The UTF-16 form of a character (section 2.1 of RFC 2781). */
  function Utf16(c: bv32): (units: seq<bv32>)
    ensures |units| == if c < 0x10000 then 1 else 2
  {
    if c < 0x10000 then [c] else [High(c - 0x10000), Low(c - 0x10000)]
  }

  function Utf16All(text: seq<bv32>): seq<bv32> {
    if text == [] then [] else Utf16(text[0]) + Utf16All(text[1..])
  }

  // ---------- What the adapters hand out ----------

  /** A 32-bit value as a signed integer. */
  function Signed(c: bv32): int {
    if c < 0x80000000 then c as int else c as int - 0x1_0000_0000
  }

  /** The UTF-32 branches, for the next unit. */
  function Piece32(c: bv32): seq<int> {
    if c <= 0x10FFFF then AsInts(Utf8(c)) else [Signed(c)]
  }

  function Stream32(units: seq<bv32>): seq<int> {
    if units == [] then [] else Piece32(units[0]) + Stream32(units[1..])
  }

  predicate IsSurrogate(unit: bv32) {
    0xD800 <= unit < 0xE000
  }

  /** Two units that are taken for a surrogate pair. */
  function Joined(a: bv32, b: bv32): bv32 {
    0x10000 + (((a & 0x3FF) << 10) | (b & 0x3FF))
  }

  /** How many units the UTF-16 branches take. */
  function Taken16(units: seq<bv32>): (n: nat)
    requires units != []
    ensures 1 <= n <= |units|
  {
    if IsSurrogate(units[0]) && |units| > 1 then 2 else 1
  }

  function Piece16(units: seq<bv32>): seq<int>
    requires units != []
  {
    if !IsSurrogate(units[0]) then AsInts(Utf8(units[0]))
    else if |units| > 1 then AsInts(Utf8(Joined(units[0], units[1])))
    else [Signed(units[0])]
  }

  function Stream16(units: seq<bv32>): seq<int> {
    if units == [] then [] else Piece16(units) + Stream16(units[Taken16(units)..])
  }

  /** UTF-32: a text's units are its characters. */
  lemma {:induction false} Stream32OfText(text: seq<bv32>)
    requires forall i :: 0 <= i < |text| ==> IsScalar(text[i])
    ensures Stream32(text) == Utf8All(text)
  {
    hide AsInts, Utf8;
    if text != [] {
      assert IsScalar(text[0]);
      Stream32OfText(text[1..]);
    }
  }

  lemma JoinedOf(u: bv32)
    requires u <= 0xFFFFF
    ensures IsSurrogate(High(u)) && Joined(High(u), Low(u)) == u + 0x10000
  {
  }

  lemma Plane(c: bv32)
    requires 0x10000 <= c <= 0x10FFFF
    ensures c - 0x10000 <= 0xFFFFF && (c - 0x10000) + 0x10000 == c
  {
  }

  /** A surrogate pair is joined again. */
  lemma JoinedBack(c: bv32)
    requires 0x10000 <= c <= 0x10FFFF
    ensures IsSurrogate(High(c - 0x10000)) && Joined(High(c - 0x10000), Low(c - 0x10000)) == c
  {
    hide IsSurrogate, Joined, High, Low;
    Plane(c);
    JoinedOf(c - 0x10000);
  }

  /** UTF-16: the pieces of a text's units are its characters. */
  lemma {:induction false} Stream16OfText(text: seq<bv32>)
    requires forall i :: 0 <= i < |text| ==> IsScalar(text[i])
    ensures Stream16(Utf16All(text)) == Utf8All(text)
  {
    hide AsInts, Utf8;
    if text != [] {
      assert IsScalar(text[0]);
      Stream16OfText(text[1..]);
      FirstOfText(text[0], Utf16All(text[1..]));
    }
  }

  lemma FirstOfText(c: bv32, rest: seq<bv32>)
    requires IsScalar(c)
    ensures var units := Utf16(c) + rest;
      units != [] && Piece16(units) == AsInts(Utf8(c)) && units[Taken16(units)..] == rest
  {
    hide AsInts, Utf8, IsScalar, IsSurrogate, Joined, High, Low, Piece16, Taken16;
    ScalarIs(c);
    if c < 0x10000 {
      FirstUnit(c, rest);
    } else {
      JoinedBack(c);
      FirstPair(High(c - 0x10000), Low(c - 0x10000), rest);
    }
  }

  lemma FirstUnit(c: bv32, rest: seq<bv32>)
    requires !IsSurrogate(c)
    ensures Piece16([c] + rest) == AsInts(Utf8(c)) && ([c] + rest)[Taken16([c] + rest)..] == rest
  {
    hide AsInts, Utf8, IsSurrogate;
  }

  lemma FirstPair(a: bv32, b: bv32, rest: seq<bv32>)
    requires IsSurrogate(a)
    ensures Piece16([a, b] + rest) == AsInts(Utf8(Joined(a, b))) && ([a, b] + rest)[Taken16([a, b] + rest)..] == rest
  {
    hide AsInts, Utf8, IsSurrogate, Joined;
  }

  lemma ScalarIs(c: bv32)
    requires IsScalar(c)
    ensures if c < 0x10000 then !IsSurrogate(c) else 0x10000 <= c <= 0x10FFFF
  {
  }

  // ---------- The class ----------

  /** What one call hands out, of what is left; at the end, the end of file. */
  function Next(rest: seq<int>): int {
    if rest == [] then EOF else rest[0]
  }

  function After(rest: seq<int>): seq<int> {
    if rest == [] then [] else rest[1..]
  }

  lemma HandedOut(before: seq<int>, held: seq<int>, unread: seq<int>)
    requires held != [] && if before == [] then held == [EOF] && unread == [] else held + unread == before
    ensures Next(before) == held[0] && After(before) == held[1..] + unread
  {
    assert (held + unread)[1..] == held[1..] + unread;
  }

  /** What successive calls hand out, and what each leaves. */
  ghost predicate Calls(rests: seq<seq<int>>, outs: seq<int>) {
    && |rests| == |outs| + 1
    && forall i :: 0 <= i < |outs| ==> outs[i] == Next(rests[i]) && rests[i + 1] == After(rests[i])
  }

  lemma {:induction false} LeftAfter(rests: seq<seq<int>>, outs: seq<int>, i: nat)
    requires Calls(rests, outs) && i < |rests|
    ensures rests[i] == if i <= |rests[0]| then rests[0][i..] else []
  {
    if i > 0 {
      LeftAfter(rests, outs, i - 1);
      assert outs[i - 1] == Next(rests[i - 1]);
    }
  }

  /** However often the adapter of a text is called, it hands out the UTF-8 bytes and from then on the end of file. */
  lemma CallsReadText(text: seq<bv32>, narrow: bool, rests: seq<seq<int>>, outs: seq<int>, i: nat)
    requires forall k :: 0 <= k < |text| ==> IsScalar(text[k])
    requires Calls(rests, outs) && rests[0] == (if narrow then Stream16(Utf16All(text)) else Stream32(text))
    requires i < |outs|
    ensures outs[i] == if i < |Utf8All(text)| then Utf8All(text)[i] else EOF
    ensures outs[i] == EOF <==> i >= |Utf8All(text)|
  {
    Stream16OfText(text);
    Stream32OfText(text);
    LeftAfter(rests, outs, i);
    assert outs[i] == Next(rests[i]);
    AllAreBytes(text);
    assert i < |Utf8All(text)| ==> Utf8All(text)[i] in Utf8All(text);
    hide Utf8All, Stream16, Stream32, IsScalar;
  }

  lemma OctetsOf(c: bv32)
    requires c <= 0x10FFFF
    ensures c < 0x80 ==> c <= 0xFF
    ensures c <= 0x7FF ==> 0xC0 | ((c >> 6) & 0x1F) <= 0xFF
    ensures 0xE0 | ((c >> 12) & 0x0F) <= 0xFF && 0xF0 | ((c >> 18) & 0x07) <= 0xFF
    ensures 0x80 | ((c >> 12) & 0x3F) <= 0xFF && 0x80 | ((c >> 6) & 0x3F) <= 0xFF && 0x80 | (c & 0x3F) <= 0xFF
  {
  }

  lemma AsByte(b: bv32)
    requires b <= 0xFF
    ensures 0 <= b as int <= 255
  {
  }

  lemma Utf8AreBytes(c: bv32)
    requires c <= 0x10FFFF
    ensures forall i :: 0 <= i < |Utf8(c)| ==> 0 <= AsInts(Utf8(c))[i] <= 255
  {
    hide *;
    if c < 0x80 {
      OctetsOf(c);
      OneOctet(c);
    } else if c <= 0x7FF {
      OctetsOf(c);
      TwoOctets(c);
    } else {
      OctetsOf(c);
      MoreOctets(c);
    }
    forall i | 0 <= i < |Utf8(c)| ensures i < |AsInts(Utf8(c))| && 0 <= AsInts(Utf8(c))[i] <= 255 {
      IntAt(Utf8(c), i);
      AsByte(Utf8(c)[i]);
    }
  }

  lemma IntAt(s: seq<bv32>, i: nat)
    requires i < |s|
    ensures |AsInts(s)| == |s| && AsInts(s)[i] == s[i] as int
  {
  }

  lemma OneOctet(c: bv32)
    requires c < 0x80 && c <= 0xFF
    ensures forall i :: 0 <= i < |Utf8(c)| ==> Utf8(c)[i] <= 0xFF
  {
  }

  lemma TwoOctets(c: bv32)
    requires 0x80 <= c <= 0x7FF && 0xC0 | ((c >> 6) & 0x1F) <= 0xFF && 0x80 | (c & 0x3F) <= 0xFF
    ensures forall i :: 0 <= i < |Utf8(c)| ==> Utf8(c)[i] <= 0xFF
  {
  }

  lemma MoreOctets(c: bv32)
    requires 0x7FF < c
    requires 0xE0 | ((c >> 12) & 0x0F) <= 0xFF && 0xF0 | ((c >> 18) & 0x07) <= 0xFF
    requires 0x80 | ((c >> 12) & 0x3F) <= 0xFF && 0x80 | ((c >> 6) & 0x3F) <= 0xFF && 0x80 | (c & 0x3F) <= 0xFF
    ensures forall i :: 0 <= i < |Utf8(c)| ==> Utf8(c)[i] <= 0xFF
  {
  }

  lemma {:induction false} AllAreBytes(text: seq<bv32>)
    requires forall i :: 0 <= i < |text| ==> IsScalar(text[i])
    ensures forall x :: x in Utf8All(text) ==> 0 <= x <= 255
  {
    if text != [] {
      assert IsScalar(text[0]);
      Utf8AreBytes(text[0]);
      hide AsInts, Utf8;
      AllAreBytes(text[1..]);
    }
  }

  class WideStringInputAdapter {
    /** The units of the text, and whether they have two bytes or four. */
    const units: seq<bv32>
    const narrow: bool
    const utf8Bytes: array<int>
    var position: nat
    var index: nat
    var filled: nat

    constructor (units: seq<bv32>, narrow: bool)
      requires narrow ==> forall i :: 0 <= i < |units| ==> units[i] <= 0xFFFF
      ensures Valid() && fresh(utf8Bytes) && this.units == units && this.narrow == narrow
      ensures Rest() == if narrow then Stream16(units) else Stream32(units)
    {
      this.units, this.narrow, position, index, filled := units, narrow, 0, 0, 0;
      utf8Bytes := new int[4](i => 0);
      new;
      assert utf8Bytes[0..0] == [] && units[0..] == units;
    }

    ghost predicate Valid()
      reads this
    {
      && utf8Bytes.Length == 4 && index <= filled <= 4 && position <= |units|
      && (narrow ==> forall i :: 0 <= i < |units| ==> units[i] <= 0xFFFF)
    }

    /** The bytes of the units not yet read. */
    ghost function Unread(): seq<int>
      reads this`position
      requires position <= |units|
    {
      if narrow then Stream16(units[position..]) else Stream32(units[position..])
    }

    /** The bytes yet to come. */
    ghost function Rest(): seq<int>
      reads this, utf8Bytes
      requires Valid()
    {
      utf8Bytes[index..filled] + Unread()
    }

    method GetCharacter() returns (c: int)
      requires Valid()
      modifies this, utf8Bytes
      ensures Valid() && c == Next(old(Rest())) && Rest() == After(old(Rest()))
    {
      hide Stream16, Stream32, Unread;
      ghost var before := Rest();
      if index == filled {
        assert before == Unread();
        if narrow {
          FillBuffer16();
        } else {
          FillBuffer32();
        }
        assert utf8Bytes[index..filled] == utf8Bytes[..filled];
      }
      ghost var held, unread := utf8Bytes[index..filled], Unread();
      assert if before == [] then held == [EOF] && unread == [] else held + unread == before;
      assert index < filled && held[0] == utf8Bytes[index];
      c := utf8Bytes[index];
      index := index + 1;
      assert utf8Bytes[index..filled] == held[1..] && Unread() == unread;
      hide *;
      HandedOut(before, held, unread);
      RestIs();
    }

    lemma RestIs()
      requires Valid()
      ensures Rest() == utf8Bytes[index..filled] + Unread()
    {
      hide Unread;
    }

    method Fill1(a: bv32)
      requires utf8Bytes.Length == 4
      modifies this`filled, utf8Bytes
      ensures filled == 1 && utf8Bytes[..1] == AsInts([a])
    {
      utf8Bytes[0] := a as int;
      filled := 1;
    }

    method Fill2(a: bv32, b: bv32)
      requires utf8Bytes.Length == 4
      modifies this`filled, utf8Bytes
      ensures filled == 2 && utf8Bytes[..2] == AsInts([a, b])
    {
      utf8Bytes[0], utf8Bytes[1] := a as int, b as int;
      filled := 2;
    }

    method Fill3(a: bv32, b: bv32, c: bv32)
      requires utf8Bytes.Length == 4
      modifies this`filled, utf8Bytes
      ensures filled == 3 && utf8Bytes[..3] == AsInts([a, b, c])
    {
      utf8Bytes[0], utf8Bytes[1], utf8Bytes[2] := a as int, b as int, c as int;
      filled := 3;
    }

    method Fill4(a: bv32, b: bv32, c: bv32, d: bv32)
      requires utf8Bytes.Length == 4
      modifies this`filled, utf8Bytes
      ensures filled == 4 && utf8Bytes[..4] == AsInts([a, b, c, d])
    {
      utf8Bytes[0], utf8Bytes[1], utf8Bytes[2], utf8Bytes[3] := a as int, b as int, c as int, d as int;
      filled := 4;
    }

    method FillBuffer32()
      requires Valid() && index == filled && !narrow
      modifies this, utf8Bytes
      ensures Valid() && index == 0 < filled
      ensures if old(position) == |units| then old(Unread()) == [] == Unread() && utf8Bytes[..filled] == [EOF]
        else utf8Bytes[..filled] + Unread() == old(Unread())
    {
      hide AsInts, Utf8, Signed, Stream32, Piece32, Stream16;
      Next32(units, position);
      index := 0;
      if position == |units| {
        utf8Bytes[0] := EOF;
        filled := 1;
      } else {
        var wc := units[position];
        position := position + 1;
        Pieces32(wc);
        if wc < 0x80 {
          Fill1(wc);
        } else if wc <= 0x7FF {
          Fill2(0xC0 | ((wc >> 6) & 0x1F), 0x80 | (wc & 0x3F));
        } else if wc <= 0xFFFF {
          Fill3(0xE0 | ((wc >> 12) & 0x0F), 0x80 | ((wc >> 6) & 0x3F), 0x80 | (wc & 0x3F));
        } else if wc <= 0x10FFFF {
          Fill4(0xF0 | ((wc >> 18) & 0x07), 0x80 | ((wc >> 12) & 0x3F), 0x80 | ((wc >> 6) & 0x3F), 0x80 | (wc & 0x3F));
        } else {
          utf8Bytes[0] := Signed(wc);
          filled := 1;
        }
      }
    }

    method FillPair(wc: bv32, wc2: bv32)
      requires utf8Bytes.Length == 4
      modifies this`filled, utf8Bytes
      ensures filled == 4 && utf8Bytes[..4] == AsInts(Utf8(Joined(wc, wc2)))
    {
      hide AsInts, Utf8, Joined;
      JoinedIs(wc, wc2);
      var charcode := 0x10000 + (((wc & 0x3FF) << 10) | (wc2 & 0x3FF));
      WithoutMask4(charcode);
      LargeUtf8(charcode);
      Fill4(0xF0 | (charcode >> 18), 0x80 | ((charcode >> 12) & 0x3F), 0x80 | ((charcode >> 6) & 0x3F),
        0x80 | (charcode & 0x3F));
    }

    method FillBuffer16()
      requires Valid() && index == filled && narrow
      modifies this, utf8Bytes
      ensures Valid() && index == 0 < filled
      ensures if old(position) == |units| then old(Unread()) == [] == Unread() && utf8Bytes[..filled] == [EOF]
        else utf8Bytes[..filled] + Unread() == old(Unread())
    {
      hide AsInts, Utf8, Signed, Stream32, Stream16, Piece16, Piece32, Taken16, Joined;
      Next16(units, position);
      index := 0;
      if position == |units| {
        utf8Bytes[0] := EOF;
        filled := 1;
      } else {
        Pieces16(units[position..]);
        var wc := units[position];
        Pieces32(wc);
        position := position + 1;
        if wc < 0x80 {
          Fill1(wc);
        } else if wc <= 0x7FF {
          WithoutMask2(wc);
          Fill2(0xC0 | (wc >> 6), 0x80 | (wc & 0x3F));
        } else if 0xD800 > wc || wc >= 0xE000 {
          WithoutMask3(wc);
          Fill3(0xE0 | (wc >> 12), 0x80 | ((wc >> 6) & 0x3F), 0x80 | (wc & 0x3F));
        } else if position < |units| {
          var wc2 := units[position];
          position := position + 1;
          FillPair(wc, wc2);
        } else {
          utf8Bytes[0] := Signed(wc);
          filled := 1;
        }
      }
    }
  }

  lemma Next32(units: seq<bv32>, p: nat)
    requires p <= |units|
    ensures p == |units| ==> Stream32(units[p..]) == []
    ensures p < |units| ==> Stream32(units[p..]) == Piece32(units[p]) + Stream32(units[p + 1..])
  {
    if p < |units| {
      assert units[p..][1..] == units[p + 1..];
    }
  }

  lemma Next16(units: seq<bv32>, p: nat)
    requires p <= |units|
    ensures p == |units| ==> Stream16(units[p..]) == []
    ensures p < |units| ==>
      && p + Taken16(units[p..]) <= |units|
      && Stream16(units[p..]) == Piece16(units[p..]) + Stream16(units[p + Taken16(units[p..])..])
  {
    if p < |units| {
      assert units[p..][Taken16(units[p..])..] == units[p + Taken16(units[p..])..];
    }
  }

  lemma Pieces32(c: bv32)
    ensures Piece32(c) ==
      if c < 0x80 then AsInts([c])
      else if c <= 0x7FF then AsInts([0xC0 | ((c >> 6) & 0x1F), 0x80 | (c & 0x3F)])
      else if c <= 0xFFFF then AsInts([0xE0 | ((c >> 12) & 0x0F), 0x80 | ((c >> 6) & 0x3F), 0x80 | (c & 0x3F)])
      else if c <= 0x10FFFF then
        AsInts([0xF0 | ((c >> 18) & 0x07), 0x80 | ((c >> 12) & 0x3F), 0x80 | ((c >> 6) & 0x3F), 0x80 | (c & 0x3F)])
      else [Signed(c)]
  {
  }

  lemma Pieces16(units: seq<bv32>)
    requires units != [] && units[0] <= 0xFFFF
    ensures Taken16(units) == if 0xD800 <= units[0] < 0xE000 && |units| > 1 then 2 else 1
    ensures !(0xD800 <= units[0] < 0xE000) ==> Piece16(units) == Piece32(units[0])
    ensures 0xD800 <= units[0] < 0xE000 && |units| > 1 ==>
      Piece16(units) == AsInts(Utf8(Joined(units[0], units[1])))
    ensures 0xD800 <= units[0] < 0xE000 && |units| == 1 ==> Piece16(units) == [Signed(units[0])]
  {
    hide Joined;
  }

  lemma LargeUtf8(c: bv32)
    requires 0x10000 <= c
    ensures Utf8(c)
         == [0xF0 | ((c >> 18) & 0x07), 0x80 | ((c >> 12) & 0x3F), 0x80 | ((c >> 6) & 0x3F), 0x80 | (c & 0x3F)]
  {
  }

  lemma WithoutMask2(c: bv32)
    requires c <= 0x7FF
    ensures 0xC0 | (c >> 6) == 0xC0 | ((c >> 6) & 0x1F)
  {
  }

  lemma WithoutMask3(c: bv32)
    requires c <= 0xFFFF
    ensures 0xE0 | (c >> 12) == 0xE0 | ((c >> 12) & 0x0F)
  {
  }

  lemma WithoutMask4(c: bv32)
    requires c <= 0x10FFFF
    ensures 0xF0 | (c >> 18) == 0xF0 | ((c >> 18) & 0x07)
  {
  }

  lemma JoinedIs(a: bv32, b: bv32)
    ensures Joined(a, b) == 0x10000 + (((a & 0x3FF) << 10) | (b & 0x3FF)) && 0x10000 <= Joined(a, b) <= 0x10FFFF
  {
  }

  // ---------- Reading a whole text ----------

  lemma HalvesFit(c: bv32)
    requires c <= 0x10FFFF
    ensures if c < 0x10000 then c <= 0xFFFF else High(c - 0x10000) <= 0xFFFF && Low(c - 0x10000) <= 0xFFFF
  {
  }

  lemma UnitsFit(c: bv32)
    requires c <= 0x10FFFF
    ensures forall i :: 0 <= i < |Utf16(c)| ==> Utf16(c)[i] <= 0xFFFF
  {
    HalvesFit(c);
    hide High, Low;
  }

  lemma {:induction false} AllUnitsFit(text: seq<bv32>)
    requires forall i :: 0 <= i < |text| ==> IsScalar(text[i])
    ensures forall i :: 0 <= i < |Utf16All(text)| ==> Utf16All(text)[i] <= 0xFFFF
  {
    if text != [] {
      assert IsScalar(text[0]);
      UnitsFit(text[0]);
      hide Utf16;
      AllUnitsFit(text[1..]);
    }
  }

  /** An adapter of a text called `n` times: the text's UTF-8 bytes in order, and then nothing but the end of file. */
  method ReadText(text: seq<bv32>, narrow: bool, n: nat) returns (outs: seq<int>)
    requires forall i :: 0 <= i < |text| ==> IsScalar(text[i])
    ensures |outs| == n
    ensures forall i :: 0 <= i < n ==> outs[i] == if i < |Utf8All(text)| then Utf8All(text)[i] else EOF
    ensures forall i :: 0 <= i < n ==> (outs[i] == EOF <==> i >= |Utf8All(text)|)
  {
    hide *;
    AllUnitsFit(text);
    var adapter := new WideStringInputAdapter(if narrow then Utf16All(text) else text, narrow);
    ghost var rests := [adapter.Rest()];
    outs := [];
    while |outs| < n
      invariant adapter.Valid() && fresh(adapter) && fresh(adapter.utf8Bytes)
      invariant |outs| <= n && |rests| == |outs| + 1 && rests[|outs|] == adapter.Rest()
      invariant rests[0] == if narrow then Stream16(Utf16All(text)) else Stream32(text)
      invariant forall i :: 0 <= i < |outs| ==> outs[i] == Next(rests[i]) && rests[i + 1] == After(rests[i])
    {
      var c := adapter.GetCharacter();
      outs, rests := outs + [c], rests + [adapter.Rest()];
    }
    AreCalls(rests, outs);
    forall i | 0 <= i < n
      ensures outs[i] == (if i < |Utf8All(text)| then Utf8All(text)[i] else EOF)
      ensures outs[i] == EOF <==> i >= |Utf8All(text)|
    {
      CallsReadText(text, narrow, rests, outs, i);
    }
  }

  lemma AreCalls(rests: seq<seq<int>>, outs: seq<int>)
    requires |rests| == |outs| + 1
    requires forall i :: 0 <= i < |outs| ==> outs[i] == Next(rests[i]) && rests[i + 1] == After(rests[i])
    ensures Calls(rests, outs)
  {
  }
}
