/**
 UTF-8 as `TextEncoder` writes it (section 3 of RFC 3629), a decoder of it, and the size of a text in it.
 A lone surrogate is written as the replacement character.
 */
module Utf8 {
  import opened Wrappers
  import opened Utf16

  newtype Byte = b: int | 0 <= b < 256

  /** A Unicode scalar value: a code point that is no surrogate. */
  type Point = c: int | 0 <= c < 0xD800 || 0xE000 <= c < 0x11_0000

  const REPLACEMENT: Point := 0xFFFD

  // ------------------------------------------------------------------ encoding

  function EncodedPoint(c: Point): seq<Byte> {
    if c < 0x80 then [c as Byte]
    else if c < 0x800 then [(0xC0 + c / 64) as Byte, Trailing(c)]
    else if c < 0x1_0000 then [(0xE0 + c / 4096) as Byte, Trailing(c / 64), Trailing(c)]
    else [(0xF0 + c / 0x4_0000) as Byte, Trailing(c / 4096), Trailing(c / 64), Trailing(c)]
  }

  function Trailing(n: nat): Byte {
    (0x80 + n % 64) as Byte
  }

  /** How many units the first code point of a text takes. */
  function Width(t: Text): (n: nat)
    requires t != []
    ensures 0 < n <= |t|
  {
    if PairAhead(t) then 2 else 1
  }

  function FirstPoint(t: Text): Point
    requires t != []
  {
    if PairAhead(t) then 0x1_0000 + (t[0] as int - 0xD800) * 0x400 + (t[1] as int - 0xDC00)
    else if IsHigh(t[0]) || IsLow(t[0]) then REPLACEMENT
    else t[0] as int
  }

  function Encoded(t: Text): seq<Byte> {
    if t == [] then [] else EncodedPoint(FirstPoint(t)) + Encoded(t[Width(t)..])
  }

  // ------------------------------------------------------------------ decoding

  predicate IsTrailing(b: Byte) {
    0x80 <= b < 0xC0
  }

  function Payload(b: Byte): nat {
    b as int % 64
  }

  /** The value that so many bytes spell, if they spell one and in no more bytes than it takes. */
  function Spelled(lead: nat, least: nat, trailing: seq<Byte>, count: nat): Option<(Point, nat)> {
    if |trailing| < count || exists i :: 0 <= i < count && !IsTrailing(trailing[i]) then None
    else
      var c := Accumulated(lead, trailing[..count]);
      if least <= c < 0xD800 || (least <= c && 0xE000 <= c < 0x11_0000) then Some((c, 1 + count)) else None
  }

  function Accumulated(lead: nat, trailing: seq<Byte>): nat {
    if trailing == [] then lead
    else
      var n := |trailing| - 1;
      Accumulated(lead, trailing[..n]) * 64 + Payload(trailing[n])
  }

  /** The code point that bytes begin with, and how many bytes it takes. */
  function DecodePoint(bytes: seq<Byte>): Option<(Point, nat)> {
    if bytes == [] then None
    else
      var b, rest := bytes[0] as int, bytes[1..];
      if b < 0x80 then Some((b, 1))
      else if 0xC0 <= b < 0xE0 then Spelled(b - 0xC0, 0x80, rest, 1)
      else if 0xE0 <= b < 0xF0 then Spelled(b - 0xE0, 0x800, rest, 2)
      else if 0xF0 <= b < 0xF8 then Spelled(b - 0xF0, 0x1_0000, rest, 3)
      else None
  }

  function Units(c: Point): (t: Text)
    ensures t != []
  {
    if c < 0x1_0000 then [c as Unit]
    else [(0xD800 + (c - 0x1_0000) / 0x400) as Unit, (0xDC00 + (c - 0x1_0000) % 0x400) as Unit]
  }

  function Decoded(bytes: seq<Byte>): Option<Text>
    decreases |bytes|
  {
    if bytes == [] then Some([])
    else
      match DecodePoint(bytes)
      case None => None
      case Some((c, taken)) =>
        if taken == 0 || taken > |bytes| then None
        else
          match Decoded(bytes[taken..])
          case None => None
          case Some(t) => Some(Units(c) + t)
  }

  // ------------------------------------------------------------------ the round trip

  lemma PointReads(c: Point, rest: seq<Byte>)
    ensures DecodePoint(EncodedPoint(c) + rest) == Some((c, |EncodedPoint(c)|))
  {
    var behind := (EncodedPoint(c) + rest)[1..];
    if c < 0x80 {
    } else if c < 0x800 {
      SpellsOne(c / 64, c, behind);
    } else if c < 0x1_0000 {
      SpellsTwo(c, behind);
    } else {
      SpellsThree(c, behind);
    }
  }

  lemma SpellsTwo(c: nat, trailing: seq<Byte>)
    requires [Trailing(c / 64), Trailing(c)] <= trailing
    ensures IsTrailing(trailing[0]) && IsTrailing(trailing[1]) && Accumulated(c / 4096, trailing[..2]) == c
  {
    SpellsOne(c / 4096, c / 64, trailing);
    SpellsNext(c / 4096, c / 64, c, trailing, 1);
  }

  lemma SpellsThree(c: nat, trailing: seq<Byte>)
    requires [Trailing(c / 4096), Trailing(c / 64), Trailing(c)] <= trailing
    ensures IsTrailing(trailing[0]) && IsTrailing(trailing[1]) && IsTrailing(trailing[2])
    ensures Accumulated(c / 0x4_0000, trailing[..3]) == c
  {
    SpellsOne(c / 0x4_0000, c / 4096, trailing);
    SpellsNext(c / 0x4_0000, c / 4096, c / 64, trailing, 1);
    SpellsNext(c / 0x4_0000, c / 64, c, trailing, 2);
  }

  lemma SpellsOne(lead: nat, n: nat, trailing: seq<Byte>)
    requires trailing != [] && trailing[0] == Trailing(n) && lead == n / 64
    ensures IsTrailing(trailing[0]) && Accumulated(lead, trailing[..1]) == n
  {
    assert trailing[..1][..0] == [];
    assert Accumulated(lead, trailing[..1][..0]) == lead;
    TrailingHolds(n);
  }

  lemma SpellsNext(lead: nat, before: nat, n: nat, trailing: seq<Byte>, k: nat)
    requires k < |trailing| && trailing[k] == Trailing(n) && before == n / 64
    requires Accumulated(lead, trailing[..k]) == before
    ensures IsTrailing(trailing[k]) && Accumulated(lead, trailing[..k + 1]) == n
  {
    assert trailing[..k + 1][..k] == trailing[..k];
    TrailingHolds(n);
  }

  lemma TrailingHolds(n: nat)
    ensures IsTrailing(Trailing(n)) && n / 64 * 64 + Payload(Trailing(n)) == n
  {
  }

  /** The text with every lone surrogate replaced. */
  function Scrubbed(t: Text): (r: Text)
    ensures |r| == |t|
  {
    if t == [] then []
    else if PairAhead(t) then t[..2] + Scrubbed(t[2..])
    else [if IsHigh(t[0]) || IsLow(t[0]) then 0xFFFD else t[0]] + Scrubbed(t[1..])
  }

  /** Every surrogate is half of a pair. */
  predicate WellFormed(t: Text) {
    t != [] ==> (PairAhead(t) || !(IsHigh(t[0]) || IsLow(t[0]))) && WellFormed(t[Width(t)..])
  }

  lemma {:induction false} ScrubbedIsSame(t: Text)
    ensures Scrubbed(t) == t <==> WellFormed(t)
    decreases |t|
  {
    if t != [] {
      ScrubbedIsSame(t[Width(t)..]);
      var width := Width(t);
      assert t == t[..width] + t[width..];
      assert Scrubbed(t)[width..] == Scrubbed(t[width..]);
      assert Scrubbed(t) == t ==> Scrubbed(t)[0] == t[0] && Scrubbed(t)[width..] == t[width..];
    }
  }

  lemma UnitsOfFirst(t: Text)
    requires t != []
    ensures Units(FirstPoint(t)) + Scrubbed(t[Width(t)..]) == Scrubbed(t)
  {
    if PairAhead(t) {
      assert Units(FirstPoint(t)) == t[..2];
    }
  }

  /** The bytes read back as the text with lone surrogates replaced: as itself exactly when it has none. */
  lemma {:induction false} RoundTrip(t: Text)
    ensures Decoded(Encoded(t)) == Some(Scrubbed(t))
    ensures Decoded(Encoded(t)) == Some(t) <==> WellFormed(t)
    decreases |t|
  {
    if t != [] {
      var head, tail := EncodedPoint(FirstPoint(t)), Encoded(t[Width(t)..]);
      RoundTrip(t[Width(t)..]);
      PointReads(FirstPoint(t), tail);
      assert (head + tail)[|head|..] == tail;
      UnitsOfFirst(t);
    }
    ScrubbedIsSame(t);
  }

  // ------------------------------------------------------------------ size

  /** The bytes of a text, counted without encoding it. */
  function Utf8Size(t: Text): nat {
    if t == [] then 0
    else if PairAhead(t) then 4 + Utf8Size(t[2..])
    else (if t[0] < 0x80 then 1 else if t[0] < 0x800 then 2 else 3) + Utf8Size(t[1..])
  }

  /** What is counted is what encoding yields. */
  lemma {:induction false} SizeIsBytes(t: Text)
    ensures Utf8Size(t) == |Encoded(t)|
    decreases |t|
  {
    if t != [] {
      SizeIsBytes(t[Width(t)..]);
    }
  }

  lemma {:induction false} Utf8AtLeast(t: Text)
    ensures Utf8Size(t) >= |t|
    decreases |t|
  {
    if t != [] {
      Utf8AtLeast(if PairAhead(t) then t[2..] else t[1..]);
    }
  }

  lemma {:induction false} Utf8AtMost(t: Text)
    ensures Utf8Size(t) <= 3 * |t|
    decreases |t|
  {
    if t != [] {
      Utf8AtMost(if PairAhead(t) then t[2..] else t[1..]);
    }
  }

  /** Sizes add up unless the cut splits a surrogate pair. */
  lemma {:induction false} Utf8Adds(a: Text, b: Text)
    requires b == [] || !IsLow(b[0])
    ensures Utf8Size(a + b) == Utf8Size(a) + Utf8Size(b)
    decreases |a|
  {
    var t := a + b;
    if a == [] {
      assert t == b;
    } else if PairAhead(a) {
      assert t[2..] == a[2..] + b;
      Utf8Adds(a[2..], b);
    } else {
      assert t[1..] == a[1..] + b;
      Utf8Adds(a[1..], b);
      assert !PairAhead(t);
    }
  }
}
