/**
 JSON text (RFC 8259) as `JSON.stringify` writes it and `JSON.parse` reads a string of it.
 Strings follow section 7 of RFC 8259; a lone surrogate is written as an escape, a
 pair as it is.
 */
module Json {
  import opened Wrappers
  import opened Utf16

  const LOWER_U: Unit := 117

  // ------------------------------------------------------------------ strings

  function HexDigit(n: int): Unit
    requires 0 <= n < 16
  {
    if n < 10 then (48 + n) as Unit else (87 + n) as Unit
  }

  /** The value of a hexadecimal digit in either case. */
  function HexValue(u: Unit): (n: Option<int>)
    ensures n.Some? ==> 0 <= n.value < 16
  {
    if 48 <= u <= 57 then Some(u as int - 48)
    else if 97 <= u <= 102 then Some(u as int - 87)
    else if 65 <= u <= 70 then Some(u as int - 55)
    else None
  }

  function HexPair(n: int): Text
    requires 0 <= n < 256
  {
    [HexDigit(n / 16), HexDigit(n % 16)]
  }

  function UnicodeEscape(u: Unit): Text {
    [BACKSLASH, LOWER_U] + HexPair(u as int / 256) + HexPair(u as int % 256)
  }

  /** The letter of a two-character escape, for the units that have one. */
  function ShortEscape(u: Unit): Option<Unit> {
    if u == QUOTE || u == BACKSLASH then Some(u)
    else if u == 8 then Some(98)
    else if u == 9 then Some(116)
    else if u == 10 then Some(110)
    else if u == 12 then Some(102)
    else if u == 13 then Some(114)
    else None
  }

  function EscapeUnit(u: Unit): Text {
    if ShortEscape(u).Some? then [BACKSLASH, ShortEscape(u).value]
    else if u < 32 || IsHigh(u) || IsLow(u) then UnicodeEscape(u)
    else [u]
  }

  /** The body of a JSON string. */
  function Escape(t: Text): Text {
    if t == [] then []
    else if PairAhead(t) then t[..2] + Escape(t[2..])
    else EscapeUnit(t[0]) + Escape(t[1..])
  }

  lemma EscapeOne(u: Unit)
    ensures Escape([u]) == EscapeUnit(u)
  {
    assert [u][1..] == [] && Escape([]) == [];
    assert EscapeUnit(u) + [] == EscapeUnit(u);
  }

  /** Seven units are written by a letter behind a backslash. */
  lemma ShortEscapesAre()
    ensures Escape([8]) == [92, 98] && Escape([9]) == [92, 116] && Escape([10]) == [92, 110]
    ensures Escape([12]) == [92, 102] && Escape([13]) == [92, 114]
    ensures Escape([34]) == [92, 34] && Escape([92]) == [92, 92]
  {
    EscapeOne(8);
    EscapeOne(9);
    EscapeOne(10);
    EscapeOne(12);
    EscapeOne(13);
    EscapeOne(34);
    EscapeOne(92);
  }

  /** Other controls and lone surrogates are written by four digits, and everything else as it is. */
  lemma OtherUnitsAre(u: Unit)
    requires u !in {8, 9, 10, 12, 13, 34, 92}
    ensures Escape([u]) ==
      if u < 0x20 || 0xD800 <= u < 0xE000 then
        [92, 117, HexDigit(u as int / 4096), HexDigit(u as int / 256 % 16),
         HexDigit(u as int / 16 % 16), HexDigit(u as int % 16)]
      else [u]
  {
    EscapeOne(u);
    HexDigitsOf(u as int);
  }

  lemma HexDigitsOf(n: int)
    requires 0 <= n < 0x1_0000
    ensures n / 256 / 16 == n / 4096
    ensures n % 256 / 16 == n / 16 % 16 && n % 256 % 16 == n % 16
  {
  }

  /** `JSON.stringify` of a string. */
  function Quote(t: Text): Text {
    [QUOTE] + Escape(t) + [QUOTE]
  }

  /** What a short escape stands for. */
  function Unescape(letter: Unit): Option<Unit> {
    if letter == QUOTE || letter == BACKSLASH || letter == 47 then Some(letter)
    else if letter == 98 then Some(8)
    else if letter == 116 then Some(9)
    else if letter == 110 then Some(10)
    else if letter == 102 then Some(12)
    else if letter == 114 then Some(13)
    else None
  }

  /** One character of a string body: the unit it stands for, and how many units it takes. */
  function ParseUnit(s: Text): (r: Option<(Unit, nat)>)
    ensures r.Some? ==> 0 < r.value.1 <= |s|
  {
    if s == [] || s[0] == QUOTE || s[0] < 32 then None
    else if s[0] != BACKSLASH then Some((s[0], 1))
    else if |s| < 2 then None
    else if Unescape(s[1]).Some? then Some((Unescape(s[1]).value, 2))
    else if s[1] != LOWER_U || |s| < 6 then None
    else
      match (HexValue(s[2]), HexValue(s[3]), HexValue(s[4]), HexValue(s[5]))
      case (Some(a), Some(b), Some(c), Some(d)) => Some(((a * 4096 + b * 256 + c * 16 + d) as Unit, 6))
      case _ => None
  }

  /** The string up to its closing quote, and what follows it. */
  function ParseBody(s: Text): Option<(Text, Text)>
    decreases |s|
  {
    if s != [] && s[0] == QUOTE then Some(([], s[1..]))
    else
      match ParseUnit(s)
      case None => None
      case Some((u, taken)) =>
        match ParseBody(s[taken..])
        case None => None
        case Some((t, rest)) => Some(([u] + t, rest))
  }

  /** `JSON.parse` of a text that begins with a quote. */
  function ParseString(s: Text): Option<Text> {
    if s == [] || s[0] != QUOTE then None
    else
      match ParseBody(s[1..])
      case Some((t, rest)) => if rest == [] then Some(t) else None
      case None => None
  }

  lemma ParseUnicodeEscape(u: Unit, rest: Text)
    ensures ParseUnit(UnicodeEscape(u) + rest) == Some((u, 6))
  {
    var s := UnicodeEscape(u) + rest;
    var high, low := u as int / 256, u as int % 256;
    assert s[0] == BACKSLASH && s[1] == LOWER_U && Unescape(LOWER_U).None?;
    assert s[2] == HexDigit(high / 16) && s[3] == HexDigit(high % 16);
    assert s[4] == HexDigit(low / 16) && s[5] == HexDigit(low % 16);
    HexRoundTrip(high / 16);
    HexRoundTrip(high % 16);
    HexRoundTrip(low / 16);
    HexRoundTrip(low % 16);
    assert high == high / 16 * 16 + high % 16 && low == low / 16 * 16 + low % 16;
  }

  lemma HexRoundTrip(n: int)
    requires 0 <= n < 16
    ensures HexValue(HexDigit(n)) == Some(n)
  {
  }

  lemma ParseEscapeUnit(u: Unit, rest: Text)
    ensures ParseUnit(EscapeUnit(u) + rest) == Some((u, |EscapeUnit(u)|))
  {
    var s := EscapeUnit(u) + rest;
    if ShortEscape(u).Some? {
      assert s[0] == BACKSLASH && s[1] == ShortEscape(u).value;
    } else if u < 32 || IsHigh(u) || IsLow(u) {
      ParseUnicodeEscape(u, rest);
    } else {
      assert s[0] == u;
    }
  }

  /** One more character in front of a body that reads back. */
  lemma ParseBodyStep(head: Text, u: Unit, tail: Text, t: Text, rest: Text)
    requires head != [] && head[0] != QUOTE
    requires ParseUnit(head + tail) == Some((u, |head|))
    requires ParseBody(tail) == Some((t, rest))
    ensures ParseBody(head + tail) == Some(([u] + t, rest))
  {
    var s := head + tail;
    assert s[0] == head[0];
    assert s[|head|..] == tail;
  }

  /** Reading a string back stops at its own closing quote, whatever follows. */
  lemma {:induction false} ParseEscaped(t: Text, rest: Text)
    ensures ParseBody(Escape(t) + ([QUOTE] + rest)) == Some((t, rest))
    decreases |t|
  {
    var closing := [QUOTE] + rest;
    if t == [] {
      assert Escape(t) + closing == closing;
      assert closing[1..] == rest;
    } else if PairAhead(t) {
      ParseEscaped(t[2..], rest);
      var tail := Escape(t[2..]) + closing;
      assert ([t[1]] + tail)[0] == t[1];
      ParseBodyStep([t[1]], t[1], tail, t[2..], rest);
      assert ([t[0]] + ([t[1]] + tail))[0] == t[0];
      ParseBodyStep([t[0]], t[0], [t[1]] + tail, [t[1]] + t[2..], rest);
      assert t == [t[0]] + ([t[1]] + t[2..]);
      RegroupPair(t, Escape(t[2..]), closing);
    } else {
      ParseEscaped(t[1..], rest);
      ParseEscapeUnit(t[0], Escape(t[1..]) + closing);
      ParseBodyStep(EscapeUnit(t[0]), t[0], Escape(t[1..]) + closing, t[1..], rest);
      assert t == [t[0]] + t[1..];
      Regroup(EscapeUnit(t[0]), Escape(t[1..]), closing);
    }
  }

  lemma RegroupPair(t: Text, middle: Text, closing: Text)
    requires 2 <= |t|
    ensures t[..2] + middle + closing == [t[0]] + ([t[1]] + (middle + closing))
  {
  }

  /** Every string survives being quoted and read back. */
  lemma QuoteRoundTrip(t: Text)
    ensures ParseString(Quote(t)) == Some(t)
  {
    ParseEscaped(t, []);
    assert Quote(t)[1..] == Escape(t) + ([QUOTE] + []);
  }

  /** A quoted string holds no control character, so no line break either. */
  lemma {:induction false} EscapeHasNoControls(t: Text)
    ensures forall u :: u in Escape(t) ==> u >= 32
    decreases |t|
  {
    if t != [] {
      EscapeHasNoControls(if PairAhead(t) then t[2..] else t[1..]);
      EscapeUnitHasNoControls(t[0]);
    }
  }

  lemma EscapeUnitHasNoControls(unit: Unit)
    ensures forall u :: u in EscapeUnit(unit) ==> u >= 32
  {
    HexDigitsArePrintable(unit as int);
  }

  lemma HexDigitsArePrintable(n: int)
    requires 0 <= n < 0x1_0000
    ensures forall u :: u in HexPair(n / 256) + HexPair(n % 256) ==> u >= 48
  {
  }

  /** Quoting neither introduces nor hides a comma. */
  lemma {:induction false} EscapeKeepsCommas(t: Text)
    ensures COMMA in Escape(t) <==> COMMA in t
    decreases |t|
  {
    if t != [] {
      HexDigitsArePrintable(t[0] as int);
      if PairAhead(t) {
        EscapeKeepsCommas(t[2..]);
        assert t == t[..2] + t[2..];
      } else {
        EscapeKeepsCommas(t[1..]);
        assert t == [t[0]] + t[1..];
        assert COMMA in EscapeUnit(t[0]) <==> COMMA == t[0];
      }
    }
  }

  // ------------------------------------------------------------------ values

  datatype NonFinite = NotANumber | Infinity | MinusInfinity

  /** A JavaScript value as JSON.stringify sees it; a finite number is its own canonical spelling. */
  datatype Value =
    | Undefined
    | Null
    | Bool(b: bool)
    | Number(literal: Text)
    | Unwritable(number: NonFinite)
    | Str(text: Text)
    | Arr(items: seq<Value>)
    | Obj(fields: seq<(Text, Value)>)

  const OPEN_BRACKET: Unit := 91
  const CLOSE_BRACKET: Unit := 93
  const OPEN_BRACE: Unit := 123
  const CLOSE_BRACE: Unit := 125
  const NULL: Text := [110, 117, 108, 108]
  const TRUE: Text := [116, 114, 117, 101]
  const FALSE: Text := [102, 97, 108, 115, 101]

  /**
   `JSON.stringify`, with an undefined value written as it is inside an array. A number that is not
   finite is written as null wherever it stands.
   */
  function Stringify(v: Value): Text
    decreases v, 1
  {
    match v
    case Undefined => NULL
    case Null => NULL
    case Bool(b) => if b then TRUE else FALSE
    case Number(literal) => literal
    case Unwritable(_) => NULL
    case Str(text) => Quote(text)
    case Arr(items) => [OPEN_BRACKET] + Items(items) + [CLOSE_BRACKET]
    case Obj(fields) => [OPEN_BRACE] + Members(fields) + [CLOSE_BRACE]
  }

  function Items(items: seq<Value>): Text
    decreases items, 0
  {
    if items == [] then []
    else if |items| == 1 then Stringify(items[0])
    else Stringify(items[0]) + [COMMA] + Items(items[1..])
  }

  function Member(key: Text, value: Value): Text
    decreases value, 2
  {
    Quote(key) + [COLON] + Stringify(value)
  }

  /** The members of an object; a field that is undefined is left out. */
  function Members(fields: seq<(Text, Value)>): Text
    decreases fields, 0
  {
    if fields == [] then []
    else
      var rest := Members(fields[1..]);
      if fields[0].1.Undefined? then rest
      else
        assert fields[0].1 < fields[0];
        var first := Member(fields[0].0, fields[0].1);
        if rest == [] then first else first + [COMMA] + rest
  }

  /** The members that are written, one by one. */
  function MemberTexts(fields: seq<(Text, Value)>): seq<Text> {
    if fields == [] then []
    else
      var rest := MemberTexts(fields[1..]);
      if fields[0].1.Undefined? then rest else [Member(fields[0].0, fields[0].1)] + rest
  }

  lemma MemberTextsOne(field: (Text, Value))
    ensures MemberTexts([field])
         == if field.1.Undefined? then [] else [Quote(field.0) + [COLON] + Stringify(field.1)]
  {
    assert [field][1..] == [];
  }

  lemma {:induction false} MemberTextsAdd(a: seq<(Text, Value)>, b: seq<(Text, Value)>)
    ensures MemberTexts(a + b) == MemberTexts(a) + MemberTexts(b)
  {
    if a == [] {
      assert a + b == b;
    } else {
      assert (a + b)[1..] == a[1..] + b;
      MemberTextsAdd(a[1..], b);
    }
  }

  lemma {:induction false} MembersAreJoined(fields: seq<(Text, Value)>)
    ensures Members(fields) == Join(MemberTexts(fields), [COMMA])
    ensures Members(fields) == [] <==> MemberTexts(fields) == []
  {
    if fields != [] {
      MembersAreJoined(fields[1..]);
      var rest := MemberTexts(fields[1..]);
      if !fields[0].1.Undefined? && rest != [] {
        assert ([Member(fields[0].0, fields[0].1)] + rest)[1..] == rest;
      }
    }
  }

  /** One more member after the others. */
  lemma {:induction false} MembersAppend(fields: seq<(Text, Value)>, key: Text, value: Value)
    requires !value.Undefined?
    ensures Members(fields + [(key, value)])
         == (if Members(fields) == [] then [] else Members(fields) + [COMMA]) + Member(key, value)
    decreases |fields|
  {
    var all := fields + [(key, value)];
    if fields == [] {
      assert all == [(key, value)] && all[1..] == [];
    } else {
      assert all[1..] == fields[1..] + [(key, value)];
      MembersAppend(fields[1..], key, value);
      if !fields[0].1.Undefined? && Members(fields[1..]) != [] {
        Reassociate(Member(fields[0].0, fields[0].1) + [COMMA], Members(fields[1..]), [COMMA], Member(key, value));
      }
    }
  }

  // ------------------------------------------------------------------ how long JSON text is

  lemma {:induction false} EscapeAtLeast(t: Text)
    ensures |Escape(t)| >= |t|
    decreases |t|
  {
    if t != [] {
      EscapeAtLeast(if PairAhead(t) then t[2..] else t[1..]);
    }
  }

  lemma {:induction false} EscapeAtMost(t: Text)
    ensures |Escape(t)| <= 6 * |t|
    decreases |t|
  {
    if t != [] {
      EscapeAtMost(if PairAhead(t) then t[2..] else t[1..]);
    }
  }

  /** The members of an object are at least as long as any string among them. */
  lemma {:induction false} MembersAtLeast(fields: seq<(Text, Value)>, k: nat)
    requires k < |fields| && fields[k].1.Str?
    ensures |Members(fields)| >= |fields[k].1.text|
    decreases |fields|
  {
    if k == 0 {
      EscapeAtLeast(fields[0].1.text);
      assert |Member(fields[0].0, fields[0].1)| >= |Quote(fields[0].1.text)|;
    } else {
      MembersAtLeast(fields[1..], k - 1);
    }
  }

  /** Escapes of two texts join unless the cut splits a surrogate pair. */
  lemma {:induction false} EscapeAdds(a: Text, b: Text)
    requires b == [] || !IsLow(b[0])
    ensures Escape(a + b) == Escape(a) + Escape(b)
    decreases |a|
  {
    var t := a + b;
    if a == [] {
      assert t == b;
    } else if PairAhead(a) {
      assert t[2..] == a[2..] + b && t[..2] == a[..2];
      EscapeAdds(a[2..], b);
      Regroup(a[..2], Escape(a[2..]), Escape(b));
    } else {
      assert t[1..] == a[1..] + b;
      EscapeAdds(a[1..], b);
      assert !PairAhead(t);
      Regroup(EscapeUnit(a[0]), Escape(a[1..]), Escape(b));
    }
  }

  /** An escaped text never begins inside a surrogate pair. */
  lemma EscapeStartsWhole(t: Text)
    ensures Escape(t) != [] ==> !IsLow(Escape(t)[0])
  {
  }
}
