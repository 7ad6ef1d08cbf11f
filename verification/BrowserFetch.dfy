/**
 The browser tool's guards (apps/shared/src/BrowserFetch.ts): which address literals are public, and
 reading a body up to a cap.
 */
module BrowserFetch {
  import opened Wrappers
  import opened Utf16

  const PERCENT: Unit := 37
  const OPENING: Unit := 91
  const CLOSING: Unit := 93
  const MAPPED: Text := [COLON, COLON, 102, 102, 102, 102, COLON]

  datatype Octets = Octets(a: int, b: int, c: int, d: int)

  /** One to three digits with the value of an octet. */
  predicate IsOctet(part: Text) {
    1 <= |part| <= 3 && Digits(part) && DigitsValue(part) <= 255
  }

  function ParseIpv4(ip: Text): (octets: Option<Octets>)
    ensures octets.Some? ==>
              && 0 <= octets.value.a <= 255 && 0 <= octets.value.b <= 255
              && 0 <= octets.value.c <= 255 && 0 <= octets.value.d <= 255
  {
    var parts := Split(ip, DOT);
    if |parts| != 4 || !IsOctet(parts[0]) || !IsOctet(parts[1]) || !IsOctet(parts[2]) || !IsOctet(parts[3]) then None
    else
      Some(Octets(DigitsValue(parts[0]), DigitsValue(parts[1]), DigitsValue(parts[2]), DigitsValue(parts[3])))
  }

  /** White space, brackets and a zone are not part of the literal. */
  function Normalized(raw: Text): Text {
    var trimmed := Trim(raw);
    var plain :=
      if 2 <= |trimmed| && trimmed[0] == OPENING && trimmed[|trimmed| - 1] == CLOSING then trimmed[1..|trimmed| - 1]
      else trimmed;
    plain[..UntilUnit(plain, PERCENT)]
  }

  /** Lower case of the ASCII letters; no other character lowers to one the guard looks at. */
  function Lower(t: Text): (lower: Text)
    ensures |lower| == |t|
  {
    seq(|t|, i requires 0 <= i < |t| => LowerUnit(t[i]))
  }

  function LowerUnit(u: Unit): Unit {
    if 65 <= u <= 90 then u + 32 else u
  }

  predicate IsHexDigit(u: Unit) {
    IsDigit(u) || 97 <= u <= 102
  }

  /** One to four hexadecimal digits. */
  predicate IsGroup(t: Text) {
    1 <= |t| <= 4 && forall i :: 0 <= i < |t| ==> IsHexDigit(t[i])
  }

  function HexUnit(u: Unit): int
    requires IsHexDigit(u)
  {
    if IsDigit(u) then u as int - 48 else u as int - 87
  }

  /** `parseInt(group, 16)`. */
  function GroupValue(t: Text): nat
    requires forall i :: 0 <= i < |t| ==> IsHexDigit(t[i])
  {
    if t == [] then 0 else 16 * GroupValue(t[..|t| - 1]) + HexUnit(t[|t| - 1])
  }

  /** Four octets in dotted form. */
  function Dotted(a: nat, b: nat, c: nat, d: nat): Text {
    Join([Decimal(a), Decimal(b), Decimal(c), Decimal(d)], [DOT])
  }

  function MappedIpv4(rest: Text): Option<Text> {
    if ParseIpv4(rest).Some? then Some(rest)
    else
      var groups := Split(rest, COLON);
      if |groups| != 2 || !IsGroup(groups[0]) || !IsGroup(groups[1]) then None
      else
        var a, b := GroupValue(groups[0]), GroupValue(groups[1]);
        Some(Dotted(a / 256 % 256, a % 256, b / 256 % 256, b % 256))
  }

  predicate PublicOctets(o: Octets) {
    && !(o.a == 0 || o.a == 10 || o.a == 127)
    && !(o.a == 169 && o.b == 254)
    && !(o.a == 172 && 16 <= o.b <= 31)
    && !(o.a == 192 && o.b == 168)
    && !(o.a == 100 && 64 <= o.b <= 127)
    && !(o.a == 198 && (o.b == 18 || o.b == 19))
    && !(o.a >= 224)
  }

  /** The guard judges an embedded address by itself again; one that is not dotted is never public. */
  predicate PublicDotted(raw: Text) {
    var v4 := ParseIpv4(Normalized(raw));
    v4.Some? && PublicOctets(v4.value)
  }

  predicate IsPublicAddress(raw: Text) {
    var ip := Normalized(raw);
    var v4 := ParseIpv4(ip);
    if v4.Some? then PublicOctets(v4.value)
    else
      var lower := Lower(ip);
      if COLON !in lower then false
      else if MAPPED <= lower then
        var embedded := MappedIpv4(lower[7..]);
        embedded.Some? && PublicDotted(embedded.value)
      else
        var head := Split(lower, COLON)[0];
        IsGroup(head) && 0x2000 <= GroupValue(head) <= 0x3fff
  }

  // ------------------------------------------------------------------ the address blocks

  /** The addresses of a block: `size` of them from a.b.0.0 on. */
  predicate InBlock(address: int, a: int, b: int, size: int) {
    var start := a * 0x100_0000 + b * 0x1_0000;
    start <= address < start + size
  }

  /**
   What is not public: 0/8, the private blocks of section 3 of RFC 1918, the shared block of section 7
   of RFC 6598, loopback 127/8, link-local 169.254/16, benchmarking 198.18/15, and 224/3.
   */
  predicate Reserved(address: int) {
    || InBlock(address, 0, 0, 0x100_0000)
    || InBlock(address, 10, 0, 0x100_0000)
    || InBlock(address, 127, 0, 0x100_0000)
    || InBlock(address, 169, 254, 0x1_0000)
    || InBlock(address, 172, 16, 0x10_0000)
    || InBlock(address, 192, 168, 0x1_0000)
    || InBlock(address, 100, 64, 0x40_0000)
    || InBlock(address, 198, 18, 0x2_0000)
    || InBlock(address, 224, 0, 0x2000_0000)
  }

  function Address(o: Octets): int {
    o.a * 0x100_0000 + o.b * 0x1_0000 + o.c * 0x100 + o.d
  }

  lemma OctetsAreJudgedByBlock(o: Octets)
    requires 0 <= o.a <= 255 && 0 <= o.b <= 255 && 0 <= o.c <= 255 && 0 <= o.d <= 255
    ensures PublicOctets(o) <==> !Reserved(Address(o))
  {
  }

  // ------------------------------------------------------------------ dotted spellings

  /** Four octets as they may be spelled, leading zeros included. */
  predicate IsDotted(parts: seq<Text>) {
    |parts| == 4 && IsOctet(parts[0]) && IsOctet(parts[1]) && IsOctet(parts[2]) && IsOctet(parts[3])
  }

  function DottedAddress(parts: seq<Text>): int
    requires IsDotted(parts)
  {
    Address(Octets(DigitsValue(parts[0]), DigitsValue(parts[1]), DigitsValue(parts[2]), DigitsValue(parts[3])))
  }

  /** A character a literal may hold that normalising leaves alone. */
  predicate Plain(u: Unit) {
    !IsSpace(u) && u != PERCENT && u != OPENING && u != CLOSING
  }

  predicate AllPlain(t: Text) {
    forall i :: 0 <= i < |t| ==> Plain(t[i])
  }

  lemma NormalizedPlain(t: Text)
    requires t != [] && AllPlain(t)
    ensures Normalized(t) == t
  {
    TrimOfTrimmed(t);
    assert UntilUnit(t, PERCENT) == |t|;
  }

  /** Brackets change nothing. */
  lemma NormalizedBracketed(t: Text)
    requires t != [] && AllPlain(t)
    ensures Normalized([OPENING] + t + [CLOSING]) == t
  {
    var raw := [OPENING] + t + [CLOSING];
    assert raw[0] == OPENING && raw[|raw| - 1] == CLOSING;
    TrimOfTrimmed(raw);
    assert raw[1..|raw| - 1] == t;
    assert UntilUnit(t, PERCENT) == |t|;
  }

  lemma {:induction false} JoinedKeeps(parts: seq<Text>, separator: Unit)
    ensures forall u :: u in Join(parts, [separator]) ==> u == separator || exists i :: 0 <= i < |parts| && u in parts[i]
  {
    if |parts| > 1 {
      JoinedKeeps(parts[1..], separator);
      forall u | u in Join(parts[1..], [separator]) && u != separator
        ensures exists i :: 0 <= i < |parts| && u in parts[i]
      {
        var i :| 0 <= i < |parts[1..]| && u in parts[1..][i];
        assert u in parts[i + 1];
      }
    }
  }

  /** Digits and dots, beginning with a digit. */
  lemma DottedText(parts: seq<Text>)
    requires IsDotted(parts)
    ensures var t := Join(parts, [DOT]);
            && t != [] && IsDigit(t[0])
            && forall i :: 0 <= i < |t| ==> IsDigit(t[i]) || t[i] == DOT
  {
    var t := Join(parts, [DOT]);
    JoinedKeeps(parts, DOT);
    JoinCons(parts, [DOT]);
    assert t[0] == parts[0][0];
    forall i | 0 <= i < |t|
      ensures IsDigit(t[i]) || t[i] == DOT
    {
      assert t[i] in t;
    }
  }

  lemma ParseDotted(parts: seq<Text>)
    requires IsDotted(parts)
    ensures ParseIpv4(Join(parts, [DOT])) ==
            Some(Octets(DigitsValue(parts[0]), DigitsValue(parts[1]), DigitsValue(parts[2]), DigitsValue(parts[3])))
  {
    SplitJoin(parts, DOT);
  }

  lemma DottedIsPublic(parts: seq<Text>)
    requires IsDotted(parts)
    ensures PublicDotted(Join(parts, [DOT])) <==> !Reserved(DottedAddress(parts))
    ensures IsPublicAddress(Join(parts, [DOT])) <==> !Reserved(DottedAddress(parts))
  {
    var t := Join(parts, [DOT]);
    DottedText(parts);
    NormalizedPlain(t);
    ParseDotted(parts);
    OctetsAreJudgedByBlock(ParseIpv4(t).value);
  }

  // ------------------------------------------------------------------ mapped spellings

  lemma ColonFirstIsNotDotted(t: Text)
    requires t != [] && t[0] == COLON
    ensures ParseIpv4(t).None?
  {
    var first := Split(t, DOT)[0];
    assert first != [] ==> first[0] == COLON;
  }

  lemma NoDotIsNotDotted(t: Text)
    requires DOT !in t
    ensures ParseIpv4(t).None?
  {
    SplitWhole(t, DOT);
  }

  /** The verdict on a mapped address is the verdict on what is embedded. */
  lemma MappedIsJudgedByEmbedded(prefix: Text, rest: Text)
    requires Lower(prefix) == MAPPED && AllPlain(rest)
    ensures IsPublicAddress(prefix + rest) <==>
              MappedIpv4(Lower(rest)).Some? && PublicDotted(MappedIpv4(Lower(rest)).value)
  {
    var t := prefix + rest;
    PrefixIsPlain(prefix);
    assert AllPlain(t);
    NormalizedPlain(t);
    ColonFirstIsNotDotted(t);
    LowerMapped(prefix, rest);
    JudgedByEmbedded(t, Lower(rest));
  }

  lemma LowerMapped(prefix: Text, rest: Text)
    requires Lower(prefix) == MAPPED
    ensures MAPPED <= Lower(prefix + rest) && Lower(prefix + rest)[7..] == Lower(rest)
  {
    assert Lower(prefix + rest) == Lower(prefix) + Lower(rest);
  }

  lemma JudgedByEmbedded(t: Text, rest: Text)
    requires Normalized(t) == t && ParseIpv4(t).None? && MAPPED <= Lower(t) && Lower(t)[7..] == rest
    ensures IsPublicAddress(t) <==> MappedIpv4(rest).Some? && PublicDotted(MappedIpv4(rest).value)
  {
    assert Lower(t)[0] == COLON;
  }

  lemma PrefixIsPlain(prefix: Text)
    requires Lower(prefix) == MAPPED
    ensures |prefix| == 7 && AllPlain(prefix) && prefix[0] == COLON
  {
    forall i | 0 <= i < |prefix|
      ensures Plain(prefix[i])
    {
      assert Lower(prefix)[i] == LowerUnit(prefix[i]);
      assert MAPPED[i] == COLON || MAPPED[i] == 102;
    }
    assert Lower(prefix)[0] == LowerUnit(prefix[0]);
  }

  lemma LowerDotted(t: Text)
    requires forall i :: 0 <= i < |t| ==> IsDigit(t[i]) || t[i] == DOT
    ensures Lower(t) == t
  {
  }

  lemma DecimalLength(n: nat)
    requires n <= 255
    ensures IsOctet(Decimal(n)) && DigitsValue(Decimal(n)) == n
  {
    DecimalValue(n);
    assert n < 10 ==> |Decimal(n)| == 1;
    assert n < 100 ==> |Decimal(n)| <= 2 by {
      assert n / 10 < 10 || n >= 100;
    }
    assert |Decimal(n / 10)| <= 2;
  }

  lemma GroupIsSmall(t: Text)
    requires IsGroup(t)
    ensures GroupValue(t) < 0x1_0000
  {
    GroupBelow(t);
  }

  function Power16(n: nat): nat {
    if n == 0 then 1 else 16 * Power16(n - 1)
  }

  lemma {:induction false} GroupBelow(t: Text)
    requires forall i :: 0 <= i < |t| ==> IsHexDigit(t[i])
    requires |t| <= 4
    ensures GroupValue(t) < Power16(|t|) <= 0x1_0000
    decreases |t|
  {
    if t != [] {
      GroupBelow(t[..|t| - 1]);
      assert Power16(1) == 16 && Power16(2) == 256 && Power16(3) == 4096 && Power16(4) == 65536;
    }
  }

  /** The two groups of a mapped address, in either case. */
  predicate IsHexPair(high: Text, low: Text) {
    IsGroup(Lower(high)) && IsGroup(Lower(low))
  }

  function HexAddress(high: Text, low: Text): int
    requires IsHexPair(high, low)
  {
    GroupValue(Lower(high)) * 0x1_0000 + GroupValue(Lower(low))
  }

  lemma GroupUnits(t: Text)
    requires IsGroup(t)
    ensures COLON !in t && DOT !in t
  {
  }

  lemma HexPairEmbeds(high: Text, low: Text)
    requires IsGroup(high) && IsGroup(low)
    ensures var a, b := GroupValue(high), GroupValue(low);
            MappedIpv4(high + [COLON] + low) == Some(Dotted(a / 256 % 256, a % 256, b / 256 % 256, b % 256))
  {
    SplitPair(high, low);
  }

  lemma SplitPair(high: Text, low: Text)
    requires IsGroup(high) && IsGroup(low)
    ensures Split(high + [COLON] + low, COLON) == [high, low] && ParseIpv4(high + [COLON] + low).None?
  {
    GroupUnits(high);
    GroupUnits(low);
    SplitFirst(high, COLON, low);
    SplitWhole(low, COLON);
    NoDotIsNotDotted(high + [COLON] + low);
  }

  lemma HexPairIsPublic(high: Text, low: Text)
    requires IsHexPair(high, low)
    ensures var rest := Lower(high + [COLON] + low);
            && MappedIpv4(rest).Some?
            && (PublicDotted(MappedIpv4(rest).value) <==> !Reserved(HexAddress(high, low)))
  {
    assert Lower(high + [COLON] + low) == Lower(high) + [COLON] + Lower(low);
    HexPairEmbeds(Lower(high), Lower(low));
    GroupIsSmall(Lower(high));
    GroupIsSmall(Lower(low));
    DottedOf(GroupValue(Lower(high)), GroupValue(Lower(low)));
  }

  lemma OctetsAreSpelled(a: nat, b: nat, c: nat, d: nat) returns (parts: seq<Text>)
    requires a <= 255 && b <= 255 && c <= 255 && d <= 255
    ensures parts == [Decimal(a), Decimal(b), Decimal(c), Decimal(d)]
    ensures IsDotted(parts) && DottedAddress(parts) == Address(Octets(a, b, c, d))
  {
    DecimalLength(a);
    DecimalLength(b);
    DecimalLength(c);
    DecimalLength(d);
    parts := [Decimal(a), Decimal(b), Decimal(c), Decimal(d)];
  }

  lemma HalfWord(n: nat)
    requires n < 0x1_0000
    ensures n / 256 % 256 <= 255 && n % 256 <= 255 && n == n / 256 % 256 * 256 + n % 256
  {
  }

  lemma DottedOf(a: nat, b: nat)
    requires a < 0x1_0000 && b < 0x1_0000
    ensures PublicDotted(Dotted(a / 256 % 256, a % 256, b / 256 % 256, b % 256)) <==> !Reserved(a * 0x1_0000 + b)
  {
    HalfWord(a);
    HalfWord(b);
    OctetsArePublic(a / 256 % 256, a % 256, b / 256 % 256, b % 256, a * 0x1_0000 + b);
  }

  lemma OctetsArePublic(a: nat, b: nat, c: nat, d: nat, address: int)
    requires a <= 255 && b <= 255 && c <= 255 && d <= 255 && Address(Octets(a, b, c, d)) == address
    ensures PublicDotted(Dotted(a, b, c, d)) <==> !Reserved(address)
  {
    var parts := OctetsAreSpelled(a, b, c, d);
    DottedIsPublic(parts);
  }

  lemma HexPairIsPlain(high: Text, low: Text)
    requires IsHexPair(high, low)
    ensures AllPlain(high + [COLON] + low)
  {
    LowersToHex(high);
    LowersToHex(low);
  }

  lemma LowersToHex(t: Text)
    requires IsGroup(Lower(t))
    ensures AllPlain(t)
  {
    forall i | 0 <= i < |t|
      ensures Plain(t[i])
    {
      assert Lower(t)[i] == LowerUnit(t[i]);
    }
  }

  /**
   One address, every spelling: dotted, mapped and dotted, and mapped in hexadecimal, in either case and
   with any leading zeros the forms allow. All three get the same verdict, public exactly when the
   address is outside the reserved blocks.
   */
  lemma SpellingsAgree(parts: seq<Text>, prefix: Text, high: Text, low: Text)
    requires IsDotted(parts) && Lower(prefix) == MAPPED && IsHexPair(high, low)
    requires DottedAddress(parts) == HexAddress(high, low)
    ensures IsPublicAddress(Join(parts, [DOT])) <==> !Reserved(DottedAddress(parts))
    ensures IsPublicAddress(prefix + Join(parts, [DOT])) <==> !Reserved(DottedAddress(parts))
    ensures IsPublicAddress(prefix + (high + [COLON] + low)) <==> !Reserved(DottedAddress(parts))
  {
    DottedIsPublic(parts);
    MappedDotted(prefix, parts);
    MappedHex(prefix, high, low);
  }

  lemma MappedDotted(prefix: Text, parts: seq<Text>)
    requires IsDotted(parts) && Lower(prefix) == MAPPED
    ensures IsPublicAddress(prefix + Join(parts, [DOT])) <==> !Reserved(DottedAddress(parts))
  {
    DottedIsPublic(parts);
    DottedText(parts);
    ParseDotted(parts);
    MappedText(prefix, Join(parts, [DOT]));
  }

  lemma MappedText(prefix: Text, dotted: Text)
    requires Lower(prefix) == MAPPED && ParseIpv4(dotted).Some?
    requires forall i :: 0 <= i < |dotted| ==> IsDigit(dotted[i]) || dotted[i] == DOT
    ensures IsPublicAddress(prefix + dotted) <==> PublicDotted(dotted)
  {
    LowerDotted(dotted);
    MappedIsJudgedByEmbedded(prefix, dotted);
  }

  lemma MappedHex(prefix: Text, high: Text, low: Text)
    requires Lower(prefix) == MAPPED && IsHexPair(high, low)
    ensures IsPublicAddress(prefix + (high + [COLON] + low)) <==> !Reserved(HexAddress(high, low))
  {
    HexPairIsPlain(high, low);
    HexPairIsPublic(high, low);
    MappedIsJudgedByEmbedded(prefix, high + [COLON] + low);
  }

  /** The hexadecimal digits of a group, without leading zeros. */
  function GroupText(n: nat): (t: Text)
    ensures t != [] && forall i :: 0 <= i < |t| ==> IsHexDigit(t[i])
  {
    var digit: Unit := if n % 16 < 10 then (48 + n % 16) as Unit else (87 + n % 16) as Unit;
    if n < 16 then [digit] else GroupText(n / 16) + [digit]
  }

  lemma {:induction false} GroupTextIs(n: nat, length: nat)
    requires 0 < length && n < Power16(length)
    ensures |GroupText(n)| <= length && GroupValue(GroupText(n)) == n && Lower(GroupText(n)) == GroupText(n)
    decreases length
  {
    var t := GroupText(n);
    if n < 16 {
      assert t[..0] == [];
    } else {
      assert length > 1;
      GroupTextIs(n / 16, length - 1);
      assert t[..|t| - 1] == GroupText(n / 16);
    }
    assert forall i :: 0 <= i < |t| ==> LowerUnit(t[i]) == t[i];
  }

  lemma GroupIsSpelled(n: nat)
    requires n < 0x1_0000
    ensures IsGroup(Lower(GroupText(n))) && GroupValue(Lower(GroupText(n))) == n
  {
    assert Power16(1) == 16 && Power16(2) == 256 && Power16(3) == 4096 && Power16(4) == 65536;
    GroupTextIs(n, 4);
  }

  /** Every address has a spelling in each of the three forms. */
  lemma EveryAddressIsSpelled(address: nat) returns (parts: seq<Text>, high: Text, low: Text)
    requires address < 0x1_0000_0000
    ensures IsDotted(parts) && DottedAddress(parts) == address
    ensures IsHexPair(high, low) && HexAddress(high, low) == address
    ensures Lower(MAPPED) == MAPPED
  {
    high, low := GroupText(address / 0x1_0000), GroupText(address % 0x1_0000);
    GroupIsSpelled(address / 0x1_0000);
    GroupIsSpelled(address % 0x1_0000);
    parts := DottedIsSpelled(address);
  }

  lemma DottedIsSpelled(address: nat) returns (parts: seq<Text>)
    requires address < 0x1_0000_0000
    ensures IsDotted(parts) && DottedAddress(parts) == address
  {
    var high, low := address / 0x1_0000, address % 0x1_0000;
    HalfWord(high);
    HalfWord(low);
    parts := OctetsAreSpelled(high / 256 % 256, high % 256, low / 256 % 256, low % 256);
  }

  /** The bracketed form a URL keeps is judged like the literal in it. */
  lemma BracketsChangeNothing(t: Text)
    requires t != [] && AllPlain(t)
    ensures IsPublicAddress([OPENING] + t + [CLOSING]) <==> IsPublicAddress(t)
  {
    NormalizedPlain(t);
    NormalizedBracketed(t);
  }

  /** Nor does a zone behind it. */
  lemma ZonesChangeNothing(t: Text, zone: Text)
    requires t != [] && AllPlain(t)
    ensures IsPublicAddress(t + [PERCENT] + zone) <==> IsPublicAddress(t)
  {
    NormalizedPlain(t);
    TrimKeepsZone(t, zone);
    CutsZone(t + [PERCENT] + zone, t);
  }

  lemma TrimKeepsZone(t: Text, zone: Text)
    requires t != [] && AllPlain(t)
    ensures t + [PERCENT] <= Trim(t + [PERCENT] + zone)
  {
    var raw := t + [PERCENT] + zone;
    assert raw[0] == t[0];
    TrimIsPrefix(raw);
    TrimKeepsInside(raw, 0, |t|);
  }

  lemma CutsZone(raw: Text, t: Text)
    requires t != [] && AllPlain(t) && t + [PERCENT] <= Trim(raw)
    ensures Normalized(raw) == t
  {
    var trimmed := Trim(raw);
    assert trimmed[|t|] == PERCENT && trimmed[..|t|] == t;
    assert forall i :: 0 <= i < |t| ==> trimmed[i] == t[i];
    assert UntilUnit(trimmed, PERCENT) == |t|;
  }

  // ------------------------------------------------------------------ the other IPv6 literals

  /** Groups of hexadecimal digits in either case. */
  predicate AreGroups(groups: seq<Text>) {
    forall i :: 0 <= i < |groups| ==> IsGroup(Lower(groups[i]))
  }

  function Power(n: nat): (p: nat)
    ensures p > 0
  {
    if n == 0 then 1 else 0x1_0000 * Power(n - 1)
  }

  /** The number the groups spell, sixteen bits each, the first one highest. */
  function SixValue(groups: seq<Text>): nat
    requires AreGroups(groups)
  {
    if groups == [] then 0
    else GroupValue(Lower(groups[0])) * Power(|groups| - 1) + SixValue(groups[1..])
  }

  /** The groups of zero that two colons stand for. */
  function Zeros(n: nat): (zeros: seq<Text>)
    ensures |zeros| == n && AreGroups(zeros) && forall i :: 0 <= i < n ==> zeros[i] == [48]
  {
    assert Lower([48]) == [48];
    seq(n, i => [48])
  }

  /** A literal with groups in front of two colons and behind them, eight in all with those left out. */
  function SixText(front: seq<Text>, back: seq<Text>): Text {
    Join(front, [COLON]) + ([COLON, COLON] + Join(back, [COLON]))
  }

  function SixGroups(front: seq<Text>, back: seq<Text>): seq<Text>
    requires |front| + |back| <= 7
  {
    front + (Zeros(8 - |front| - |back|) + back)
  }

  /** 2000::/3, the one block that is public: the addresses whose first three bits are 001. */
  predicate GlobalUnicast(address: int) {
    0x2000 * Power(7) <= address < 0x4000 * Power(7)
  }

  lemma {:induction false} SixBelow(groups: seq<Text>)
    requires AreGroups(groups)
    ensures SixValue(groups) < Power(|groups|)
    decreases |groups|
  {
    if groups != [] {
      SixBelow(groups[1..]);
      GroupIsSmall(Lower(groups[0]));
      TopBelow(GroupValue(Lower(groups[0])), Power(|groups| - 1));
    }
  }

  lemma TopBelow(top: nat, power: nat)
    requires top < 0x1_0000
    ensures top * power + power <= 0x1_0000 * power
  {
    OneMore(top, power);
    Scales(top + 1, 0x1_0000, power);
  }

  /** The first of eight groups alone says whether the address is in the block. */
  lemma FirstGroupDecides(groups: seq<Text>)
    requires AreGroups(groups) && |groups| == 8
    ensures GlobalUnicast(SixValue(groups)) <==> 0x2000 <= GroupValue(Lower(groups[0])) < 0x4000
  {
    SixBelow(groups[1..]);
    Between(GroupValue(Lower(groups[0])), SixValue(groups[1..]), Power(7));
  }

  lemma Scales(a: nat, b: nat, power: nat)
    requires a <= b
    ensures a * power <= b * power
  {
  }

  lemma OneMore(a: nat, power: nat)
    ensures (a + 1) * power == a * power + power
  {
  }

  lemma Between(top: nat, rest: nat, power: nat)
    requires rest < power
    ensures 0x2000 * power <= top * power + rest < 0x4000 * power <==> 0x2000 <= top < 0x4000
  {
    OneMore(top, power);
    if top < 0x2000 {
      Scales(top + 1, 0x2000, power);
    } else {
      Scales(0x2000, top, power);
    }
    if top < 0x4000 {
      Scales(top + 1, 0x4000, power);
    } else {
      Scales(0x4000, top, power);
    }
  }

  /** Hexadecimal digits in either case, and colons. */
  predicate HexColons(t: Text) {
    forall i :: 0 <= i < |t| ==> IsHexDigit(LowerUnit(t[i])) || t[i] == COLON
  }

  lemma HexColonsLower(t: Text)
    requires HexColons(t)
    ensures AllPlain(t) && DOT !in t
    ensures forall i :: 0 <= i < |t| ==> (Lower(t)[i] == COLON <==> t[i] == COLON)
  {
  }

  lemma GroupIsHex(group: Text)
    requires IsGroup(Lower(group))
    ensures HexColons(group) && COLON !in Lower(group)
  {
    forall i | 0 <= i < |group|
      ensures IsHexDigit(LowerUnit(group[i]))
    {
      assert Lower(group)[i] == LowerUnit(group[i]);
    }
    GroupUnits(Lower(group));
  }

  lemma {:induction false} GroupsAreHex(groups: seq<Text>)
    requires AreGroups(groups)
    ensures HexColons(Join(groups, [COLON]))
  {
    if groups != [] {
      GroupIsHex(groups[0]);
      if |groups| > 1 {
        GroupsAreHex(groups[1..]);
      }
    }
  }

  /** With a group in front, that group decides. */
  lemma HeadDecides(head: Text, rest: Text)
    requires IsGroup(Lower(head)) && HexColons(rest)
    ensures IsPublicAddress(head + [COLON] + rest) <==> 0x2000 <= GroupValue(Lower(head)) <= 0x3fff
  {
    var t := head + [COLON] + rest;
    GroupIsHex(head);
    HexColonsLower(t);
    NormalizedPlain(t);
    NoDotIsNotDotted(t);
    FirstOfLower(head, rest);
    UnmappedIsJudgedByHead(t, Lower(head));
  }

  lemma UnmappedIsJudgedByHead(t: Text, head: Text)
    requires Normalized(t) == t && ParseIpv4(t).None? && COLON in Lower(t) && Lower(t)[0] != COLON
    requires Split(Lower(t), COLON)[0] == head
    ensures IsPublicAddress(t) <==> IsGroup(head) && 0x2000 <= GroupValue(head) <= 0x3fff
  {
  }

  lemma FirstOfLower(head: Text, rest: Text)
    requires IsGroup(Lower(head))
    ensures var lower := Lower(head + [COLON] + rest);
            && lower[0] != COLON && COLON in lower && Split(lower, COLON)[0] == Lower(head)
  {
    var lower := Lower(head + [COLON] + rest);
    GroupIsHex(head);
    LowerParts(head, rest);
    SplitFirst(Lower(head), COLON, Lower(rest));
    assert lower[0] == Lower(head)[0] && lower[|head|] == COLON;
  }

  lemma LowerParts(head: Text, rest: Text)
    ensures Lower(head + [COLON] + rest) == Lower(head) + [COLON] + Lower(rest)
  {
  }

  /** With nothing in front of the colons, only a mapped address can be public. */
  lemma NothingInFront(rest: Text)
    requires HexColons(rest)
    ensures var t := [COLON, COLON] + rest;
            IsPublicAddress(t) <==>
              && MAPPED <= Lower(t)
              && MappedIpv4(Lower(t)[7..]).Some? && PublicDotted(MappedIpv4(Lower(t)[7..]).value)
  {
    var t := [COLON, COLON] + rest;
    HexColonsLower(t);
    NormalizedPlain(t);
    NoDotIsNotDotted(t);
    assert Lower(t)[0] == COLON;
    assert Split(Lower(t), COLON)[0] == [];
  }

  /** The groups behind the colons are those of a mapped address. */
  predicate Maps(front: seq<Text>, back: seq<Text>) {
    front == [] && |back| == 3 && Lower(back[0]) == FFFF
  }

  const FFFF: Text := [102, 102, 102, 102]

  lemma PrefixIs(first: Text, tail: Text)
    requires COLON !in first && |first| <= 4 && (tail != [] ==> tail[0] == COLON)
    ensures MAPPED <= [COLON, COLON] + (first + tail) <==> first == FFFF && tail != []
  {
    var lower := [COLON, COLON] + (first + tail);
    assert forall i :: 0 <= i < |first| ==> lower[2 + i] == first[i];
    assert tail != [] ==> lower[2 + |first|] == COLON;
    if MAPPED <= lower {
      FourUnits(lower, first);
    }
    if first == FFFF && tail != [] {
      assert lower[..7] == MAPPED;
    }
  }

  lemma FourUnits(lower: Text, first: Text)
    requires MAPPED <= lower && |first| <= 4 && |first| + 2 <= |lower| && first == lower[2..2 + |first|]
    requires COLON !in first && (2 + |first| < |lower| ==> lower[2 + |first|] == COLON)
    ensures first == FFFF
  {
    assert lower[2] == 102 && lower[3] == 102 && lower[4] == 102 && lower[5] == 102;
    assert |first| == 4;
  }

  /** Behind two colons a mapped prefix is a first group of that name and more behind it. */
  lemma MappedPrefixIs(back: seq<Text>)
    requires AreGroups(back) && back != []
    ensures MAPPED <= Lower([COLON, COLON] + Join(back, [COLON])) <==> Lower(back[0]) == FFFF && |back| > 1
  {
    var tail := if |back| > 1 then [COLON] + Join(back[1..], [COLON]) else [];
    GroupIsHex(back[0]);
    assert Join(back, [COLON]) == back[0] + tail;
    LowerBehind(back[0], tail);
    PrefixIs(Lower(back[0]), Lower(tail));
  }

  lemma LowerBehind(first: Text, tail: Text)
    ensures Lower([COLON, COLON] + (first + tail)) == [COLON, COLON] + (Lower(first) + Lower(tail))
  {
  }

  lemma BehindMapped(back: seq<Text>)
    requires AreGroups(back) && |back| > 1 && |back[0]| == 4
    ensures var t := [COLON, COLON] + Join(back, [COLON]);
            Lower(t)[7..] == Lower(Join(back[1..], [COLON]))
  {
    JoinCons(back, [COLON]);
    var t := [COLON, COLON] + Join(back, [COLON]);
    assert t[7..] == Join(back[1..], [COLON]);
  }

  /** What is embedded has two groups or is not an address. */
  lemma EmbeddedGroups(groups: seq<Text>)
    requires AreGroups(groups) && groups != []
    ensures var embedded := MappedIpv4(Lower(Join(groups, [COLON])));
            embedded.Some? && PublicDotted(embedded.value)
            <==> |groups| == 2 && !Reserved(HexAddress(groups[0], groups[1]))
  {
    var t := Join(groups, [COLON]);
    GroupsAreHex(groups);
    HexColonsLower(t);
    assert DOT !in Lower(t);
    NoDotIsNotDotted(Lower(t));
    LowerSplits(groups);
    if |groups| == 2 {
      assert t == groups[0] + [COLON] + groups[1];
      HexPairIsPublic(groups[0], groups[1]);
    }
  }

  lemma {:induction false} LowerSplits(groups: seq<Text>)
    requires AreGroups(groups) && groups != []
    ensures |Split(Lower(Join(groups, [COLON])), COLON)| == |groups|
  {
    GroupIsHex(groups[0]);
    if |groups| == 1 {
      SplitWhole(Lower(groups[0]), COLON);
    } else {
      var rest := Join(groups[1..], [COLON]);
      LowerSplits(groups[1..]);
      LowerParts(groups[0], rest);
      SplitFirst(Lower(groups[0]), COLON, Lower(rest));
    }
  }

  lemma BackDecides(back: seq<Text>)
    requires AreGroups(back)
    ensures IsPublicAddress([COLON, COLON] + Join(back, [COLON])) <==>
              |back| == 3 && Lower(back[0]) == FFFF && !Reserved(HexAddress(back[1], back[2]))
  {
    GroupsAreHex(back);
    NothingInFront(Join(back, [COLON]));
    if back == [] {
      assert |Lower([COLON, COLON] + [])| == 2;
    } else {
      MappedPrefixIs(back);
      if Lower(back[0]) == FFFF && |back| > 1 {
        MappedBackDecides(back);
      }
    }
  }

  lemma MappedBackDecides(back: seq<Text>)
    requires AreGroups(back) && |back| > 1 && Lower(back[0]) == FFFF
    ensures var embedded := MappedIpv4(Lower([COLON, COLON] + Join(back, [COLON]))[7..]);
            embedded.Some? && PublicDotted(embedded.value)
            <==> |back| == 3 && !Reserved(HexAddress(back[1], back[2]))
  {
    assert |Lower(back[0])| == 4;
    BehindMapped(back);
    EmbeddedGroups(back[1..]);
  }

  /**
   An IPv6 literal that leaves groups out, in either case, is public exactly when its address is global
   unicast, or when it maps an IPv4 address that is not reserved; so `::`, `::1`, unique-local, link-local
   and multicast addresses are refused however they are spelled.
   */
  lemma SixIsJudgedByBlock(front: seq<Text>, back: seq<Text>)
    requires AreGroups(front) && AreGroups(back) && |front| + |back| <= 7
    ensures IsPublicAddress(SixText(front, back)) <==>
              || GlobalUnicast(SixValue(SixGroups(front, back)))
              || (Maps(front, back) && !Reserved(HexAddress(back[1], back[2])))
  {
    FirstGroupDecides(SixGroups(front, back));
    if front == [] {
      assert SixText([], back) == [COLON, COLON] + Join(back, [COLON]);
      assert SixGroups(front, back)[0] == [48] && Lower([48]) == [48] && [48][..0] == [];
      assert GroupValue([48]) == 0;
      BackDecides(back);
    } else {
      var rest := SixRest(front, back);
      HeadDecides(front[0], rest);
    }
  }

  lemma SixRest(front: seq<Text>, back: seq<Text>) returns (rest: Text)
    requires AreGroups(front) && AreGroups(back) && front != []
    ensures SixText(front, back) == front[0] + [COLON] + rest && HexColons(rest)
  {
    var behind := [COLON] + Join(back, [COLON]);
    GroupsAreHex(back);
    if |front| == 1 {
      rest := behind;
      assert SixText(front, back) == front[0] + ([COLON, COLON] + Join(back, [COLON]));
    } else {
      GroupsAreHex(front[1..]);
      JoinCons(front, [COLON]);
      rest := Join(front[1..], [COLON]) + ([COLON] + behind);
      SixRegroup(front[0], Join(front[1..], [COLON]), Join(back, [COLON]));
    }
  }

  lemma SixRegroup(first: Text, middle: Text, back: Text)
    ensures first + [COLON] + middle + ([COLON, COLON] + back)
         == first + [COLON] + (middle + ([COLON] + ([COLON] + back)))
  {
  }

  /** One that spells all eight groups is public exactly when its address is global unicast. */
  lemma EightGroupsAreJudgedByBlock(groups: seq<Text>)
    requires AreGroups(groups) && |groups| == 8
    ensures IsPublicAddress(Join(groups, [COLON])) <==> GlobalUnicast(SixValue(groups))
  {
    FirstGroupDecides(groups);
    JoinCons(groups, [COLON]);
    GroupsAreHex(groups[1..]);
    HeadDecides(groups[0], Join(groups[1..], [COLON]));
  }

  // ------------------------------------------------------------------ reading up to a cap

  newtype Byte = b: int | 0 <= b < 256

  function Concatenated(chunks: seq<seq<Byte>>): seq<Byte> {
    if chunks == [] then [] else Concatenated(chunks[..|chunks| - 1]) + chunks[|chunks| - 1]
  }

  function AtMost(bytes: seq<Byte>, cap: nat): seq<Byte> {
    if |bytes| < cap then bytes else bytes[..cap]
  }

  lemma ConcatenatedNext(chunks: seq<seq<Byte>>, i: nat)
    requires i < |chunks|
    ensures Concatenated(chunks[..i + 1]) == Concatenated(chunks[..i]) + chunks[i]
  {
    assert chunks[..i + 1][..i] == chunks[..i];
  }

  lemma {:induction false} ConcatenatedIsPrefix(chunks: seq<seq<Byte>>, i: nat)
    requires i <= |chunks|
    ensures Concatenated(chunks[..i]) <= Concatenated(chunks)
    decreases |chunks| - i
  {
    if i < |chunks| {
      ConcatenatedNext(chunks, i);
      ConcatenatedIsPrefix(chunks, i + 1);
    } else {
      assert chunks[..i] == chunks;
    }
  }

  lemma AtMostOfPrefix(part: seq<Byte>, all: seq<Byte>, cap: nat)
    requires part <= all && (cap <= |part| || part == all)
    ensures AtMost(part, cap) == AtMost(all, cap)
  {
  }

  /** `set` on a typed array. */
  method Place(buffer: array<Byte>, at: nat, slice: seq<Byte>)
    requires at + |slice| <= buffer.Length
    modifies buffer
    ensures buffer[..at + |slice|] == old(buffer[..at]) + slice
    ensures buffer[at + |slice|..] == old(buffer[at + |slice|..])
  {
    forall k | 0 <= k < |slice| {
      buffer[at + k] := slice[k];
    }
  }

  /** The second loop: the chunks laid end to end into a buffer, up to its length. */
  method Merge(chunks: seq<seq<Byte>>, length: nat) returns (merged: array<Byte>)
    requires length <= |Concatenated(chunks)|
    ensures merged[..] == Concatenated(chunks)[..length]
  {
    merged := new Byte[length];
    var offset := 0;
    var i := 0;
    while i < |chunks| && (i == 0 || offset < length)
      invariant i <= |chunks| && offset <= length
      invariant offset == |AtMost(Concatenated(chunks[..i]), length)|
      invariant merged[..offset] == AtMost(Concatenated(chunks[..i]), length)
      decreases |chunks| - i
    {
      var slice := AtMost(chunks[i], length - offset);
      Place(merged, offset, slice);
      ConcatenatedNext(chunks, i);
      AtMostAppends(Concatenated(chunks[..i]), chunks[i], length);
      offset := offset + |slice|;
      i := i + 1;
    }
    ConcatenatedIsPrefix(chunks, i);
    assert i == |chunks| ==> chunks[..i] == chunks;
    assert merged[..offset] == merged[..];
  }

  lemma AtMostAppends(a: seq<Byte>, b: seq<Byte>, cap: nat)
    ensures AtMost(a + b, cap) == AtMost(a, cap) + AtMost(b, cap - |AtMost(a, cap)|)
  {
  }

  /**
   However the body is cut into chunks, what is read is its first `cap` bytes or all of them, and no
   chunk is pulled once the cap is reached.
   */
  method ReadCapped(body: seq<seq<Byte>>, cap: nat) returns (bytes: seq<Byte>, pulled: nat, cancelled: bool)
    requires cap > 0
    ensures bytes == AtMost(Concatenated(body), cap)
    ensures pulled <= |body| && (pulled == |body| || cancelled)
    ensures cancelled <==> cap <= |Concatenated(body)|
    ensures 0 < pulled ==> |Concatenated(body[..pulled - 1])| < cap
  {
    var chunks: seq<seq<Byte>> := [];
    var received := 0;
    pulled, cancelled := 0, false;
    while pulled < |body| && !cancelled
      invariant pulled <= |body| && chunks == body[..pulled]
      invariant received == |Concatenated(chunks)|
      invariant cancelled <==> cap <= received
      invariant 0 < pulled ==> |Concatenated(body[..pulled - 1])| < cap
      decreases |body| - pulled
    {
      var value := body[pulled];
      ConcatenatedNext(body, pulled);
      received := received + |value|;
      chunks := chunks + [value];
      pulled := pulled + 1;
      if received >= cap {
        cancelled := true;
      }
    }
    ConcatenatedIsPrefix(body, pulled);
    assert pulled == |body| ==> body[..pulled] == body;
    var merged := Merge(chunks, if received < cap then received else cap);
    bytes := merged[..];
    AtMostOfPrefix(Concatenated(chunks), Concatenated(body), cap);
  }
}
