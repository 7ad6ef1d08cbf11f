/**
 JavaScript text: sequences of UTF-16 code units, surrogates included, with the string operations
 the modelled files use. A one-unit separator is enough for every `split` in them.
 */
module Utf16 {
  import opened Wrappers

  newtype Unit = u: int | 0 <= u < 0x1_0000

  type Text = seq<Unit>

  const NEWLINE: Unit := 10
  const SPACE: Unit := 32
  const QUOTE: Unit := 34
  const HASH: Unit := 35
  const COMMA: Unit := 44
  const MINUS: Unit := 45
  const DOT: Unit := 46
  const COLON: Unit := 58
  const BACKSLASH: Unit := 92

  predicate Ascii(s: string) {
    forall i :: 0 <= i < |s| ==> s[i] as int < 128
  }

  /** The text of an ASCII literal. */
  function Lit(s: string): (t: Text)
    requires Ascii(s)
    ensures |t| == |s| && forall i :: 0 <= i < |s| ==> t[i] as int == s[i] as int
  {
    seq(|s|, i requires 0 <= i < |s| => s[i] as int as Unit)
  }

  predicate IsHigh(u: Unit) {
    0xD800 <= u < 0xDC00
  }

  predicate IsLow(u: Unit) {
    0xDC00 <= u < 0xE000
  }

  /** Whether a text begins with a whole surrogate pair. */
  predicate PairAhead(t: Text) {
    2 <= |t| && IsHigh(t[0]) && IsLow(t[1])
  }

  // ------------------------------------------------------------------ white space

  /** The characters `trim` and `\s` accept: white space and line terminators. */
  predicate IsSpace(u: Unit) {
    || 9 <= u <= 13 || u == 32 || u == 0xA0 || u == 0x1680 || 0x2000 <= u <= 0x200A
    || u == 0x2028 || u == 0x2029 || u == 0x202F || u == 0x205F || u == 0x3000 || u == 0xFEFF
  }

  predicate Blank(t: Text) {
    forall i :: 0 <= i < |t| ==> IsSpace(t[i])
  }

  /** No white space at either end. */
  predicate Trimmed(t: Text) {
    t != [] ==> !IsSpace(t[0]) && !IsSpace(t[|t| - 1])
  }

  /** The first position at or after `i` that is not white space, or the length. */
  function SkipSpace(t: Text, i: nat): (n: nat)
    requires i <= |t|
    ensures i <= n <= |t| && forall k :: i <= k < n ==> IsSpace(t[k])
    ensures n < |t| ==> !IsSpace(t[n])
    decreases |t| - i
  {
    if i < |t| && IsSpace(t[i]) then SkipSpace(t, i + 1) else i
  }

  /** The end of the last character before `j` that is not white space, or zero. */
  function BackSpace(t: Text, j: nat): (n: nat)
    requires j <= |t|
    ensures n <= j && forall k :: n <= k < j ==> IsSpace(t[k])
    ensures 0 < n ==> !IsSpace(t[n - 1])
  {
    if 0 < j && IsSpace(t[j - 1]) then BackSpace(t, j - 1) else j
  }

  function Trim(t: Text): (r: Text)
    ensures Trimmed(r) && |r| <= |t|
  {
    var start := SkipSpace(t, 0);
    var end := BackSpace(t, |t|);
    if start < end then t[start..end] else []
  }

  /** Trimming is exactly the removal of white space around a trimmed core. */
  lemma TrimAround(before: Text, core: Text, after: Text)
    requires Blank(before) && Blank(after) && Trimmed(core)
    ensures Trim(before + core + after) == core
  {
    var t := before + core + after;
    assert forall k :: 0 <= k < |before| ==> t[k] == before[k];
    assert forall k :: |before| + |core| <= k < |t| ==> t[k] == after[k - |before| - |core|];
    if core != [] {
      assert t[|before|] == core[0];
      assert t[|before| + |core| - 1] == core[|core| - 1];
      assert t[|before|..|before| + |core|] == core;
    }
  }

  /** A text taken apart into white space, its trimmed core, and white space. */
  lemma TrimParts(t: Text) returns (before: Text, after: Text)
    ensures t == before + Trim(t) + after && Blank(before) && Blank(after)
  {
    var start := SkipSpace(t, 0);
    var end := BackSpace(t, |t|);
    if start < end {
      before, after := t[..start], t[end..];
      CutInThree(t, start, end);
    } else {
      before, after := t, [];
    }
  }

  lemma CutInThree(t: Text, i: nat, j: nat)
    requires i <= j <= |t|
    ensures t == t[..i] + t[i..j] + t[j..]
  {
  }

  lemma Regroup(before: Text, core: Text, after: Text)
    ensures before + (core + after) == before + core + after
  {
  }

  /** White space in front does not change what trimming leaves. */
  lemma TrimIgnoresLead(lead: Text, t: Text)
    requires Blank(lead)
    ensures Trim(lead + t) == Trim(t)
  {
    var before, after := TrimParts(t);
    var core := Trim(t);
    RegroupLead(lead, before, core, after);
    TrimAround(lead + before, core, after);
  }

  lemma RegroupLead(lead: Text, before: Text, core: Text, after: Text)
    ensures lead + (before + core + after) == lead + before + core + after
  {
  }

  /** Trimming keeps everything between two characters that are not white space. */
  lemma TrimKeepsInside(t: Text, i: nat, j: nat)
    requires i <= j < |t| && !IsSpace(t[i]) && !IsSpace(t[j])
    ensures |Trim(t)| > j - i
  {
    assert SkipSpace(t, 0) <= i && j < BackSpace(t, |t|);
  }

  lemma TrimIsPrefix(t: Text)
    requires t != [] && !IsSpace(t[0])
    ensures Trim(t) != [] && Trim(t) <= t
  {
    assert SkipSpace(t, 0) == 0;
  }

  lemma TrimOfTrimmed(t: Text)
    requires Trimmed(t)
    ensures Trim(t) == t
  {
    TrimAround([], t, []);
    assert [] + t + [] == t;
  }

  // ------------------------------------------------------------------ searching

  predicate OccursAt(t: Text, sub: Text, i: int) {
    0 <= i && i + |sub| <= |t| && forall k :: 0 <= k < |sub| ==> t[i + k] == sub[k]
  }

  /** The first occurrence at or after a position. */
  function Find(t: Text, sub: Text, from: nat): (r: Option<nat>)
    ensures r.None? ==> forall i :: from <= i ==> !OccursAt(t, sub, i)
    ensures r.Some? ==> from <= r.value && OccursAt(t, sub, r.value)
    ensures r.Some? ==> forall i :: from <= i < r.value ==> !OccursAt(t, sub, i)
    decreases |t| - from
  {
    if OccursAt(t, sub, from) then Some(from)
    else if |t| <= from then None
    else Find(t, sub, from + 1)
  }

  predicate Contains(t: Text, sub: Text) {
    Find(t, sub, 0).Some?
  }

  lemma FindIs(t: Text, sub: Text, from: nat, at: nat)
    requires from <= at && OccursAt(t, sub, at)
    requires forall i :: from <= i < at ==> !OccursAt(t, sub, i)
    ensures Find(t, sub, from) == Some(at)
  {
    var r := Find(t, sub, from);
    assert r.Some?;
  }

  /** Where a text does not occur, the search goes on. */
  lemma {:induction false} FindSkips(t: Text, sub: Text, from: nat, to: nat)
    requires from <= to <= |t| && forall i :: from <= i < to ==> !OccursAt(t, sub, i)
    ensures Find(t, sub, from) == Find(t, sub, to)
    decreases if from < to then to - from else 0
  {
    if from < to {
      FindSkips(t, sub, from + 1, to);
    }
  }

  /** What is found in a text is found first in whatever that text begins. */
  lemma FindInPrefix(t: Text, more: Text, sub: Text)
    requires Contains(t, sub)
    ensures Find(t + more, sub, 0) == Find(t, sub, 0)
  {
    var at := Find(t, sub, 0).value;
    OccursInPrefix(t, more, sub, at);
    forall i | 0 <= i < at
      ensures !OccursAt(t + more, sub, i)
    {
      OccursInPrefix(t, more, sub, i);
    }
    FindIs(t + more, sub, 0, at);
  }

  lemma OccursInPrefix(t: Text, more: Text, sub: Text, i: nat)
    requires i + |sub| <= |t|
    ensures OccursAt(t + more, sub, i) <==> OccursAt(t, sub, i)
  {
    assert forall k :: 0 <= k < |t| ==> (t + more)[k] == t[k];
  }

  /** An occurrence of a joined text is an occurrence of each part. */
  lemma OccursSplit(t: Text, a: Text, b: Text, i: nat)
    ensures OccursAt(t, a + b, i) <==> OccursAt(t, a, i) && OccursAt(t, b, i + |a|)
  {
    var whole := a + b;
    assert forall k :: 0 <= k < |a| ==> whole[k] == a[k];
    assert forall k :: 0 <= k < |b| ==> whole[|a| + k] == b[k];
    if OccursAt(t, whole, i) {
      forall k | 0 <= k < |b|
        ensures t[i + |a| + k] == b[k]
      {
        assert t[i + (|a| + k)] == whole[|a| + k];
      }
    }
    if OccursAt(t, a, i) && OccursAt(t, b, i + |a|) {
      forall k | 0 <= k < |whole|
        ensures t[i + k] == whole[k]
      {
        if |a| <= k {
          assert t[i + |a| + (k - |a|)] == b[k - |a|];
        }
      }
    }
  }

  /** One unit that differs rules an occurrence out. */
  lemma NoOccurrence(t: Text, sub: Text, i: nat, k: nat)
    requires k < |sub| && i + k < |t| && t[i + k] != sub[k]
    ensures !OccursAt(t, sub, i)
  {
  }

  /** No line break where a text without one occurs. */
  lemma OccursOnOneLine(t: Text, sub: Text, i: nat)
    requires OccursAt(t, sub, i) && NEWLINE !in sub
    ensures forall k :: i <= k < i + |sub| ==> t[k] != NEWLINE
  {
    forall k | i <= k < i + |sub|
      ensures t[k] != NEWLINE
    {
      assert t[i + (k - i)] == sub[k - i];
    }
  }

  /** An occurrence that lies inside a piece of the text is an occurrence in that piece. */
  lemma OccursInside(t: Text, piece: Text, h: nat, sub: Text, i: nat)
    requires OccursAt(t, piece, h) && OccursAt(t, sub, i) && h <= i && i + |sub| <= h + |piece|
    ensures OccursAt(piece, sub, i - h)
  {
    forall k | 0 <= k < |sub|
      ensures piece[i - h + k] == sub[k]
    {
      assert t[h + (i - h + k)] == piece[i - h + k] && t[i + k] == sub[k];
    }
  }

  /** The first position of a unit, or the length when there is none. */
  function UntilUnit(t: Text, u: Unit): (n: nat)
    ensures n <= |t| && u !in t[..n] && forall i :: 0 <= i < n ==> t[i] != u
    ensures n < |t| ==> t[n] == u
    ensures u in t <==> n < |t|
  {
    if t == [] || t[0] == u then 0
    else
      var n := 1 + UntilUnit(t[1..], u);
      assert t[..n] == [t[0]] + t[1..][..n - 1];
      assert forall i :: 0 < i < n ==> t[i] == t[1..][i - 1];
      n
  }

  lemma UntilUnitIs(before: Text, u: Unit, after: Text)
    requires u !in before
    ensures UntilUnit(before + [u] + after, u) == |before|
  {
    var t := before + [u] + after;
    assert t[|before|] == u;
    assert forall i :: 0 <= i < |before| ==> t[i] == before[i];
  }

  // ------------------------------------------------------------------ splitting and joining

  function Split(t: Text, separator: Unit): (parts: seq<Text>)
    ensures parts != [] && forall p :: p in parts ==> separator !in p
    decreases |t|
  {
    var n := UntilUnit(t, separator);
    if n == |t| then [t] else [t[..n]] + Split(t[n + 1..], separator)
  }

  function Join(parts: seq<Text>, separator: Text): Text {
    if parts == [] then []
    else if |parts| == 1 then parts[0]
    else parts[0] + separator + Join(parts[1..], separator)
  }

  lemma JoinCons(parts: seq<Text>, separator: Text)
    requires |parts| > 1
    ensures Join(parts, separator) == parts[0] + separator + Join(parts[1..], separator)
  {
  }

  lemma {:induction false} JoinAppend(front: seq<Text>, back: seq<Text>, separator: Text)
    requires front != [] && back != []
    ensures Join(front + back, separator) == Join(front, separator) + separator + Join(back, separator)
    decreases |front|
  {
    var all := front + back;
    JoinCons(all, separator);
    if |front| == 1 {
      assert all[1..] == back;
    } else {
      assert all[1..] == front[1..] + back;
      JoinAppend(front[1..], back, separator);
      JoinCons(front, separator);
      Reassociate(front[0] + separator, Join(front[1..], separator), separator, Join(back, separator));
    }
  }

  lemma Reassociate(a: Text, b: Text, c: Text, d: Text)
    ensures a + (b + c + d) == a + b + c + d
  {
  }

  lemma SplitFirst(head: Text, separator: Unit, rest: Text)
    requires separator !in head
    ensures Split(head + [separator] + rest, separator) == [head] + Split(rest, separator)
  {
    UntilUnitIs(head, separator, rest);
    var t := head + [separator] + rest;
    assert t[..|head|] == head && t[|head| + 1..] == rest;
  }

  lemma SplitWhole(t: Text, separator: Unit)
    requires separator !in t
    ensures Split(t, separator) == [t]
  {
  }

  /** Splitting undoes joining when no part holds the separator. */
  lemma {:induction false} SplitJoin(parts: seq<Text>, separator: Unit)
    requires parts != [] && forall i :: 0 <= i < |parts| ==> separator !in parts[i]
    ensures Split(Join(parts, [separator]), separator) == parts
  {
    if |parts| == 1 {
      SplitWhole(parts[0], separator);
    } else {
      var rest := Join(parts[1..], [separator]);
      SplitJoin(parts[1..], separator);
      SplitFirst(parts[0], separator, rest);
      assert Join(parts, [separator]) == parts[0] + [separator] + rest;
      assert parts == [parts[0]] + parts[1..];
    }
  }

  /** Joining undoes splitting. */
  lemma {:induction false} JoinSplit(t: Text, separator: Unit)
    ensures Join(Split(t, separator), [separator]) == t
    decreases |t|
  {
    var n := UntilUnit(t, separator);
    if n < |t| {
      JoinSplit(t[n + 1..], separator);
      JoinOnto(t[..n], Split(t[n + 1..], separator), separator);
      CutAt(t, n);
    }
  }

  lemma JoinOnto(head: Text, rest: seq<Text>, separator: Unit)
    requires rest != []
    ensures Join([head] + rest, [separator]) == head + [separator] + Join(rest, [separator])
  {
    assert ([head] + rest)[1..] == rest;
    JoinCons([head] + rest, [separator]);
  }

  lemma CutAt(t: Text, n: nat)
    requires n < |t|
    ensures t == t[..n] + [t[n]] + t[n + 1..]
  {
  }

  /** Splitting a text at one of its separators is splitting both sides. */
  lemma SplitAppend(a: Text, separator: Unit, b: Text)
    ensures Split(a + [separator] + b, separator) == Split(a, separator) + Split(b, separator)
  {
    var front, back := Split(a, separator), Split(b, separator);
    JoinSplit(a, separator);
    JoinSplit(b, separator);
    JoinAppend(front, back, [separator]);
    forall i | 0 <= i < |front + back|
      ensures separator !in (front + back)[i]
    {
      assert (front + back)[i] in front || (front + back)[i] in back;
    }
    SplitJoin(front + back, separator);
  }

  // ------------------------------------------------------------------ decimal numbers

  predicate IsDigit(u: Unit) {
    48 <= u <= 57
  }

  predicate Digits(t: Text) {
    forall i :: 0 <= i < |t| ==> IsDigit(t[i])
  }

  /** `String(n)`. */
  function Decimal(n: nat): (t: Text)
    ensures t != [] && Digits(t)
  {
    if n < 10 then [(48 + n) as Unit] else Decimal(n / 10) + [(48 + n % 10) as Unit]
  }

  function DigitsValue(t: Text): nat
    requires Digits(t)
  {
    if t == [] then 0
    else 10 * DigitsValue(t[..|t| - 1]) + (t[|t| - 1] as int - 48)
  }

  lemma {:induction false} DecimalValue(n: nat)
    ensures DigitsValue(Decimal(n)) == n
  {
    if 10 <= n {
      DecimalValue(n / 10);
      var t := Decimal(n);
      assert t[..|t| - 1] == Decimal(n / 10);
    } else {
      assert Decimal(n)[..0] == [];
    }
  }

  function Integer(n: int): Text {
    if n < 0 then [MINUS] + Decimal(-n) else Decimal(n)
  }

  /** `Number(t)` for the spellings with an optional minus and digits only. */
  function IntegerValue(t: Text): Option<int> {
    if t != [] && Digits(t) then Some(DigitsValue(t))
    else if |t| > 1 && t[0] == MINUS && Digits(t[1..]) then Some(-(DigitsValue(t[1..]) as int))
    else None
  }

  lemma IntegerRoundTrip(n: int)
    ensures IntegerValue(Integer(n)) == Some(n)
  {
    if n < 0 {
      DecimalValue(-n);
      var t := Integer(n);
      assert t[1..] == Decimal(-n);
      assert !IsDigit(t[0]);
    } else {
      DecimalValue(n);
    }
  }
}
