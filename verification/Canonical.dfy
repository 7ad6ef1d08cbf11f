/**
 The comparison behind the `behaviour` scorer (evals/agent/suite.ts): observations are put in a
 canonical form and serialised, and the texts are compared. Keys are ordered by a total order that
 stands for the locale's comparison together with the engine's own ordering of integer-like keys.
 */
module Canonical {
  import opened Wrappers
  import opened Utf16
  import opened Json

  type Fields = seq<(Text, Value)>

  type KeyOrder = (Text, Text) -> bool

  ghost predicate Total(le: KeyOrder) {
    && (forall a, b :: le(a, b) || le(b, a))
    && (forall a, b :: le(a, b) && le(b, a) ==> a == b)
    && (forall a, b, c :: le(a, b) && le(b, c) ==> le(a, c))
  }

  function Insert(entry: (Text, Value), fields: Fields, le: KeyOrder): Fields {
    if fields == [] || le(entry.0, fields[0].0) then [entry] + fields
    else [fields[0]] + Insert(entry, fields[1..], le)
  }

  /** Arrays keep their order; objects lose undefined fields and have the others sorted by key. */
  function Canonical(v: Value, le: KeyOrder): Value {
    match v
    case Arr(items) => Arr(CanonicalItems(items, le))
    case Obj(fields) => Obj(CanonicalFields(fields, le))
    case _ => v
  }

  function CanonicalItems(items: seq<Value>, le: KeyOrder): (r: seq<Value>)
    ensures |r| == |items| && forall i :: 0 <= i < |r| ==> r[i] == Canonical(items[i], le)
  {
    if items == [] then [] else [Canonical(items[0], le)] + CanonicalItems(items[1..], le)
  }

  /** Filtering, sorting and mapping in one pass: the sort looks at keys alone. */
  function CanonicalFields(fields: Fields, le: KeyOrder): Fields {
    if fields == [] then []
    else
      var rest := CanonicalFields(fields[1..], le);
      if fields[0].1.Undefined? then rest
      else
        assert fields[0].1 < fields[0];
        Insert((fields[0].0, Canonical(fields[0].1, le)), rest, le)
  }

  // ------------------------------------------------------------------ the meaning of the form

  /** The value of a key; absent and undefined are the same. */
  function Lookup(fields: Fields, key: Text): Value {
    if fields == [] then Undefined
    else if fields[0].0 == key then fields[0].1
    else Lookup(fields[1..], key)
  }

  predicate HasKey(fields: Fields, key: Text) {
    exists i :: 0 <= i < |fields| && fields[i].0 == key
  }

  /** What a JavaScript object guarantees, and the spelling of numbers, at every depth. */
  predicate WellFormed(v: Value) {
    match v
    case Number(literal) => Numeral(literal)
    case Arr(items) => forall i :: 0 <= i < |items| ==> WellFormed(items[i])
    case Obj(fields) =>
      && (forall i, j :: 0 <= i < j < |fields| ==> fields[i].0 != fields[j].0)
      && (forall i :: 0 <= i < |fields| ==> WellFormed(fields[i].1))
    case _ => true
  }

  predicate NumeralUnit(u: Unit) {
    IsDigit(u) || u == MINUS || u == DOT || u == 43 || u == 69 || u == 101
  }

  predicate Numeral(t: Text) {
    t != [] && (IsDigit(t[0]) || t[0] == MINUS) && forall i :: 0 <= i < |t| ==> NumeralUnit(t[i])
  }

  /** Equal up to the order of keys and fields that are undefined, at every depth. */
  predicate Same(a: Value, b: Value)
    decreases a
  {
    match a
    case Arr(items) =>
      && b.Arr? && |items| == |b.items|
      && forall i :: 0 <= i < |items| ==> Same(items[i], b.items[i])
    case Obj(fields) =>
      && b.Obj?
      && (forall i :: 0 <= i < |fields| ==> Same(fields[i].1, Lookup(b.fields, fields[i].0)))
      && (forall j :: 0 <= j < |b.fields| && !b.fields[j].1.Undefined? ==> HasKey(fields, b.fields[j].0))
    case _ => a == b
  }

  predicate AllDefined(fields: Fields) {
    forall i :: 0 <= i < |fields| ==> !fields[i].1.Undefined?
  }

  predicate Unique(fields: Fields) {
    forall i, j :: 0 <= i < j < |fields| ==> fields[i].0 != fields[j].0
  }

  predicate Sorted(fields: Fields, le: KeyOrder) {
    forall i, j :: 0 <= i < j < |fields| ==> le(fields[i].0, fields[j].0) && fields[i].0 != fields[j].0
  }

  lemma {:induction false} LookupAt(fields: Fields, i: nat)
    requires i < |fields| && Unique(fields)
    ensures Lookup(fields, fields[i].0) == fields[i].1
  {
    if 0 < i {
      LookupAt(fields[1..], i - 1);
    }
  }

  lemma {:induction false} LookupFinds(fields: Fields, key: Text)
    ensures !Lookup(fields, key).Undefined? ==> HasKey(fields, key)
    ensures AllDefined(fields) && HasKey(fields, key) ==> !Lookup(fields, key).Undefined?
    ensures !HasKey(fields, key) ==> Lookup(fields, key).Undefined?
  {
    if fields != [] {
      LookupFinds(fields[1..], key);
      if i :| 0 <= i < |fields[1..]| && fields[1..][i].0 == key {
        assert fields[i + 1].0 == key;
      }
      if i :| 0 < i < |fields| && fields[i].0 == key {
        assert fields[1..][i - 1].0 == key;
      }
    }
  }

  lemma {:induction false} InsertKeeps(entry: (Text, Value), fields: Fields, le: KeyOrder)
    requires Total(le) && Sorted(fields, le) && AllDefined(fields)
    requires Lookup(fields, entry.0).Undefined? && !entry.1.Undefined?
    ensures var r := Insert(entry, fields, le);
            && Sorted(r, le) && AllDefined(r)
            && forall i :: 0 <= i < |r| ==> r[i] == entry || r[i] in fields
  {
    var r := Insert(entry, fields, le);
    LookupFinds(fields, entry.0);
    assert forall i :: 0 <= i < |fields| ==> fields[i].0 != entry.0;
    if fields != [] {
      if le(entry.0, fields[0].0) {
        assert forall i :: 0 <= i < |fields| ==> le(entry.0, fields[i].0);
      } else {
        InsertKeeps(entry, fields[1..], le);
        var rest := Insert(entry, fields[1..], le);
        forall i | 0 <= i < |rest|
          ensures le(fields[0].0, rest[i].0) && fields[0].0 != rest[i].0 && (rest[i] == entry || rest[i] in fields)
        {
          if rest[i] != entry {
            var j :| 0 <= j < |fields[1..]| && fields[1..][j] == rest[i];
            assert fields[j + 1] == rest[i];
          }
        }
      }
    }
  }

  lemma {:induction false} InsertLookup(entry: (Text, Value), fields: Fields, le: KeyOrder, key: Text)
    requires Lookup(fields, entry.0).Undefined? && AllDefined(fields)
    ensures Lookup(Insert(entry, fields, le), key) == if key == entry.0 then entry.1 else Lookup(fields, key)
  {
    if fields != [] && !le(entry.0, fields[0].0) {
      InsertLookup(entry, fields[1..], le, key);
    }
  }

  /** The canonical fields: sorted, defined, and with the canonical value of every key. */
  lemma {:induction false} FieldsLookup(fields: Fields, le: KeyOrder)
    requires Total(le) && Unique(fields)
    ensures Sorted(CanonicalFields(fields, le), le) && AllDefined(CanonicalFields(fields, le))
    ensures forall key :: Lookup(CanonicalFields(fields, le), key) == Canonical(Lookup(fields, key), le)
  {
    if fields != [] {
      var rest := CanonicalFields(fields[1..], le);
      FieldsLookup(fields[1..], le);
      LookupFinds(fields[1..], fields[0].0);
      assert !HasKey(fields[1..], fields[0].0);
      if !fields[0].1.Undefined? {
        var entry := (fields[0].0, Canonical(fields[0].1, le));
        InsertKeeps(entry, rest, le);
        forall key
          ensures Lookup(CanonicalFields(fields, le), key) == Canonical(Lookup(fields, key), le)
        {
          InsertLookup(entry, rest, le, key);
        }
      }
    }
  }

  /** Sorted fields are determined by the values of their keys. */
  lemma {:induction false} SortedIsUnique(f: Fields, g: Fields, le: KeyOrder)
    requires Total(le) && Sorted(f, le) && Sorted(g, le) && AllDefined(f) && AllDefined(g)
    requires forall key :: Lookup(f, key) == Lookup(g, key)
    ensures f == g
  {
    if g != [] {
      LookupAt(g, 0);
    }
    if f != [] {
      var key := f[0].0;
      LookupFinds(g, key);
      var i :| 0 <= i < |g| && g[i].0 == key;
      LookupFinds(f, g[0].0);
      var j :| 0 <= j < |f| && f[j].0 == g[0].0;
      assert le(g[0].0, key) && le(key, g[0].0);
      LookupFinds(f[1..], key);
      LookupFinds(g[1..], key);
      assert f[0] == g[0];
      forall k
        ensures Lookup(f[1..], k) == Lookup(g[1..], k)
      {
        assert Lookup(f, k) == Lookup(g, k);
      }
      SortedIsUnique(f[1..], g[1..], le);
      assert f == [f[0]] + f[1..] && g == [g[0]] + g[1..];
    }
  }

  /**
   Two trees have the same canonical form exactly when they differ only in the order of keys and in
   fields that are undefined.
   */
  lemma {:induction false} CanonicalEqualIffSame(a: Value, b: Value, le: KeyOrder)
    requires Total(le) && WellFormed(a) && WellFormed(b)
    ensures Canonical(a, le) == Canonical(b, le) <==> Same(a, b)
    decreases a
  {
    if a.Arr? && b.Arr? {
      if |a.items| == |b.items| {
        forall i | 0 <= i < |a.items|
          ensures Canonical(a.items[i], le) == Canonical(b.items[i], le) <==> Same(a.items[i], b.items[i])
        {
          CanonicalEqualIffSame(a.items[i], b.items[i], le);
        }
        ItemsEqual(a.items, b.items, le);
      }
    } else if a.Obj? && b.Obj? {
      FieldsLookup(a.fields, le);
      FieldsLookup(b.fields, le);
      forall i | 0 <= i < |a.fields|
        ensures Canonical(a.fields[i].1, le) == Canonical(Lookup(b.fields, a.fields[i].0), le)
           <==> Same(a.fields[i].1, Lookup(b.fields, a.fields[i].0))
      {
        LookupWellFormed(b.fields, a.fields[i].0);
        CanonicalEqualIffSame(a.fields[i].1, Lookup(b.fields, a.fields[i].0), le);
      }
      if Same(a, b) {
        SameGivesLookups(a, b, le);
        SortedIsUnique(CanonicalFields(a.fields, le), CanonicalFields(b.fields, le), le);
      }
      if Canonical(a, le) == Canonical(b, le) {
        LookupsGiveSame(a, b, le);
      }
    }
  }

  lemma ItemsEqual(a: seq<Value>, b: seq<Value>, le: KeyOrder)
    requires |a| == |b|
    ensures CanonicalItems(a, le) == CanonicalItems(b, le)
       <==> forall i :: 0 <= i < |a| ==> Canonical(a[i], le) == Canonical(b[i], le)
  {
    var x, y := CanonicalItems(a, le), CanonicalItems(b, le);
    if x == y {
      forall i | 0 <= i < |a|
        ensures Canonical(a[i], le) == Canonical(b[i], le)
      {
        assert x[i] == y[i];
      }
    }
  }

  lemma {:induction false} LookupWellFormed(fields: Fields, key: Text)
    requires forall i :: 0 <= i < |fields| ==> WellFormed(fields[i].1)
    ensures WellFormed(Lookup(fields, key))
  {
    if fields != [] {
      LookupWellFormed(fields[1..], key);
    }
  }

  lemma SameGivesLookups(a: Value, b: Value, le: KeyOrder)
    requires a.Obj? && b.Obj? && Unique(a.fields) && Unique(b.fields) && Same(a, b) && Total(le)
    requires forall i :: 0 <= i < |a.fields| && Same(a.fields[i].1, Lookup(b.fields, a.fields[i].0))
               ==> Canonical(a.fields[i].1, le) == Canonical(Lookup(b.fields, a.fields[i].0), le)
    ensures forall key :: Lookup(CanonicalFields(a.fields, le), key) == Lookup(CanonicalFields(b.fields, le), key)
  {
    FieldsLookup(a.fields, le);
    FieldsLookup(b.fields, le);
    forall key
      ensures Canonical(Lookup(a.fields, key), le) == Canonical(Lookup(b.fields, key), le)
    {
      LookupFinds(a.fields, key);
      LookupFinds(b.fields, key);
      if i :| 0 <= i < |a.fields| && a.fields[i].0 == key {
        LookupAt(a.fields, i);
        assert Same(a.fields[i].1, Lookup(b.fields, a.fields[i].0));
      } else if j :| 0 <= j < |b.fields| && b.fields[j].0 == key {
        LookupAt(b.fields, j);
      }
    }
  }

  lemma LookupsGiveSame(a: Value, b: Value, le: KeyOrder)
    requires a.Obj? && b.Obj? && Unique(a.fields) && Unique(b.fields) && Total(le)
    requires Canonical(a, le) == Canonical(b, le)
    requires forall i :: 0 <= i < |a.fields|
               && Canonical(a.fields[i].1, le) == Canonical(Lookup(b.fields, a.fields[i].0), le)
               ==> Same(a.fields[i].1, Lookup(b.fields, a.fields[i].0))
    ensures Same(a, b)
  {
    FieldsLookup(a.fields, le);
    FieldsLookup(b.fields, le);
    assert CanonicalFields(a.fields, le) == CanonicalFields(b.fields, le);
    forall i | 0 <= i < |a.fields|
      ensures Same(a.fields[i].1, Lookup(b.fields, a.fields[i].0))
    {
      LookupAt(a.fields, i);
      var key := a.fields[i].0;
      assert Lookup(CanonicalFields(a.fields, le), key) == Lookup(CanonicalFields(b.fields, le), key);
    }
    forall j | 0 <= j < |b.fields| && !b.fields[j].1.Undefined?
      ensures HasKey(a.fields, b.fields[j].0)
    {
      LookupAt(b.fields, j);
      LookupFinds(a.fields, b.fields[j].0);
      var key := b.fields[j].0;
      assert Lookup(CanonicalFields(a.fields, le), key) == Lookup(CanonicalFields(b.fields, le), key);
    }
  }

  /** The canonical form of a tree is the same tree, well formed. */
  lemma {:induction false} CanonicalIsSame(v: Value, le: KeyOrder)
    requires Total(le) && WellFormed(v)
    ensures Same(v, Canonical(v, le)) && WellFormed(Canonical(v, le))
    decreases v
  {
    match v
    case Arr(items) =>
      forall i | 0 <= i < |items|
        ensures Same(items[i], Canonical(items[i], le)) && WellFormed(Canonical(items[i], le))
      {
        CanonicalIsSame(items[i], le);
      }
    case Obj(fields) =>
      FieldsLookup(fields, le);
      var sorted := CanonicalFields(fields, le);
      forall i | 0 <= i < |fields|
        ensures Same(fields[i].1, Lookup(sorted, fields[i].0)) && WellFormed(Canonical(fields[i].1, le))
      {
        LookupAt(fields, i);
        CanonicalIsSame(fields[i].1, le);
      }
      forall j | 0 <= j < |sorted|
        ensures HasKey(fields, sorted[j].0) && WellFormed(sorted[j].1)
      {
        LookupAt(sorted, j);
        LookupFinds(fields, sorted[j].0);
        var i :| 0 <= i < |fields| && fields[i].0 == sorted[j].0;
        LookupAt(fields, i);
      }
    case _ =>
  }

  /** Putting a canonical form in canonical form changes nothing. */
  lemma CanonicalIsIdempotent(v: Value, le: KeyOrder)
    requires Total(le) && WellFormed(v)
    ensures Canonical(Canonical(v, le), le) == Canonical(v, le)
  {
    CanonicalIsSame(v, le);
    CanonicalEqualIffSame(v, Canonical(v, le), le);
  }

  // ------------------------------------------------------------------ the text that is compared

  /** `stable`; serialising undefined gives no text. */
  function Stable(v: Value, le: KeyOrder): Option<Text> {
    if v.Undefined? then None else Some(Stringify(Canonical(v, le)))
  }

  /** A value as its text shows it: undefined items of arrays and numbers that are not finite are null. */
  function Filled(v: Value): Value {
    match v
    case Undefined => Null
    case Unwritable(_) => Null
    case Arr(items) => Arr(FilledItems(items))
    case Obj(fields) => Obj(FilledFields(fields))
    case _ => v
  }

  function FilledItems(items: seq<Value>): (r: seq<Value>)
    ensures |r| == |items| && forall i :: 0 <= i < |r| ==> r[i] == Filled(items[i])
  {
    if items == [] then [] else [Filled(items[0])] + FilledItems(items[1..])
  }

  function FilledField(field: (Text, Value)): (Text, Value) {
    assert field.1 < field;
    (field.0, if field.1.Undefined? then Undefined else Filled(field.1))
  }

  function FilledFields(fields: Fields): (r: Fields)
    ensures |r| == |fields| && forall i :: 0 <= i < |r| ==> r[i] == FilledField(fields[i])
  {
    if fields == [] then [] else [FilledField(fields[0])] + FilledFields(fields[1..])
  }

  lemma {:induction false} FilledIsWellFormed(v: Value)
    requires WellFormed(v)
    ensures WellFormed(Filled(v))
    decreases v
  {
    match v
    case Arr(items) =>
      forall i | 0 <= i < |items|
        ensures WellFormed(Filled(items[i]))
      {
        FilledIsWellFormed(items[i]);
      }
    case Obj(fields) =>
      forall i | 0 <= i < |fields|
        ensures WellFormed(FilledField(fields[i]).1)
      {
        FilledIsWellFormed(fields[i].1);
      }
    case _ =>
  }

  lemma {:induction false} FilledInsert(entry: (Text, Value), fields: Fields, le: KeyOrder)
    ensures FilledFields(Insert(entry, fields, le)) == Insert(FilledField(entry), FilledFields(fields), le)
  {
    var filled := FilledFields(fields);
    if fields != [] && !le(entry.0, fields[0].0) {
      FilledInsert(entry, fields[1..], le);
      assert filled[1..] == FilledFields(fields[1..]);
    } else {
      assert FilledFields([entry] + fields) == [FilledField(entry)] + filled;
    }
  }

  /** Filling and sorting do not interfere. */
  lemma {:induction false} FilledCommutes(v: Value, le: KeyOrder)
    ensures Canonical(Filled(v), le) == Filled(Canonical(v, le))
    decreases v, 1
  {
    match v
    case Arr(items) =>
      forall i | 0 <= i < |items|
        ensures Canonical(Filled(items[i]), le) == Filled(Canonical(items[i], le))
      {
        FilledCommutes(items[i], le);
      }
      assert CanonicalItems(FilledItems(items), le) == FilledItems(CanonicalItems(items, le));
    case Obj(fields) =>
      FilledFieldsCommute(fields, le);
    case _ =>
  }

  lemma {:induction false} FilledFieldsCommute(fields: Fields, le: KeyOrder)
    ensures CanonicalFields(FilledFields(fields), le) == FilledFields(CanonicalFields(fields, le))
    decreases fields, 0
  {
    if fields != [] {
      var rest := CanonicalFields(fields[1..], le);
      var filled := FilledFields(fields);
      assert filled[1..] == FilledFields(fields[1..]);
      FilledFieldsCommute(fields[1..], le);
      if !fields[0].1.Undefined? {
        assert fields[0].1 < fields[0];
        FilledCommutes(fields[0].1, le);
        FilledInsert((fields[0].0, Canonical(fields[0].1, le)), rest, le);
      }
    }
  }

  lemma {:induction false} StringifyFilled(v: Value)
    ensures Stringify(Filled(v)) == Stringify(v)
    decreases v, 1
  {
    match v
    case Arr(items) => ItemsFilled(items);
    case Obj(fields) => MembersFilled(fields);
    case _ =>
  }

  lemma {:induction false} ItemsFilled(items: seq<Value>)
    ensures Items(FilledItems(items)) == Items(items)
    decreases items, 0
  {
    if items != [] {
      StringifyFilled(items[0]);
      ItemsFilled(items[1..]);
      assert FilledItems(items)[1..] == FilledItems(items[1..]);
    }
  }

  lemma {:induction false} MembersFilled(fields: Fields)
    ensures Members(FilledFields(fields)) == Members(fields)
    decreases fields, 0
  {
    if fields != [] {
      assert fields[0].1 < fields[0];
      StringifyFilled(fields[0].1);
      MembersFilled(fields[1..]);
      assert FilledFields(fields)[1..] == FilledFields(fields[1..]);
    }
  }

  // ------------------------------------------------------------------ the text determines the value

  /** A value with nothing to leave out. */
  predicate Plain(v: Value) {
    match v
    case Number(literal) => Numeral(literal)
    case Arr(items) => forall i :: 0 <= i < |items| ==> Plain(items[i])
    case Obj(fields) => AllDefined(fields) && forall i :: 0 <= i < |fields| ==> Plain(fields[i].1)
    case _ => true
  }

  lemma {:induction false} CanonicalIsPlain(v: Value, le: KeyOrder)
    requires Total(le) && WellFormed(v)
    ensures Plain(Canonical(v, le))
    decreases v
  {
    match v
    case Arr(items) =>
      forall i | 0 <= i < |items|
        ensures Plain(Canonical(items[i], le))
      {
        CanonicalIsPlain(items[i], le);
      }
    case Obj(fields) =>
      FieldsLookup(fields, le);
      var sorted := CanonicalFields(fields, le);
      forall j | 0 <= j < |sorted|
        ensures Plain(sorted[j].1)
      {
        LookupAt(sorted, j);
        LookupFinds(fields, sorted[j].0);
        var i :| 0 <= i < |fields| && fields[i].0 == sorted[j].0;
        LookupAt(fields, i);
        CanonicalIsPlain(fields[i].1, le);
      }
    case _ =>
  }

  /** What may follow a value. */
  predicate Ends(r: Text) {
    r == [] || r[0] == COMMA || r[0] == CLOSE_BRACKET || r[0] == CLOSE_BRACE
  }

  datatype Kind = Nothing | Yes | No | Numeric | Textual | List | Record | Other

  function KindOf(v: Value): Kind {
    match v
    case Undefined => Nothing
    case Null => Nothing
    case Bool(b) => if b then Yes else No
    case Number(_) => Numeric
    case Unwritable(_) => Nothing
    case Str(_) => Textual
    case Arr(_) => List
    case Obj(_) => Record
  }

  /** The kind of value a first character announces. */
  function Announced(u: Unit): Kind {
    if u == 110 then Nothing
    else if u == 116 then Yes
    else if u == 102 then No
    else if IsDigit(u) || u == MINUS then Numeric
    else if u == QUOTE then Textual
    else if u == OPEN_BRACKET then List
    else if u == OPEN_BRACE then Record
    else Other
  }

  lemma StartOf(v: Value, r: Text)
    requires Plain(v)
    ensures Stringify(v) != [] && Announced((Stringify(v) + r)[0]) == KindOf(v) != Other
  {
    var t := Stringify(v);
    assert t != [] && (t + r)[0] == t[0];
  }

  lemma Strip(front: Text, r: Text, s: Text)
    requires front + r == front + s
    ensures r == s
  {
    assert (front + r)[|front|..] == r && (front + s)[|front|..] == s;
  }

  /** How many of the first characters can belong to a number. */
  function NumeralLength(t: Text): nat {
    if t == [] || !NumeralUnit(t[0]) then 0 else 1 + NumeralLength(t[1..])
  }

  lemma {:induction false} NumeralEnds(t: Text, r: Text)
    requires Ends(r) && forall i :: 0 <= i < |t| ==> NumeralUnit(t[i])
    ensures NumeralLength(t + r) == |t|
    decreases |t|
  {
    if t == [] {
      assert t + r == r;
    } else {
      assert (t + r)[1..] == t[1..] + r;
      NumeralEnds(t[1..], r);
    }
  }

  lemma NumeralUnambiguous(m: Text, n: Text, r: Text, s: Text)
    requires Numeral(m) && Numeral(n) && Ends(r) && Ends(s) && m + r == n + s
    ensures m == n && r == s
  {
    NumeralEnds(m, r);
    NumeralEnds(n, s);
    assert (m + r)[..|m|] == m && (n + s)[..|n|] == n;
    Strip(m, r, s);
  }

  lemma QuoteUnambiguous(t: Text, u: Text, r: Text, s: Text)
    requires Quote(t) + r == Quote(u) + s
    ensures t == u && r == s
  {
    ParseEscaped(t, r);
    ParseEscaped(u, s);
    RegroupQuote(Escape(t), r);
    RegroupQuote(Escape(u), s);
    Strip([QUOTE], Escape(t) + ([QUOTE] + r), Escape(u) + ([QUOTE] + s));
  }

  lemma RegroupQuote(body: Text, r: Text)
    ensures [QUOTE] + body + [QUOTE] + r == [QUOTE] + (body + ([QUOTE] + r))
  {
  }

  lemma RegroupBrackets(opening: Unit, body: Text, closing: Unit, r: Text)
    ensures [opening] + body + [closing] + r == [opening] + (body + ([closing] + r))
  {
  }

  /** Of two texts that are the same up to what follows each, the values and what follows are the same. */
  lemma {:induction false} Unambiguous(v: Value, w: Value, r: Text, s: Text)
    requires Plain(v) && Plain(w) && Ends(r) && Ends(s) && Stringify(v) + r == Stringify(w) + s
    ensures Filled(v) == Filled(w) && r == s
    decreases v, 1
  {
    StartOf(v, r);
    StartOf(w, s);
    if v.Number? {
      NumeralUnambiguous(v.literal, w.literal, r, s);
    } else if v.Str? {
      QuoteUnambiguous(v.text, w.text, r, s);
    } else if v.Arr? {
      RegroupBrackets(OPEN_BRACKET, Items(v.items), CLOSE_BRACKET, r);
      RegroupBrackets(OPEN_BRACKET, Items(w.items), CLOSE_BRACKET, s);
      Strip([OPEN_BRACKET], Items(v.items) + ([CLOSE_BRACKET] + r), Items(w.items) + ([CLOSE_BRACKET] + s));
      ItemsUnambiguous(v.items, w.items, r, s);
    } else if v.Obj? {
      RegroupBrackets(OPEN_BRACE, Members(v.fields), CLOSE_BRACE, r);
      RegroupBrackets(OPEN_BRACE, Members(w.fields), CLOSE_BRACE, s);
      Strip([OPEN_BRACE], Members(v.fields) + ([CLOSE_BRACE] + r), Members(w.fields) + ([CLOSE_BRACE] + s));
      MembersUnambiguous(v.fields, w.fields, r, s);
    } else {
      Strip(Stringify(v), r, s);
    }
  }

  /** What follows the first item, up to the end of the text. */
  function AfterItem(items: seq<Value>, r: Text): (t: Text)
    requires items != []
    ensures Ends(t) && t != [] && (t[0] == COMMA <==> |items| > 1)
  {
    if |items| == 1 then [CLOSE_BRACKET] + r else [COMMA] + (Items(items[1..]) + ([CLOSE_BRACKET] + r))
  }

  lemma ItemsUnfold(items: seq<Value>, r: Text)
    ensures items == [] ==> Items(items) + ([CLOSE_BRACKET] + r) == [CLOSE_BRACKET] + r
    ensures items != [] ==>
              Items(items) + ([CLOSE_BRACKET] + r) == Stringify(items[0]) + AfterItem(items, r)
  {
    if |items| > 1 {
      RegroupSeparated(Stringify(items[0]), COMMA, Items(items[1..]), [CLOSE_BRACKET] + r);
    }
  }

  lemma ItemsStart(items: seq<Value>, r: Text)
    requires forall i :: 0 <= i < |items| ==> Plain(items[i])
    ensures var t := Items(items) + ([CLOSE_BRACKET] + r);
            t != [] && (t[0] == CLOSE_BRACKET <==> items == [])
  {
    ItemsUnfold(items, r);
    if items != [] {
      StartOf(items[0], AfterItem(items, r));
    }
  }

  lemma RegroupSeparated(first: Text, separator: Unit, rest: Text, r: Text)
    ensures first + [separator] + rest + r == first + ([separator] + (rest + r))
  {
  }

  lemma {:induction false} ItemsUnambiguous(a: seq<Value>, b: seq<Value>, r: Text, s: Text)
    requires forall i :: 0 <= i < |a| ==> Plain(a[i])
    requires forall i :: 0 <= i < |b| ==> Plain(b[i])
    requires Items(a) + ([CLOSE_BRACKET] + r) == Items(b) + ([CLOSE_BRACKET] + s)
    ensures FilledItems(a) == FilledItems(b) && r == s
    decreases a, 0
  {
    ItemsStart(a, r);
    ItemsStart(b, s);
    ItemsUnfold(a, r);
    ItemsUnfold(b, s);
    if a == [] {
      Strip([CLOSE_BRACKET], r, s);
    } else {
      Unambiguous(a[0], b[0], AfterItem(a, r), AfterItem(b, s));
      if |a| == 1 {
        Strip([CLOSE_BRACKET], r, s);
      } else {
        Strip([COMMA], Items(a[1..]) + ([CLOSE_BRACKET] + r), Items(b[1..]) + ([CLOSE_BRACKET] + s));
        ItemsUnambiguous(a[1..], b[1..], r, s);
      }
      assert FilledItems(a)[1..] == FilledItems(a[1..]) && FilledItems(b)[1..] == FilledItems(b[1..]);
    }
  }

  function AfterMember(fields: Fields, r: Text): (t: Text)
    requires fields != []
    ensures Ends(t) && t != [] && (t[0] == COMMA <==> |fields| > 1)
  {
    if |fields| == 1 then [CLOSE_BRACE] + r else [COMMA] + (Members(fields[1..]) + ([CLOSE_BRACE] + r))
  }

  lemma MembersUnfold(fields: Fields, r: Text)
    requires AllDefined(fields)
    ensures fields == [] ==> Members(fields) + ([CLOSE_BRACE] + r) == [CLOSE_BRACE] + r
    ensures fields != [] ==>
              Members(fields) + ([CLOSE_BRACE] + r)
              == Quote(fields[0].0) + ([COLON] + (Stringify(fields[0].1) + AfterMember(fields, r)))
    ensures var t := Members(fields) + ([CLOSE_BRACE] + r);
            t != [] && (t[0] == CLOSE_BRACE <==> fields == [])
  {
    if fields != [] {
      var first := Member(fields[0].0, fields[0].1);
      assert first[0] == QUOTE;
      if |fields| > 1 {
        assert fields[1..] != [] && !fields[1..][0].1.Undefined?;
        assert Members(fields[1..]) != [];
        RegroupSeparated(first, COMMA, Members(fields[1..]), [CLOSE_BRACE] + r);
      }
      RegroupSeparated(Quote(fields[0].0), COLON, Stringify(fields[0].1), AfterMember(fields, r));
    }
  }

  lemma {:induction false} MembersUnambiguous(a: Fields, b: Fields, r: Text, s: Text)
    requires AllDefined(a) && forall i :: 0 <= i < |a| ==> Plain(a[i].1)
    requires AllDefined(b) && forall i :: 0 <= i < |b| ==> Plain(b[i].1)
    requires Members(a) + ([CLOSE_BRACE] + r) == Members(b) + ([CLOSE_BRACE] + s)
    ensures FilledFields(a) == FilledFields(b) && r == s
    decreases a, 0
  {
    MembersUnfold(a, r);
    MembersUnfold(b, s);
    if a == [] {
      Strip([CLOSE_BRACE], r, s);
    } else {
      var x := Stringify(a[0].1) + AfterMember(a, r);
      var y := Stringify(b[0].1) + AfterMember(b, s);
      QuoteUnambiguous(a[0].0, b[0].0, [COLON] + x, [COLON] + y);
      Strip([COLON], x, y);
      assert a[0].1 < a[0];
      Unambiguous(a[0].1, b[0].1, AfterMember(a, r), AfterMember(b, s));
      if |a| == 1 {
        Strip([CLOSE_BRACE], r, s);
      } else {
        Strip([COMMA], Members(a[1..]) + ([CLOSE_BRACE] + r), Members(b[1..]) + ([CLOSE_BRACE] + s));
        MembersUnambiguous(a[1..], b[1..], r, s);
      }
      assert FilledFields(a)[1..] == FilledFields(a[1..]) && FilledFields(b)[1..] == FilledFields(b[1..]);
    }
  }

  /**
   What the scorer decides: two observations get the same text exactly when they differ only in the
   order of keys, in fields that are undefined, in items of arrays that are undefined in one and null
   in the other, and, at any depth, in numbers that are not finite in one and null, or another such
   number, in the other.
   */
  lemma StableEqualIff(a: Value, b: Value, le: KeyOrder)
    requires Total(le) && WellFormed(a) && WellFormed(b)
    ensures Stable(a, le) == Stable(b, le)
       <==> (a.Undefined? <==> b.Undefined?) && Same(Filled(a), Filled(b))
  {
    var x, y := Canonical(a, le), Canonical(b, le);
    CanonicalIsPlain(a, le);
    CanonicalIsPlain(b, le);
    StringifyFilled(x);
    StringifyFilled(y);
    if Stringify(x) == Stringify(y) {
      Unambiguous(x, y, [], []);
    }
    assert Stringify(x) == Stringify(y) <==> Filled(x) == Filled(y);
    FilledCommutes(a, le);
    FilledCommutes(b, le);
    FilledIsWellFormed(a);
    FilledIsWellFormed(b);
    CanonicalEqualIffSame(Filled(a), Filled(b), le);
  }

  /** The comparison is not deep equality: a missing item passes for null. */
  lemma MissingItemPassesForNull(le: KeyOrder)
    ensures Stable(Arr([Undefined]), le) == Stable(Arr([Null]), le)
    ensures !Same(Arr([Undefined]), Arr([Null]))
  {
    var missing, present := Arr([Undefined]), Arr([Null]);
    assert Items([Undefined]) == Items([Null]);
    assert CanonicalItems([Undefined], le) == [Undefined] && CanonicalItems([Null], le) == [Null];
    assert missing.items[0] == Undefined && present.items[0] == Null;
    assert !Same(missing.items[0], present.items[0]);
  }

  lemma OneField(key: Text, value: Value, le: KeyOrder)
    requires value.Null? || value.Unwritable?
    ensures CanonicalFields([(key, value)], le) == [(key, value)] && Members([(key, value)]) == Member(key, value)
  {
    var field: Fields := [(key, value)];
    assert field[1..] == [];
    assert CanonicalFields([], le) == [] && Members([]) == [];
  }

  /** Nor does it see a number that is not one: an observation that came to NaN passes for null. */
  lemma NaNPassesForNull(key: Text, number: NonFinite, le: KeyOrder)
    ensures Stable(Obj([(key, Unwritable(number))]), le) == Stable(Obj([(key, Null)]), le)
    ensures !Same(Obj([(key, Unwritable(number))]), Obj([(key, Null)]))
  {
    var nan: Fields := [(key, Unwritable(number))];
    var absent: Fields := [(key, Null)];
    OneField(key, Unwritable(number), le);
    OneField(key, Null, le);
    assert Member(key, Unwritable(number)) == Member(key, Null);
    assert Lookup(absent, nan[0].0) == Null;
    assert !Same(nan[0].1, Lookup(absent, nan[0].0));
  }
}
