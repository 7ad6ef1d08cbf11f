/**
 The issue-memory corpus (factory/automation/memory.ts): an entry is frontmatter with JSON-quoted
 scalars, then prose. `Render` prints one, `ParseEntry` says what reading a file back yields.
 */
module Memory {
  import opened Wrappers
  import opened Utf16
  import Json

  datatype State = Open | Closed

  datatype Entry = Entry(
    issue: int,
    title: Text,
    labels: seq<Text>,
    state: State,
    reproKey: Option<Text>,
    related: seq<int>,
    summary: Text)

  datatype Error = NoFrontmatter | NoIssue | BadJson

  const OPEN_BRACKET: Unit := 91
  const CLOSE_BRACKET: Unit := 93
  const FENCE: Text := [MINUS, MINUS, MINUS]

  const ISSUE: Text := Lit("issue")
  const TITLE: Text := Lit("title")
  const LABELS: Text := Lit("labels")
  const STATE: Text := Lit("state")
  const REPRO_KEY: Text := Lit("reproKey")
  const RELATED: Text := Lit("related")
  const OPEN: Text := Lit("open")
  const CLOSED: Text := Lit("closed")

  // ------------------------------------------------------------------ printing

  function Quoted(labels: seq<Text>): (quoted: seq<Text>)
    ensures |quoted| == |labels| && forall i :: 0 <= i < |labels| ==> quoted[i] == Json.Quote(labels[i])
  {
    seq(|labels|, i requires 0 <= i < |labels| => Json.Quote(labels[i]))
  }

  function Integers(numbers: seq<int>): (texts: seq<Text>)
    ensures |texts| == |numbers| && forall i :: 0 <= i < |numbers| ==> texts[i] == Integer(numbers[i])
  {
    seq(|numbers|, i requires 0 <= i < |numbers| => Integer(numbers[i]))
  }

  function RenderList(parts: seq<Text>): Text {
    [OPEN_BRACKET] + Join(parts, [COMMA, SPACE]) + [CLOSE_BRACKET]
  }

  function StateText(state: State): Text {
    if state.Closed? then CLOSED else OPEN
  }

  function FieldLine(key: Text, value: Text): Text {
    key + [COLON, SPACE] + value
  }

  /** The frontmatter of an entry, key by key. */
  function FieldsOf(entry: Entry): seq<(Text, Text)> {
    [(ISSUE, Integer(entry.issue)),
     (TITLE, Json.Quote(entry.title)),
     (LABELS, RenderList(Quoted(entry.labels))),
     (STATE, StateText(entry.state))]
    + (if HasReproKey(entry) then [(REPRO_KEY, Json.Quote(entry.reproKey.value))] else [])
    + [(RELATED, RenderList(Integers(entry.related)))]
  }

  predicate HasReproKey(entry: Entry) {
    entry.reproKey.Some? && entry.reproKey.value != []
  }

  function Lines(fields: seq<(Text, Text)>): (lines: seq<Text>)
    ensures |lines| == |fields|
    ensures forall i :: 0 <= i < |fields| ==> lines[i] == FieldLine(fields[i].0, fields[i].1)
  {
    seq(|fields|, i requires 0 <= i < |fields| => FieldLine(fields[i].0, fields[i].1))
  }

  function Render(entry: Entry): Text {
    Join([FENCE] + Lines(FieldsOf(entry))
         + [FENCE, [], [HASH, SPACE] + entry.title, [], Trim(entry.summary), []],
         [NEWLINE])
  }

  // ------------------------------------------------------------------ reading

  /** The frontmatter and the prose of a file that opens with a fence. */
  function Frontmatter(source: Text): Option<(Text, Text)> {
    if !(FENCE + [NEWLINE] <= source) then None
    else
      match Find(source, [NEWLINE] + FENCE + [NEWLINE], 4)
      case None => None
      case Some(at) => Some((source[4..at], source[at + 5..]))
  }

  /** The fields map after one more line; a line without a colon is skipped. */
  function WithLine(fields: map<Text, Text>, line: Text): map<Text, Text> {
    var separator := UntilUnit(line, COLON);
    if separator == |line| then fields
    else fields[Trim(line[..separator]) := Trim(line[separator + 1..])]
  }

  function Fields(lines: seq<Text>): map<Text, Text> {
    if lines == [] then map[]
    else WithLine(Fields(lines[..|lines| - 1]), lines[|lines| - 1])
  }

  function FieldOr(fields: map<Text, Text>, key: Text, otherwise: Text): Text {
    if key in fields then fields[key] else otherwise
  }

  /** A scalar: the string a quoted value stands for, anything else as it is. */
  function Scalar(value: Text): Option<Text> {
    var trimmed := Trim(value);
    if trimmed != [] && trimmed[0] == QUOTE then Json.ParseString(trimmed) else Some(trimmed)
  }

  function WithoutOpening(t: Text): Text {
    if t != [] && t[0] == OPEN_BRACKET then t[1..] else t
  }

  function WithoutClosing(t: Text): Text {
    if t != [] && t[|t| - 1] == CLOSE_BRACKET then t[..|t| - 1] else t
  }

  /** The non-empty scalars among the parts, or nothing when one of them is not JSON. */
  function Scalars(parts: seq<Text>): Option<seq<Text>> {
    if parts == [] then Some([])
    else
      match (Scalar(parts[0]), Scalars(parts[1..]))
      case (Some(first), Some(rest)) => Some(if first == [] then rest else [first] + rest)
      case _ => None
  }

  function ParseList(value: Text): Option<seq<Text>> {
    var inner := Trim(WithoutClosing(WithoutOpening(Trim(value))));
    if inner == [] then Some([]) else Scalars(Split(inner, COMMA))
  }

  function Numbers(texts: seq<Text>): seq<int> {
    if texts == [] then []
    else
      var rest := Numbers(texts[1..]);
      if IntegerValue(texts[0]).Some? then [IntegerValue(texts[0]).value] + rest else rest
  }

  function SkipNewlines(t: Text): (r: Text)
    ensures |r| <= |t| && r == t[|t| - |r|..]
    ensures forall i :: 0 <= i < |t| - |r| ==> t[i] == NEWLINE
  {
    if t != [] && t[0] == NEWLINE then SkipNewlines(t[1..]) else t
  }

  /** The prose without the heading that repeats the title. */
  function Summary(prose: Text): Text {
    var body := Trim(prose);
    var end := UntilUnit(body, NEWLINE);
    Trim(if body != [] && body[0] == HASH && end < |body| then SkipNewlines(body[end..]) else body)
  }

  /** The entry the fields and the prose spell out. */
  function EntryOf(fields: map<Text, Text>, prose: Text): Result<Entry, Error> {
    var issue := IntegerValue(FieldOr(fields, ISSUE, []));
    if issue.None? || issue.value <= 0 then Failure(NoIssue)
    else
      var title := Scalar(FieldOr(fields, TITLE, []));
      var labels := ParseList(FieldOr(fields, LABELS, [OPEN_BRACKET, CLOSE_BRACKET]));
      var reproKey := Scalar(FieldOr(fields, REPRO_KEY, []));
      var related := ParseList(FieldOr(fields, RELATED, [OPEN_BRACKET, CLOSE_BRACKET]));
      if title.None? || labels.None? || reproKey.None? || related.None? then Failure(BadJson)
      else
        Success(Entry(
          issue.value,
          title.value,
          labels.value,
          if FieldOr(fields, STATE, []) == CLOSED then Closed else Open,
          if REPRO_KEY in fields then reproKey else None,
          Numbers(related.value),
          Summary(prose)))
  }

  function ParseEntry(source: Text): Result<Entry, Error> {
    match Frontmatter(source)
    case None => Failure(NoFrontmatter)
    case Some((front, prose)) => EntryOf(Fields(Split(front, NEWLINE)), prose)
  }

  /** The reader as it is written: one pass over the lines fills the map. */
  method Parse(source: Text) returns (entry: Result<Entry, Error>)
    ensures entry == ParseEntry(source)
  {
    var matched := Frontmatter(source);
    if matched.None? {
      return Failure(NoFrontmatter);
    }
    var fields := ReadFields(Split(matched.value.0, NEWLINE));
    entry := EntryOf(fields, matched.value.1);
  }

  lemma FieldsStep(lines: seq<Text>, i: nat)
    requires i < |lines|
    ensures Fields(lines[..i + 1]) == WithLine(Fields(lines[..i]), lines[i])
  {
    assert lines[..i + 1][..i] == lines[..i];
  }

  method ReadFields(lines: seq<Text>) returns (fields: map<Text, Text>)
    ensures fields == Fields(lines)
  {
    fields := map[];
    for i := 0 to |lines|
      invariant fields == Fields(lines[..i])
    {
      FieldsStep(lines, i);
      var separator := UntilUnit(lines[i], COLON);
      if separator != |lines[i]| {
        fields := fields[Trim(lines[i][..separator]) := Trim(lines[i][separator + 1..])];
      }
    }
    assert lines[..|lines|] == lines;
  }

  // ------------------------------------------------------------------ lists

  lemma ScalarOfQuoted(lead: Text, t: Text)
    requires Blank(lead)
    ensures Scalar(lead + Json.Quote(t)) == Some(t)
  {
    TrimAround(lead, Json.Quote(t), []);
    assert lead + Json.Quote(t) + [] == lead + Json.Quote(t);
    Json.QuoteRoundTrip(t);
  }

  lemma ScalarOfInteger(lead: Text, n: int)
    requires Blank(lead)
    ensures Scalar(lead + Integer(n)) == Some(Integer(n))
    ensures COMMA !in Integer(n) && Trimmed(Integer(n)) && Integer(n) != []
  {
    var t := Integer(n);
    assert forall i :: 0 <= i < |t| ==> IsDigit(t[i]) || t[i] == MINUS;
    TrimAround(lead, t, []);
    assert lead + t + [] == lead + t;
  }

  /** The texts that print as the parts of a list: comma-free, trimmed, and read back as `values`. */
  ghost predicate PrintedAs(parts: seq<Text>, values: seq<Text>) {
    && |parts| == |values|
    && forall i :: 0 <= i < |parts| ==>
         COMMA !in parts[i] && Trimmed(parts[i]) && parts[i] != [] && ReadsAs(parts[i], values[i])
  }

  ghost predicate ReadsAs(part: Text, value: Text) {
    forall lead :: Blank(lead) ==> Scalar(lead + part) == Some(value)
  }

  function NonEmpty(values: seq<Text>): (kept: seq<Text>)
    ensures |kept| <= |values|
    ensures kept == values <==> [] !in values
  {
    if values == [] then []
    else
      var rest := NonEmpty(values[1..]);
      assert values == [values[0]] + values[1..];
      if values[0] == [] then rest else [values[0]] + rest
  }

  /** The first part of a printed list, and the parts after it, each led by the space. */
  lemma SplitListStep(lead: Text, part: Text, tail: Text)
    requires COMMA !in lead + part
    ensures Split(lead + (part + [COMMA, SPACE] + tail), COMMA) == [lead + part] + Split([SPACE] + tail, COMMA)
  {
    RegroupPart(lead, part, tail);
    SplitFirst(lead + part, COMMA, [SPACE] + tail);
  }

  lemma RegroupPart(lead: Text, part: Text, tail: Text)
    ensures lead + (part + [COMMA, SPACE] + tail) == lead + part + [COMMA] + ([SPACE] + tail)
  {
  }

  lemma ScalarsCons(first: Text, rest: seq<Text>)
    ensures Scalars([first] + rest) == match (Scalar(first), Scalars(rest))
      case (Some(value), Some(values)) => Some(if value == [] then values else [value] + values)
      case _ => None
  {
    assert ([first] + rest)[1..] == rest;
  }

  lemma NonEmptyCons(first: Text, rest: seq<Text>)
    ensures NonEmpty([first] + rest) == if first == [] then NonEmpty(rest) else [first] + NonEmpty(rest)
  {
    assert ([first] + rest)[1..] == rest;
  }

  lemma PrintedStep(lead: Text, part: Text, value: Text, tail: Text, rest: seq<Text>)
    requires COMMA !in lead + part && Scalar(lead + part) == Some(value)
    requires Scalars(Split([SPACE] + tail, COMMA)) == Some(NonEmpty(rest))
    ensures Scalars(Split(lead + (part + [COMMA, SPACE] + tail), COMMA)) == Some(NonEmpty([value] + rest))
  {
    SplitListStep(lead, part, tail);
    ScalarsCons(lead + part, Split([SPACE] + tail, COMMA));
    NonEmptyCons(value, rest);
  }

  lemma PrintedLast(part: Text, value: Text)
    requires COMMA !in part && Scalar(part) == Some(value)
    ensures Scalars(Split(part, COMMA)) == Some(NonEmpty([value]))
  {
    SplitWhole(part, COMMA);
    ScalarsCons(part, []);
    assert [part] + [] == [part];
    NonEmptyCons(value, []);
    assert [value] + [] == [value];
  }

  lemma PrintedFirst(lead: Text, parts: seq<Text>, values: seq<Text>)
    requires Blank(lead) && parts != [] && PrintedAs(parts, values)
    ensures COMMA !in lead + parts[0] && Scalar(lead + parts[0]) == Some(values[0])
  {
    assert ReadsAs(parts[0], values[0]);
  }

  lemma {:induction false} SplitPrinted(lead: Text, parts: seq<Text>, values: seq<Text>)
    requires Blank(lead) && parts != [] && PrintedAs(parts, values)
    ensures Scalars(Split(lead + Join(parts, [COMMA, SPACE]), COMMA)) == Some(NonEmpty(values))
    decreases |parts|
  {
    PrintedFirst(lead, parts, values);
    if |parts| == 1 {
      PrintedLast(lead + parts[0], values[0]);
      assert values == [values[0]];
    } else {
      PrintedTail(parts, values);
      SplitPrinted([SPACE], parts[1..], values[1..]);
      PrintedStep(lead, parts[0], values[0], Join(parts[1..], [COMMA, SPACE]), values[1..]);
      JoinCons(parts, [COMMA, SPACE]);
      assert values == [values[0]] + values[1..];
    }
  }

  lemma PrintedTail(parts: seq<Text>, values: seq<Text>)
    requires parts != [] && PrintedAs(parts, values)
    ensures PrintedAs(parts[1..], values[1..])
  {
  }

  lemma {:induction false} JoinIsTrimmed(parts: seq<Text>)
    requires parts != [] && forall i :: 0 <= i < |parts| ==> Trimmed(parts[i]) && parts[i] != []
    ensures var t := Join(parts, [COMMA, SPACE]); t != [] && Trimmed(t) && t[0] == parts[0][0]
  {
    assert Trimmed(parts[0]) && parts[0] != [];
    if |parts| > 1 {
      JoinIsTrimmed(parts[1..]);
    }
  }

  lemma BracketsComeOff(inner: Text)
    requires Trimmed(inner)
    ensures Trim(WithoutClosing(WithoutOpening(Trim([OPEN_BRACKET] + inner + [CLOSE_BRACKET])))) == inner
  {
    var value := [OPEN_BRACKET] + inner + [CLOSE_BRACKET];
    TrimOfTrimmed(value);
    var unopened := inner + [CLOSE_BRACKET];
    assert value[1..] == unopened;
    assert unopened[..|inner|] == inner;
    TrimOfTrimmed(inner);
  }

  lemma ListInner(parts: seq<Text>)
    requires forall i :: 0 <= i < |parts| ==> Trimmed(parts[i]) && parts[i] != []
    ensures Trim(WithoutClosing(WithoutOpening(Trim(RenderList(parts))))) == Join(parts, [COMMA, SPACE])
  {
    if parts != [] {
      JoinIsTrimmed(parts);
    }
    BracketsComeOff(Join(parts, [COMMA, SPACE]));
  }

  /** A printed list reads back as its non-empty values. */
  lemma ParsePrinted(parts: seq<Text>, values: seq<Text>)
    requires PrintedAs(parts, values)
    ensures ParseList(RenderList(parts)) == Some(NonEmpty(values))
  {
    ListInner(parts);
    if parts != [] {
      JoinIsTrimmed(parts);
      SplitPrinted([], parts, values);
      assert [] + Join(parts, [COMMA, SPACE]) == Join(parts, [COMMA, SPACE]);
    }
  }

  lemma QuotedIsPrinted(labels: seq<Text>)
    requires forall l :: l in labels ==> COMMA !in l
    ensures PrintedAs(Quoted(labels), labels)
  {
    forall i | 0 <= i < |labels|
      ensures COMMA !in Quoted(labels)[i] && ReadsAs(Quoted(labels)[i], labels[i])
    {
      Json.EscapeKeepsCommas(labels[i]);
      forall lead | Blank(lead)
        ensures Scalar(lead + Quoted(labels)[i]) == Some(labels[i])
      {
        ScalarOfQuoted(lead, labels[i]);
      }
    }
  }

  lemma IntegersArePrinted(numbers: seq<int>)
    ensures PrintedAs(Integers(numbers), Integers(numbers))
    ensures NonEmpty(Integers(numbers)) == Integers(numbers)
    ensures Numbers(Integers(numbers)) == numbers
  {
    forall i | 0 <= i < |numbers|
      ensures ReadsAs(Integers(numbers)[i], Integers(numbers)[i])
      ensures COMMA !in Integer(numbers[i]) && Trimmed(Integer(numbers[i])) && Integer(numbers[i]) != []
    {
      ScalarOfInteger([], numbers[i]);
      forall lead | Blank(lead)
        ensures Scalar(lead + Integers(numbers)[i]) == Some(Integers(numbers)[i])
      {
        ScalarOfInteger(lead, numbers[i]);
      }
    }
    NumbersOfIntegers(numbers);
  }

  lemma {:induction false} NumbersOfIntegers(numbers: seq<int>)
    ensures Numbers(Integers(numbers)) == numbers
  {
    if numbers != [] {
      IntegerRoundTrip(numbers[0]);
      NumbersOfIntegers(numbers[1..]);
      assert Integers(numbers)[1..] == Integers(numbers[1..]);
    }
  }

  /** A string body cut short is not JSON. */
  lemma {:induction false} CutEscapeIsUnterminated(t: Text, cut: Text)
    requires cut <= Json.Escape(t)
    ensures Json.ParseBody(cut) == None
    decreases |t|
  {
    if cut != [] {
      if PairAhead(t) {
        if |cut| >= 2 {
          CutEscapeIsUnterminated(t[2..], cut[2..]);
          assert cut[1..][1..] == cut[2..];
        } else {
          assert cut[1..] == [];
        }
      } else {
        var first := Json.EscapeUnit(t[0]);
        if |first| <= |cut| {
          CutEscapeIsUnterminated(t[1..], cut[|first|..]);
          Json.ParseEscapeUnit(t[0], cut[|first|..]);
          assert cut == first + cut[|first|..];
        } else {
          assert cut == first[..|cut|];
          assert cut[0] == BACKSLASH;
        }
      }
    }
  }

  lemma CutQuoteFails(lead: Text, t: Text, cut: nat)
    requires Blank(lead) && 0 < cut < |Json.Quote(t)|
    ensures Scalar(lead + Json.Quote(t)[..cut]) == None
  {
    var part := Json.Quote(t)[..cut];
    TrimIgnoresLead(lead, part);
    assert part[0] == QUOTE;
    TrimIsPrefix(part);
    var trimmed := Trim(part);
    assert trimmed[1..] <= Json.Escape(t);
    CutEscapeIsUnterminated(t, trimmed[1..]);
  }

  /** Cutting a quoted label at its first comma leaves a part that is not JSON. */
  lemma CommaFailsPart(lead: Text, name: Text, after: Text)
    requires Blank(lead) && COMMA in name
    ensures Scalars(Split(lead + (Json.Quote(name) + after), COMMA)) == None
  {
    Json.EscapeKeepsCommas(name);
    var quote := Json.Quote(name);
    assert COMMA in quote;
    var cut := UntilUnit(quote, COMMA);
    CutAtComma(lead, quote, cut, after);
    SplitFirst(lead + quote[..cut], COMMA, quote[cut + 1..] + after);
    assert quote[0] != COMMA;
    CutQuoteFails(lead, name, cut);
    ScalarsCons(lead + quote[..cut], Split(quote[cut + 1..] + after, COMMA));
  }

  lemma CutAtComma(lead: Text, quote: Text, cut: nat, after: Text)
    requires cut < |quote| && quote[cut] == COMMA
    ensures lead + (quote + after) == lead + quote[..cut] + [COMMA] + (quote[cut + 1..] + after)
  {
    assert quote == quote[..cut] + [COMMA] + quote[cut + 1..];
  }

  /** A part that fails further on fails the list. */
  lemma CommaFailsLater(lead: Text, name: Text, tail: Text)
    requires COMMA !in name && COMMA !in lead
    requires Scalars(Split([SPACE] + tail, COMMA)) == None
    ensures Scalars(Split(lead + (Json.Quote(name) + [COMMA, SPACE] + tail), COMMA)) == None
  {
    Json.EscapeKeepsCommas(name);
    SplitListStep(lead, Json.Quote(name), tail);
    ScalarsCons(lead + Json.Quote(name), Split([SPACE] + tail, COMMA));
  }

  /** One label with a comma in it makes the whole list unreadable. */
  lemma {:induction false} CommaFailsSplit(lead: Text, labels: seq<Text>)
    requires Blank(lead) && exists i :: 0 <= i < |labels| && COMMA in labels[i]
    ensures Scalars(Split(lead + Join(Quoted(labels), [COMMA, SPACE]), COMMA)) == None
    decreases |labels|
  {
    var parts := Quoted(labels);
    assert parts[1..] == Quoted(labels[1..]);
    if |parts| > 1 {
      JoinCons(parts, [COMMA, SPACE]);
    }
    var tail := Join(parts[1..], [COMMA, SPACE]);
    if COMMA in labels[0] {
      CommaFailsPart(lead, labels[0], if |parts| == 1 then [] else [COMMA, SPACE] + tail);
      assert parts[0] + [] == parts[0];
      Regroup(parts[0], [COMMA, SPACE], tail);
    } else {
      var i :| 0 <= i < |labels| && COMMA in labels[i];
      assert labels[1..][i - 1] == labels[i];
      CommaFailsSplit([SPACE], labels[1..]);
      CommaFailsLater(lead, labels[0], tail);
    }
  }

  /** The labels read back are the ones printed exactly when none is empty or holds a comma. */
  lemma LabelsRoundTrip(labels: seq<Text>)
    ensures ParseList(RenderList(Quoted(labels))) == Some(labels)
       <==> forall l :: l in labels ==> l != [] && COMMA !in l
  {
    if forall l :: l in labels ==> COMMA !in l {
      QuotedIsPrinted(labels);
      ParsePrinted(Quoted(labels), labels);
    } else {
      ListInner(Quoted(labels));
      CommaFailsSplit([], labels);
      var inner := Join(Quoted(labels), [COMMA, SPACE]);
      assert [] + inner == inner;
      JoinIsTrimmed(Quoted(labels));
    }
  }

  // ------------------------------------------------------------------ the summary

  /** The prose part of a rendered entry. */
  function Prose(title: Text, summary: Text): Text {
    [NEWLINE, HASH, SPACE] + title + [NEWLINE, NEWLINE] + Trim(summary) + [NEWLINE]
  }

  /** Nothing but white space after the first line break, if there is one. */
  predicate OneLine(title: Text) {
    Blank(title[UntilUnit(title, NEWLINE)..])
  }

  lemma TrimSkipsNewlines(t: Text)
    ensures Trim(SkipNewlines(t)) == Trim(t)
  {
    var r := SkipNewlines(t);
    var lead := t[..|t| - |r|];
    assert t == lead + r;
    TrimIgnoresLead(lead, r);
  }

  /** What is left of the prose once the heading is cut off at the first line break. */
  lemma SummaryBelowHeading(title: Text, inner: Text)
    requires inner != [] && Trimmed(inner)
    ensures var end := UntilUnit(title, NEWLINE);
      Summary([NEWLINE, HASH, SPACE] + title + [NEWLINE, NEWLINE] + inner + [NEWLINE])
      == Trim(title[end..] + [NEWLINE, NEWLINE] + inner)
  {
    var end := UntilUnit(title, NEWLINE);
    var after := title[end..] + [NEWLINE, NEWLINE] + inner;
    var heading := [HASH, SPACE] + title[..end];
    var body := heading + after;
    assert body[|body| - 1] == inner[|inner| - 1];
    TrimAround([NEWLINE], body, [NEWLINE]);
    ProseParts(title, end, inner);
    assert after[0] == NEWLINE;
    HeadingEnds(heading, after);
    TrimSkipsNewlines(after);
  }

  lemma HeadingEnds(heading: Text, after: Text)
    requires after != [] && after[0] == NEWLINE && NEWLINE !in heading
    ensures UntilUnit(heading + after, NEWLINE) == |heading|
    ensures (heading + after)[|heading|..] == after
  {
    assert after == [NEWLINE] + after[1..];
    Regroup(heading, [NEWLINE], after[1..]);
    UntilUnitIs(heading, NEWLINE, after[1..]);
  }

  lemma ProseParts(title: Text, end: nat, inner: Text)
    requires end <= |title|
    ensures [NEWLINE, HASH, SPACE] + title + [NEWLINE, NEWLINE] + inner + [NEWLINE]
         == [NEWLINE] + ([HASH, SPACE] + title[..end] + (title[end..] + [NEWLINE, NEWLINE] + inner)) + [NEWLINE]
  {
    assert title == title[..end] + title[end..];
  }

  /** The summary comes back exactly when it is trimmed, not empty, and under a one-line title. */
  lemma SummaryRoundTrip(title: Text, summary: Text)
    ensures Summary(Prose(title, summary)) == summary
       <==> summary != [] && Trimmed(summary) && OneLine(title)
  {
    var inner := Trim(summary);
    if inner == [] {
      EmptySummaryIsLost(Prose(title, summary));
    } else {
      SummaryBelowHeading(title, inner);
      var rest := title[UntilUnit(title, NEWLINE)..];
      var after := rest + [NEWLINE, NEWLINE] + inner;
      if OneLine(title) {
        TrimAround(rest + [NEWLINE, NEWLINE], inner, []);
        assert after == rest + [NEWLINE, NEWLINE] + inner + [];
        if Trimmed(summary) {
          TrimOfTrimmed(summary);
        }
      } else {
        var i :| 0 <= i < |rest| && !IsSpace(rest[i]);
        assert after[i] == rest[i] && after[|after| - 1] == inner[|inner| - 1];
        TrimKeepsInside(after, i, |after| - 1);
        if Trimmed(summary) {
          TrimOfTrimmed(summary);
        }
      }
    }
  }

  lemma RestIsNotBlank(body: Text, end: nat)
    requires Trimmed(body) && end < |body|
    ensures Trim(body[end..]) != []
  {
    var last := |body| - 1 - end;
    assert body[end..][last] == body[|body| - 1];
    TrimKeepsInside(body[end..], last, last);
  }

  lemma EmptySummaryIsLost(prose: Text)
    requires 2 <= |prose| && prose[1] == HASH
    ensures Summary(prose) != []
  {
    TrimKeepsInside(prose, 1, 1);
    var body := Trim(prose);
    var end := UntilUnit(body, NEWLINE);
    TrimOfTrimmed(body);
    if body[0] == HASH && end < |body| {
      TrimSkipsNewlines(body[end..]);
      RestIsNotBlank(body, end);
    }
  }

  // ------------------------------------------------------------------ the frontmatter

  /** No control characters. */
  predicate Printable(t: Text) {
    forall i :: 0 <= i < |t| ==> t[i] >= 32
  }

  lemma {:induction false} JoinIsPrintable(parts: seq<Text>)
    requires forall i :: 0 <= i < |parts| ==> Printable(parts[i])
    ensures Printable(Join(parts, [COMMA, SPACE]))
    decreases |parts|
  {
    if |parts| == 1 {
      assert Printable(parts[0]);
    } else if |parts| > 1 {
      JoinIsPrintable(parts[1..]);
      JoinCons(parts, [COMMA, SPACE]);
      assert Printable(parts[0]);
    }
  }

  lemma QuoteIsPrintable(t: Text)
    ensures Printable(Json.Quote(t)) && Trimmed(Json.Quote(t))
  {
    Json.EscapeHasNoControls(t);
    var body := Json.Escape(t);
    assert forall i :: 0 <= i < |body| ==> body[i] in body;
  }

  lemma IntegerIsPrintable(n: int)
    ensures Printable(Integer(n)) && Trimmed(Integer(n))
  {
    ScalarOfInteger([], n);
  }

  /** A key of the frontmatter. */
  predicate Key(key: Text) {
    key != [] && Printable(key) && key[0] != MINUS && COLON !in key && Trimmed(key)
  }

  lemma KeysAreKeys()
    ensures Key(ISSUE) && Key(TITLE) && Key(LABELS)
    ensures Key(STATE) && Key(REPRO_KEY) && Key(RELATED)
  {
    LitIsKey("issue");
    LitIsKey("title");
    LitIsKey("labels");
    LitIsKey("state");
    LitIsKey("reproKey");
    LitIsKey("related");
  }

  lemma LitIsKey(s: string)
    requires s != [] && forall i :: 0 <= i < |s| ==> 'A' <= s[i] <= 'z'
    ensures Key(Lit(s))
  {
  }

  lemma KeysDiffer()
    ensures ISSUE != TITLE && ISSUE != STATE && TITLE != STATE
    ensures |LABELS| == 6 && |REPRO_KEY| == 8 && |RELATED| == 7
    ensures |ISSUE| == 5 && |TITLE| == 5 && |STATE| == 5
    ensures OPEN != CLOSED
  {
    assert ISSUE[0] == 105 && TITLE[0] == 116 && STATE[0] == 115;
  }

  /** A key and its value, fit to be printed as one line. */
  ghost predicate OneField(field: (Text, Text)) {
    Key(field.0) && Printable(field.1) && Trimmed(field.1)
  }

  lemma LineParts(key: Text, value: Text)
    ensures FieldLine(key, value) == key + [COLON] + ([SPACE] + value)
    ensures FieldLine(key, value)[..|key|] == key && FieldLine(key, value)[|key| + 1..] == [SPACE] + value
  {
  }

  lemma LineReads(fields: map<Text, Text>, key: Text, value: Text)
    requires OneField((key, value))
    ensures WithLine(fields, FieldLine(key, value)) == fields[key := value]
  {
    UntilUnitIs(key, COLON, [SPACE] + value);
    LineParts(key, value);
    TrimOfTrimmed(key);
    TrimIgnoresLead([SPACE], value);
    TrimOfTrimmed(value);
  }

  /** The map the fields make, a later key over an earlier one. */
  function Table(fields: seq<(Text, Text)>): map<Text, Text> {
    if fields == [] then map[]
    else
      var last := fields[|fields| - 1];
      Table(fields[..|fields| - 1])[last.0 := last.1]
  }

  /** Reading printed fields back makes the map they stand for. */
  lemma {:induction false} FieldsOfLines(fields: seq<(Text, Text)>)
    requires forall i :: 0 <= i < |fields| ==> OneField(fields[i])
    ensures Fields(Lines(fields)) == Table(fields)
    decreases |fields|
  {
    if fields != [] {
      var n := |fields| - 1;
      FieldsOfLines(fields[..n]);
      assert Lines(fields)[..n] == Lines(fields[..n]);
      assert OneField(fields[n]);
      LineReads(Table(fields[..n]), fields[n].0, fields[n].1);
    }
  }

  lemma TableAppend(fields: seq<(Text, Text)>, field: (Text, Text))
    ensures Table(fields + [field]) == Table(fields)[field.0 := field.1]
  {
    assert (fields + [field])[..|fields|] == fields;
  }

  lemma TableOfFour(a: (Text, Text), b: (Text, Text), c: (Text, Text), d: (Text, Text))
    ensures Table([a, b, c, d]) == map[][a.0 := a.1][b.0 := b.1][c.0 := c.1][d.0 := d.1]
  {
    TableAppend([], a);
    TableAppend([a], b);
    TableAppend([a, b], c);
    TableAppend([a, b, c], d);
    assert [] + [a] == [a] && [a] + [b] == [a, b] && [a, b] + [c] == [a, b, c] && [a, b, c] + [d] == [a, b, c, d];
  }

  predicate Fit(value: Text) {
    Printable(value) && Trimmed(value)
  }

  lemma EntryValues(entry: Entry)
    ensures Fit(Integer(entry.issue)) && Fit(Json.Quote(entry.title)) && Fit(StateText(entry.state))
    ensures Fit(RenderList(Quoted(entry.labels))) && Fit(RenderList(Integers(entry.related)))
    ensures entry.reproKey.Some? ==> Fit(Json.Quote(entry.reproKey.value))
  {
    LitIsKey("open");
    LitIsKey("closed");
    IntegerIsPrintable(entry.issue);
    QuoteIsPrintable(entry.title);
    if entry.reproKey.Some? {
      QuoteIsPrintable(entry.reproKey.value);
    }
    ListValues(entry.labels, entry.related);
  }

  lemma ListValues(labels: seq<Text>, numbers: seq<int>)
    ensures Fit(RenderList(Quoted(labels))) && Fit(RenderList(Integers(numbers)))
  {
    forall i | 0 <= i < |labels|
      ensures Printable(Quoted(labels)[i])
    {
      QuoteIsPrintable(labels[i]);
    }
    forall i | 0 <= i < |numbers|
      ensures Printable(Integers(numbers)[i])
    {
      IntegerIsPrintable(numbers[i]);
    }
    JoinIsPrintable(Quoted(labels));
    JoinIsPrintable(Integers(numbers));
  }

  lemma EntryFields(entry: Entry)
    ensures forall i :: 0 <= i < |FieldsOf(entry)| ==> OneField(FieldsOf(entry)[i])
  {
    KeysAreKeys();
    EntryValues(entry);
  }

  /** Fields that spell out an entry. */
  ghost predicate Spells(fields: map<Text, Text>, entry: Entry) {
    && ISSUE in fields && fields[ISSUE] == Integer(entry.issue)
    && TITLE in fields && fields[TITLE] == Json.Quote(entry.title)
    && LABELS in fields && fields[LABELS] == RenderList(Quoted(entry.labels))
    && STATE in fields && fields[STATE] == StateText(entry.state)
    && RELATED in fields && fields[RELATED] == RenderList(Integers(entry.related))
    && (REPRO_KEY in fields <==> HasReproKey(entry))
    && (REPRO_KEY in fields ==> fields[REPRO_KEY] == Json.Quote(entry.reproKey.value))
  }

  lemma RenderedFields(entry: Entry)
    ensures Spells(Fields(Lines(FieldsOf(entry))), entry)
  {
    EntryFields(entry);
    FieldsOfLines(FieldsOf(entry));
    TableSpells(entry);
  }

  lemma TableSpells(entry: Entry)
    ensures Spells(Table(FieldsOf(entry)), entry)
  {
    var four := FieldsOf(entry)[..4];
    TableOfFour(four[0], four[1], four[2], four[3]);
    assert four == [four[0], four[1], four[2], four[3]];
    var related := (RELATED, RenderList(Integers(entry.related)));
    KeysDiffer();
    if HasReproKey(entry) {
      var key := (REPRO_KEY, Json.Quote(entry.reproKey.value));
      TableAppend(four, key);
      TableAppend(four + [key], related);
      assert FieldsOf(entry) == four + [key] + [related];
    } else {
      TableAppend(four, related);
      assert FieldsOf(entry) == four + [related];
    }
  }

  /** No line break in the text is followed by a minus or ends it. */
  predicate Quiet(t: Text) {
    forall i :: 0 <= i < |t| && t[i] == NEWLINE ==> i + 1 < |t| && t[i + 1] != MINUS
  }

  predicate PlainLine(line: Text) {
    line != [] && line[0] != MINUS && Printable(line)
  }

  lemma {:induction false} LinesAreQuiet(lines: seq<Text>)
    requires lines != [] && forall i :: 0 <= i < |lines| ==> PlainLine(lines[i])
    ensures Quiet(Join(lines, [NEWLINE]))
    ensures Join(lines, [NEWLINE]) != [] && Join(lines, [NEWLINE])[0] != MINUS
    decreases |lines|
  {
    assert PlainLine(lines[0]);
    if |lines| > 1 {
      LinesAreQuiet(lines[1..]);
      JoinCons(lines, [NEWLINE]);
      QuietCons(lines[0], Join(lines[1..], [NEWLINE]));
    }
  }

  lemma QuietCons(line: Text, rest: Text)
    requires PlainLine(line) && Quiet(rest) && rest != [] && rest[0] != MINUS
    ensures Quiet(line + [NEWLINE] + rest)
  {
    var t := line + [NEWLINE] + rest;
    forall i | 0 <= i < |t| && t[i] == NEWLINE
      ensures i + 1 < |t| && t[i + 1] != MINUS
    {
      if i > |line| {
        assert t[i] == rest[i - |line| - 1];
      }
    }
  }

  lemma FieldLineIsPlain(key: Text, value: Text)
    requires OneField((key, value))
    ensures PlainLine(FieldLine(key, value))
  {
  }

  lemma EntryLinesArePlain(entry: Entry)
    ensures forall i :: 0 <= i < |FieldsOf(entry)| ==> PlainLine(Lines(FieldsOf(entry))[i])
  {
    EntryFields(entry);
    var fields := FieldsOf(entry);
    forall i | 0 <= i < |fields|
      ensures PlainLine(Lines(fields)[i])
    {
      assert OneField(fields[i]);
      FieldLineIsPlain(fields[i].0, fields[i].1);
    }
  }

  const CLOSING: Text := [NEWLINE, MINUS, MINUS, MINUS, NEWLINE]

  /** The first closing fence after quiet frontmatter is the one that ends it. */
  lemma ClosingFence(front: Text, prose: Text)
    requires Quiet(front)
    ensures Frontmatter(FENCE + [NEWLINE] + front + CLOSING + prose) == Some((front, prose))
  {
    var source := FENCE + [NEWLINE] + front + CLOSING + prose;
    var at := 4 + |front|;
    assert source[4..at] == front && source[at + 5..] == prose;
    assert source[at..at + 5] == CLOSING;
    forall i | 4 <= i < at
      ensures !OccursAt(source, CLOSING, i)
    {
      assert source[i] == front[i - 4];
      assert i + 1 < at ==> source[i + 1] == front[i - 3];
      NoOccurrence(source, CLOSING, i, if source[i] != NEWLINE then 0 else 1);
    }
    FindIs(source, CLOSING, 4, at);
    assert [NEWLINE] + FENCE + [NEWLINE] == CLOSING;
  }

  /** Exactly the texts without frontmatter between two fences are refused for that. */
  lemma NoFrontmatterIff(source: Text)
    ensures ParseEntry(source) == Failure(NoFrontmatter) <==> !exists front, prose :: IsFenced(source, front, prose)
  {
    if front, prose :| IsFenced(source, front, prose) {
      FencedIsRead(source, front, prose);
    }
    if Frontmatter(source).Some? {
      ReadIsFenced(source);
    }
  }

  predicate IsFenced(source: Text, front: Text, prose: Text) {
    source == FENCE + [NEWLINE] + front + CLOSING + prose
  }

  lemma FencedIsRead(source: Text, front: Text, prose: Text)
    requires IsFenced(source, front, prose)
    ensures Frontmatter(source).Some?
  {
    OccursBehind(FENCE + [NEWLINE] + front, CLOSING, prose);
    assert [NEWLINE] + FENCE + [NEWLINE] == CLOSING;
    StartsWithFence(FENCE + [NEWLINE], front, CLOSING, prose);
  }

  lemma StartsWithFence(opening: Text, front: Text, closing: Text, prose: Text)
    ensures opening <= opening + front + closing + prose
  {
  }

  lemma ReadIsFenced(source: Text)
    requires Frontmatter(source).Some?
    ensures IsFenced(source, Frontmatter(source).value.0, Frontmatter(source).value.1)
  {
    assert [NEWLINE] + FENCE + [NEWLINE] == CLOSING;
    var at := Find(source, CLOSING, 4).value;
    OccursCuts(source, CLOSING, at);
    CutBehindFence(source, at);
  }

  lemma CutBehindFence(source: Text, at: nat)
    requires FENCE + [NEWLINE] <= source && 4 <= at <= |source|
    ensures source[..at] == FENCE + [NEWLINE] + source[4..at]
  {
  }

  lemma OccursBehind(before: Text, piece: Text, after: Text)
    ensures OccursAt(before + piece + after, piece, |before|)
  {
  }

  lemma OccursCuts(t: Text, piece: Text, at: nat)
    requires OccursAt(t, piece, at)
    ensures t == t[..at] + piece + t[at + |piece|..]
  {
  }

  /** Whether a line of the frontmatter gives a value to this key. */
  predicate Gives(line: Text, key: Text) {
    COLON in line && Trim(line[..UntilUnit(line, COLON)]) == key
  }

  lemma {:induction false} NotGiven(lines: seq<Text>, key: Text)
    requires forall line :: line in lines ==> !Gives(line, key)
    ensures key !in Fields(lines)
  {
    if lines != [] {
      NotGiven(lines[..|lines| - 1], key);
      assert !Gives(lines[|lines| - 1], key);
    }
  }

  /** What a line gives, if it gives anything. */
  function Given(line: Text): Text
    requires COLON in line
  {
    Trim(line[UntilUnit(line, COLON) + 1..])
  }

  predicate Holds(fields: map<Text, Text>, key: Text, value: Text) {
    key in fields && fields[key] == value
  }

  /** The field after a line that gives it, or after one that does not. */
  lemma NextLineGives(lines: seq<Text>, key: Text, value: Text)
    requires lines != []
    requires var last := lines[|lines| - 1];
             if Gives(last, key) then value == Given(last) else Holds(Fields(lines[..|lines| - 1]), key, value)
    ensures Holds(Fields(lines), key, value)
  {
    var last := lines[|lines| - 1];
    assert Fields(lines) == WithLine(Fields(lines[..|lines| - 1]), last);
  }

  ghost predicate NoLaterGives(lines: seq<Text>, k: nat, key: Text) {
    forall i :: k < i < |lines| ==> !Gives(lines[i], key)
  }

  lemma NoLaterFront(lines: seq<Text>, k: nat, key: Text)
    requires k < |lines| - 1 && NoLaterGives(lines, k, key)
    ensures !Gives(lines[|lines| - 1], key) && NoLaterGives(lines[..|lines| - 1], k, key)
  {
  }

  /** Of several lines that give a key, the last one counts. */
  lemma {:induction false} LastLineWins(lines: seq<Text>, k: nat, key: Text, value: Text)
    requires k < |lines| && Gives(lines[k], key) && NoLaterGives(lines, k, key) && value == Given(lines[k])
    ensures Holds(Fields(lines), key, value)
    decreases |lines|
  {
    if k < |lines| - 1 {
      NoLaterFront(lines, k, key);
      LastLineWins(lines[..|lines| - 1], k, key, value);
    }
    NextLineGives(lines, key, value);
  }

  /** Frontmatter in which no line gives the issue is refused, whatever else it holds. */
  lemma NoIssueIsRefused(lines: seq<Text>, prose: Text)
    requires lines != [] && forall line :: line in lines ==> PlainLine(line) && !Gives(line, ISSUE)
    ensures ParseEntry(FENCE + [NEWLINE] + Join(lines, [NEWLINE]) + CLOSING + prose) == Failure(NoIssue)
  {
    LinesAreQuiet(lines);
    ClosingFence(Join(lines, [NEWLINE]), prose);
    forall i | 0 <= i < |lines|
      ensures NEWLINE !in lines[i]
    {
      assert PlainLine(lines[i]);
    }
    SplitJoin(lines, NEWLINE);
    NotGiven(lines, ISSUE);
    assert IntegerValue([]).None?;
  }

  lemma RenderShape(entry: Entry)
    ensures Render(entry)
         == FENCE + [NEWLINE] + Join(Lines(FieldsOf(entry)), [NEWLINE]) + CLOSING + Prose(entry.title, entry.summary)
  {
    var lines := Lines(FieldsOf(entry));
    var heading := [HASH, SPACE] + entry.title;
    var tail := [FENCE, [], heading, [], Trim(entry.summary), []];
    JoinAppend([FENCE] + lines, tail, [NEWLINE]);
    JoinAppend([FENCE], lines, [NEWLINE]);
    TailText(heading, Trim(entry.summary));
    TailIsProse(entry.title, Trim(entry.summary));
    Glue(FENCE + [NEWLINE] + Join(lines, [NEWLINE]), Prose(entry.title, entry.summary));
  }

  lemma TailText(heading: Text, summary: Text)
    ensures Join([FENCE, [], heading, [], summary, []], [NEWLINE])
         == FENCE + [NEWLINE] + ([NEWLINE] + (heading + [NEWLINE] + ([NEWLINE] + (summary + [NEWLINE]))))
  {
    var nl: Text := [NEWLINE];
    JoinCons([summary, []], nl);
    assert [summary, []][1..] == [[]];
    assert Join([summary, []], nl) == summary + nl;
    JoinCons([[], summary, []], nl);
    assert [[], summary, []][1..] == [summary, []];
    assert [] + nl + Join([summary, []], nl) == nl + (summary + nl);
    JoinCons([heading, [], summary, []], nl);
    assert [heading, [], summary, []][1..] == [[], summary, []];
    JoinCons([[], heading, [], summary, []], nl);
    assert [[], heading, [], summary, []][1..] == [heading, [], summary, []];
    var below := Join([heading, [], summary, []], nl);
    assert [] + nl + below == nl + below;
    JoinCons([FENCE, [], heading, [], summary, []], nl);
    assert [FENCE, [], heading, [], summary, []][1..] == [[], heading, [], summary, []];
  }

  lemma TailIsProse(title: Text, summary: Text)
    ensures [NEWLINE] + ([HASH, SPACE] + title + [NEWLINE] + ([NEWLINE] + (summary + [NEWLINE])))
         == [NEWLINE, HASH, SPACE] + title + [NEWLINE, NEWLINE] + summary + [NEWLINE]
  {
  }

  lemma Glue(front: Text, prose: Text)
    ensures front + [NEWLINE] + (FENCE + [NEWLINE] + prose) == front + CLOSING + prose
  {
    assert [NEWLINE] + (FENCE + [NEWLINE]) == CLOSING;
  }

  // ------------------------------------------------------------------ the round trip

  /** The entries the printer and the reader agree on. */
  predicate Faithful(entry: Entry) {
    && entry.issue > 0
    && OneLine(entry.title)
    && (forall l :: l in entry.labels ==> l != [] && COMMA !in l)
    && entry.reproKey != Some([])
    && entry.summary != [] && Trimmed(entry.summary)
  }

  /** Reading a rendered entry is reading its own fields and its own prose. */
  lemma ParseOfRender(entry: Entry)
    ensures ParseEntry(Render(entry)) == EntryOf(Fields(Lines(FieldsOf(entry))), Prose(entry.title, entry.summary))
  {
    var lines := Lines(FieldsOf(entry));
    EntryLinesArePlain(entry);
    LinesAreQuiet(lines);
    RenderShape(entry);
    ClosingFence(Join(lines, [NEWLINE]), Prose(entry.title, entry.summary));
    forall i | 0 <= i < |lines|
      ensures NEWLINE !in lines[i]
    {
      assert PlainLine(lines[i]);
    }
    SplitJoin(lines, NEWLINE);
  }

  lemma ScalarOfQuote(t: Text)
    ensures Scalar(Json.Quote(t)) == Some(t)
  {
    ScalarOfQuoted([], t);
    assert [] + Json.Quote(t) == Json.Quote(t);
  }

  lemma PiecesRead(entry: Entry)
    ensures IntegerValue(Integer(entry.issue)) == Some(entry.issue)
    ensures Scalar(Json.Quote(entry.title)) == Some(entry.title) && Scalar([]) == Some([])
    ensures HasReproKey(entry) ==> Scalar(Json.Quote(entry.reproKey.value)) == Some(entry.reproKey.value)
    ensures var related := ParseList(RenderList(Integers(entry.related)));
            related.Some? && Numbers(related.value) == entry.related
  {
    IntegerRoundTrip(entry.issue);
    ScalarOfQuote(entry.title);
    if HasReproKey(entry) {
      ScalarOfQuote(entry.reproKey.value);
    }
    TrimOfTrimmed([]);
    IntegersArePrinted(entry.related);
    ParsePrinted(Integers(entry.related), Integers(entry.related));
  }

  /** The entry read from fields that spell one out, or the reason there is none. */
  lemma EntrySpelled(fields: map<Text, Text>, prose: Text, entry: Entry)
    requires Spells(fields, entry)
    ensures var labels := ParseList(RenderList(Quoted(entry.labels)));
      EntryOf(fields, prose) ==
        if entry.issue <= 0 then Failure(NoIssue)
        else if labels.None? then Failure(BadJson)
        else Success(entry.(
          labels := labels.value,
          reproKey := if HasReproKey(entry) then entry.reproKey else None,
          summary := Summary(prose)))
  {
    PiecesRead(entry);
    KeysDiffer();
  }

  /** What was read is the entry exactly when its labels and its summary are. */
  lemma Agreement(entry: Entry, labels: Option<seq<Text>>, summary: Text)
    requires labels == Some(entry.labels) <==> forall l :: l in entry.labels ==> l != [] && COMMA !in l
    requires summary == entry.summary <==> entry.summary != [] && Trimmed(entry.summary) && OneLine(entry.title)
    ensures Faithful(entry) <==>
      && 0 < entry.issue
      && labels.Some?
      && entry == entry.(
        labels := labels.value,
        reproKey := if HasReproKey(entry) then entry.reproKey else None,
        summary := summary)
  {
  }

  /**
   `parse(render(e))` gives back `e` exactly for the faithful entries: every other entry comes back
   changed, or not at all.
   */
  lemma RoundTrip(entry: Entry)
    ensures ParseEntry(Render(entry)) == Success(entry) <==> Faithful(entry)
  {
    var prose := Prose(entry.title, entry.summary);
    var labels := ParseList(RenderList(Quoted(entry.labels)));
    var summary := Summary(prose);
    ParseOfRender(entry);
    RenderedFields(entry);
    EntrySpelled(Fields(Lines(FieldsOf(entry))), prose, entry);
    LabelsRoundTrip(entry.labels);
    SummaryRoundTrip(entry.title, entry.summary);
    Agreement(entry, labels, summary);
  }

  predicate IsLost(entry: Entry) {
    ParseEntry(Render(entry)) != Success(entry)
  }

  const KEPT: Entry := Entry(1, [97], [[98]], Open, None, [], [99])

  /** An entry that reads back, and one change to each part of it that does not. */
  lemma EntriesThatAreLost()
    ensures !IsLost(KEPT)
    ensures IsLost(KEPT.(issue := 0)) && IsLost(KEPT.(reproKey := Some([])))
    ensures IsLost(KEPT.(labels := [[98, COMMA, 98]])) && IsLost(KEPT.(labels := [[]]))
    ensures IsLost(KEPT.(summary := [])) && IsLost(KEPT.(summary := [99, SPACE]))
    ensures IsLost(KEPT.(title := [97, NEWLINE, 97]))
  {
    ChangeIsLost(KEPT.(issue := 0));
    ChangeIsLost(KEPT.(reproKey := Some([])));
    LabelIsLost([98, COMMA, 98]);
    LabelIsLost([]);
    ChangeIsLost(KEPT.(summary := []));
    ChangeIsLost(KEPT.(summary := [99, SPACE]));
    SecondLineIsLost();
    PlainEntryIsKept();
  }

  /** How an entry is printed, line by line. */
  lemma PrintedLines()
    ensures Render(KEPT) == Join(
              [Lit("---"), Lit("issue: 1"), Lit("title: \"a\""), Lit("labels: [\"b\"]"), Lit("state: open"),
               Lit("related: []"), Lit("---"), [], Lit("# a"), [], Lit("c"), []],
              [NEWLINE])
  {
    PrintedFields();
    PrintedProse();
    InOneList(Lines(FieldsOf(KEPT)), [HASH, SPACE] + KEPT.title, Trim(KEPT.summary));
  }

  lemma InOneList(fields: seq<Text>, heading: Text, summary: Text)
    requires |fields| == 5
    ensures [FENCE] + fields + [FENCE, [], heading, [], summary, []]
         == [FENCE, fields[0], fields[1], fields[2], fields[3], fields[4], FENCE, [], heading, [], summary, []]
  {
  }

  lemma PrintedProse()
    ensures FENCE == Lit("---") && [HASH, SPACE] + KEPT.title == Lit("# a") && Trim(KEPT.summary) == Lit("c")
  {
    TrimOfTrimmed([99]);
  }

  lemma PrintedFields()
    ensures |FieldsOf(KEPT)| == 5
    ensures var lines := Lines(FieldsOf(KEPT));
            lines[0] == Lit("issue: 1") && lines[1] == Lit("title: \"a\"") && lines[2] == Lit("labels: [\"b\"]")
            && lines[3] == Lit("state: open") && lines[4] == Lit("related: []")
  {
    assert Decimal(1) == [49] && Integer(1) == [49];
    assert FieldLine(ISSUE, [49]) == Lit("issue: 1");
    assert Json.Quote([97]) == [QUOTE, 97, QUOTE] && Json.Quote([98]) == [QUOTE, 98, QUOTE];
    assert FieldLine(TITLE, [QUOTE, 97, QUOTE]) == Lit("title: \"a\"");
    assert Json.Escape([97]) == [97] && Json.Escape([98]) == [98];
    assert Quoted([[98]]) == [Json.Quote([98])] && Integers([]) == [];
  }

  lemma ChangeIsLost(entry: Entry)
    requires !Faithful(entry)
    ensures IsLost(entry)
  {
    RoundTrip(entry);
  }

  lemma LabelIsLost(name: Text)
    requires name == [] || COMMA in name
    ensures IsLost(KEPT.(labels := [name]))
  {
    RoundTrip(KEPT.(labels := [name]));
    assert name in [name];
  }

  lemma SecondLineIsLost()
    ensures IsLost(KEPT.(title := [97, NEWLINE, 97]))
  {
    var title: Text := [97, NEWLINE, 97];
    RoundTrip(KEPT.(title := title));
    assert title[1] == NEWLINE;
    assert UntilUnit(title, NEWLINE) == 1;
    assert !IsSpace(title[1..][1]);
  }

  lemma PlainEntryIsKept()
    ensures !IsLost(KEPT)
  {
    RoundTrip(KEPT);
    assert NEWLINE !in KEPT.title;
    assert KEPT.labels[0] == [98] && COMMA !in [98];
    assert OneLine(KEPT.title);
  }
}
