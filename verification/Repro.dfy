/**
 The markdown half of a proof of concept (factory/automation/repro.ts): `RenderNote` prints it,
 `ParseNote` reads back the fields a later attempt needs.

 The reader's patterns are searched exactly as the regular expressions do: the heading at the start
 of any line, the claim from the first line on, the steps wherever their heading first occurs.
 */
module Repro {
  import opened Wrappers
  import opened Utf16

  datatype Repro = Repro(
    issue: nat,
    attempt: nat,
    claim: Text,
    steps: seq<Text>,
    expected: Text,
    actual: Text)

  /** The fields the reader recovers. */
  datatype Note = Note(issue: nat, attempt: nat, claim: Text, steps: seq<Text>)

  datatype Error = NoHeading

  const REPRO_FOR: Text := Lit("# Repro for #")
  const ATTEMPT: Text := Lit(", attempt ")
  const STEPS: Text := Lit("## Steps")
  const EXPECTED: Text := Lit("## Expected")
  const BREAK: Text := [NEWLINE, NEWLINE]

  // ------------------------------------------------------------------ printing

  function Heading(issue: nat, attempt: nat): Text {
    REPRO_FOR + Decimal(issue) + ATTEMPT + Decimal(attempt)
  }

  function NumberedStep(index: nat, step: Text): Text {
    Decimal(index + 1) + [DOT, SPACE] + Trim(step)
  }

  function Numbered(steps: seq<Text>): (lines: seq<Text>)
    ensures |lines| == |steps|
    ensures forall i :: 0 <= i < |steps| ==> lines[i] == NumberedStep(i, steps[i])
  {
    seq(|steps|, i requires 0 <= i < |steps| => NumberedStep(i, steps[i]))
  }

  function ProgramPath(issue: nat, attempt: nat): Text {
    Lit("factory/repros/") + Decimal(issue) + Lit("/attempt-") + Decimal(attempt) + Lit(".ts")
  }

  /** Everything after the steps. */
  function Outcome(repro: Repro): seq<Text> {
    [[], EXPECTED, [], Trim(repro.expected), [], Lit("## Actual"), [], Trim(repro.actual), [],
     Lit("## Running it"), [], Lit("```sh"), Lit("node ") + ProgramPath(repro.issue, repro.attempt), Lit("```"), [],
     Lit("A non-zero exit means the bug is present."), []]
  }

  function RenderNote(repro: Repro): Text {
    Join([Heading(repro.issue, repro.attempt), [], Trim(repro.claim), [], STEPS, []]
         + Numbered(repro.steps) + Outcome(repro),
         [NEWLINE])
  }

  // ------------------------------------------------------------------ reading

  /** The end of the run of digits that begins at `from`. */
  function DigitsEnd(t: Text, from: nat): (end: nat)
    requires from <= |t|
    ensures from <= end <= |t| && forall k :: from <= k < end ==> IsDigit(t[k])
    ensures end < |t| ==> !IsDigit(t[end])
    decreases |t| - from
  {
    if from < |t| && IsDigit(t[from]) then DigitsEnd(t, from + 1) else from
  }

  predicate IsTerminator(u: Unit) {
    u == 10 || u == 13 || u == 0x2028 || u == 0x2029
  }

  predicate LineStart(t: Text, i: nat)
    requires i <= |t|
  {
    i == 0 || IsTerminator(t[i - 1])
  }

  /** White space up to the end of a line, or of the text. */
  predicate OnlySpaceToLineEnd(t: Text, from: nat)
    requires from <= |t|
  {
    var end := SkipSpace(t, from);
    end == |t| || exists k :: from <= k < end && IsTerminator(t[k])
  }

  /** The issue and attempt numbers of a heading that begins at `i`. */
  function HeadingAt(t: Text, i: nat): Option<(nat, nat)>
    requires i <= |t|
  {
    if !OccursAt(t, REPRO_FOR, i) then None
    else
      var from := i + |REPRO_FOR|;
      var end := DigitsEnd(t, from);
      if end == from || !OccursAt(t, ATTEMPT, end) then None
      else
        var from' := end + |ATTEMPT|;
        var end' := DigitsEnd(t, from');
        if end' == from' || !OnlySpaceToLineEnd(t, end') then None
        else Some((DigitsValue(t[from..end]), DigitsValue(t[from'..end'])))
  }

  function FindHeading(t: Text, i: nat): Option<(nat, nat)>
    requires i <= |t|
    decreases |t| - i
  {
    if LineStart(t, i) && HeadingAt(t, i).Some? then HeadingAt(t, i)
    else if i == |t| then None
    else FindHeading(t, i + 1)
  }

  /** The text from under the first line, set off by a blank one, to a section title. */
  function ClaimBefore(t: Text, title: Text): (claim: Text)
    ensures Trimmed(claim)
  {
    var end := UntilUnit(t, NEWLINE);
    if !([HASH, SPACE] <= t[..end]) || !OccursAt(t, BREAK, end) then []
    else
      TrimmedBlock(BlockBehind(t, end + 2, BREAK + title))
  }

  function TrimmedBlock(block: Option<Text>): (r: Text)
    ensures Trimmed(r)
  {
    match block case None => [] case Some(text) => Trim(text)
  }

  /** The text from a position to what closes it. */
  function BlockBehind(t: Text, from: nat, close: Text): Option<Text>
    requires from <= |t|
  {
    match Find(t, close, from)
    case None => None
    case Some(end) => Some(t[from..end])
  }

  /** The text from behind a mark to what closes it. */
  function BlockAfter(t: Text, mark: Text, close: Text): Option<Text> {
    match Find(t, mark, 0)
    case None => None
    case Some(at) => BlockBehind(t, at + |mark|, close)
  }

  /** The text between the first section of one title and the next of the other. */
  function BlockBetween(t: Text, title: Text, next: Text): Option<Text> {
    BlockAfter(t, title + BREAK, BREAK + next)
  }

  /** A line without the number it leads with. */
  function WithoutNumber(line: Text): (r: Text)
    ensures |r| <= |line| && r == line[|line| - |r|..]
  {
    var end := DigitsEnd(line, 0);
    if 0 < end < |line| && line[end] == DOT then line[SkipSpace(line, end + 1)..] else line
  }

  /** The non-blank lines, without their numbers. */
  function StepsOf(lines: seq<Text>): (steps: seq<Text>)
    ensures forall s :: s in steps ==> s != [] && Trimmed(s)
  {
    if lines == [] then []
    else
      var first := Trim(WithoutNumber(lines[0]));
      if first == [] then StepsOf(lines[1..]) else [first] + StepsOf(lines[1..])
  }

  function StepsOfBlock(block: Option<Text>): seq<Text> {
    match block
    case None => []
    case Some(text) => StepsOf(Split(text, NEWLINE))
  }

  function ParseNote(t: Text): Result<Note, Error> {
    match FindHeading(t, 0)
    case None => Failure(NoHeading)
    case Some((issue, attempt)) =>
      Success(Note(issue, attempt, ClaimBefore(t, STEPS), StepsOfBlock(BlockBetween(t, STEPS, EXPECTED))))
  }

  // ------------------------------------------------------------------ what is refused

  /** A line that begins at `i` with the words of a heading round these two numbers, and nothing behind. */
  predicate HeadsLine(t: Text, i: nat, issue: Text, attempt: Text) {
    var words := REPRO_FOR + issue + ATTEMPT + attempt;
    && i <= |t| && LineStart(t, i) && OccursAt(t, words, i)
    && issue != [] && Digits(issue) && attempt != [] && Digits(attempt)
    && OnlySpaceToLineEnd(t, i + |words|)
  }

  lemma NoDigitBehind(t: Text, end: nat)
    requires end <= |t|
    ensures OnlySpaceToLineEnd(t, end) && end < |t| ==> !IsDigit(t[end])
  {
  }

  lemma DigitsEndAt(t: Text, from: nat, digits: Text)
    requires OccursAt(t, digits, from) && Digits(digits)
    requires from + |digits| < |t| ==> !IsDigit(t[from + |digits|])
    ensures DigitsEnd(t, from) == from + |digits| && t[from..from + |digits|] == digits
  {
    assert forall k :: from <= k < from + |digits| ==> t[k] == digits[k - from];
  }

  lemma WordsOccur(t: Text, i: nat, issue: Text, attempt: Text)
    ensures OccursAt(t, REPRO_FOR + issue + ATTEMPT + attempt, i) <==>
              && OccursAt(t, REPRO_FOR, i) && OccursAt(t, issue, i + |REPRO_FOR|)
              && OccursAt(t, ATTEMPT, i + |REPRO_FOR| + |issue|)
              && OccursAt(t, attempt, i + |REPRO_FOR| + |issue| + |ATTEMPT|)
  {
    OccursSplit(t, REPRO_FOR + issue + ATTEMPT, attempt, i);
    OccursSplit(t, REPRO_FOR + issue, ATTEMPT, i);
    OccursSplit(t, REPRO_FOR, issue, i);
  }

  lemma OccursFirst(t: Text, sub: Text, i: nat)
    requires OccursAt(t, sub, i) && sub != []
    ensures i < |t| && t[i] == sub[0]
  {
    assert t[i + 0] == sub[0];
  }

  /** The same piece by piece: where the two runs of digits end. */
  predicate HeadsBetween(t: Text, i: nat, end: nat, end': nat) {
    var from, from' := i + |REPRO_FOR|, end + |ATTEMPT|;
    && LineStartAt(t, i) && OccursAt(t, REPRO_FOR, i)
    && from < end <= |t| && DigitsEnd(t, from) == end && OccursAt(t, ATTEMPT, end)
    && from' < end' <= |t| && DigitsEnd(t, from') == end' && OnlySpaceToLineEnd(t, end')
  }

  predicate LineStartAt(t: Text, i: nat) {
    i <= |t| && LineStart(t, i)
  }

  lemma HeadingBetween(t: Text, i: nat, end: nat, end': nat)
    requires HeadsBetween(t, i, end, end')
    ensures HeadingAt(t, i)
         == Some((DigitsValue(t[i + |REPRO_FOR|..end]), DigitsValue(t[end + |ATTEMPT|..end'])))
  {
  }

  lemma HeadingSplits(t: Text, i: nat) returns (end: nat, end': nat)
    requires LineStartAt(t, i) && HeadingAt(t, i).Some?
    ensures HeadsBetween(t, i, end, end')
  {
    end := DigitsEnd(t, i + |REPRO_FOR|);
    end' := DigitsEnd(t, end + |ATTEMPT|);
  }

  lemma HeadingOf(t: Text, i: nat, end: nat, end': nat, issue: Text, attempt: Text)
    requires HeadsBetween(t, i, end, end')
    requires t[i + |REPRO_FOR|..end] == issue && t[end + |ATTEMPT|..end'] == attempt
    ensures HeadingAt(t, i) == Some((DigitsValue(issue), DigitsValue(attempt)))
  {
    HeadingBetween(t, i, end, end');
  }

  lemma HeadingReads(t: Text, i: nat, issue: Text, attempt: Text)
    requires HeadsLine(t, i, issue, attempt)
    ensures HeadingAt(t, i) == Some((DigitsValue(issue), DigitsValue(attempt)))
  {
    var end := i + |REPRO_FOR| + |issue|;
    var end' := end + |ATTEMPT| + |attempt|;
    WordsOccur(t, i, issue, attempt);
    OccursFirst(t, ATTEMPT, end);
    assert ATTEMPT[0] == COMMA;
    DigitsEndAt(t, i + |REPRO_FOR|, issue);
    NoDigitBehind(t, end');
    DigitsEndAt(t, end + |ATTEMPT|, attempt);
    HeadingOf(t, i, end, end', issue, attempt);
  }

  lemma OccursSlice(t: Text, from: nat, end: nat)
    requires from <= end <= |t|
    ensures OccursAt(t, t[from..end], from)
  {
  }

  lemma BetweenIsWords(t: Text, i: nat, end: nat, end': nat)
    requires HeadsBetween(t, i, end, end')
    ensures HeadsLine(t, i, t[i + |REPRO_FOR|..end], t[end + |ATTEMPT|..end'])
  {
    var issue, attempt := t[i + |REPRO_FOR|..end], t[end + |ATTEMPT|..end'];
    OccursSlice(t, i + |REPRO_FOR|, end);
    OccursSlice(t, end + |ATTEMPT|, end');
    WordsOccur(t, i, issue, attempt);
  }

  lemma HeadingWords(t: Text, i: nat) returns (issue: Text, attempt: Text)
    requires LineStartAt(t, i) && HeadingAt(t, i).Some?
    ensures HeadsLine(t, i, issue, attempt)
    ensures HeadingAt(t, i) == Some((DigitsValue(issue), DigitsValue(attempt)))
  {
    var end, end' := HeadingSplits(t, i);
    HeadingBetween(t, i, end, end');
    BetweenIsWords(t, i, end, end');
    issue, attempt := t[i + |REPRO_FOR|..end], t[end + |ATTEMPT|..end'];
  }

  predicate HeadsAt(t: Text, i: nat) {
    i <= |t| && LineStart(t, i) && HeadingAt(t, i).Some?
  }

  lemma {:induction false} FindHeadingSkips(t: Text, i: nat)
    requires i <= |t|
    ensures FindHeading(t, i).None? ==> forall j :: i <= j ==> !HeadsAt(t, j)
    decreases |t| - i
  {
    if !HeadsAt(t, i) && i < |t| {
      FindHeadingSkips(t, i + 1);
    }
  }

  ghost predicate NoneBetween(t: Text, from: nat, to: nat) {
    forall k :: from <= k < to ==> !HeadsAt(t, k)
  }

  lemma NoneFrom(t: Text, from: nat, to: nat)
    requires !HeadsAt(t, from) && NoneBetween(t, from + 1, to)
    ensures NoneBetween(t, from, to)
  {
  }

  lemma {:induction false} FindHeadingIs(t: Text, i: nat) returns (at: nat)
    requires i <= |t| && FindHeading(t, i).Some?
    ensures i <= at && HeadsAt(t, at) && HeadingAt(t, at) == FindHeading(t, i) && NoneBetween(t, i, at)
    decreases |t| - i
  {
    if HeadsAt(t, i) {
      at := i;
    } else {
      at := FindHeadingIs(t, i + 1);
      NoneFrom(t, i, at);
    }
  }

  /** Exactly the texts without such a line are refused, whoever wrote them. */
  lemma RefusedIff(t: Text)
    ensures ParseNote(t).Failure? <==> !exists i: nat, issue, attempt :: HeadsLine(t, i, issue, attempt)
  {
    if FindHeading(t, 0).Some? {
      var at := FindHeadingIs(t, 0);
      var issue, attempt := HeadingWords(t, at);
    } else {
      FindHeadingSkips(t, 0);
      forall i: nat, issue, attempt
        ensures !HeadsLine(t, i, issue, attempt)
      {
        HeadsOnlyAt(t, i, issue, attempt);
      }
    }
  }

  lemma HeadsOnlyAt(t: Text, i: nat, issue: Text, attempt: Text)
    ensures HeadsLine(t, i, issue, attempt) ==> HeadsAt(t, i)
  {
    if HeadsLine(t, i, issue, attempt) {
      HeadingReads(t, i, issue, attempt);
    }
  }

  /** The numbers that are read are those of the first such line. */
  lemma NumbersAreOfFirstHeading(t: Text) returns (i: nat, issue: Text, attempt: Text)
    requires ParseNote(t).Success?
    ensures HeadsLine(t, i, issue, attempt)
    ensures forall k: nat, a, b :: k < i ==> !HeadsLine(t, k, a, b)
    ensures ParseNote(t).value.issue == DigitsValue(issue) && ParseNote(t).value.attempt == DigitsValue(attempt)
  {
    i := FindHeadingIs(t, 0);
    issue, attempt := HeadingWords(t, i);
    forall k: nat, a, b | k < i
      ensures !HeadsLine(t, k, a, b)
    {
      HeadsOnlyAt(t, k, a, b);
    }
  }

  // ------------------------------------------------------------------ what reading can yield

  /** A step as the reader can return one. */
  predicate PlainStep(step: Text) {
    step != [] && Trimmed(step) && NEWLINE !in step
  }

  lemma TrimHasNo(t: Text, u: Unit)
    requires u !in t
    ensures u !in Trim(t)
  {
  }

  lemma {:induction false} StepsArePlain(lines: seq<Text>)
    requires forall i :: 0 <= i < |lines| ==> NEWLINE !in lines[i]
    ensures forall s :: s in StepsOf(lines) ==> PlainStep(s)
  {
    if lines != [] {
      StepsArePlain(lines[1..]);
      assert NEWLINE !in lines[0];
      TrimHasNo(WithoutNumber(lines[0]), NEWLINE);
    }
  }

  /** Whatever text is read, its claim is trimmed and its steps are non-empty single lines. */
  lemma ReadingIsPlain(t: Text)
    ensures ParseNote(t).Success? ==>
      && Trimmed(ParseNote(t).value.claim)
      && forall s :: s in ParseNote(t).value.steps ==> PlainStep(s)
  {
    var block := BlockBetween(t, STEPS, EXPECTED);
    if block.Some? {
      StepsArePlain(Split(block.value, NEWLINE));
    }
  }

  // ------------------------------------------------------------------ the steps

  lemma DigitsEndIs(before: Text, digits: Text, rest: Text)
    requires Digits(digits) && (rest != [] ==> !IsDigit(rest[0]))
    ensures DigitsEnd(before + digits + rest, |before|) == |before| + |digits|
  {
    var t := before + digits + rest;
    assert forall k :: |before| <= k < |before| + |digits| ==> t[k] == digits[k - |before|];
    assert rest != [] ==> t[|before| + |digits|] == rest[0];
  }

  lemma NumberComesOff(index: nat, step: Text)
    requires PlainStep(step)
    ensures Trim(WithoutNumber(NumberedStep(index, step))) == step
    ensures NEWLINE !in NumberedStep(index, step)
  {
    TrimOfTrimmed(step);
    NumberStripped(Decimal(index + 1), step);
  }

  lemma NumberStripped(number: Text, step: Text)
    requires number != [] && Digits(number) && step != [] && !IsSpace(step[0])
    ensures WithoutNumber(number + [DOT, SPACE] + step) == step
  {
    var line := number + [DOT, SPACE] + step;
    DigitsEndIs([], number, [DOT, SPACE] + step);
    assert [] + number + ([DOT, SPACE] + step) == line;
    var end := |number|;
    assert line[end] == DOT && line[end + 1] == SPACE && line[end + 2] == step[0];
    assert line[end + 2..] == step;
  }

  lemma {:induction false} StepsReadBack(lines: seq<Text>, steps: seq<Text>)
    requires |lines| == |steps|
    requires forall i :: 0 <= i < |steps| ==> steps[i] != [] && Trim(WithoutNumber(lines[i])) == steps[i]
    ensures StepsOf(lines) == steps
  {
    if lines != [] {
      StepsReadBack(lines[1..], steps[1..]);
      assert steps == [steps[0]] + steps[1..];
    }
  }

  ghost predicate AllPlain(steps: seq<Text>) {
    forall i :: 0 <= i < |steps| ==> PlainStep(steps[i])
  }

  /** The numbered lines of plain steps, split again and stripped, are the steps. */
  lemma NumberedReadBack(steps: seq<Text>)
    requires steps != [] && AllPlain(steps)
    ensures StepsOf(Split(Join(Numbered(steps), [NEWLINE]), NEWLINE)) == steps
  {
    var lines := Numbered(steps);
    forall i | 0 <= i < |steps|
      ensures Trim(WithoutNumber(lines[i])) == steps[i] && NEWLINE !in lines[i]
    {
      assert PlainStep(steps[i]);
      NumberComesOff(i, steps[i]);
    }
    SplitJoin(lines, NEWLINE);
    StepsReadBack(lines, steps);
  }

  /** No line break is followed by another one, or ends the text. */
  predicate NoBlankLine(t: Text) {
    forall i :: 0 <= i < |t| && t[i] == NEWLINE ==> i + 1 < |t| && t[i + 1] != NEWLINE
  }

  predicate PlainLine(line: Text) {
    line != [] && NEWLINE !in line
  }

  lemma {:induction false} LinesHaveNoBlank(lines: seq<Text>)
    requires lines != [] && forall i :: 0 <= i < |lines| ==> PlainLine(lines[i])
    ensures var t := Join(lines, [NEWLINE]); NoBlankLine(t) && t != [] && t[0] != NEWLINE
    decreases |lines|
  {
    assert PlainLine(lines[0]);
    if |lines| > 1 {
      LinesHaveNoBlank(lines[1..]);
      JoinCons(lines, [NEWLINE]);
      NoBlankCons(lines[0], Join(lines[1..], [NEWLINE]));
    }
  }

  lemma NoBlankCons(line: Text, rest: Text)
    requires PlainLine(line) && NoBlankLine(rest) && rest != [] && rest[0] != NEWLINE
    ensures NoBlankLine(line + [NEWLINE] + rest)
  {
    var t := line + [NEWLINE] + rest;
    forall i | 0 <= i < |t| && t[i] == NEWLINE
      ensures i + 1 < |t| && t[i + 1] != NEWLINE
    {
      if i > |line| {
        assert t[i] == rest[i - |line| - 1];
      }
    }
  }

  // ------------------------------------------------------------------ the pieces of a note

  /** What the reader's searches rely on in a heading. */
  predicate PlainHeading(heading: Text) {
    && [HASH, SPACE] <= heading
    && NEWLINE !in heading
    && forall i :: 0 <= i < |heading| && heading[i] == HASH ==> i + 1 < |heading| && heading[i + 1] != HASH
  }

  /** A section title: what the searches rely on in the two they look for. */
  predicate SectionTitle(title: Text) {
    && 3 <= |title| && title[0] == HASH && title[1] == HASH
    && NEWLINE !in title
  }

  lemma TitlesAreTitles()
    ensures SectionTitle(STEPS) && SectionTitle(EXPECTED)
    ensures 3 < |STEPS| && 3 < |EXPECTED| && STEPS[3] != EXPECTED[3]
  {
  }

  /** The note in front of the steps. */
  function Front(heading: Text, claim: Text, title: Text): Text {
    heading + BREAK + claim + BREAK + title + BREAK
  }

  /** What follows the heading and its break. */
  function Under(claim: Text, title: Text, body: Text): Text {
    claim + BREAK + (title + BREAK + body)
  }

  lemma FrontUnder(heading: Text, claim: Text, title: Text, body: Text)
    ensures Front(heading, claim, title) + body == heading + BREAK + Under(claim, title, body)
  {
  }

  lemma BreakAt(t: Text, i: nat)
    requires OccursAt(t, BREAK, i)
    ensures t[i] == NEWLINE && t[i + 1] == NEWLINE
  {
    assert t[i + 0] == BREAK[0] && t[i + 1] == BREAK[1];
  }

  lemma TitleAt(t: Text, title: Text, i: nat)
    requires SectionTitle(title) && OccursAt(t, title, i)
    ensures t[i] == HASH && t[i + 1] == HASH
  {
    assert t[i + 0] == title[0] && t[i + 1] == title[1];
  }

  /** A one-line title that starts no later than the break behind the claim lies inside the claim. */
  lemma TitleInside(t: Text, claim: Text, title: Text, i: nat)
    requires OccursAt(t, claim, 0) && OccursAt(t, BREAK, |claim|)
    requires SectionTitle(title) && OccursAt(t, title, i) && i < |claim| + 2
    ensures OccursAt(claim, title, i)
  {
    BreakAt(t, |claim|);
    OccursOnOneLine(t, title, i);
    assert t[i] != NEWLINE;
    OccursInside(t, claim, 0, title, i);
  }

  lemma UnderOpens(claim: Text, title: Text, body: Text)
    ensures OccursAt(Under(claim, title, body), claim, 0) && OccursAt(Under(claim, title, body), BREAK, |claim|)
    ensures OccursAt(Under(claim, title, body), title, |claim| + 2)
    ensures OccursAt(Under(claim, title, body), BREAK, |claim| + 2 + |title|)
    ensures Under(claim, title, body) == (claim + BREAK) + (title + BREAK + body)
  {
    var t := Under(claim, title, body);
    assert t == (claim + BREAK) + (title + BREAK + body);
  }

  /** The claim ends at the first title set off inside it, or at its own end. */
  lemma ClaimEnds(claim: Text, title: Text, body: Text)
    requires Trimmed(claim) && SectionTitle(title)
    ensures var at := Find(Under(claim, title, body), BREAK + title, 0);
            && at.Some? && at.value <= |claim|
            && (at.value == |claim| <==> !Contains(claim, BREAK + title))
  {
    var t := Under(claim, title, body);
    UnderOpens(claim, title, body);
    OccursSplit(t, BREAK, title, |claim|);
    assert OccursAt(t, BREAK + title, |claim|);
    if Contains(claim, BREAK + title) {
      FindInPrefix(claim, BREAK + (title + BREAK + body), BREAK + title);
      Regroup(claim, BREAK, title + BREAK + body);
    } else {
      forall i | 0 <= i < |claim|
        ensures !OccursAt(t, BREAK + title, i)
      {
        NotInClaim(t, claim, title, i);
      }
      FindIs(t, BREAK + title, 0, |claim|);
    }
  }

  lemma NotInClaim(t: Text, claim: Text, title: Text, i: nat)
    requires OccursAt(t, claim, 0) && OccursAt(t, BREAK, |claim|)
    requires Trimmed(claim) && SectionTitle(title) && !Contains(claim, BREAK + title) && i < |claim|
    ensures !OccursAt(t, BREAK + title, i)
  {
    if OccursAt(t, BREAK + title, i) {
      OccursSplit(t, BREAK, title, i);
      BreakAt(t, i);
      assert claim[|claim| - 1] == t[..|claim|][|claim| - 1];
      TitleInside(t, claim, title, i + 2);
      OccursInside(t, claim, 0, BREAK + title, i);
    }
  }

  lemma HeadingEnds(heading: Text, below: Text)
    requires PlainHeading(heading)
    ensures UntilUnit(heading + BREAK + below, NEWLINE) == |heading|
    ensures OccursAt(heading + BREAK + below, BREAK, |heading|)
    ensures (heading + BREAK + below)[..|heading|] == heading
  {
    var t := heading + BREAK + below;
    assert t[|heading|] == NEWLINE;
    assert forall k :: 0 <= k < |heading| ==> t[k] == heading[k];
  }

  /** The steps section is not looked for in vain in the heading. */
  lemma NoTitleInHeading(heading: Text, below: Text, title: Text, i: nat)
    requires PlainHeading(heading) && SectionTitle(title) && i < |heading| + 2
    ensures !OccursAt(heading + BREAK + below, title + BREAK, i)
  {
    var t := heading + BREAK + below;
    HeadingEnds(heading, below);
    BreakAt(t, |heading|);
    assert forall k :: 0 <= k < |heading| ==> t[k] == heading[k];
    OccursSplit(t, title, BREAK, i);
    if OccursAt(t, title, i) {
      TitleAt(t, title, i);
    }
  }

  lemma NoEarlierMark(claim: Text, title: Text, body: Text, i: nat)
    requires SectionTitle(title) && !Contains(claim + BREAK, title + BREAK) && i < |claim| + 2
    ensures !OccursAt(Under(claim, title, body), title + BREAK, i)
  {
    var t := Under(claim, title, body);
    UnderOpens(claim, title, body);
    OccursSplit(t, title, BREAK, i);
    if OccursAt(t, title + BREAK, i) {
      TitleInside(t, claim, title, i);
      OccursInPrefix(claim + BREAK, title + BREAK + body, title + BREAK, i);
    }
  }

  /** A claim that names no steps section, its own break included, leaves the first one to the note. */
  lemma StepsFound(claim: Text, title: Text, body: Text)
    requires SectionTitle(title) && !Contains(claim + BREAK, title + BREAK)
    ensures Find(Under(claim, title, body), title + BREAK, 0) == Some(|claim| + 2)
  {
    var t := Under(claim, title, body);
    UnderOpens(claim, title, body);
    OccursSplit(t, title, BREAK, |claim| + 2);
    forall i | 0 <= i < |claim| + 2
      ensures !OccursAt(t, title + BREAK, i)
    {
      NoEarlierMark(claim, title, body, i);
    }
    FindIs(t, title + BREAK, 0, |claim| + 2);
  }

  /** Behind lines none of which is blank, the break in front of a title is the first one. */
  lemma BlockEnds(lines: Text, title: Text, rest: Text)
    requires NoBlankLine(lines) && SectionTitle(title)
    ensures Find(lines + (BREAK + title + rest), BREAK + title, 0) == Some(|lines|)
  {
    var sub := BREAK + title;
    Regroup(lines, sub, rest);
    OccursNext(lines + (sub + rest), lines, sub, rest);
    forall i | 0 <= i < |lines|
      ensures !OccursAt(lines + (sub + rest), sub, i)
    {
      NoCloseInLines(lines, title, rest, i);
    }
    FindIs(lines + (sub + rest), sub, 0, |lines|);
  }

  lemma NoCloseInLines(lines: Text, title: Text, rest: Text, i: nat)
    requires NoBlankLine(lines) && SectionTitle(title) && i < |lines|
    ensures !OccursAt(lines + (BREAK + title + rest), BREAK + title, i)
  {
    var t := lines + (BREAK + title + rest);
    assert t[i] == lines[i];
    if lines[i] == NEWLINE {
      assert t[i + 1] == lines[i + 1];
      NoOccurrence(t, BREAK + title, i, 1);
    } else {
      NoOccurrence(t, BREAK + title, i, 0);
    }
  }

  /** Searching on behind a prefix is searching what follows it. */
  lemma {:induction false} FindBehind(before: Text, t: Text, sub: Text, from: nat)
    requires from <= |t|
    ensures Find(before + t, sub, |before| + from)
      == match Find(t, sub, from) case None => None case Some(at) => Some(|before| + at)
    decreases |t| - from
  {
    OccursBehind(before, t, sub, from);
    if !OccursAt(t, sub, from) && from < |t| {
      FindBehind(before, t, sub, from + 1);
    }
  }

  lemma OccursBehind(before: Text, t: Text, sub: Text, i: nat)
    ensures OccursAt(before + t, sub, |before| + i) <==> OccursAt(t, sub, i)
  {
    var whole := before + t;
    if i + |sub| <= |t| {
      assert whole[|before| + i..|before| + i + |sub|] == t[i..i + |sub|];
    }
  }

  // ------------------------------------------------------------------ a rendered note

  function After(repro: Repro): Text {
    Join(Outcome(repro), [NEWLINE])
  }

  /** The steps, if there are any, and what follows them. */
  function Body(steps: seq<Text>, after: Text): Text {
    if steps == [] then after else Join(Numbered(steps), [NEWLINE]) + [NEWLINE] + after
  }

  lemma JoinSix(a: Text, c: Text, e: Text)
    ensures Join([a, [], c, [], e, []], [NEWLINE]) + [NEWLINE] == Front(a, c, e)
  {
    var nl: Text := [NEWLINE];
    JoinCons([e, []], nl);
    assert [e, []][1..] == [[]];
    JoinCons([[], e, []], nl);
    assert [[], e, []][1..] == [e, []];
    JoinCons([c, [], e, []], nl);
    assert [c, [], e, []][1..] == [[], e, []];
    JoinCons([[], c, [], e, []], nl);
    assert [[], c, [], e, []][1..] == [c, [], e, []];
    JoinCons([a, [], c, [], e, []], nl);
    assert [a, [], c, [], e, []][1..] == [[], c, [], e, []];
    SixPieces(a, c, e);
  }

  lemma SixPieces(a: Text, c: Text, e: Text)
    ensures a + [NEWLINE] + ([] + [NEWLINE] + (c + [NEWLINE] + ([] + [NEWLINE] + (e + [NEWLINE] + [])))) + [NEWLINE]
         == a + BREAK + c + BREAK + e + BREAK
  {
  }

  lemma NoteShape(repro: Repro)
    ensures RenderNote(repro)
         == Front(Heading(repro.issue, repro.attempt), Trim(repro.claim), STEPS) + Body(repro.steps, After(repro))
  {
    var front := [Heading(repro.issue, repro.attempt), [], Trim(repro.claim), [], STEPS, []];
    var lines, outcome := Numbered(repro.steps), Outcome(repro);
    assert front + lines + outcome == front + (lines + outcome);
    JoinAppend(front, lines + outcome, [NEWLINE]);
    JoinSix(Heading(repro.issue, repro.attempt), Trim(repro.claim), STEPS);
    if lines == [] {
      assert lines + outcome == outcome;
    } else {
      JoinAppend(lines, outcome, [NEWLINE]);
    }
  }

  /** How the program is run, and what its exit code says. */
  function RunningIt(repro: Repro): seq<Text> {
    [Lit("## Running it"), [], Lit("```sh"), Lit("node ") + ProgramPath(repro.issue, repro.attempt), Lit("```"), [],
     Lit("A non-zero exit means the bug is present."), []]
  }

  lemma JoinParagraph(text: Text, rest: seq<Text>)
    requires rest != []
    ensures Join([text, []] + rest, [NEWLINE]) == text + (BREAK + Join(rest, [NEWLINE]))
  {
    assert ([text, []] + rest)[1..] == [[]] + rest;
    JoinCons([text, []] + rest, [NEWLINE]);
    assert ([[]] + rest)[1..] == rest;
    JoinCons([[]] + rest, [NEWLINE]);
    ParagraphPieces(text, Join(rest, [NEWLINE]));
  }

  lemma ParagraphPieces(text: Text, rest: Text)
    ensures text + [NEWLINE] + ([] + [NEWLINE] + rest) == text + (BREAK + rest)
  {
  }

  lemma OutcomeInParts(repro: Repro)
    ensures Outcome(repro)
         == [[]] + ([Lit("## Expected"), []] + ([Trim(repro.expected), []]
            + ([Lit("## Actual"), []] + ([Trim(repro.actual), []] + RunningIt(repro)))))
  {
  }

  /** Behind the steps of a note stand what was expected and what happened, each under its own title. */
  lemma OutcomeIsTitled(repro: Repro)
    ensures After(repro)
         == [NEWLINE] + (Lit("## Expected") + (BREAK + (Trim(repro.expected) + (BREAK
            + (Lit("## Actual") + (BREAK + (Trim(repro.actual) + (BREAK
            + Join(RunningIt(repro), [NEWLINE])))))))))
  {
    var actual := [Trim(repro.actual), []] + RunningIt(repro);
    var titled := [Lit("## Actual"), []] + actual;
    var expected := [Trim(repro.expected), []] + titled;
    var outcome := [Lit("## Expected"), []] + expected;
    OutcomeInParts(repro);
    JoinParagraph(Trim(repro.actual), RunningIt(repro));
    JoinParagraph(Lit("## Actual"), actual);
    JoinParagraph(Trim(repro.expected), titled);
    JoinParagraph(Lit("## Expected"), expected);
    JoinBlankFirst(outcome);
  }

  /** In front of them stand the numbers, the claim and the steps, numbered from one. */
  lemma NoteIsTitled(repro: Repro)
    ensures RenderNote(repro)
         == (Lit("# Repro for #") + Decimal(repro.issue) + Lit(", attempt ") + Decimal(repro.attempt))
            + BREAK + Trim(repro.claim) + BREAK + Lit("## Steps") + BREAK + Body(repro.steps, After(repro))
    ensures forall i :: 0 <= i < |repro.steps| ==>
              Numbered(repro.steps)[i] == Decimal(i + 1) + Lit(". ") + Trim(repro.steps[i])
  {
    NoteShape(repro);
    assert [DOT, SPACE] == Lit(". ");
  }

  lemma JoinBlankFirst(rest: seq<Text>)
    requires rest != []
    ensures Join([[]] + rest, [NEWLINE]) == [NEWLINE] + Join(rest, [NEWLINE])
  {
    assert ([[]] + rest)[1..] == rest;
    JoinCons([[]] + rest, [NEWLINE]);
  }

  /** What follows the steps begins with a line break and the section of expectations. */
  lemma AfterShape(repro: Repro) returns (rest: Text)
    ensures After(repro) == [NEWLINE] + EXPECTED + ([NEWLINE] + rest)
  {
    var outcome := Outcome(repro);
    rest := Join(outcome[2..], [NEWLINE]);
    JoinCons(outcome, [NEWLINE]);
    JoinCons(outcome[1..], [NEWLINE]);
    assert outcome[1..][1..] == outcome[2..];
    assert outcome[0] == [] && outcome[1..][0] == EXPECTED;
    AfterPieces(EXPECTED, rest);
  }

  lemma AfterPieces(title: Text, rest: Text)
    ensures [] + [NEWLINE] + (title + [NEWLINE] + rest) == [NEWLINE] + title + ([NEWLINE] + rest)
    ensures [NEWLINE] + ([NEWLINE] + title + ([NEWLINE] + rest)) == BREAK + title + ([NEWLINE] + rest)
  {
  }

  lemma HeadingIsPlain(issue: nat, attempt: nat)
    ensures PlainHeading(Heading(issue, attempt))
  {
    var heading := Heading(issue, attempt);
    var p, d, q := |REPRO_FOR|, |Decimal(issue)|, |ATTEMPT|;
    assert REPRO_FOR[0] == HASH && REPRO_FOR[1] == SPACE && REPRO_FOR[12] == HASH && p == 13;
    assert forall i :: 0 < i < 12 ==> REPRO_FOR[i] != HASH;
    assert forall i :: 0 <= i < p ==> REPRO_FOR[i] != NEWLINE;
    assert forall i :: 0 <= i < q ==> ATTEMPT[i] != HASH && ATTEMPT[i] != NEWLINE;
    assert forall i :: 0 <= i < p ==> heading[i] == REPRO_FOR[i];
    assert forall i :: p <= i < p + d ==> heading[i] == Decimal(issue)[i - p];
    assert forall i :: p + d <= i < p + d + q ==> heading[i] == ATTEMPT[i - p - d];
    assert forall i :: p + d + q <= i < |heading| ==> heading[i] == Decimal(attempt)[i - p - d - q];
  }

  lemma DigitsBetween(t: Text, p: Text, d: Text, q: Text)
    requires t == p + d + q && Digits(d) && q != [] && !IsDigit(q[0])
    ensures DigitsEnd(t, |p|) == |p| + |d| && t[|p|..|p| + |d|] == d && OccursAt(t, p, 0)
  {
    DigitsEndIs(p, d, q);
  }

  lemma OccursNext(t: Text, before: Text, sub: Text, after: Text)
    requires t == before + sub + after
    ensures OccursAt(t, sub, |before|)
  {
  }

  lemma FiveFromLeft(p: Text, d: Text, q: Text, e: Text, rest: Text)
    ensures p + d + q + e + rest == p + d + (q + e + rest)
    ensures p + d + q + e + rest == (p + d) + q + (e + rest)
    ensures p + d + q + e + rest == (p + d + q) + e + rest
  {
  }

  lemma SpaceAtLineEnd(t: Text, before: Text, rest: Text)
    requires t == before + rest && rest != [] && rest[0] == NEWLINE
    ensures OnlySpaceToLineEnd(t, |before|)
  {
    assert t[|before|] == NEWLINE;
  }

  lemma HeadingPieces(t: Text, p: Text, d: Text, q: Text, e: Text, rest: Text)
    requires t == p + d + q + e + rest
    requires Digits(d) && Digits(e) && q != [] && !IsDigit(q[0])
    requires rest != [] && rest[0] == NEWLINE
    ensures var end := |p| + |d|;
      var end' := end + |q| + |e|;
      && OccursAt(t, p, 0) && DigitsEnd(t, |p|) == end && t[|p|..end] == d
      && OccursAt(t, q, end) && DigitsEnd(t, end + |q|) == end' && t[end + |q|..end'] == e
      && OnlySpaceToLineEnd(t, end')
  {
    FiveFromLeft(p, d, q, e, rest);
    var first, second := q + e + rest, e + rest;
    assert first[0] == q[0];
    DigitsBetween(t, p, d, first);
    OccursNext(t, p + d, q, second);
    DigitsBetween(t, p + d + q, e, rest);
    SpaceAtLineEnd(t, p + d + q + e, rest);
  }

  /** The heading of a note is found on its first line, with its own numbers. */
  lemma HeadingFound(issue: nat, attempt: nat, rest: Text)
    requires rest != [] && rest[0] == NEWLINE
    ensures FindHeading(Heading(issue, attempt) + rest, 0) == Some((issue, attempt))
  {
    DecimalValue(issue);
    DecimalValue(attempt);
    assert ATTEMPT[0] == COMMA;
    var t := Heading(issue, attempt) + rest;
    HeadingPieces(t, REPRO_FOR, Decimal(issue), ATTEMPT, Decimal(attempt), rest);
    assert HeadingAt(t, 0) == Some((issue, attempt));
    assert LineStart(t, 0);
  }

  // ------------------------------------------------------------------ the round trip

  lemma NumberedHaveNoBlank(steps: seq<Text>)
    requires steps != [] && AllPlain(steps)
    ensures NoBlankLine(Join(Numbered(steps), [NEWLINE]))
  {
    var lines := Numbered(steps);
    forall i | 0 <= i < |lines|
      ensures PlainLine(lines[i])
    {
      assert PlainStep(steps[i]);
      NumberComesOff(i, steps[i]);
    }
    LinesHaveNoBlank(lines);
  }

  /** A text that goes on with a line break and a section title. */
  ghost predicate GoesOn(after: Text, title: Text, rest: Text) {
    after == [NEWLINE] + title + ([NEWLINE] + rest)
  }

  lemma StrayEndsBehindTitle(after: Text, title: Text, rest: Text, end: nat)
    requires SectionTitle(title) && GoesOn(after, title, rest) && OccursAt(after, BREAK, end)
    ensures 1 + |title| <= end
    ensures after[..end] == [] + [NEWLINE] + after[1..end] && after[1] == HASH
  {
    BreakAt(after, end);
    assert forall k :: 0 <= k < |title| ==> after[1 + k] == title[k];
  }

  /** Without steps, a section of expectations further down would be read as steps. */
  lemma StrayBlockHasSteps(after: Text, title: Text, rest: Text, end: nat)
    requires SectionTitle(title) && GoesOn(after, title, rest) && OccursAt(after, BREAK, end)
    ensures end <= |after| && StepsOf(Split(after[..end], NEWLINE)) != []
  {
    StrayEndsBehindTitle(after, title, rest, end);
    var inner := after[1..end];
    SplitFirst([], NEWLINE, inner);
    HashLineIsStep(inner);
    assert ([[]] + Split(inner, NEWLINE))[1..] == Split(inner, NEWLINE);
  }

  lemma HashLineIsStep(t: Text)
    requires t != [] && t[0] == HASH
    ensures StepsOf(Split(t, NEWLINE)) != []
  {
    var first := t[..UntilUnit(t, NEWLINE)];
    assert Split(t, NEWLINE)[0] == first && first[0] == HASH;
    TrimKeepsInside(first, 0, 0);
  }

  /** Reading on behind a front part is reading what follows it. */
  lemma BlockBehindFront(front: Text, body: Text, close: Text)
    ensures BlockBehind(front + body, |front|, close) == BlockBehind(body, 0, close)
  {
    FindBehind(front, body, close, 0);
    var end := Find(body, close, 0);
    if end.Some? {
      SliceBehind(front, body, end.value);
    }
  }

  lemma SliceBehind(front: Text, after: Text, end: nat)
    requires end <= |after|
    ensures (front + after)[|front|..|front| + end] == after[..end]
  {
  }

  lemma BodyPieces(lines: Text, title: Text, after: Text, rest: Text)
    requires GoesOn(after, title, rest)
    ensures lines + [NEWLINE] + after == lines + (BREAK + title + ([NEWLINE] + rest))
    ensures (lines + [NEWLINE] + after)[..|lines|] == lines
  {
  }

  lemma StepsInLines(lines: Text, title: Text, after: Text, rest: Text)
    requires NoBlankLine(lines) && SectionTitle(title) && GoesOn(after, title, rest)
    ensures BlockBehind(lines + [NEWLINE] + after, 0, BREAK + title) == Some(lines)
  {
    BodyPieces(lines, title, after, rest);
    BlockEnds(lines, title, [NEWLINE] + rest);
  }

  lemma StepsInBody(steps: seq<Text>, title: Text, after: Text, rest: Text)
    requires steps != [] && AllPlain(steps) && SectionTitle(title) && GoesOn(after, title, rest)
    ensures StepsOfBlock(BlockBehind(Body(steps, after), 0, BREAK + title)) == steps
  {
    NumberedHaveNoBlank(steps);
    NumberedReadBack(steps);
    StepsInLines(Join(Numbered(steps), [NEWLINE]), title, after, rest);
  }

  lemma NoStepsInAfter(title: Text, after: Text, rest: Text)
    requires SectionTitle(title) && GoesOn(after, title, rest)
    ensures StepsOfBlock(BlockBehind(after, 0, BREAK + title)) == [] <==> !Contains(after, BREAK + title)
  {
    var block := Find(after, BREAK + title, 0);
    if block.Some? {
      OccursSplit(after, BREAK, title, block.value);
      StrayBlockHasSteps(after, title, rest, block.value);
    }
  }

  /** Reading the claim is reading what follows the heading. */
  lemma ReadsClaim(heading: Text, below: Text, title: Text)
    requires PlainHeading(heading)
    ensures ClaimBefore(heading + BREAK + below, title) == ClaimUpTo(below, BREAK + title)
  {
    HeadingEnds(heading, below);
    ReadsClaimBehind(heading + BREAK, below, title);
  }

  lemma ReadsClaimBehind(front: Text, below: Text, title: Text)
    requires 2 <= |front| && UntilUnit(front + below, NEWLINE) == |front| - 2
    requires [HASH, SPACE] <= (front + below)[..|front| - 2] && OccursAt(front + below, BREAK, |front| - 2)
    ensures ClaimBefore(front + below, title) == ClaimUpTo(below, BREAK + title)
  {
    ClaimIsBehind(front + below, |front| - 2, title, |front|);
    BlockBehindFront(front, below, BREAK + title);
  }

  /** The text up to what closes it, trimmed. */
  function ClaimUpTo(below: Text, close: Text): Text {
    TrimmedBlock(BlockBehind(below, 0, close))
  }

  lemma ClaimIsBehind(t: Text, end: nat, title: Text, from: nat)
    requires end == UntilUnit(t, NEWLINE) && [HASH, SPACE] <= t[..end] && OccursAt(t, BREAK, end) && from == end + 2
    ensures ClaimBefore(t, title) == TrimmedBlock(BlockBehind(t, from, BREAK + title))
  {
  }

  /** Reading the steps is reading what follows the heading. */
  lemma ReadsBlock(heading: Text, below: Text, title: Text, next: Text)
    requires PlainHeading(heading) && SectionTitle(title)
    ensures BlockBetween(heading + BREAK + below, title, next) == BlockBetween(below, title, next)
  {
    var front := heading + BREAK;
    forall i | 0 <= i < |front|
      ensures !OccursAt(front + below, title + BREAK, i)
    {
      NoTitleInHeading(heading, below, title, i);
    }
    ReadsBlockBehind(front, below, title + BREAK, BREAK + next);
  }

  lemma ReadsBlockBehind(front: Text, below: Text, mark: Text, close: Text)
    requires forall i :: 0 <= i < |front| ==> !OccursAt(front + below, mark, i)
    ensures BlockAfter(front + below, mark, close) == BlockAfter(below, mark, close)
  {
    FindSkips(front + below, mark, 0, |front|);
    FindBehind(front, below, mark, 0);
    var at := Find(below, mark, 0);
    if at.Some? {
      BlocksAt(front, below, mark, close, at.value);
    } else {
      NoBlockAfter(front + below, mark, close);
      NoBlockAfter(below, mark, close);
    }
  }

  lemma BlocksAt(front: Text, below: Text, mark: Text, close: Text, at: nat)
    requires Find(front + below, mark, 0) == Some(|front| + at) && Find(below, mark, 0) == Some(at)
    ensures BlockAfter(front + below, mark, close) == BlockAfter(below, mark, close)
  {
    BlockAfterAt(front + below, mark, close, |front| + at);
    BlockAfterAt(below, mark, close, at);
    BlockBehindAt(front, below, at + |mark|, close);
  }

  lemma NoBlockAfter(t: Text, mark: Text, close: Text)
    requires Find(t, mark, 0).None?
    ensures BlockAfter(t, mark, close).None?
  {
  }

  lemma BlockAfterAt(t: Text, mark: Text, close: Text, at: nat)
    requires Find(t, mark, 0) == Some(at)
    ensures at + |mark| <= |t| && BlockAfter(t, mark, close) == BlockBehind(t, at + |mark|, close)
  {
  }

  lemma BlockBehindAt(front: Text, t: Text, from: nat, close: Text)
    requires from <= |t|
    ensures BlockBehind(front + t, |front| + from, close) == BlockBehind(t, from, close)
  {
    FindBehind(front, t, close, from);
    var end := Find(t, close, from);
    if end.Some? {
      assert (front + t)[|front| + from..|front| + end.value] == t[from..end.value];
    }
  }

  lemma FrontIsLed(heading: Text, claim: Text, title: Text, body: Text) returns (below: Text)
    ensures Front(heading, claim, title) + body == heading + below
    ensures below != [] && below[0] == NEWLINE
  {
    below := BREAK + claim + BREAK + title + BREAK + body;
  }

  lemma ReadsHeading(issue: nat, attempt: nat, claim: Text, title: Text, body: Text)
    ensures FindHeading(Front(Heading(issue, attempt), claim, title) + body, 0) == Some((issue, attempt))
  {
    var below := FrontIsLed(Heading(issue, attempt), claim, title, body);
    HeadingFound(issue, attempt, below);
  }

  // ------------------------------------------------------------------ claims with a steps section of their own

  /** The first character in which the two titles differ is their fourth. */
  predicate Differ(title: Text, next: Text) {
    3 < |title| && 3 < |next| && title[3] != next[3]
  }

  /** Empty, or ending in a break. */
  predicate EndsInBreak(t: Text) {
    t == [] || (2 <= |t| && t[|t| - 2] == NEWLINE && t[|t| - 1] == NEWLINE)
  }

  /** A claim and its break, cut behind the mark of the first steps section they name. */
  ghost predicate CutAtOwn(claim: Text, mark: Text, front: Text, d: Text) {
    && claim + BREAK == front + d
    && |mark| <= |front| && Find(front + d, mark, 0) == Some(|front| - |mark|)
  }

  lemma OwnSectionIsCut(claim: Text, mark: Text) returns (front: Text, d: Text)
    requires Contains(claim + BREAK, mark)
    ensures CutAtOwn(claim, mark, front, d)
  {
    var whole := claim + BREAK;
    var from := Find(whole, mark, 0).value + |mark|;
    front, d := whole[..from], whole[from..];
    CutOnce(whole, from);
  }

  lemma CutOnce(whole: Text, from: nat)
    requires from <= |whole|
    ensures whole == whole[..from] + whole[from..]
  {
  }

  lemma BlockAfterFrom(t: Text, mark: Text, close: Text, at: nat, from: nat)
    requires Find(t, mark, 0) == Some(at) && from == at + |mark|
    ensures from <= |t| && BlockAfter(t, mark, close) == BlockBehind(t, from, close)
  {
  }

  lemma FirstMark(front: Text, d: Text, mark: Text, close: Text, at: nat)
    requires at + |mark| == |front| && Find(front + d, mark, 0) == Some(at)
    ensures BlockAfter(front + d, mark, close) == BlockBehind(d, 0, close)
  {
    BlockAfterFrom(front + d, mark, close, at, |front|);
    BlockBehindFront(front, d, close);
  }

  lemma FirstMarkInLonger(front: Text, d: Text, more: Text, mark: Text, close: Text, at: nat)
    requires at + |mark| == |front| && Find(front + d, mark, 0) == Some(at)
    ensures BlockAfter(front + d + more, mark, close) == BlockBehind(d + more, 0, close)
  {
    FindInPrefix(front + d, more, mark);
    Regroup(front, d, more);
    FirstMark(front, d + more, mark, close, at);
  }

  lemma CutEndsInBreak(claim: Text, title: Text, front: Text, d: Text)
    requires Trimmed(claim) && SectionTitle(title) && CutAtOwn(claim, title + BREAK, front, d)
    ensures EndsInBreak(d)
  {
    var whole, at := front + d, |front| - |title| - 2;
    var n := |claim|;
    OccursSplit(whole, title, BREAK, at);
    BreakAt(whole, at + |title|);
    TitleAt(whole, title, at);
    assert whole[n] == NEWLINE && whole[n + 1] == NEWLINE;
    assert forall k :: 0 <= k < n ==> whole[k] == claim[k];
    assert at < n;
    assert claim != [] && claim[n - 1] != NEWLINE;
    assert |front| != n + 1;
    assert forall k :: 0 <= k < |d| ==> whole[|front| + k] == d[k];
  }

  /** Nothing closes the section before the note's own title is past. */
  lemma NothingCloses(d: Text, title: Text, next: Text, more: Text, i: nat)
    requires SectionTitle(title) && SectionTitle(next) && Differ(title, next) && EndsInBreak(d)
    requires !Contains(d, BREAK + next) && i < |d| + |title|
    ensures !OccursAt(d + title + more, BREAK + next, i)
  {
    var t := d + title + more;
    var n := |d|;
    assert forall k :: 0 <= k < n ==> t[k] == d[k];
    assert forall k :: 0 <= k < |title| ==> t[n + k] == title[k];
    OtherTitle(t, n, title, next);
    if OccursAt(t, BREAK + next, i) {
      OccursSplit(t, BREAK, next, i);
      BreakAt(t, i);
      TitleAt(t, next, i + 2);
      OccursOnOneLine(t, next, i + 2);
      assert i + 2 < n;
      ClosesInside(t, d, next, i);
    }
  }

  lemma OtherTitle(t: Text, n: nat, title: Text, next: Text)
    requires Differ(title, next) && n + |title| <= |t|
    requires forall k :: 0 <= k < |title| ==> t[n + k] == title[k]
    ensures !OccursAt(t, next, n)
  {
    assert t[n + 3] == title[3];
    if n + 3 < n + |next| <= |t| {
      NoOccurrence(t, next, n, 3);
    }
  }

  lemma ClosesInside(t: Text, d: Text, next: Text, i: nat)
    requires |d| <= |t| && t[..|d|] == d && EndsInBreak(d) && i + 2 < |d|
    requires OccursAt(t, BREAK + next, i) && OccursAt(t, next, i + 2)
    requires forall k :: i + 2 <= k < i + 2 + |next| ==> t[k] != NEWLINE
    ensures Contains(d, BREAK + next)
  {
    var n := |d|;
    assert t[n - 2] == d[n - 2] && t[n - 1] == d[n - 1];
    OccursInside(t, d, 0, BREAK + next, i);
  }

  lemma {:induction false} StepsOfAppend(a: seq<Text>, b: seq<Text>)
    ensures StepsOf(a + b) == StepsOf(a) + StepsOf(b)
    decreases |a|
  {
    if a == [] {
      assert a + b == b;
    } else {
      assert (a + b)[1..] == a[1..] + b && (a + b)[0] == a[0];
      StepsOfAppend(a[1..], b);
      StepsOfFirst(a);
      StepsOfFirst(a + b);
      PrependPart(Trim(WithoutNumber(a[0])), StepsOf(a[1..]), StepsOf(b));
    }
  }

  lemma PrependPart(head: Text, a: seq<Text>, b: seq<Text>)
    ensures [head] + (a + b) == [head] + a + b
  {
  }

  lemma StepsOfFirst(lines: seq<Text>)
    requires lines != []
    ensures var first := Trim(WithoutNumber(lines[0]));
            StepsOf(lines) == if first == [] then StepsOf(lines[1..]) else [first] + StepsOf(lines[1..])
  {
  }

  /** A title on a line of its own is read as a step, and what follows it besides. */
  lemma TitleIsStep(d: Text, title: Text, more: Text)
    requires SectionTitle(title) && EndsInBreak(d)
    ensures StepsOf(Split(d + title, NEWLINE)) != []
    ensures StepsOf(Split(d + title + [NEWLINE] + more, NEWLINE))
         == StepsOf(Split(d + title, NEWLINE)) + StepsOf(Split(more, NEWLINE))
  {
    HashLineIsStep(title);
    if d == [] {
      assert d + title == title;
    } else {
      var front := d[..|d| - 1];
      assert d == front + [NEWLINE];
      SplitAppend(front, NEWLINE, title);
      StepsOfAppend(Split(front, NEWLINE), Split(title, NEWLINE));
    }
    SplitAppend(d + title, NEWLINE, more);
    StepsOfAppend(Split(d + title, NEWLINE), Split(more, NEWLINE));
  }

  lemma LeadingBreakIsNoStep(lines: Text)
    ensures StepsOf(Split([NEWLINE] + lines, NEWLINE)) == StepsOf(Split(lines, NEWLINE))
  {
    SplitFirst([], NEWLINE, lines);
    assert [] + [NEWLINE] + lines == [NEWLINE] + lines;
    assert ([[]] + Split(lines, NEWLINE))[1..] == Split(lines, NEWLINE);
    TrimOfTrimmed([]);
  }

  /** An open section of the claim's own takes in the note's title, and so one step too many. */
  lemma OpenSectionWithSteps(d: Text, title: Text, next: Text, lines: Text, rest: Text)
    requires SectionTitle(title) && SectionTitle(next) && Differ(title, next) && EndsInBreak(d)
    requires !Contains(d, BREAK + next) && NoBlankLine(lines)
    requires lines != [] && lines[0] != NEWLINE && lines[0] != HASH
    ensures StepsOfBlock(BlockBehind(d + title + (BREAK + (lines + (BREAK + next + rest))), 0, BREAK + next))
         == StepsOf(Split(d + title, NEWLINE)) + StepsOf(Split(lines, NEWLINE))
    ensures StepsOf(Split(d + title, NEWLINE)) != []
  {
    var body := lines + (BREAK + next + rest);
    var t, at := d + title + (BREAK + body), |d| + |title| + 2 + |lines|;
    var sub := BREAK + next;
    BlockEnds(lines, next, rest);
    OccursBehind(d + title + BREAK, body, sub, |lines|);
    assert t == d + title + BREAK + body;
    forall i | 0 <= i < at
      ensures !OccursAt(t, sub, i)
    {
      if i < |d| + |title| {
        NothingCloses(d, title, next, BREAK + body, i);
      } else {
        NoneInLines(d + title, lines, next, rest, i);
      }
    }
    FindIs(t, sub, 0, at);
    TakeThree(d + title, lines, BREAK + next + rest);
    TitleIsStep(d, title, [NEWLINE] + lines);
    LeadingBreakIsNoStep(lines);
  }

  lemma NoneInLines(front: Text, lines: Text, next: Text, rest: Text, i: nat)
    requires SectionTitle(next) && NoBlankLine(lines) && lines != [] && lines[0] != NEWLINE && lines[0] != HASH
    requires |front| <= i < |front| + 2 + |lines|
    ensures !OccursAt(front + BREAK + (lines + (BREAK + next + rest)), BREAK + next, i)
  {
    var body := lines + (BREAK + next + rest);
    var t := front + BREAK + body;
    var j := |front| + 2;
    assert t[j] == lines[0];
    if i < j {
      assert (BREAK + next)[j - i] == if i == |front| then next[0] else NEWLINE;
      NoOccurrence(t, BREAK + next, i, j - i);
    } else {
      var k := i - j;
      BlockEnds(lines, next, rest);
      OccursBehind(front + BREAK, body, BREAK + next, k);
    }
  }

  lemma TakeThree(front: Text, lines: Text, more: Text)
    ensures (front + (BREAK + (lines + more)))[..|front| + 2 + |lines|] == front + [NEWLINE] + ([NEWLINE] + lines)
  {
  }

  /** With no steps of the note's own, its title is still one too many. */
  lemma OpenSectionWithoutSteps(d: Text, title: Text, next: Text, after: Text, rest: Text)
    requires SectionTitle(title) && SectionTitle(next) && Differ(title, next) && EndsInBreak(d)
    requires !Contains(d, BREAK + next) && GoesOn(after, next, rest)
    ensures StepsOfBlock(BlockBehind(d + title + (BREAK + after), 0, BREAK + next)) != []
  {
    var t := d + title + (BREAK + after);
    OwnBreakCloses(d + title, next, after, rest);
    var end := Find(t, BREAK + next, 0).value;
    if end < |d + title| {
      NothingCloses(d, title, next, BREAK + after, end);
    }
    TitleIsStep(d, title, []);
    if end > |d + title| {
      var more := BlockParts(d + title, after, end);
      TitleIsStep(d, title, more);
    } else {
      BlockWhole(d + title, BREAK + after);
    }
  }

  lemma BlockParts(front: Text, after: Text, end: nat) returns (more: Text)
    requires |front| < end <= |front| + 2 + |after|
    ensures (front + (BREAK + after))[..end] == front + [NEWLINE] + more
  {
    var t := front + (BREAK + after);
    more := t[|front| + 1..end];
    assert t[|front|] == NEWLINE;
  }

  lemma BlockWhole(front: Text, more: Text)
    ensures (front + more)[..|front|] == front
  {
  }

  lemma OwnBreakCloses(front: Text, next: Text, after: Text, rest: Text)
    requires GoesOn(after, next, rest)
    ensures Find(front + (BREAK + after), BREAK + next, 0).Some?
  {
    var t := front + (BREAK + after);
    assert t == front + [NEWLINE] + (BREAK + next) + ([NEWLINE] + rest);
    OccursNext(t, front + [NEWLINE], BREAK + next, [NEWLINE] + rest);
  }

  lemma NumberedLead(steps: seq<Text>)
    requires steps != [] && AllPlain(steps)
    ensures var lines := Join(Numbered(steps), [NEWLINE]);
            lines != [] && lines[0] != NEWLINE && lines[0] != HASH
  {
    var first := Numbered(steps)[0];
    assert first[0] == Decimal(1)[0] && IsDigit(first[0]);
    if |steps| > 1 {
      JoinCons(Numbered(steps), [NEWLINE]);
    }
  }

  /** The steps read behind an open section of the claim's own are never the note's. */
  lemma OpenSectionMisreads(d: Text, title: Text, next: Text, steps: seq<Text>, after: Text, rest: Text)
    requires SectionTitle(title) && SectionTitle(next) && Differ(title, next) && EndsInBreak(d)
    requires !Contains(d, BREAK + next) && AllPlain(steps) && GoesOn(after, next, rest)
    ensures StepsOfBlock(BlockBehind(d + (title + BREAK + Body(steps, after)), 0, BREAK + next)) != steps
  {
    var body := Body(steps, after);
    assert d + (title + BREAK + body) == d + title + (BREAK + body);
    if steps == [] {
      OpenSectionWithoutSteps(d, title, next, after, rest);
    } else {
      var lines := Join(Numbered(steps), [NEWLINE]);
      NumberedHaveNoBlank(steps);
      NumberedReadBack(steps);
      NumberedLead(steps);
      BodyPieces(lines, next, after, rest);
      OpenSectionWithSteps(d, title, next, lines, [NEWLINE] + rest);
    }
  }

  /** A section that the claim opens and closes is read in place of the note's. */
  lemma ClosedSectionIsRead(d: Text, next: Text, more: Text)
    requires Contains(d, BREAK + next)
    ensures BlockBehind(d + more, 0, BREAK + next) == BlockBehind(d, 0, BREAK + next)
  {
    FindInPrefix(d, more, BREAK + next);
    var end := Find(d, BREAK + next, 0).value;
    assert (d + more)[..end] == d[..end];
  }

  // ------------------------------------------------------------------ the whole note

  /** What the reader makes of a rendered note: its numbers, and the rest from what follows the heading. */
  lemma ParseOfRender(repro: Repro)
    ensures var claim := Trim(repro.claim);
            var below := Under(claim, STEPS, Body(repro.steps, After(repro)));
            && Find(below, BREAK + STEPS, 0).Some?
            && ParseNote(RenderNote(repro)) == Success(Note(
                 repro.issue,
                 repro.attempt,
                 ClaimUpTo(below, BREAK + STEPS),
                 StepsOfBlock(BlockBetween(below, STEPS, EXPECTED))))
  {
    var claim, body := Trim(repro.claim), Body(repro.steps, After(repro));
    NoteShape(repro);
    TitlesAreTitles();
    HeadingIsPlain(repro.issue, repro.attempt);
    ClaimEnds(claim, STEPS, body);
    ReadsAll(repro.issue, repro.attempt, claim, body);
  }

  lemma ReadsAll(issue: nat, attempt: nat, claim: Text, body: Text)
    requires PlainHeading(Heading(issue, attempt)) && SectionTitle(STEPS)
    requires Find(Under(claim, STEPS, body), BREAK + STEPS, 0).Some?
    ensures var below := Under(claim, STEPS, body);
            ParseNote(Front(Heading(issue, attempt), claim, STEPS) + body) == Success(Note(
              issue, attempt,
              ClaimUpTo(below, BREAK + STEPS),
              StepsOfBlock(BlockBetween(below, STEPS, EXPECTED))))
  {
    var below := Under(claim, STEPS, body);
    FrontUnder(Heading(issue, attempt), claim, STEPS, body);
    ReadsHeading(issue, attempt, claim, STEPS, body);
    ReadsClaim(Heading(issue, attempt), below, STEPS);
    ReadsBlock(Heading(issue, attempt), below, STEPS, EXPECTED);
  }

  /** Whether the text behind the steps holds a second section of expectations. */
  predicate StrayExpected(repro: Repro) {
    Contains(After(repro), BREAK + EXPECTED)
  }

  /** Whether the claim, with the break that follows it, opens a steps section of its own. */
  predicate OwnSection(claim: Text) {
    Contains(claim + BREAK, STEPS + BREAK)
  }

  /**
   The notes the printer and the reader agree on. The claim is trimmed and sets off no steps section;
   the steps are plain; and the section the reader finds is the note's own, with nothing stray behind it
   when it is empty, or one that the claim both opens and closes and that lists the same steps.
   */
  ghost predicate Faithful(repro: Repro) {
    && Trimmed(repro.claim) && !Contains(repro.claim, BREAK + STEPS)
    && AllPlain(repro.steps)
    && if OwnSection(repro.claim) then
         && BlockBetween(repro.claim + BREAK, STEPS, EXPECTED).Some?
         && StepsOfBlock(BlockBetween(repro.claim + BREAK, STEPS, EXPECTED)) == repro.steps
       else repro.steps == [] ==> !StrayExpected(repro)
  }

  /** The claim reads back exactly when it is trimmed and sets off no steps section. */
  lemma ClaimRoundTrip(claim: Text, body: Text)
    ensures var below := Under(Trim(claim), STEPS, body);
            var at := Find(below, BREAK + STEPS, 0);
            && at.Some?
            && (ClaimUpTo(below, BREAK + STEPS) == claim <==> Trimmed(claim) && !Contains(claim, BREAK + STEPS))
  {
    var c := Trim(claim);
    var below := Under(c, STEPS, body);
    TitlesAreTitles();
    ClaimEnds(c, STEPS, body);
    var at := Find(below, BREAK + STEPS, 0).value;
    if Trimmed(claim) {
      TrimOfTrimmed(claim);
      if at == |claim| {
        assert below[..at] == claim;
      }
    }
  }

  /** Plain steps read back exactly when the section the reader finds lists them. */
  lemma StepsRoundTrip(repro: Repro)
    requires AllPlain(repro.steps) && Trimmed(repro.claim)
    ensures var below := Under(repro.claim, STEPS, Body(repro.steps, After(repro)));
            StepsOfBlock(BlockBetween(below, STEPS, EXPECTED)) == repro.steps
            <==> if OwnSection(repro.claim) then
                   && BlockBetween(repro.claim + BREAK, STEPS, EXPECTED).Some?
                   && StepsOfBlock(BlockBetween(repro.claim + BREAK, STEPS, EXPECTED)) == repro.steps
                 else repro.steps == [] ==> !StrayExpected(repro)
  {
    TitlesAreTitles();
    var claim, body := repro.claim, Body(repro.steps, After(repro));
    var rest := AfterShape(repro);
    if OwnSection(claim) {
      var front, d := OwnSectionIsCut(claim, STEPS + BREAK);
      CutEndsInBreak(claim, STEPS, front, d);
      var more := STEPS + BREAK + body;
      UnderOpens(claim, STEPS, body);
      var at := |front| - |STEPS + BREAK|;
      FirstMark(front, d, STEPS + BREAK, BREAK + EXPECTED, at);
      FirstMarkInLonger(front, d, more, STEPS + BREAK, BREAK + EXPECTED, at);
      if Contains(d, BREAK + EXPECTED) {
        ClosedSectionIsRead(d, EXPECTED, more);
      } else {
        OpenSectionMisreads(d, STEPS, EXPECTED, repro.steps, After(repro), rest);
      }
    } else {
      OwnStepsAreRead(claim, body);
      if repro.steps == [] {
        NoStepsInAfter(EXPECTED, After(repro), rest);
      } else {
        StepsInBody(repro.steps, EXPECTED, After(repro), rest);
      }
    }
  }

  lemma OwnStepsAreRead(claim: Text, body: Text)
    requires !OwnSection(claim)
    ensures BlockBetween(Under(claim, STEPS, body), STEPS, EXPECTED) == BlockBehind(body, 0, BREAK + EXPECTED)
  {
    TitlesAreTitles();
    StepsFound(claim, STEPS, body);
    var front := claim + BREAK + STEPS + BREAK;
    assert Under(claim, STEPS, body) == front + body;
    BlockBehindFront(front, body, BREAK + EXPECTED);
  }

  /**
   `parseNote(renderNote(r))` gives back the issue, attempt, claim and steps of `r` exactly for the
   faithful notes.
   */
  lemma RoundTrip(repro: Repro)
    ensures ParseNote(RenderNote(repro)) == Success(Note(repro.issue, repro.attempt, repro.claim, repro.steps))
       <==> Faithful(repro)
  {
    ParseOfRender(repro);
    ReadingIsPlain(RenderNote(repro));
    ClaimRoundTrip(repro.claim, Body(repro.steps, After(repro)));
    if Trimmed(repro.claim) {
      TrimOfTrimmed(repro.claim);
      if AllPlain(repro.steps) {
        StepsRoundTrip(repro);
      } else {
        var i :| 0 <= i < |repro.steps| && !PlainStep(repro.steps[i]);
        assert repro.steps[i] in repro.steps;
      }
    }
  }

  predicate ReadsBack(repro: Repro) {
    ParseNote(RenderNote(repro)) == Success(Note(repro.issue, repro.attempt, repro.claim, repro.steps))
  }

  /** A claim that is the title of the steps, a step of two lines, and a claim of a blank do not read back. */
  lemma NotesThatAreLost(issue: nat, attempt: nat, expected: Text, actual: Text)
    ensures !ReadsBack(Repro(issue, attempt, STEPS, [[97]], expected, actual))
    ensures !ReadsBack(Repro(issue, attempt, [], [[97, NEWLINE, 98]], expected, actual))
    ensures !ReadsBack(Repro(issue, attempt, [SPACE], [[97]], expected, actual))
  {
    RoundTrip(Repro(issue, attempt, STEPS, [[97]], expected, actual));
    TitleIsOwnSection();
    var broken := Repro(issue, attempt, [], [[97, NEWLINE, 98]], expected, actual);
    RoundTrip(broken);
    assert broken.steps[0][1] == NEWLINE;
    assert !PlainStep(broken.steps[0]);
    RoundTrip(Repro(issue, attempt, [SPACE], [[97]], expected, actual));
  }

  lemma TitleIsOwnSection()
    ensures OwnSection(STEPS) && BlockBetween(STEPS + BREAK, STEPS, EXPECTED).None?
  {
    var whole := STEPS + BREAK;
    FindIs(whole, whole, 0, 0);
    assert whole + [] == whole;
    FirstMark(whole, [], whole, BREAK + EXPECTED, 0);
  }
}
