/**
 The lines a review may comment on (factory/automation/review.ts): a fold over the lines of a unified
 diff that collects, per file, the new-side lines the diff shows.
 */
module Review {
  import opened Wrappers
  import opened Utf16

  const PLUS: Unit := 43

  datatype State = State(file: Option<Text>, line: int, lines: map<Text, set<int>>)

  const START: State := State(None, 0, map[])

  // ------------------------------------------------------------------ the two patterns

  predicate IsLineTerminator(u: Unit) {
    u == 10 || u == 13 || u == 0x2028 || u == 0x2029
  }

  predicate IsPath(path: Text) {
    path != [] && forall i :: 0 <= i < |path| ==> !IsLineTerminator(path[i])
  }

  /** `+++ b/`. */
  const TARGET: Text := [PLUS, PLUS, PLUS, SPACE, 98, 47]
  const OLD_FILE: Text := [MINUS, MINUS, MINUS]

  /** The path of a line that names the new file. */
  function Target(raw: Text): Option<Text> {
    if TARGET <= raw && IsPath(raw[6..]) then Some(raw[6..]) else None
  }

  function Expect(raw: Text, lit: Text): Option<Text> {
    if lit <= raw then Some(raw[|lit|..]) else None
  }

  function DigitRun(raw: Text): (n: nat)
    ensures n <= |raw| && Digits(raw[..n])
    ensures n < |raw| ==> !IsDigit(raw[n])
  {
    if raw == [] || !IsDigit(raw[0]) then 0 else 1 + DigitRun(raw[1..])
  }

  function ParseNumber(raw: Text): Option<(nat, Text)> {
    var n := DigitRun(raw);
    if n == 0 then None else Some((DigitsValue(raw[..n]), raw[n..]))
  }

  /** A number and, after a comma, perhaps another. */
  function ParseRange(raw: Text): Option<(nat, Text)> {
    match ParseNumber(raw)
    case None => None
    case Some((value, rest)) =>
      if rest != [] && rest[0] == COMMA && ParseNumber(rest[1..]).Some? then
        Some((value, ParseNumber(rest[1..]).value.1))
      else Some((value, rest))
  }

  const HUNK_OPEN: Text := [64, 64, SPACE, MINUS]
  const HUNK_MIDDLE: Text := [SPACE, PLUS]
  const HUNK_CLOSE: Text := [SPACE, 64, 64]

  /** The new-side start of a hunk header. */
  function ParseHunk(raw: Text): Option<nat> {
    match Expect(raw, HUNK_OPEN)
    case None => None
    case Some(first) =>
      match ParseRange(first)
      case None => None
      case Some((_, middle)) =>
        match Expect(middle, HUNK_MIDDLE)
        case None => None
        case Some(next) =>
          match ParseRange(next)
          case None => None
          case Some((start, close)) => if Expect(close, HUNK_CLOSE).Some? then Some(start) else None
  }

  // ------------------------------------------------------------------ the fold

  predicate StartsWith(raw: Text, u: Unit) {
    raw != [] && raw[0] == u
  }

  /** A line that adds a new-side line, when it is neither of the two patterns. */
  predicate Counts(raw: Text) {
    !(OLD_FILE <= raw) && !StartsWith(raw, MINUS) && !StartsWith(raw, BACKSLASH)
  }

  function Shown(s: State, file: Text): set<int> {
    if file in s.lines then s.lines[file] else {}
  }

  /** What a line is to the fold. */
  datatype Kind = Names(path: Text) | Opens(start: nat) | Counting | Ignored

  function Classify(raw: Text): Kind {
    if Target(raw).Some? then Names(Target(raw).value)
    else if ParseHunk(raw).Some? then Opens(ParseHunk(raw).value)
    else if Counts(raw) then Counting
    else Ignored
  }

  function Kinds(raws: seq<Text>): (kinds: seq<Kind>)
    ensures |kinds| == |raws| && forall i :: 0 <= i < |kinds| ==> kinds[i] == Classify(raws[i])
  {
    seq(|raws|, i requires 0 <= i < |raws| => Classify(raws[i]))
  }

  function Step(s: State, kind: Kind): State {
    match kind
    case Names(path) => s.(file := Some(path), lines := s.lines[path := Shown(s, path)])
    case Opens(start) => s.(line := start)
    case Counting =>
      if s.file.None? then s
      else s.(lines := s.lines[s.file.value := Shown(s, s.file.value) + {s.line}], line := s.line + 1)
    case Ignored => s
  }

  function Fold(s: State, kinds: seq<Kind>): State {
    if kinds == [] then s else Step(Fold(s, kinds[..|kinds| - 1]), kinds[|kinds| - 1])
  }

  lemma FoldSnoc(s: State, kinds: seq<Kind>, kind: Kind)
    ensures Fold(s, kinds + [kind]) == Step(Fold(s, kinds), kind)
  {
    assert (kinds + [kind])[..|kinds|] == kinds;
  }

  lemma FoldNext(s: State, raws: seq<Text>, i: nat)
    requires i < |raws|
    ensures Fold(s, Kinds(raws[..i + 1])) == Step(Fold(s, Kinds(raws[..i])), Classify(raws[i]))
  {
    FoldSnoc(s, Kinds(raws[..i]), Classify(raws[i]));
    assert Kinds(raws[..i + 1]) == Kinds(raws[..i]) + [Classify(raws[i])];
  }

  method CommentableLines(diff: Text) returns (lines: map<Text, set<int>>)
    ensures lines == Fold(START, Kinds(Split(diff, NEWLINE))).lines
  {
    lines := map[];
    var file: Option<Text> := None;
    var line := 0;
    var raws := Split(diff, NEWLINE);
    for i := 0 to |raws|
      invariant State(file, line, lines) == Fold(START, Kinds(raws[..i]))
    {
      var raw := raws[i];
      FoldNext(START, raws, i);
      var target := Target(raw);
      if target.Some? {
        file := target;
        lines := lines[target.value := if target.value in lines then lines[target.value] else {}];
        continue;
      }
      var hunk := ParseHunk(raw);
      if hunk.Some? {
        line := hunk.value;
        continue;
      }
      if file.None? || OLD_FILE <= raw {
        continue;
      }
      if StartsWith(raw, PLUS) || (!StartsWith(raw, MINUS) && !StartsWith(raw, BACKSLASH)) {
        lines := lines[file.value := (if file.value in lines then lines[file.value] else {}) + {line}];
        line := line + 1;
      }
    }
    assert raws[..|raws|] == raws;
  }

  lemma {:induction false} FoldAdds(s: State, a: seq<Kind>, b: seq<Kind>)
    ensures Fold(s, a + b) == Fold(Fold(s, a), b)
    decreases |b|
  {
    if b == [] {
      assert a + b == a;
    } else {
      assert (a + b)[..|a + b| - 1] == a + b[..|b| - 1];
      FoldAdds(s, a, b[..|b| - 1]);
    }
  }

  // ------------------------------------------------------------------ lines that name no file

  predicate NoNames(kinds: seq<Kind>) {
    forall i :: 0 <= i < |kinds| ==> !kinds[i].Names?
  }

  /** Neither of the two patterns. */
  predicate IsPlain(kinds: seq<Kind>) {
    forall i :: 0 <= i < |kinds| ==> kinds[i].Counting? || kinds[i].Ignored?
  }

  function Counted(kinds: seq<Kind>): nat {
    if kinds == [] then 0 else Counted(kinds[..|kinds| - 1]) + if kinds[|kinds| - 1].Counting? then 1 else 0
  }

  /** Where the numbering stands: headers set it, counted lines move it on. */
  function LineAfter(line: int, kinds: seq<Kind>): int {
    if kinds == [] then line
    else
      var before := LineAfter(line, kinds[..|kinds| - 1]);
      match kinds[|kinds| - 1]
      case Opens(start) => start
      case Counting => before + 1
      case _ => before
  }

  /** The numbers the counted lines get. */
  function Numbers(line: int, kinds: seq<Kind>): set<int> {
    if kinds == [] then {}
    else
      var front := kinds[..|kinds| - 1];
      Numbers(line, front) + if kinds[|kinds| - 1].Counting? then {LineAfter(line, front)} else {}
  }

  lemma {:induction false} NumbersAdd(line: int, a: seq<Kind>, b: seq<Kind>)
    ensures LineAfter(line, a + b) == LineAfter(LineAfter(line, a), b)
    ensures Numbers(line, a + b) == Numbers(line, a) + Numbers(LineAfter(line, a), b)
    decreases |b|
  {
    if b == [] {
      assert a + b == a;
    } else {
      assert (a + b)[..|a + b| - 1] == a + b[..|b| - 1];
      NumbersAdd(line, a, b[..|b| - 1]);
    }
  }

  /** Consecutive lines. */
  function Run(from: int, count: nat): (run: set<int>)
    ensures forall n :: n in run <==> from <= n < from + count
  {
    if count == 0 then {} else Run(from, count - 1) + {from + count - 1}
  }

  lemma {:induction false} PlainNumbers(line: int, kinds: seq<Kind>)
    requires IsPlain(kinds)
    ensures LineAfter(line, kinds) == line + Counted(kinds)
    ensures Numbers(line, kinds) == Run(line, Counted(kinds))
    decreases |kinds|
  {
    if kinds != [] {
      PlainNumbers(line, kinds[..|kinds| - 1]);
    }
  }

  lemma OpenedNumbers(line: int, start: nat, kinds: seq<Kind>)
    ensures LineAfter(line, [Opens(start)] + kinds) == LineAfter(start, kinds)
    ensures Numbers(line, [Opens(start)] + kinds) == Numbers(start, kinds)
  {
    NumbersAdd(line, [Opens(start)], kinds);
    assert [Opens(start)][..0] == [];
    assert Numbers(line, [Opens(start)]) == {} && LineAfter(line, [Opens(start)]) == start;
  }

  /** The state with these numbers collected for the file that is open. */
  function Grown(s: State, numbers: set<int>, line: int): State
    requires s.file.Some?
  {
    s.(line := line, lines := s.lines[s.file.value := Shown(s, s.file.value) + numbers])
  }

  lemma GrownOneMore(s: State, numbers: set<int>, line: int)
    requires s.file.Some?
    ensures Step(Grown(s, numbers, line), Counting) == Grown(s, numbers + {line}, line + 1)
  {
    assert Shown(s, s.file.value) + numbers + {line} == Shown(s, s.file.value) + (numbers + {line});
  }

  /** Lines that name no file add to the open file the numbers of those that count. */
  lemma {:induction false} FoldUnnamed(s: State, kinds: seq<Kind>)
    requires s.file.Some? && s.file.value in s.lines && NoNames(kinds)
    ensures Fold(s, kinds) == Grown(s, Numbers(s.line, kinds), LineAfter(s.line, kinds))
    decreases |kinds|
  {
    if kinds == [] {
      assert Shown(s, s.file.value) + {} == s.lines[s.file.value];
      assert s.lines[s.file.value := s.lines[s.file.value]] == s.lines;
    } else {
      var front := kinds[..|kinds| - 1];
      FoldUnnamed(s, front);
      GrownOneMore(s, Numbers(s.line, front), LineAfter(s.line, front));
      assert kinds[|kinds| - 1].Counting? || Numbers(s.line, kinds) == Numbers(s.line, front);
    }
  }

  // ------------------------------------------------------------------ hunks

  datatype BodyLine = Context(text: Text) | Added(text: Text) | Deleted(text: Text) | NoNewline(text: Text)

  /** A hunk: the start its header gives, the header, and its lines. */
  datatype Hunk = Hunk(start: nat, header: Text, body: seq<BodyLine>)

  function BodyKinds(body: seq<BodyLine>): (kinds: seq<Kind>)
    ensures |kinds| == |body| && IsPlain(kinds)
    ensures forall i :: 0 <= i < |kinds| ==>
              kinds[i] == (if body[i].Context? || body[i].Added? then Counting else Ignored)
  {
    seq(|body|, i requires 0 <= i < |body| => if body[i].Context? || body[i].Added? then Counting else Ignored)
  }

  function HunkKinds(hunk: Hunk): seq<Kind> {
    [Opens(hunk.start)] + BodyKinds(hunk.body)
  }

  /** How many lines the new side of a hunk has. */
  function NewSide(body: seq<BodyLine>): nat {
    if body == [] then 0
    else
      var last := body[|body| - 1];
      NewSide(body[..|body| - 1]) + if last.Context? || last.Added? then 1 else 0
  }

  /** The lines a hunk shows on the new side. */
  function HunkLines(hunk: Hunk): set<int> {
    Run(hunk.start, NewSide(hunk.body))
  }

  lemma {:induction false} CountedBody(body: seq<BodyLine>)
    ensures Counted(BodyKinds(body)) == NewSide(body)
    decreases |body|
  {
    if body != [] {
      CountedBody(body[..|body| - 1]);
      assert BodyKinds(body)[..|body| - 1] == BodyKinds(body[..|body| - 1]);
    }
  }

  lemma HunkNumbers(line: int, hunk: Hunk)
    ensures Numbers(line, HunkKinds(hunk)) == HunkLines(hunk)
    ensures LineAfter(line, HunkKinds(hunk)) == hunk.start + NewSide(hunk.body)
  {
    OpenedNumbers(line, hunk.start, BodyKinds(hunk.body));
    PlainNumbers(hunk.start, BodyKinds(hunk.body));
    CountedBody(hunk.body);
  }

  /**
   A hunk shows exactly the consecutive lines from its start, one for each context or added line;
   deleted lines and the missing-newline marker add nothing.
   */
  lemma FoldHunk(s: State, hunk: Hunk)
    requires s.file.Some? && s.file.value in s.lines
    ensures Fold(s, HunkKinds(hunk)) == Grown(s, HunkLines(hunk), hunk.start + NewSide(hunk.body))
  {
    FoldUnnamed(s, HunkKinds(hunk));
    HunkNumbers(s.line, hunk);
  }

  function AllHunkKinds(hunks: seq<Hunk>): seq<Kind> {
    if hunks == [] then [] else AllHunkKinds(hunks[..|hunks| - 1]) + HunkKinds(hunks[|hunks| - 1])
  }

  function HunksLines(hunks: seq<Hunk>): set<int> {
    if hunks == [] then {} else HunksLines(hunks[..|hunks| - 1]) + HunkLines(hunks[|hunks| - 1])
  }

  /** The line after the last one the hunks show; without hunks, wherever the numbering stood. */
  function End(line: int, hunks: seq<Hunk>): int {
    if hunks == [] then line else hunks[|hunks| - 1].start + NewSide(hunks[|hunks| - 1].body)
  }

  lemma {:induction false} HunksNumbers(line: int, hunks: seq<Hunk>)
    ensures NoNames(AllHunkKinds(hunks))
    ensures Numbers(line, AllHunkKinds(hunks)) == HunksLines(hunks)
    ensures LineAfter(line, AllHunkKinds(hunks)) == End(line, hunks)
    decreases |hunks|
  {
    if hunks != [] {
      var front, last := hunks[..|hunks| - 1], hunks[|hunks| - 1];
      HunksNumbers(line, front);
      NumbersAdd(line, AllHunkKinds(front), HunkKinds(last));
      HunkNumbers(End(line, front), last);
    }
  }

  // ------------------------------------------------------------------ files

  /**
   One file that a diff names: its path, its hunks, and the lines that follow them up to the next file
   named. Those are the lead of the next file, the sections of deleted files, whose new side is no file,
   and what ends the diff.
   */
  datatype FileDiff = FileDiff(path: Text, hunks: seq<Hunk>, trail: seq<Text>)

  function SectionKinds(file: FileDiff): seq<Kind> {
    AllHunkKinds(file.hunks) + Kinds(file.trail)
  }

  function AllFileKinds(files: seq<FileDiff>): seq<Kind> {
    if files == [] then []
    else
      var last := files[|files| - 1];
      AllFileKinds(files[..|files| - 1]) + ([Names(last.path)] + SectionKinds(last))
  }

  /** What a file is collected with: the lines its hunks show, and the numbers of its trail. */
  function Collected(line: int, file: FileDiff): set<int> {
    HunksLines(file.hunks) + Numbers(End(line, file.hunks), Kinds(file.trail))
  }

  lemma SectionNumbers(line: int, file: FileDiff)
    requires NoNames(Kinds(file.trail))
    ensures NoNames(SectionKinds(file)) && Numbers(line, SectionKinds(file)) == Collected(line, file)
  {
    HunksNumbers(line, file.hunks);
    NumbersAdd(line, AllHunkKinds(file.hunks), Kinds(file.trail));
  }

  /** The state once a file is named. */
  function Named(s: State, path: Text): State {
    s.(file := Some(path), lines := s.lines[path := Shown(s, path)])
  }

  lemma FoldName(s: State, path: Text, kinds: seq<Kind>)
    ensures Fold(s, [Names(path)] + kinds) == Fold(Named(s, path), kinds)
  {
    FoldAdds(s, [Names(path)], kinds);
    assert [Names(path)][..0] == [];
    assert Fold(s, [Names(path)]) == Named(s, path);
  }

  /** A file adds to its own lines and to no others. */
  lemma FoldFile(s: State, file: FileDiff)
    requires NoNames(Kinds(file.trail))
    ensures var after := Fold(s, [Names(file.path)] + SectionKinds(file));
            && after.file == Some(file.path) && after.line == LineAfter(s.line, SectionKinds(file))
            && after.lines == s.lines[file.path := Shown(s, file.path) + Collected(s.line, file)]
  {
    FoldName(s, file.path, SectionKinds(file));
    SectionNumbers(s.line, file);
    FoldUnnamed(Named(s, file.path), SectionKinds(file));
    UpdateTwice(s.lines, file.path, Shown(s, file.path), Shown(s, file.path) + Collected(s.line, file));
  }

  lemma UpdateTwice(lines: map<Text, set<int>>, path: Text, first: set<int>, next: set<int>)
    ensures lines[path := first][path := next] == lines[path := next]
  {
  }

  // ------------------------------------------------------------------ whole diffs

  predicate IsNamed(files: seq<FileDiff>, path: Text) {
    exists k :: 0 <= k < |files| && files[k].path == path
  }

  /** The numbering where the files begin: lines before the first of them only set it. */
  function LeadLine(kinds: seq<Kind>): int {
    if kinds == [] then 0
    else if kinds[|kinds| - 1].Opens? then kinds[|kinds| - 1].start
    else LeadLine(kinds[..|kinds| - 1])
  }

  /** All that a path is collected with, over every file of the diff that has it. */
  function CollectedFor(line: int, files: seq<FileDiff>, path: Text): set<int> {
    if files == [] then {}
    else
      var front, last := files[..|files| - 1], files[|files| - 1];
      CollectedFor(line, front, path)
      + if last.path == path then Collected(LineAfter(line, AllFileKinds(front)), last) else {}
  }

  /** The trails name no file: a line that does begins the next one. */
  predicate AreFiles(files: seq<FileDiff>) {
    forall i :: 0 <= i < |files| ==> NoNames(Kinds(files[i].trail))
  }

  lemma {:induction false} FoldLead(kinds: seq<Kind>)
    requires NoNames(kinds)
    ensures Fold(START, kinds) == START.(line := LeadLine(kinds))
    decreases |kinds|
  {
    if kinds != [] {
      FoldLead(kinds[..|kinds| - 1]);
    }
  }

  /** Exactly these paths, with exactly these lines. */
  ghost predicate Holds(lines: map<Text, set<int>>, line: int, files: seq<FileDiff>) {
    forall path ::
      (path in lines <==> IsNamed(files, path))
      && (path in lines ==> lines[path] == CollectedFor(line, files, path))
  }

  lemma HoldsNext(lines: map<Text, set<int>>, line: int, front: seq<FileDiff>, file: FileDiff, was: set<int>)
    requires Holds(lines, line, front) && was == (if file.path in lines then lines[file.path] else {})
    ensures Holds(
              lines[file.path := was + Collected(LineAfter(line, AllFileKinds(front)), file)], line, front + [file])
  {
    var files := front + [file];
    var next := lines[file.path := was + Collected(LineAfter(line, AllFileKinds(front)), file)];
    assert files[..|front|] == front;
    forall path
      ensures path in next <==> IsNamed(files, path)
      ensures path in next ==> next[path] == CollectedFor(line, files, path)
    {
      NamedNext(front, file, path);
      NotNamed(line, front, path);
    }
  }

  lemma NamedNext(front: seq<FileDiff>, file: FileDiff, path: Text)
    ensures IsNamed(front + [file], path) <==> IsNamed(front, path) || file.path == path
  {
    var files := front + [file];
    assert files[|front|] == file;
    if k :| 0 <= k < |front| && front[k].path == path {
      assert files[k].path == path;
    }
  }

  lemma {:induction false} NotNamed(line: int, files: seq<FileDiff>, path: Text)
    ensures !IsNamed(files, path) ==> CollectedFor(line, files, path) == {}
    decreases |files|
  {
    if files != [] {
      var front, last := files[..|files| - 1], files[|files| - 1];
      NotNamed(line, front, path);
      NamedNext(front, last, path);
      assert files == front + [last];
    }
  }

  lemma {:induction false} FoldFiles(line: int, files: seq<FileDiff>)
    requires AreFiles(files)
    ensures var s := Fold(START.(line := line), AllFileKinds(files));
            Holds(s.lines, line, files) && s.line == LineAfter(line, AllFileKinds(files))
    decreases |files|
  {
    if files != [] {
      var front, last := files[..|files| - 1], files[|files| - 1];
      FoldFiles(line, front);
      var before := Fold(START.(line := line), AllFileKinds(front));
      FoldAdds(START.(line := line), AllFileKinds(front), [Names(last.path)] + SectionKinds(last));
      FoldFile(before, last);
      HoldsNext(before.lines, line, front, last, Shown(before, last.path));
      NameKeepsLine(before.line, last.path, SectionKinds(last));
      NumbersAdd(line, AllFileKinds(front), [Names(last.path)] + SectionKinds(last));
      assert files == front + [last];
    }
  }

  lemma NameKeepsLine(line: int, path: Text, kinds: seq<Kind>)
    ensures LineAfter(line, [Names(path)] + kinds) == LineAfter(line, kinds)
  {
    NumbersAdd(line, [Names(path)], kinds);
    assert [Names(path)][..0] == [];
  }

  // ------------------------------------------------------------------ diffs as they are written

  function RawLine(line: BodyLine): Text {
    match line
    case Context(text) => [SPACE] + text
    case Added(text) => [PLUS] + text
    case Deleted(text) => [MINUS] + text
    case NoNewline(text) => [BACKSLASH] + text
  }

  function RawBody(body: seq<BodyLine>): (raws: seq<Text>)
    ensures |raws| == |body| && forall i :: 0 <= i < |raws| ==> raws[i] == RawLine(body[i])
  {
    seq(|body|, i requires 0 <= i < |body| => RawLine(body[i]))
  }

  /** A header that gives the start, and lines of which none that is added reads as naming a file. */
  predicate Reads(hunk: Hunk) {
    && ParseHunk(hunk.header) == Some(hunk.start) && Target(hunk.header).None?
    && forall i :: 0 <= i < |hunk.body| ==> Target(RawLine(hunk.body[i])).None?
  }

  function RawHunk(hunk: Hunk): seq<Text> {
    [hunk.header] + RawBody(hunk.body)
  }

  function RawHunks(hunks: seq<Hunk>): seq<Text> {
    if hunks == [] then [] else RawHunks(hunks[..|hunks| - 1]) + RawHunk(hunks[|hunks| - 1])
  }

  function RawFile(file: FileDiff): seq<Text> {
    [TARGET + file.path] + (RawHunks(file.hunks) + file.trail)
  }

  function RawFiles(files: seq<FileDiff>): seq<Text> {
    if files == [] then [] else RawFiles(files[..|files| - 1]) + RawFile(files[|files| - 1])
  }

  predicate AllRead(hunks: seq<Hunk>) {
    hunks != [] ==> AllRead(hunks[..|hunks| - 1]) && Reads(hunks[|hunks| - 1])
  }

  predicate FilesRead(files: seq<FileDiff>) {
    files != [] ==>
      var last := files[|files| - 1];
      FilesRead(files[..|files| - 1]) && IsPath(last.path) && AllRead(last.hunks)
  }

  lemma KindsAdd(a: seq<Text>, b: seq<Text>)
    ensures Kinds(a + b) == Kinds(a) + Kinds(b)
  {
  }

  lemma LineIsClassified(line: BodyLine)
    requires Target(RawLine(line)).None?
    ensures Classify(RawLine(line)) == if line.Context? || line.Added? then Counting else Ignored
  {
    assert HUNK_OPEN[0] == 64 && OLD_FILE[0] == MINUS;
    assert RawLine(line)[0] in {SPACE, PLUS, MINUS, BACKSLASH};
  }

  lemma HunkIsClassified(hunk: Hunk)
    requires Reads(hunk)
    ensures Kinds(RawHunk(hunk)) == HunkKinds(hunk)
  {
    forall i | 0 <= i < |hunk.body|
      ensures Classify(RawLine(hunk.body[i])) == BodyKinds(hunk.body)[i]
    {
      LineIsClassified(hunk.body[i]);
    }
    assert Kinds([hunk.header]) == [Opens(hunk.start)];
    assert Kinds(RawBody(hunk.body)) == BodyKinds(hunk.body);
    KindsAdd([hunk.header], RawBody(hunk.body));
  }

  lemma {:induction false} HunksAreClassified(hunks: seq<Hunk>)
    requires AllRead(hunks)
    ensures Kinds(RawHunks(hunks)) == AllHunkKinds(hunks)
    decreases |hunks|
  {
    if hunks != [] {
      var front, last := hunks[..|hunks| - 1], hunks[|hunks| - 1];
      HunksAreClassified(front);
      HunkIsClassified(last);
      KindsAdd(RawHunks(front), RawHunk(last));
    }
  }

  lemma TargetOfPath(path: Text)
    requires IsPath(path)
    ensures Kinds([TARGET + path]) == [Names(path)]
  {
    assert (TARGET + path)[6..] == path;
  }

  lemma FileIsClassified(file: FileDiff)
    requires IsPath(file.path) && AllRead(file.hunks)
    ensures Kinds(RawFile(file)) == [Names(file.path)] + SectionKinds(file)
  {
    HunksAreClassified(file.hunks);
    TargetOfPath(file.path);
    KindsAdd(RawHunks(file.hunks), file.trail);
    KindsAdd([TARGET + file.path], RawHunks(file.hunks) + file.trail);
  }

  lemma {:induction false} FilesAreClassified(files: seq<FileDiff>)
    requires FilesRead(files)
    ensures Kinds(RawFiles(files)) == AllFileKinds(files)
    decreases |files|
  {
    if files != [] {
      var front, last := files[..|files| - 1], files[|files| - 1];
      FilesAreClassified(front);
      FileIsClassified(last);
      KindsAdd(RawFiles(front), RawFile(last));
    }
  }

  /** The map for the lines of a diff: those before its first file, and its files. */
  function LinesOf(lead: seq<Text>, files: seq<FileDiff>): map<Text, set<int>> {
    Fold(START, Kinds(lead + RawFiles(files))).lines
  }

  /**
   What the fold collects from a whole diff: the paths it names, and for each the lines that the hunks of
   its files show and the numbers of the counted lines in their trails, hunks of deleted files included.
   */
  lemma DiffIsCollected(lead: seq<Text>, files: seq<FileDiff>)
    requires FilesRead(files) && AreFiles(files) && NoNames(Kinds(lead))
    ensures Holds(LinesOf(lead, files), LeadLine(Kinds(lead)), files)
  {
    FilesAreClassified(files);
    KindsAdd(lead, RawFiles(files));
    FoldAdds(START, Kinds(lead), AllFileKinds(files));
    FoldLead(Kinds(lead));
    FoldFiles(LeadLine(Kinds(lead)), files);
  }

  // ------------------------------------------------------------------ what is shown

  lemma {:induction false} FoldGrows(s: State, kinds: seq<Kind>, path: Text)
    requires path in s.lines
    ensures path in Fold(s, kinds).lines && s.lines[path] <= Fold(s, kinds).lines[path]
    decreases |kinds|
  {
    if kinds != [] {
      FoldGrows(s, kinds[..|kinds| - 1], path);
    }
  }

  /** All that the hunks of a file show is collected for it. */
  predicate Shows(lines: map<Text, set<int>>, file: FileDiff) {
    file.path in lines && HunksLines(file.hunks) <= lines[file.path]
  }

  lemma FileIsShown(s: State, file: FileDiff)
    ensures Shows(Fold(s, [Names(file.path)] + SectionKinds(file)).lines, file)
  {
    var named := Named(s, file.path);
    FoldName(s, file.path, SectionKinds(file));
    FoldAdds(named, AllHunkKinds(file.hunks), Kinds(file.trail));
    HunksNumbers(named.line, file.hunks);
    FoldUnnamed(named, AllHunkKinds(file.hunks));
    FoldGrows(Fold(named, AllHunkKinds(file.hunks)), Kinds(file.trail), file.path);
  }

  lemma StaysShown(s: State, kinds: seq<Kind>, file: FileDiff)
    requires Shows(s.lines, file)
    ensures Shows(Fold(s, kinds).lines, file)
  {
    FoldGrows(s, kinds, file.path);
  }

  /** What comes before a file of the diff, the file, and what comes after it. */
  lemma {:induction false} SplitAround(files: seq<FileDiff>, k: nat) returns (before: seq<Kind>, after: seq<Kind>)
    requires k < |files|
    ensures AllFileKinds(files) == before + ([Names(files[k].path)] + SectionKinds(files[k])) + after
    decreases |files|
  {
    var front, last := files[..|files| - 1], files[|files| - 1];
    if k < |front| {
      var next: seq<Kind>;
      before, next := SplitAround(front, k);
      after := next + ([Names(last.path)] + SectionKinds(last));
    } else {
      before, after := AllFileKinds(front), [];
    }
  }

  lemma ShownAround(s: State, before: seq<Kind>, file: FileDiff, after: seq<Kind>)
    ensures Shows(Fold(s, before + ([Names(file.path)] + SectionKinds(file)) + after).lines, file)
  {
    var section := [Names(file.path)] + SectionKinds(file);
    FoldAdds(s, before + section, after);
    FoldAdds(s, before, section);
    FileIsShown(Fold(s, before), file);
    StaysShown(Fold(s, before + section), after, file);
  }

  /** Every new-side line a diff shows may be commented on, whatever lies before, between and after. */
  lemma ShownLinesAreCommentable(lead: seq<Text>, files: seq<FileDiff>, k: nat, n: int)
    requires FilesRead(files) && k < |files| && n in HunksLines(files[k].hunks)
    ensures files[k].path in LinesOf(lead, files) && n in LinesOf(lead, files)[files[k].path]
  {
    FilesAreClassified(files);
    KindsAdd(lead, RawFiles(files));
    FoldAdds(START, Kinds(lead), AllFileKinds(files));
    var before, after := SplitAround(files, k);
    ShownAround(Fold(START, Kinds(lead)), before, files[k], after);
  }

  // ------------------------------------------------------------------ what is not

  /** A deleted file adds a run from the start of its own header: what counts behind it up to the next. */
  lemma DeletionAddsARun(line: int, before: seq<Kind>, start: nat, after: seq<Kind>)
    requires IsPlain(before) && IsPlain(after)
    ensures Numbers(line, before + ([Opens(start)] + after)) == Run(line, Counted(before)) + Run(start, Counted(after))
  {
    NumbersAdd(line, before, [Opens(start)] + after);
    PlainNumbers(line, before);
    OpenedNumbers(LineAfter(line, before), start, after);
    PlainNumbers(start, after);
  }

  /** Each hunk begins no earlier than the ones before it ended, and one that shows lines not at zero. */
  predicate Ascending(hunks: seq<Hunk>) {
    hunks != [] ==>
      var front, last := hunks[..|hunks| - 1], hunks[|hunks| - 1];
      && Ascending(front) && End(0, front) <= last.start
      && (NewSide(last.body) > 0 ==> 0 < last.start)
  }

  lemma {:induction false} HunksLieBetween(hunks: seq<Hunk>)
    requires Ascending(hunks)
    ensures forall n :: n in HunksLines(hunks) ==> 0 < n < End(0, hunks)
    decreases |hunks|
  {
    if hunks != [] {
      HunksLieBetween(hunks[..|hunks| - 1]);
    }
  }

  /** No header but those of deleted files, which have no new side to start on. */
  predicate OnlyDeletions(kinds: seq<Kind>) {
    forall i :: 0 <= i < |kinds| ==> kinds[i].Counting? || kinds[i].Ignored? || kinds[i] == Opens(0)
  }

  lemma {:induction false} NothingCounted(line: int, kinds: seq<Kind>)
    requires OnlyDeletions(kinds) && Counted(kinds) == 0
    ensures Numbers(line, kinds) == {} && (LineAfter(line, kinds) == line || LineAfter(line, kinds) == 0)
    decreases |kinds|
  {
    if kinds != [] {
      NothingCounted(line, kinds[..|kinds| - 1]);
    }
  }

  /** The first counted line gets a number that is at the end of the hunks or zero. */
  lemma {:induction false} SomethingCounted(line: int, kinds: seq<Kind>)
    requires OnlyDeletions(kinds) && Counted(kinds) > 0
    ensures line in Numbers(line, kinds) || 0 in Numbers(line, kinds)
    decreases |kinds|
  {
    var front := kinds[..|kinds| - 1];
    if Counted(front) > 0 {
      SomethingCounted(line, front);
    } else {
      NothingCounted(line, front);
    }
  }

  lemma CollectedIsExact(line: int, file: FileDiff)
    requires file.hunks != [] && Ascending(file.hunks) && OnlyDeletions(Kinds(file.trail))
    ensures Collected(line, file) == HunksLines(file.hunks) <==> Counted(Kinds(file.trail)) == 0
  {
    var end, kinds := End(line, file.hunks), Kinds(file.trail);
    HunksLieBetween(file.hunks);
    if Counted(kinds) > 0 {
      SomethingCounted(end, kinds);
      assert end !in HunksLines(file.hunks) && 0 !in HunksLines(file.hunks);
    } else {
      NothingCounted(end, kinds);
    }
  }

  lemma {:induction false} CollectedOnce(line: int, files: seq<FileDiff>, k: nat)
    requires k < |files| && forall i :: 0 <= i < |files| && i != k ==> files[i].path != files[k].path
    ensures CollectedFor(line, files, files[k].path) == Collected(LineAfter(line, AllFileKinds(files[..k])), files[k])
    decreases |files|
  {
    var front := files[..|files| - 1];
    if k < |front| {
      assert front[..k] == files[..k];
      CollectedOnce(line, front, k);
    } else {
      NotNamed(line, front, files[k].path);
    }
  }

  /**
   For a file named once, with hunks in order and nothing but deleted files opened behind them: exactly
   the lines it shows may be commented on if and only if no line of its trail counts. The empty line
   after a final line break is one that does, and so are the lines with which git leads in the next file.
   */
  lemma ExactIffNothingFollows(lead: seq<Text>, files: seq<FileDiff>, k: nat)
    requires FilesRead(files) && AreFiles(files) && NoNames(Kinds(lead)) && k < |files|
    requires forall i :: 0 <= i < |files| && i != k ==> files[i].path != files[k].path
    requires files[k].hunks != [] && Ascending(files[k].hunks) && OnlyDeletions(Kinds(files[k].trail))
    ensures files[k].path in LinesOf(lead, files)
    ensures LinesOf(lead, files)[files[k].path] == HunksLines(files[k].hunks) <==> Counted(Kinds(files[k].trail)) == 0
  {
    var line := LeadLine(Kinds(lead));
    DiffIsCollected(lead, files);
    assert IsNamed(files, files[k].path);
    CollectedOnce(line, files, k);
    CollectedIsExact(LineAfter(line, AllFileKinds(files[..k])), files[k]);
  }

  /** Of the lines that are neither of the two patterns, all count that do not begin with a minus or a backslash. */
  lemma CountsIff(raw: Text)
    requires Target(raw).None? && ParseHunk(raw).None?
    ensures Classify(raw) == if raw != [] && (raw[0] == 45 || raw[0] == 92) then Ignored else Counting
  {
    assert OLD_FILE[0] == MINUS;
  }

  lemma FinalLineBreakCounts()
    ensures Kinds([[]]) == [Counting] && Counted([Counting]) == 1
  {
    assert [Counting][..0] == [];
  }

  // ------------------------------------------------------------------ headers as they are written

  function RangeText(start: nat, count: Option<nat>): Text {
    Decimal(start) + if count.Some? then [COMMA] + Decimal(count.value) else []
  }

  /** A hunk header, and what may follow it on its line. */
  function HeaderText(oldStart: nat, oldCount: Option<nat>, start: nat, count: Option<nat>, rest: Text): Text {
    HUNK_OPEN
    + (RangeText(oldStart, oldCount) + (HUNK_MIDDLE + (RangeText(start, count) + (HUNK_CLOSE + rest))))
  }

  lemma {:induction false} DigitRunOf(t: Text, rest: Text)
    requires Digits(t) && (rest == [] || !IsDigit(rest[0]))
    ensures DigitRun(t + rest) == |t|
    decreases |t|
  {
    if t == [] {
      assert t + rest == rest;
    } else {
      assert (t + rest)[1..] == t[1..] + rest;
      DigitRunOf(t[1..], rest);
    }
  }

  lemma NumberReads(n: nat, rest: Text)
    requires rest == [] || !IsDigit(rest[0])
    ensures ParseNumber(Decimal(n) + rest) == Some((n, rest))
  {
    DigitRunOf(Decimal(n), rest);
    DecimalValue(n);
    var t := Decimal(n) + rest;
    assert t[..|Decimal(n)|] == Decimal(n) && t[|Decimal(n)|..] == rest;
  }

  lemma RangeReads(start: nat, count: Option<nat>, rest: Text)
    requires rest != [] && rest[0] == SPACE
    ensures ParseRange(RangeText(start, count) + rest) == Some((start, rest))
  {
    if count.Some? {
      var after := [COMMA] + (Decimal(count.value) + rest);
      Regroup(Decimal(start), [COMMA] + Decimal(count.value), rest);
      Regroup([COMMA], Decimal(count.value), rest);
      NumberReads(start, after);
      NumberReads(count.value, rest);
      assert after[1..] == Decimal(count.value) + rest;
    } else {
      assert Decimal(start) + [] == Decimal(start);
      NumberReads(start, rest);
    }
  }

  lemma OneHunk(start: nat, header: Text, text: Text)
    requires 0 < start
    ensures var hunks := [Hunk(start, header, [Context(text)])];
            HunksLines(hunks) == {start as int} && Ascending(hunks)
  {
    var hunk := Hunk(start, header, [Context(text)]);
    assert [hunk][..0] == [] && hunk.body[..0] == [];
    assert NewSide(hunk.body) == 1;
    assert HunkLines(hunk) == {start as int};
  }

  lemma OneFileReads(path: Text, hunk: Hunk, trail: seq<Text>)
    requires IsPath(path) && Reads(hunk)
    ensures FilesRead([FileDiff(path, [hunk], trail)])
  {
    assert [hunk][..0] == [] && [FileDiff(path, [hunk], trail)][..0] == [];
  }

  /** The header of a deleted file and a line it loses. */
  function Deletion(text: Text): seq<Text> {
    [HeaderText(1, None, 0, Some(0), [])] + [[MINUS] + text]
  }

  const DELETION: seq<Kind> := [Opens(0)] + [Ignored]

  lemma KindsOne(raw: Text)
    ensures Kinds([raw]) == [Classify(raw)]
  {
  }

  lemma HeaderOpens(raw: Text, start: nat)
    requires ParseHunk(raw) == Some(start) && Target(raw).None?
    ensures Classify(raw) == Opens(start)
  {
  }

  lemma DeletionIsRead(text: Text)
    ensures Kinds(Deletion(text)) == DELETION
  {
    var header := HeaderText(1, None, 0, Some(0), []);
    HeaderReads(1, None, 0, Some(0), []);
    HeaderOpens(header, 0);
    MinusIsIgnored(text);
    KindsOne(header);
    KindsOne([MINUS] + text);
    KindsAdd([header], [[MINUS] + text]);
  }

  lemma NothingOfDeletionCounts()
    ensures Counted(DELETION) == 0 && NoNames(DELETION) && OnlyDeletions(DELETION)
  {
    assert DELETION[..1] == [Opens(0)] && [Opens(0)][..0] == [];
  }

  lemma MinusIsIgnored(text: Text)
    ensures Classify([MINUS] + text) == Ignored
  {
    assert TARGET[0] == PLUS && HUNK_OPEN[0] == 64 && ([MINUS] + text)[0] == MINUS;
  }

  /** A diff of one file with one hunk, its header as it is written, and behind it a file that is deleted. */
  lemma OneFileIsADiff(path: Text, start: nat, text: Text, rest: Text)
    requires IsPath(path) && 0 < start
    ensures var hunk := Hunk(start, HeaderText(start, None, start, None, rest), [Context(text)]);
            var file := FileDiff(path, [hunk], Deletion(text));
            && FilesRead([file]) && AreFiles([file]) && Ascending(file.hunks) && OnlyDeletions(Kinds(file.trail))
            && Counted(Kinds(file.trail)) == 0 && HunksLines(file.hunks) == {start as int}
  {
    var hunk := Hunk(start, HeaderText(start, None, start, None, rest), [Context(text)]);
    HeaderReads(start, None, start, None, rest);
    assert RawLine(Context(text))[0] == SPACE && TARGET[0] == PLUS;
    OneFileReads(path, hunk, Deletion(text));
    OneHunk(start, hunk.header, text);
    DeletionIsRead(text);
    NothingOfDeletionCounts();
  }

  /** With the empty line a final line break leaves, line zero of the file before is commentable too. */
  lemma DeletionThenLineBreak(lead: seq<Text>, path: Text, start: nat, text: Text, rest: Text)
    requires IsPath(path) && NoNames(Kinds(lead))
    ensures var hunk := Hunk(start, HeaderText(start, None, start, None, rest), [Context(text)]);
            var lines := LinesOf(lead, [FileDiff(path, [hunk], Deletion(text) + [[]])]);
            path in lines && 0 in lines[path]
  {
    var hunk := Hunk(start, HeaderText(start, None, start, None, rest), [Context(text)]);
    var file := FileDiff(path, [hunk], Deletion(text) + [[]]);
    HeaderReads(start, None, start, None, rest);
    assert RawLine(Context(text))[0] == SPACE && TARGET[0] == PLUS;
    OneFileReads(path, hunk, file.trail);
    DeletionIsRead(text);
    KindsAdd(Deletion(text), [[]]);
    FinalLineBreakCounts();
    ZeroIsCollected(lead, file);
  }

  lemma ZeroIsCollected(lead: seq<Text>, file: FileDiff)
    requires FilesRead([file]) && NoNames(Kinds(lead)) && Kinds(file.trail) == DELETION + [Counting]
    ensures file.path in LinesOf(lead, [file]) && 0 in LinesOf(lead, [file])[file.path]
  {
    var line := LeadLine(Kinds(lead));
    NothingOfDeletionCounts();
    DiffIsCollected(lead, [file]);
    OnlyFile(line, file);
    ZeroIsNumbered(End(line, file.hunks));
  }

  lemma OnlyFile(line: int, file: FileDiff)
    ensures IsNamed([file], file.path) && CollectedFor(line, [file], file.path) == Collected(line, file)
  {
    assert [file][0].path == file.path && [file][..0] == [];
  }

  lemma ZeroIsNumbered(line: int)
    ensures 0 in Numbers(line, DELETION + [Counting])
  {
    var behind := [Ignored, Counting];
    assert DELETION + [Counting] == [] + ([Opens(0)] + behind);
    DeletionAddsARun(line, [], 0, behind);
    assert behind[..1] == [Ignored] && [Ignored][..0] == [];
    assert Counted(behind) == 1;
    assert 0 in Run(0, 1);
  }

  lemma ExpectReads(lit: Text, rest: Text)
    ensures Expect(lit + rest, lit) == Some(rest)
  {
    assert (lit + rest)[|lit|..] == rest;
  }

  /** A header of either form, whatever follows it, is read as its new-side start. */
  lemma HeaderReads(oldStart: nat, oldCount: Option<nat>, start: nat, count: Option<nat>, rest: Text)
    ensures var header := HeaderText(oldStart, oldCount, start, count, rest);
            ParseHunk(header) == Some(start) && Target(header).None?
  {
    var close := HUNK_CLOSE + rest;
    var next := RangeText(start, count) + close;
    var middle := HUNK_MIDDLE + next;
    var header := HUNK_OPEN + (RangeText(oldStart, oldCount) + middle);
    ExpectReads(HUNK_CLOSE, rest);
    ExpectReads(HUNK_MIDDLE, next);
    ExpectReads(HUNK_OPEN, RangeText(oldStart, oldCount) + middle);
    RangeReads(oldStart, oldCount, middle);
    RangeReads(start, count, close);
    assert header[0] == 64;
  }
}
