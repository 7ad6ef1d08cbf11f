/**
 The bounded log of browser error reports (apps/server/src/clientErrorLog.ts): one report cut to its
 byte budget, the newest reports that fit, and the stored log that is rebuilt on every append.
 */
module ClientErrorLog {
  import opened Wrappers
  import opened Utf16
  import opened Utf8
  import opened Json

  const LOG_LIMIT := 200
  const LOG_MAX_BYTES := 96 * 1024
  const RECORD_MAX_BYTES := 4 * 1024

  datatype Record = Record(at: Text, page: Option<Text>, userAgent: Option<Text>, report: Value)

  function Field(t: Option<Text>): Value {
    match t case Some(text) => Str(text) case None => Undefined
  }

  function OtherFields(record: Record): seq<(Text, Value)> {
    [(Lit("at"), Str(record.at)), (Lit("page"), Field(record.page)), (Lit("userAgent"), Field(record.userAgent))]
  }

  /** The record as the object that is serialised. */
  function ToValue(record: Record): Value {
    Obj(OtherFields(record) + [(Lit("report"), record.report)])
  }

  /** The UTF-8 bytes of the record's JSON. */
  function SizeOf(record: Record): nat {
    Utf8Size(Stringify(ToValue(record)))
  }

  predicate Fits(record: Record) {
    SizeOf(record) <= RECORD_MAX_BYTES
  }

  /** The members that are there, as JSON text. */
  function Present(key: Text, t: Option<Text>): seq<Text> {
    if t.Some? then [Quote(key) + [COLON] + Quote(t.value)] else []
  }

  /** The record's JSON, member by member, and its bytes: a page or a user agent that is missing is left out. */
  lemma SizeOfIsBytes(record: Record)
    requires !record.report.Undefined?
    ensures var members :=
              [Quote(Lit("at")) + [COLON] + Quote(record.at)]
              + Present(Lit("page"), record.page)
              + Present(Lit("userAgent"), record.userAgent)
              + [Quote(Lit("report")) + [COLON] + Stringify(record.report)];
            SizeOf(record) == |Encoded([OPEN_BRACE] + Join(members, [COMMA]) + [CLOSE_BRACE])|
  {
    SizeIsBytes(Stringify(ToValue(record)));
    MembersAreJoined(OtherFields(record) + [(Lit("report"), record.report)]);
    RecordMembers(record);
  }

  lemma RecordMembers(record: Record)
    requires !record.report.Undefined?
    ensures MemberTexts(OtherFields(record) + [(Lit("report"), record.report)])
         == [Quote(Lit("at")) + [COLON] + Quote(record.at)]
            + Present(Lit("page"), record.page)
            + Present(Lit("userAgent"), record.userAgent)
            + [Quote(Lit("report")) + [COLON] + Stringify(record.report)]
  {
    var at: (Text, Value) := (Lit("at"), Str(record.at));
    var page: (Text, Value) := (Lit("page"), Field(record.page));
    var agent: (Text, Value) := (Lit("userAgent"), Field(record.userAgent));
    var report: (Text, Value) := (Lit("report"), record.report);
    assert OtherFields(record) + [report] == [at] + [page] + [agent] + [report];
    MemberTextsAdd([at] + [page] + [agent], [report]);
    MemberTextsAdd([at] + [page], [agent]);
    MemberTextsAdd([at], [page]);
    MemberTextsOne(at);
    MemberTextsOne(page);
    MemberTextsOne(agent);
    MemberTextsOne(report);
  }

  // ------------------------------------------------------------------ one report

  /** The report as the text that is cut. */
  function ReportText(report: Value): Text {
    match report
    case Str(text) => text
    case Undefined => []
    case _ => Stringify(report)
  }

  function Notice(length: nat): Text {
    [0x2026] + (Lit(" [truncated from ") + Decimal(length) + Lit(" characters]"))
  }

  function WithHead(record: Record, head: Text): Record {
    record.(report := Str(head + Notice(|ReportText(record.report)|)))
  }

  /** How much of the text is kept when the search begins at `n` units. */
  function KeptHead(record: Record, text: Text, n: nat): (kept: nat)
    requires n <= |text|
    ensures kept <= n
    ensures kept == 0 || Fits(WithHead(record, text[..kept]))
    decreases n
  {
    if n == 0 || Fits(WithHead(record, text[..n])) then n else KeptHead(record, text, n * 3 / 4)
  }

  function FirstGuess(text: Text): nat {
    if |text| < RECORD_MAX_BYTES then |text| else RECORD_MAX_BYTES
  }

  function Capped(record: Record): Record {
    if Fits(record) then record
    else
      var text := ReportText(record.report);
      WithHead(record, text[..KeptHead(record, text, FirstGuess(text))])
  }

  method CapRecord(record: Record) returns (capped: Record)
    ensures capped == Capped(record)
  {
    if SizeOf(record) <= RECORD_MAX_BYTES {
      return record;
    }
    var text := ReportText(record.report);
    var head := text[..FirstGuess(text)];
    while |head| > 0 && SizeOf(WithHead(record, head)) > RECORD_MAX_BYTES
      invariant |head| <= |text| && head == text[..|head|]
      invariant KeptHead(record, text, |head|) == KeptHead(record, text, FirstGuess(text))
      decreases |head|
    {
      head := head[..|head| * 3 / 4];
    }
    capped := WithHead(record, head);
  }

  /** The bytes of a record whose report is a string: a fixed part and the escaped string. */
  lemma SizeOfReport(record: Record, t: Text)
    ensures SizeOf(record.(report := Str(t))) == SizeOf(record.(report := Str([]))) + Utf8Size(Escape(t))
  {
    SizeOfLast(OtherFields(record), Lit("report"), t);
    SizeOfLast(OtherFields(record), Lit("report"), []);
  }

  /** The bytes of an object without its last member's string. */
  function Frame(fields: seq<(Text, Value)>, key: Text): nat {
    var front := if Members(fields) == [] then [] else Members(fields) + [COMMA];
    Utf8Size([OPEN_BRACE] + front + Quote(key) + [COLON, QUOTE]) + 2
  }

  lemma SizeOfLast(fields: seq<(Text, Value)>, key: Text, t: Text)
    ensures Utf8Size(Stringify(Obj(fields + [(key, Str(t))]))) == Frame(fields, key) + Utf8Size(Escape(t))
  {
    MembersAppend(fields, key, Str(t));
    SizeOfMember(if Members(fields) == [] then [] else Members(fields) + [COMMA], Quote(key), t);
  }

  lemma SizeOfMember(front: Text, key: Text, t: Text)
    ensures Utf8Size([OPEN_BRACE] + (front + (key + [COLON] + Quote(t))) + [CLOSE_BRACE])
         == Utf8Size([OPEN_BRACE] + front + key + [COLON, QUOTE]) + Utf8Size(Escape(t)) + 2
  {
    var before := [OPEN_BRACE] + front + key + [COLON, QUOTE];
    var after := [QUOTE, CLOSE_BRACE];
    RegroupMember(front, key, Escape(t));
    EscapeStartsWhole(t);
    Utf8Adds(before, Escape(t) + after);
    Utf8Adds(Escape(t), after);
    assert after == [QUOTE] + [CLOSE_BRACE];
    Utf8Adds([QUOTE], [CLOSE_BRACE]);
    assert Utf8Size([QUOTE]) == 1 && Utf8Size([CLOSE_BRACE]) == 1;
  }

  lemma RegroupMember(front: Text, key: Text, body: Text)
    ensures [OPEN_BRACE] + (front + (key + [COLON] + ([QUOTE] + body + [QUOTE]))) + [CLOSE_BRACE]
         == [OPEN_BRACE] + front + key + [COLON, QUOTE] + (body + [QUOTE, CLOSE_BRACE])
  {
  }

  /** Keeping some of the text never costs less than keeping none of it. */
  lemma EmptyHeadIsSmallest(record: Record, head: Text)
    ensures SizeOf(WithHead(record, head)) >= SizeOf(WithHead(record, []))
  {
    var notice := Notice(|ReportText(record.report)|);
    SizeOfReport(record, head + notice);
    SizeOfReport(record, notice);
    assert [] + notice == notice;
    assert notice[0] == 0x2026;
    EscapeAdds(head, notice);
    EscapeStartsWhole(notice);
    Utf8Adds(Escape(head), Escape(notice));
  }

  /**
   A capped record fits its budget exactly when the record did, or when the rest of the record leaves
   room for the notice alone: with a large enough page or user agent no cut of the report can.
   */
  lemma CappedFits(record: Record)
    ensures Fits(Capped(record)) <==> Fits(record) || Fits(WithHead(record, []))
  {
    var text := ReportText(record.report);
    var kept := KeptHead(record, text, FirstGuess(text));
    EmptyHeadIsSmallest(record, text[..kept]);
    assert kept == 0 ==> text[..kept] == [];
  }

  /** A page costs at least its length, and the object some more. */
  lemma PageCounts(record: Record)
    requires record.page.Some?
    ensures SizeOf(record) > |record.page.value|
  {
    var fields := OtherFields(record) + [(Lit("report"), record.report)];
    assert fields[1] == (Lit("page"), Str(record.page.value));
    MembersAtLeast(fields, 1);
    Utf8AtLeast(Stringify(ToValue(record)));
  }

  /** The failing case: a report whose page fills the budget is kept over it, however it is cut. */
  lemma LongPageStaysOver(record: Record)
    requires record.page.Some? && |record.page.value| >= RECORD_MAX_BYTES
    ensures !Fits(record) && !Fits(Capped(record))
  {
    PageCounts(record);
    PageCounts(WithHead(record, []));
    CappedFits(record);
  }

  function Repeated(u: Unit, n: nat): (t: Text)
    ensures |t| == n && forall i :: 0 <= i < n ==> t[i] == u
  {
    seq(n, i => u)
  }

  const LETTER: Unit := 97

  lemma CappedMayNotFit()
    ensures !Fits(Capped(Record([], Some(Repeated(LETTER, RECORD_MAX_BYTES)), None, Undefined)))
  {
    LongPageStaysOver(Record([], Some(Repeated(LETTER, RECORD_MAX_BYTES)), None, Undefined));
  }

  /** Whether keeping that much of the text is too much. */
  predicate TooMuch(record: Record, text: Text, length: nat)
    requires length <= |text|
  {
    !Fits(WithHead(record, text[..length]))
  }

  /** The lengths the loop tries, longest first. */
  function Tried(n: nat, k: nat): (length: nat)
    ensures length <= n
  {
    if k == 0 then n else Tried(n, k - 1) * 3 / 4
  }

  /** What is kept is the first length tried that fits: every longer one tried did not. */
  lemma {:induction false} KeptIsFirstThatFits(record: Record, text: Text, n: nat) returns (k: nat)
    requires n <= |text|
    ensures KeptHead(record, text, n) == Tried(n, k)
    ensures forall j: nat :: j < k ==> TooMuch(record, text, Tried(n, j))
    decreases n
  {
    k := 0;
    if n != 0 && !Fits(WithHead(record, text[..n])) {
      var rest := KeptIsFirstThatFits(record, text, n * 3 / 4);
      k := rest + 1;
      TriedNext(n, rest);
      assert Tried(n, 0) == n;
      forall j: nat | j < k
        ensures TooMuch(record, text, Tried(n, j))
      {
        if j > 0 {
          TriedNext(n, j - 1);
        }
      }
    }
  }

  lemma {:induction false} TriedNext(n: nat, k: nat)
    ensures Tried(n, k + 1) == Tried(n * 3 / 4, k)
  {
    if k > 0 {
      TriedNext(n, k - 1);
    }
  }

  /**
   Everything but the report is kept. A report that is a string keeps a prefix of itself, any other a
   prefix of its JSON, one that is missing nothing; behind it stands how long that text was. The prefix is
   the longest of the lengths tried that fits.
   */
  lemma CappedKeepsAPrefix(record: Record) returns (k: nat)
    ensures Fits(record) ==> Capped(record) == record
    ensures Capped(record).(report := record.report) == record
    ensures !Fits(record) ==>
              var text := match record.report
                case Str(words) => words
                case Undefined => []
                case other => Stringify(other);
              var n := if |text| < RECORD_MAX_BYTES then |text| else RECORD_MAX_BYTES;
              var notice := [0x2026] + (Lit(" [truncated from ") + Decimal(|text|) + Lit(" characters]"));
              && Capped(record).report == Str(text[..Tried(n, k)] + notice)
              && (Tried(n, k) == 0 || Fits(Capped(record)))
              && forall j: nat :: j < k ==> !Fits(record.(report := Str(text[..Tried(n, j)] + notice)))
  {
    var text := ReportText(record.report);
    k := KeptIsFirstThatFits(record, text, FirstGuess(text));
    forall j: nat | j < k
      ensures !Fits(WithHead(record, text[..Tried(FirstGuess(text), j)]))
    {
      assert TooMuch(record, text, Tried(FirstGuess(text), j));
    }
  }

  // ------------------------------------------------------------------ the newest reports that fit

  /** Two bytes of framing, and for each report its bytes and a separator. */
  function Cost(records: seq<Record>): nat {
    if records == [] then 0 else Cost(records[..|records| - 1]) + SizeOf(records[|records| - 1]) + 1
  }

  /** Whether the report at a position belongs in the log: the newest always, another within both bounds. */
  predicate Keeps(records: seq<Record>, k: nat)
    requires k < |records|
  {
    k < LOG_LIMIT && (k == 0 || 2 + Cost(records[..k + 1]) <= LOG_MAX_BYTES)
  }

  /** The log as one reading of the whole history would choose it: every report that belongs in it. */
  ghost predicate IsBounded(kept: seq<Record>, records: seq<Record>) {
    && kept <= records
    && (forall k: nat :: k < |records| ==> (k < |kept| <==> Keeps(records, k)))
  }

  /** A report that belongs in the log has only such reports before it. */
  lemma KeepsIsClosed(records: seq<Record>, i: nat, k: nat)
    requires i <= k < |records| && Keeps(records, k)
    ensures Keeps(records, i)
  {
    if 0 < i {
      CostGrows(records, i + 1, k + 1);
    }
  }

  lemma {:induction false} CostGrows(records: seq<Record>, i: nat, k: nat)
    requires i <= k <= |records|
    ensures Cost(records[..i]) <= Cost(records[..k])
    decreases k
  {
    if i < k {
      CostNext(records, k - 1);
      CostGrows(records, i, k - 1);
    }
  }

  lemma CostNext(records: seq<Record>, i: nat)
    requires i < |records|
    ensures Cost(records[..i + 1]) == Cost(records[..i]) + SizeOf(records[i]) + 1
  {
    assert records[..i + 1][..i] == records[..i];
  }

  method Bounded(records: seq<Record>) returns (kept: seq<Record>)
    ensures IsBounded(kept, records)
  {
    kept := [];
    var used := 2;
    var considered := if |records| < LOG_LIMIT then |records| else LOG_LIMIT;
    for i := 0 to considered
      invariant i <= LOG_LIMIT && kept == records[..i]
      invariant used == 2 + Cost(records[..i])
      invariant forall k: nat :: k < i ==> Keeps(records, k)
    {
      var cost := SizeOf(records[i]) + 1;
      CostNext(records, i);
      if |kept| > 0 && used + cost > LOG_MAX_BYTES {
        assert !Keeps(records, i);
        KeptExactly(records, i);
        return;
      }
      kept := kept + [records[i]];
      used := used + cost;
    }
    KeptExactly(records, considered);
  }

  lemma KeptExactly(records: seq<Record>, n: nat)
    requires n <= |records| && forall k: nat :: k < n ==> Keeps(records, k)
    requires n < |records| ==> !Keeps(records, n)
    ensures IsBounded(records[..n], records)
  {
    forall k: nat | n <= k < |records|
      ensures !Keeps(records, k)
    {
      if Keeps(records, k) {
        KeepsIsClosed(records, n, k);
      }
    }
  }

  lemma {:induction false} CostCons(record: Record, records: seq<Record>)
    ensures Cost([record] + records) == SizeOf(record) + 1 + Cost(records)
    decreases |records|
  {
    var all := [record] + records;
    var n := |records|;
    if n == 0 {
      assert all[..0] == [] && all == [record];
    } else {
      assert all[..n] == [record] + records[..n - 1];
      CostCons(record, records[..n - 1]);
    }
  }

  /** A report of the longer history belongs in its log only if it belonged in the shorter one's. */
  lemma KeepsCons(record: Record, history: seq<Record>, k: nat)
    requires k < |history| && Keeps([record] + history, k + 1)
    ensures Keeps(history, k)
  {
    var all := [record] + history;
    assert all[..k + 2] == [record] + history[..k + 1];
    CostCons(record, history[..k + 1]);
  }

  /**
   Evicting at each append loses nothing: a report put in front of the stored log and bounded again is
   what bounding the whole history would keep.
   */
  lemma IncrementalIsOneShot(record: Record, history: seq<Record>, stored: seq<Record>, next: seq<Record>)
    requires IsBounded(stored, history)
    requires IsBounded(next, [record] + stored)
    ensures IsBounded(next, [record] + history)
  {
    var all, seen := [record] + history, [record] + stored;
    forall k: nat | k < |all|
      ensures k < |next| <==> Keeps(all, k)
    {
      if k < |seen| {
        assert all[..k + 1] == seen[..k + 1];
        assert Keeps(all, k) <==> Keeps(seen, k);
      } else {
        assert all == [record] + history && k == (k - 1) + 1;
        if Keeps(all, k) {
          KeepsCons(record, history, k - 1);
        }
      }
    }
  }

  // ------------------------------------------------------------------ what the bounds give

  function ToValues(records: seq<Record>): seq<Value> {
    seq(|records|, i requires 0 <= i < |records| => ToValue(records[i]))
  }

  /** The bytes of the stored array. */
  function LogSize(records: seq<Record>): nat {
    Utf8Size(Stringify(Arr(ToValues(records))))
  }

  lemma {:induction false} ItemsSize(records: seq<Record>)
    requires records != []
    ensures Utf8Size(Items(ToValues(records))) + 1 == Cost(records)
    decreases |records|
  {
    var values := ToValues(records);
    var first := Stringify(values[0]);
    if |records| == 1 {
      assert records[..0] == [];
    } else {
      var rest := records[1..];
      assert values[1..] == ToValues(rest);
      ItemsSize(rest);
      assert records == [records[0]] + rest;
      CostCons(records[0], rest);
      ItemsStart(ToValues(rest), rest);
      SizeOfTwo(first, Items(values[1..]));
    }
  }

  lemma SizeOfTwo(first: Text, rest: Text)
    requires rest != [] && !IsLow(rest[0])
    ensures Utf8Size(first + [COMMA] + rest) == Utf8Size(first) + 1 + Utf8Size(rest)
  {
    Utf8Adds(first + [COMMA], rest);
    Utf8Adds(first, [COMMA]);
    assert Utf8Size([COMMA]) == 1;
  }

  lemma ItemsStart(values: seq<Value>, records: seq<Record>)
    requires records != [] && values == ToValues(records)
    ensures Items(values) != [] && Items(values)[0] == OPEN_BRACE
  {
    assert values[0] == ToValue(records[0]);
    var text := Stringify(values[0]);
    assert text[0] == OPEN_BRACE;
  }

  /** The accumulated budget overstates the stored array by one byte. */
  lemma LogSizeIs(records: seq<Record>)
    requires records != []
    ensures LogSize(records) == Cost(records) + 1
  {
    ItemsSize(records);
    ItemsStart(ToValues(records), records);
    var items := Items(ToValues(records));
    Utf8Adds([OPEN_BRACKET] + items, [CLOSE_BRACKET]);
    Utf8Adds([OPEN_BRACKET], items);
    assert Utf8Size([OPEN_BRACKET]) == 1 && Utf8Size([CLOSE_BRACKET]) == 1;
  }

  /**
   The log serialises within its budget exactly when its newest report does: the newest is kept
   whatever it costs, and nothing is kept beside it past the budget.
   */
  lemma LogFits(kept: seq<Record>, records: seq<Record>)
    requires IsBounded(kept, records) && records != []
    ensures LogSize(kept) <= LOG_MAX_BYTES <==> LogSize(records[..1]) <= LOG_MAX_BYTES
  {
    assert Keeps(records, 0);
    LogSizeIs(kept);
    LogSizeIs(records[..1]);
    assert kept == records[..|kept|];
    if |kept| > 1 {
      assert Keeps(records, |kept| - 1);
      CostGrows(records, 1, |kept|);
    }
  }

  /** The failing case: one report, kept whatever it costs, that is over the budget by itself. */
  lemma LogMayNotFit()
    ensures var record := Record([], Some(Repeated(LETTER, LOG_MAX_BYTES)), None, Undefined);
            var kept := [Capped(record)];
            IsBounded(kept, kept) && LogSize(kept) > LOG_MAX_BYTES
  {
    var record := Record([], Some(Repeated(LETTER, LOG_MAX_BYTES)), None, Undefined);
    var kept := [Capped(record)];
    assert Capped(record).page == record.page;
    PageCounts(Capped(record));
    assert kept[..0] == [];
    LogSizeIs(kept);
  }

  lemma {:induction false} CostAtMost(records: seq<Record>)
    requires forall i :: 0 <= i < |records| ==> Fits(records[i])
    ensures Cost(records) <= |records| * (RECORD_MAX_BYTES + 1)
    decreases |records|
  {
    if records != [] {
      CostAtMost(records[..|records| - 1]);
    }
  }

  /** With every report within its own budget, the log is within its and holds at least the newest 23. */
  lemma AtLeastTwentyThree(kept: seq<Record>, records: seq<Record>)
    requires IsBounded(kept, records)
    requires forall i :: 0 <= i < |records| ==> Fits(records[i])
    ensures kept != [] ==> LogSize(kept) <= LOG_MAX_BYTES
    ensures |kept| >= if |records| < 23 then |records| else 23
    ensures |kept| <= LOG_LIMIT
  {
    var least := if |records| < 23 then |records| else 23;
    if 0 < least {
      CostAtMost(records[..least]);
      assert Keeps(records, least - 1);
      LogFits(kept, records);
      LogSizeIs(records[..1]);
      CostAtMost(records[..1]);
    }
    assert |records| > LOG_LIMIT ==> !Keeps(records, LOG_LIMIT);
  }

  /** Twenty-three is all that is certain: reports that fill their budget leave no room for another. */
  lemma TwentyThreeIsExact(kept: seq<Record>, records: seq<Record>)
    requires IsBounded(kept, records) && |records| >= 23
    requires forall i :: 0 <= i < |records| ==> SizeOf(records[i]) == RECORD_MAX_BYTES
    ensures |kept| == 23
  {
    AtLeastTwentyThree(kept, records);
    if |kept| > 23 {
      assert Keeps(records, 23);
      CostOfFull(records[..24]);
    }
  }

  /** The members of an object whose page and user agent are missing. */
  lemma FirstAndLast(first: (Text, Value), last: (Text, Value))
    requires first.1 == Str([]) && last.1 == Str([])
    ensures |Members([first] + [(Lit("page"), Undefined)] + [(Lit("userAgent"), Undefined)] + [last])|
         <= 6 * (|first.0| + |last.0|) + 11
  {
    var page: (Text, Value) := (Lit("page"), Undefined);
    var agent: (Text, Value) := (Lit("userAgent"), Undefined);
    var fields := [first] + [page] + [agent] + [last];
    assert fields[1..] == [page, agent, last] && [page, agent, last][1..] == [agent, last];
    assert [agent, last][1..] == [last] && [last][1..] == [];
    assert Members([last]) == Member(last.0, last.1);
    assert Members([agent, last]) == Members([last]);
    assert Members([page, agent, last]) == Members([agent, last]);
    EscapeAtMost(first.0);
    EscapeAtMost(last.0);
  }

  /** The bytes of a record with nothing in it are far from the budget. */
  lemma EmptyRecordIsSmall()
    ensures SizeOf(Record([], None, None, Str([]))) < RECORD_MAX_BYTES
  {
    var blank := Record([], None, None, Str([]));
    var at: (Text, Value) := (Lit("at"), Str([]));
    var report: (Text, Value) := (Lit("report"), Str([]));
    FirstAndLast(at, report);
    assert ToValue(blank) == Obj([at] + [(Lit("page"), Undefined)] + [(Lit("userAgent"), Undefined)] + [report]);
    Utf8AtMost(Stringify(ToValue(blank)));
  }

  /** Reports that fill their budget to the byte exist, so the count of twenty-three is reached. */
  lemma FullRecordExists() returns (record: Record)
    ensures SizeOf(record) == RECORD_MAX_BYTES && Capped(record) == record
  {
    var blank := Record([], None, None, Str([]));
    EmptyRecordIsSmall();
    var n := RECORD_MAX_BYTES - SizeOf(blank);
    record := blank.(report := Str(Repeated(LETTER, n)));
    LettersAreOneByte(Repeated(LETTER, n));
    SizeOfReport(blank, Repeated(LETTER, n));
    assert blank.(report := Str([])) == blank;
  }

  lemma {:induction false} LettersAreOneByte(t: Text)
    requires forall i :: 0 <= i < |t| ==> t[i] == LETTER
    ensures Escape(t) == t && Utf8Size(t) == |t|
    decreases |t|
  {
    if t != [] {
      LettersAreOneByte(t[1..]);
      assert t == [t[0]] + t[1..];
    }
  }

  lemma {:induction false} CostOfFull(records: seq<Record>)
    requires forall i :: 0 <= i < |records| ==> SizeOf(records[i]) == RECORD_MAX_BYTES
    ensures Cost(records) == |records| * (RECORD_MAX_BYTES + 1)
    decreases |records|
  {
    if records != [] {
      CostOfFull(records[..|records| - 1]);
    }
  }

  // ------------------------------------------------------------------ the object

  datatype Answer = Appended(kept: nat) | BadRecord

  class Log {
    var stored: seq<Record>
    /** Every report appended so far, capped, newest first. */
    ghost var history: seq<Record>

    ghost predicate Valid()
      reads this
    {
      IsBounded(stored, history)
    }

    constructor ()
      ensures Valid() && stored == [] && history == []
    {
      stored := [];
      history := [];
    }

    /** `/append`; no record stands for a body that was not JSON. */
    method Append(record: Option<Record>) returns (answer: Answer)
      requires Valid()
      modifies this
      ensures Valid()
      ensures record.None? ==> answer == BadRecord && stored == old(stored) && history == old(history)
      ensures record.Some? ==> history == [Capped(record.value)] + old(history)
      ensures record.Some? ==> answer == Appended(|stored|) && 0 < |stored| <= LOG_LIMIT
      ensures record.Some? ==> stored[0] == Capped(record.value)
    {
      if record.None? {
        return BadRecord;
      }
      var capped := CapRecord(record.value);
      var next := Bounded([capped] + stored);
      IncrementalIsOneShot(capped, history, stored, next);
      history := [capped] + history;
      stored := next;
      assert Keeps(history, 0);
      assert |history| > LOG_LIMIT ==> !Keeps(history, LOG_LIMIT);
      answer := Appended(|stored|);
    }

    /** `/read`; no number stands for a limit that was absent or not an integer. */
    method Read(asked: Option<int>) returns (total: nat, reports: seq<Record>)
      requires Valid()
      ensures total == |stored| && reports <= history
      ensures |reports| <= |stored| && (asked.Some? && asked.value > 0 ==> |reports| <= asked.value)
      ensures |reports| == |stored| || (asked.Some? && |reports| == asked.value)
    {
      var limit := if asked.Some? && 0 < asked.value < LOG_LIMIT then asked.value else LOG_LIMIT;
      assert |history| > LOG_LIMIT ==> !Keeps(history, LOG_LIMIT);
      total := |stored|;
      reports := if limit < |stored| then stored[..limit] else stored;
    }
  }
}
