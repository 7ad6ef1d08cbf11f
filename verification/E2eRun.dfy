/**
 The accounting and exit code of the end-to-end runner (apps/ui/e2e/run.ts). What each suite claims,
 whether the stack answered before it and how its run went are inputs; text matching of filters and
 of checklist ids is not modelled.
 */
module E2eRun {
  import opened Wrappers
  import opened Utf16

  type Id = Text

  datatype Phase = A | B

  datatype Suite = Suite(
    id: Text, claims: seq<Id>, ownIds: set<Id>, phase: Option<Phase>, needsBrowser: bool, matchesFilters: bool)

  datatype Ran = Passed | Failed | TimedOut

  /** A suite and what happens when its turn comes. */
  datatype Trial = Trial(suite: Suite, alive: bool, ran: Ran, proven: set<Id>)

  /** A suite file that would not load. */
  datatype Broken = Broken(file: Text, claims: seq<Id>, matchesFilters: bool)

  datatype Options = Options(phase: Option<Phase>, list: bool, allowUnproven: bool)

  datatype Status = Pass | Fail | Skip

  datatype Outcome = Outcome(suiteId: Text, status: Status, unproven: seq<Id>)

  datatype Ledger = Ledger(
    failed: seq<Text>, outcomes: seq<Outcome>, passed: nat, skipped: nat, claimedIds: nat, timedOut: bool)

  const EMPTY: Ledger := Ledger([], [], 0, 0, 0, false)

  // ------------------------------------------------------------------ the selection

  function PhaseOf(trial: Trial): Phase {
    if trial.suite.phase.Some? then trial.suite.phase.value else B
  }

  predicate IsSelected(trial: Trial, options: Options) {
    (options.phase.Some? ==> PhaseOf(trial) == options.phase.value) && trial.suite.matchesFilters
  }

  function Selected(trials: seq<Trial>, options: Options): (r: seq<Trial>)
    ensures forall t :: t in r <==> t in trials && IsSelected(t, options)
  {
    if trials == [] then []
    else (if IsSelected(trials[0], options) then [trials[0]] else []) + Selected(trials[1..], options)
  }

  function SelectedBroken(broken: seq<Broken>): (r: seq<Broken>)
    ensures forall b :: b in r <==> b in broken && b.matchesFilters
  {
    if broken == [] then []
    else (if broken[0].matchesFilters then [broken[0]] else []) + SelectedBroken(broken[1..])
  }

  function InPhase(trials: seq<Trial>, phase: Phase): (r: seq<Trial>)
    ensures forall t :: t in r <==> t in trials && PhaseOf(t) == phase
  {
    if trials == [] then []
    else (if PhaseOf(trials[0]) == phase then [trials[0]] else []) + InPhase(trials[1..], phase)
  }

  /** Sorting by the declared order, then id, then file: any comparison. */
  type Order = (Trial, Trial) -> bool

  function Inserted(trial: Trial, sorted: seq<Trial>, before: Order): (r: seq<Trial>)
    ensures multiset(r) == multiset(sorted) + multiset{trial}
  {
    if sorted == [] || !before(sorted[0], trial) then [trial] + sorted
    else
      assert sorted == [sorted[0]] + sorted[1..];
      [sorted[0]] + Inserted(trial, sorted[1..], before)
  }

  function Sorted(trials: seq<Trial>, before: Order): (r: seq<Trial>)
    ensures multiset(r) == multiset(trials)
    ensures forall t :: t in r <==> t in trials
  {
    if trials == [] then []
    else
      var last := trials[|trials| - 1];
      assert trials == trials[..|trials| - 1] + [last];
      var r := Inserted(last, Sorted(trials[..|trials| - 1], before), before);
      assert forall t :: t in r <==> t in multiset(r);
      assert forall t :: t in trials <==> t in multiset(trials);
      r
  }

  /** A comparison that says of any two trials which may run first, and may say both. */
  ghost predicate IsPreorder(before: Order) {
    && (forall a, b :: before(a, b) || before(b, a))
    && (forall a, b, c :: before(a, b) && before(b, c) ==> before(a, c))
  }

  ghost predicate InOrder(trials: seq<Trial>, before: Order) {
    forall i, j :: 0 <= i < j < |trials| ==> before(trials[i], trials[j])
  }

  /** The trials that the comparison does not tell from this one. */
  function Peers(trials: seq<Trial>, of: Trial, before: Order): seq<Trial> {
    if trials == [] then []
    else
      var rest := Peers(trials[1..], of, before);
      if before(trials[0], of) && before(of, trials[0]) then [trials[0]] + rest else rest
  }

  lemma {:induction false} NoPeers(trials: seq<Trial>, of: Trial, before: Order)
    requires forall t :: t in trials ==> !before(t, of)
    ensures Peers(trials, of, before) == []
  {
    if trials != [] {
      assert trials[0] in trials;
      NoPeers(trials[1..], of, before);
    }
  }

  lemma {:induction false} PeersAdd(a: seq<Trial>, b: seq<Trial>, of: Trial, before: Order)
    ensures Peers(a + b, of, before) == Peers(a, of, before) + Peers(b, of, before)
  {
    if a == [] {
      assert a + b == b;
    } else {
      assert (a + b)[1..] == a[1..] + b;
      PeersAdd(a[1..], b, of, before);
    }
  }

  lemma {:induction false} InsertedInOrder(trial: Trial, sorted: seq<Trial>, before: Order)
    requires IsPreorder(before) && InOrder(sorted, before)
    ensures InOrder(Inserted(trial, sorted, before), before)
    decreases |sorted|
  {
    if sorted != [] {
      if before(sorted[0], trial) {
        InsertedInOrder(trial, sorted[1..], before);
        FirstStaysFirst(sorted[0], trial, sorted[1..], Inserted(trial, sorted[1..], before), before);
      } else {
        InFront(trial, sorted, before);
      }
    }
  }

  lemma InFront(trial: Trial, sorted: seq<Trial>, before: Order)
    requires IsPreorder(before) && InOrder(sorted, before) && sorted != [] && !before(sorted[0], trial)
    ensures InOrder([trial] + sorted, before)
    ensures forall t :: t in sorted ==> !before(t, trial)
  {
    var all := [trial] + sorted;
    forall i | 0 <= i < |sorted|
      ensures before(sorted[0], sorted[i]) && before(trial, sorted[i]) && !before(sorted[i], trial)
    {
      assert before(sorted[0], sorted[i]);
    }
    forall i, j | 0 <= i < j < |all|
      ensures before(all[i], all[j])
    {
      assert all[j] == sorted[j - 1];
      assert i > 0 ==> all[i] == sorted[i - 1];
    }
  }

  lemma PeersBehind(trial: Trial, sorted: seq<Trial>, before: Order, of: Trial)
    requires IsPreorder(before) && forall t :: t in sorted ==> !before(t, trial)
    ensures Peers([trial] + sorted, of, before) == Peers(sorted, of, before) + Peers([trial], of, before)
  {
    PeersAdd([trial], sorted, of, before);
    if Peers([trial], of, before) != [] {
      assert before(of, trial);
      forall t | t in sorted
        ensures !before(t, of)
      {
        assert !before(t, trial);
      }
      NoPeers(sorted, of, before);
    }
  }

  lemma AssociateTrials(a: seq<Trial>, b: seq<Trial>, c: seq<Trial>)
    ensures a + b + c == a + (b + c)
  {
  }

  /** A trial is put behind those that are not told from it. */
  lemma {:induction false} InsertedBehindPeers(trial: Trial, sorted: seq<Trial>, before: Order, of: Trial)
    requires IsPreorder(before) && InOrder(sorted, before)
    ensures Peers(Inserted(trial, sorted, before), of, before) == Peers(sorted, of, before) + Peers([trial], of, before)
    decreases |sorted|
  {
    if sorted == [] {
      assert Inserted(trial, sorted, before) == [trial];
    } else if before(sorted[0], trial) {
      var rest := sorted[1..];
      InsertedBehindPeers(trial, rest, before, of);
      PeersAdd([sorted[0]], Inserted(trial, rest, before), of, before);
      PeersAdd([sorted[0]], rest, of, before);
      assert sorted == [sorted[0]] + rest;
      AssociateTrials(Peers([sorted[0]], of, before), Peers(rest, of, before), Peers([trial], of, before));
    } else {
      InFront(trial, sorted, before);
      PeersBehind(trial, sorted, before, of);
    }
  }

  lemma FirstStaysFirst(first: Trial, trial: Trial, rest: seq<Trial>, later: seq<Trial>, before: Order)
    requires before(first, trial) && forall t :: t in rest ==> before(first, t)
    requires multiset(later) == multiset(rest) + multiset{trial} && InOrder(later, before)
    ensures InOrder([first] + later, before)
  {
    var all := [first] + later;
    forall i, j | 0 <= i < j < |all|
      ensures before(all[i], all[j])
    {
      assert all[j] == later[j - 1] && later[j - 1] in multiset(later);
      assert later[j - 1] in rest || later[j - 1] == trial;
    }
  }

  /** The suites run in the order compared by, and where that does not tell two apart, as they were found. */
  lemma {:induction false} SortedInOrder(trials: seq<Trial>, before: Order, of: Trial)
    requires IsPreorder(before)
    ensures InOrder(Sorted(trials, before), before)
    ensures Peers(Sorted(trials, before), of, before) == Peers(trials, of, before)
    decreases |trials|
  {
    if trials != [] {
      var front, last := trials[..|trials| - 1], trials[|trials| - 1];
      SortedInOrder(front, before, of);
      InsertedInOrder(last, Sorted(front, before), before);
      InsertedBehindPeers(last, Sorted(front, before), before, of);
      PeersAdd(front, [last], of, before);
      assert trials == front + [last];
    }
  }

  // ------------------------------------------------------------------ one suite

  function Without(claims: seq<Id>, proven: set<Id>): (r: seq<Id>)
    ensures |r| <= |claims| && forall id :: id in r <==> id in claims && id !in proven
  {
    if claims == [] then []
    else (if claims[0] in proven then [] else [claims[0]]) + Without(claims[1..], proven)
  }

  predicate IsSkipped(trial: Trial, browser: bool) {
    trial.suite.needsBrowser && !browser
  }

  /** The ids a suite's run proves: those it printed, and those its own id names when it passed. */
  function Proven(trial: Trial): set<Id> {
    trial.proven + if trial.ran.Passed? then trial.suite.ownIds else {}
  }

  /** What is left unproven by a suite that gets its turn. */
  function Unproven(trial: Trial, browser: bool): (r: seq<Id>)
    ensures |r| <= |trial.suite.claims|
  {
    if IsSkipped(trial, browser) then trial.suite.claims else Without(trial.suite.claims, Proven(trial))
  }

  /** A suite that fails nothing: its turn came, and it was skipped or passed. */
  predicate Fine(trial: Trial, browser: bool) {
    trial.alive && (IsSkipped(trial, browser) || trial.ran.Passed?)
  }

  function TurnOutcome(trial: Trial, browser: bool): Outcome {
    var status := if IsSkipped(trial, browser) then Skip else if trial.ran.Passed? then Pass else Fail;
    Outcome(trial.suite.id, status, Unproven(trial, browser))
  }

  /** What a suite that gets its turn adds. */
  function Taken(l: Ledger, trial: Trial, browser: bool): Ledger {
    var outcome := TurnOutcome(trial, browser);
    Ledger(
      if outcome.status.Fail? then l.failed + [trial.suite.id] else l.failed,
      l.outcomes + [outcome],
      l.passed + (if outcome.status.Pass? then 1 else 0),
      l.skipped + (if outcome.status.Skip? then 1 else 0),
      l.claimedIds + |trial.suite.claims|,
      l.timedOut || (outcome.status.Fail? && trial.ran.TimedOut?))
  }

  /** What a suite whose turn never came adds: all it claimed, unproven. */
  function Stranded(l: Ledger, trials: seq<Trial>): Ledger
    decreases |trials|
  {
    if trials == [] then l
    else
      var suite := trials[0].suite;
      Stranded(
        l.(failed := l.failed + [suite.id], outcomes := l.outcomes + [Outcome(suite.id, Fail, suite.claims)],
           claimedIds := l.claimedIds + |suite.claims|),
        trials[1..])
  }

  // ------------------------------------------------------------------ one phase

  /** A phase: the suites in turn, until the stack is dead or a suite times out. */
  function PhaseRun(l: Ledger, trials: seq<Trial>, browser: bool): Ledger
    decreases |trials|
  {
    if trials == [] then l
    else if !trials[0].alive then Stranded(l, trials)
    else
      var next := Taken(l, trials[0], browser);
      if next.timedOut then next else PhaseRun(next, trials[1..], browser)
  }

  function Claimed(trials: seq<Trial>): nat {
    if trials == [] then 0 else |trials[0].suite.claims| + Claimed(trials[1..])
  }

  /** The loop over the stranded suites leaves their claims to be counted at once. */
  method Strand(before: Ledger, stranded: seq<Trial>) returns (after: Ledger)
    ensures after.(claimedIds := before.claimedIds + Claimed(stranded)) == Stranded(before, stranded)
    ensures after.claimedIds == before.claimedIds
  {
    after := before;
    ghost var counted: nat := before.claimedIds;
    for i := 0 to |stranded|
      invariant after.claimedIds == before.claimedIds
      invariant counted + Claimed(stranded[i..]) == before.claimedIds + Claimed(stranded)
      invariant Stranded(after.(claimedIds := counted), stranded[i..]) == Stranded(before, stranded)
    {
      var unrun := stranded[i].suite;
      assert stranded[i..][1..] == stranded[i + 1..];
      after := after.(failed := after.failed + [unrun.id],
                      outcomes := after.outcomes + [Outcome(unrun.id, Fail, unrun.claims)]);
      counted := counted + |unrun.claims|;
    }
    assert stranded[|stranded|..] == [];
  }

  method RunPhase(before: Ledger, inPhase: seq<Trial>, browser: bool) returns (after: Ledger)
    requires !before.timedOut
    ensures after == PhaseRun(before, inPhase, browser)
  {
    after := before;
    for index := 0 to |inPhase|
      invariant !after.timedOut
      invariant PhaseRun(after, inPhase[index..], browser) == PhaseRun(before, inPhase, browser)
    {
      var trial, rest := inPhase[index], inPhase[index..];
      var suite := trial.suite;
      assert rest[1..] == inPhase[index + 1..];
      if !trial.alive {
        var stranded := Strand(after, rest);
        return stranded.(claimedIds := after.claimedIds + |suite.claims| + Claimed(rest[1..]));
      }
      after := after.(claimedIds := after.claimedIds + |suite.claims|);
      if suite.needsBrowser && !browser {
        after := after.(skipped := after.skipped + 1,
                        outcomes := after.outcomes + [Outcome(suite.id, Skip, suite.claims)]);
        continue;
      }
      var status := Pass;
      if trial.ran.Passed? {
        after := after.(passed := after.passed + 1);
      } else {
        status := Fail;
        after := after.(failed := after.failed + [suite.id], timedOut := trial.ran.TimedOut?);
      }
      var proven := trial.proven + if status.Pass? then suite.ownIds else {};
      after := after.(outcomes := after.outcomes + [Outcome(suite.id, status, Without(suite.claims, proven))]);
      if after.timedOut {
        return;
      }
    }
    assert inPhase[|inPhase|..] == [];
  }

  // ------------------------------------------------------------------ what a phase keeps

  function UnprovenTotal(outcomes: seq<Outcome>): nat {
    if outcomes == [] then 0 else UnprovenTotal(outcomes[..|outcomes| - 1]) + |outcomes[|outcomes| - 1].unproven|
  }

  function RecordedIds(outcomes: seq<Outcome>): seq<Text> {
    if outcomes == [] then [] else RecordedIds(outcomes[..|outcomes| - 1]) + [outcomes[|outcomes| - 1].suiteId]
  }

  function SuiteIds(trials: seq<Trial>): seq<Text> {
    if trials == [] then [] else [trials[0].suite.id] + SuiteIds(trials[1..])
  }

  predicate IsVacuous(outcome: Outcome) {
    !outcome.status.Fail? && outcome.unproven != []
  }

  predicate SomeVacuous(outcomes: seq<Outcome>) {
    outcomes != [] && (SomeVacuous(outcomes[..|outcomes| - 1]) || IsVacuous(outcomes[|outcomes| - 1]))
  }

  lemma OneMore(outcomes: seq<Outcome>, outcome: Outcome)
    ensures UnprovenTotal(outcomes + [outcome]) == UnprovenTotal(outcomes) + |outcome.unproven|
    ensures RecordedIds(outcomes + [outcome]) == RecordedIds(outcomes) + [outcome.suiteId]
    ensures SomeVacuous(outcomes + [outcome]) <==> SomeVacuous(outcomes) || IsVacuous(outcome)
  {
    assert (outcomes + [outcome])[..|outcomes|] == outcomes;
  }

  /**
   From one ledger to another the suites `done` were accounted for: each recorded once and in order, all
   their claims counted, and no more left unproven than was claimed.
   */
  predicate Accounts(before: Ledger, after: Ledger, done: seq<Trial>) {
    && after.claimedIds == before.claimedIds + Claimed(done)
    && RecordedIds(after.outcomes) == RecordedIds(before.outcomes) + SuiteIds(done)
    && UnprovenTotal(after.outcomes) - UnprovenTotal(before.outcomes) <= after.claimedIds - before.claimedIds
  }

  lemma AccountsFirst(before: Ledger, middle: Ledger, after: Ledger, first: Trial, rest: seq<Trial>)
    requires middle.claimedIds == before.claimedIds + |first.suite.claims|
    requires RecordedIds(middle.outcomes) == RecordedIds(before.outcomes) + [first.suite.id]
    requires UnprovenTotal(middle.outcomes) <= UnprovenTotal(before.outcomes) + |first.suite.claims|
    requires Accounts(middle, after, rest)
    ensures Accounts(before, after, [first] + rest)
  {
    assert ([first] + rest)[1..] == rest;
    assert RecordedIds(before.outcomes) + [first.suite.id] + SuiteIds(rest)
        == RecordedIds(before.outcomes) + SuiteIds([first] + rest);
  }

  lemma {:induction false} StrandedAccounts(l: Ledger, trials: seq<Trial>)
    ensures Accounts(l, Stranded(l, trials), trials)
    ensures Stranded(l, trials).timedOut == l.timedOut
    ensures |Stranded(l, trials).failed| == |l.failed| + |trials|
    decreases |trials|
  {
    if trials != [] {
      var suite := trials[0].suite;
      var outcome := Outcome(suite.id, Fail, suite.claims);
      var next := l.(failed := l.failed + [suite.id], outcomes := l.outcomes + [outcome],
                     claimedIds := l.claimedIds + |suite.claims|);
      OneMore(l.outcomes, outcome);
      StrandedAccounts(next, trials[1..]);
      AccountsFirst(l, next, Stranded(l, trials), trials[0], trials[1..]);
      assert trials == [trials[0]] + trials[1..];
    }
  }

  /** A phase accounts for its suites from the first on, and for all of them unless one times out. */
  lemma {:induction false} PhaseAccounts(l: Ledger, trials: seq<Trial>, browser: bool) returns (n: nat)
    requires !l.timedOut
    ensures n <= |trials| && Accounts(l, PhaseRun(l, trials, browser), trials[..n])
    ensures PhaseRun(l, trials, browser).timedOut || n == |trials|
    decreases |trials|
  {
    if trials == [] {
      n := 0;
      assert RecordedIds(l.outcomes) + [] == RecordedIds(l.outcomes);
    } else if !trials[0].alive {
      n := |trials|;
      StrandedAccounts(l, trials);
      assert trials[..n] == trials;
    } else {
      var next := Taken(l, trials[0], browser);
      OneMore(l.outcomes, TurnOutcome(trials[0], browser));
      if next.timedOut {
        n := 1;
        assert RecordedIds(next.outcomes) + [] == RecordedIds(next.outcomes);
        AccountsFirst(l, next, next, trials[0], []);
        assert trials[..1] == [trials[0]] + [];
      } else {
        var rest := PhaseAccounts(next, trials[1..], browser);
        n := rest + 1;
        AccountsFirst(l, next, PhaseRun(l, trials, browser), trials[0], trials[1..][..rest]);
        assert trials[..n] == [trials[0]] + trials[1..][..rest];
      }
    }
  }

  // ------------------------------------------------------------------ what is recorded of each suite

  /** The stack was found dead before this suite of a phase, or before one that came earlier. */
  predicate IsStranded(trials: seq<Trial>, i: nat)
    requires i < |trials|
  {
    exists j :: 0 <= j <= i && !trials[j].alive
  }

  /** The suite ran into the deadline, which ends the whole run. */
  predicate CutsShort(trials: seq<Trial>, i: nat, browser: bool)
    requires i < |trials|
  {
    !IsStranded(trials, i) && !(trials[i].suite.needsBrowser && !browser) && trials[i].ran.TimedOut?
  }

  /** The ids of the claims that are not among the proven ones, each as often as it is claimed. */
  ghost predicate AreUnproven(unproven: seq<Id>, claims: seq<Id>, proven: set<Id>) {
    forall id :: multiset(unproven)[id] == if id in proven then 0 else multiset(claims)[id]
  }

  lemma {:induction false} WithoutIs(claims: seq<Id>, proven: set<Id>)
    ensures AreUnproven(Without(claims, proven), claims, proven)
  {
    if claims != [] {
      WithoutIs(claims[1..], proven);
      assert claims == [claims[0]] + claims[1..];
    }
  }

  /**
   What stands in the ledger for the suite at `i`. One that never ran or was skipped leaves all it claims
   unproven; one that failed leaves what it did not print; one that passed also proves what its id names.
   */
  ghost predicate Records(outcome: Outcome, trials: seq<Trial>, i: nat, browser: bool)
    requires i < |trials|
  {
    var trial, suite := trials[i], trials[i].suite;
    && outcome.suiteId == suite.id
    && if IsStranded(trials, i) then outcome.status == Fail && outcome.unproven == suite.claims
       else if suite.needsBrowser && !browser then outcome.status == Skip && outcome.unproven == suite.claims
       else if trial.ran.Passed? then
         outcome.status == Pass && AreUnproven(outcome.unproven, suite.claims, trial.proven + suite.ownIds)
       else outcome.status == Fail && AreUnproven(outcome.unproven, suite.claims, trial.proven)
  }

  ghost predicate AllRecorded(outcomes: seq<Outcome>, trials: seq<Trial>, browser: bool) {
    && |outcomes| <= |trials|
    && (forall i :: 0 <= i < |outcomes| ==> Records(outcomes[i], trials, i, browser))
    && (forall i :: 0 <= i < |outcomes| - 1 ==> !CutsShort(trials, i, browser))
  }

  /** The phase was ended by the last suite recorded. */
  ghost predicate EndsEarly(outcomes: seq<Outcome>, trials: seq<Trial>, browser: bool) {
    0 < |outcomes| <= |trials| && CutsShort(trials, |outcomes| - 1, browser)
  }

  lemma FirstRecords(l: Ledger, trials: seq<Trial>, browser: bool)
    requires !l.timedOut && trials != [] && trials[0].alive
    ensures Records(TurnOutcome(trials[0], browser), trials, 0, browser)
    ensures Taken(l, trials[0], browser).outcomes == l.outcomes + [TurnOutcome(trials[0], browser)]
    ensures Taken(l, trials[0], browser).timedOut <==> CutsShort(trials, 0, browser)
  {
    assert !IsStranded(trials, 0);
    WithoutIs(trials[0].suite.claims, Proven(trials[0]));
    if !trials[0].ran.Passed? {
      assert Proven(trials[0]) == trials[0].proven;
    }
  }

  /** What the phase records: every suite, up to the first that runs into its deadline. */
  lemma {:induction false} PhaseRecords(l: Ledger, trials: seq<Trial>, browser: bool) returns (added: seq<Outcome>)
    requires !l.timedOut
    ensures var after := PhaseRun(l, trials, browser);
            && after.outcomes == l.outcomes + added && AllRecorded(added, trials, browser)
            && (after.timedOut <==> EndsEarly(added, trials, browser))
            && (!after.timedOut ==> |added| == |trials|)
    decreases |trials|
  {
    if trials == [] {
      added := [];
    } else if !trials[0].alive {
      added := StrandedRecords(l, trials);
      StrandedAllRecorded(added, trials, browser);
      StrandedAccounts(l, trials);
    } else {
      var first := TurnOutcome(trials[0], browser);
      var next := Taken(l, trials[0], browser);
      FirstRecords(l, trials, browser);
      if next.timedOut {
        added := [first];
      } else {
        var rest := PhaseRecords(next, trials[1..], browser);
        added := [first] + rest;
        RecordsShift(first, rest, trials, browser);
        AssociateOutcomes(l.outcomes, [first], rest);
      }
    }
  }

  lemma AssociateOutcomes(a: seq<Outcome>, b: seq<Outcome>, c: seq<Outcome>)
    ensures a + b + c == a + (b + c)
  {
  }

  lemma StrandedAllRecorded(added: seq<Outcome>, trials: seq<Trial>, browser: bool)
    requires trials != [] && !trials[0].alive && |added| == |trials|
    requires forall i :: 0 <= i < |trials| ==> added[i] == Outcome(trials[i].suite.id, Fail, trials[i].suite.claims)
    ensures AllRecorded(added, trials, browser) && !EndsEarly(added, trials, browser)
  {
    assert forall i :: 0 <= i < |trials| ==> IsStranded(trials, i);
  }

  lemma RecordsShift(first: Outcome, rest: seq<Outcome>, trials: seq<Trial>, browser: bool)
    requires trials != [] && trials[0].alive && AllRecorded(rest, trials[1..], browser)
    requires Records(first, trials, 0, browser) && !CutsShort(trials, 0, browser)
    ensures AllRecorded([first] + rest, trials, browser)
    ensures EndsEarly([first] + rest, trials, browser) <==> EndsEarly(rest, trials[1..], browser)
  {
    var later := trials[1..];
    forall i | 0 < i < |trials|
      ensures IsStranded(trials, i) <==> IsStranded(later, i - 1)
    {
      StrandedShift(trials, i);
    }
    var all := [first] + rest;
    forall i | 0 <= i < |all|
      ensures Records(all[i], trials, i, browser)
    {
      if 0 < i {
        assert Records(rest[i - 1], later, i - 1, browser) && later[i - 1] == trials[i];
      }
    }
    forall i | 0 <= i < |all| - 1
      ensures !CutsShort(trials, i, browser)
    {
      if 0 < i {
        assert !CutsShort(later, i - 1, browser);
      }
    }
  }

  lemma StrandedShift(trials: seq<Trial>, i: nat)
    requires 0 < i < |trials| && trials[0].alive
    ensures IsStranded(trials, i) <==> IsStranded(trials[1..], i - 1)
  {
    var later := trials[1..];
    if j :| 0 <= j <= i && !trials[j].alive {
      assert later[j - 1] == trials[j];
    }
    if j :| 0 <= j <= i - 1 && !later[j].alive {
      assert trials[j + 1] == later[j];
    }
  }

  lemma {:induction false} StrandedRecords(l: Ledger, trials: seq<Trial>) returns (added: seq<Outcome>)
    ensures Stranded(l, trials).outcomes == l.outcomes + added && |added| == |trials|
    ensures forall i :: 0 <= i < |trials| ==> added[i] == Outcome(trials[i].suite.id, Fail, trials[i].suite.claims)
    decreases |trials|
  {
    if trials == [] {
      added := [];
    } else {
      var suite := trials[0].suite;
      var first := Outcome(suite.id, Fail, suite.claims);
      var rest := StrandedRecords(
        l.(failed := l.failed + [suite.id], outcomes := l.outcomes + [first],
           claimedIds := l.claimedIds + |suite.claims|),
        trials[1..]);
      added := [first] + rest;
      AssociateOutcomes(l.outcomes, [first], rest);
    }
  }

  function FailedIds(outcomes: seq<Outcome>): seq<Text> {
    if outcomes == [] then []
    else
      var last := outcomes[|outcomes| - 1];
      FailedIds(outcomes[..|outcomes| - 1]) + if last.status.Fail? then [last.suiteId] else []
  }

  function CountOf(outcomes: seq<Outcome>, status: Status): nat {
    if outcomes == [] then 0
    else CountOf(outcomes[..|outcomes| - 1], status) + if outcomes[|outcomes| - 1].status == status then 1 else 0
  }

  /** The totals are those of the outcomes recorded. */
  predicate Tallied(l: Ledger) {
    && l.failed == FailedIds(l.outcomes)
    && l.passed == CountOf(l.outcomes, Pass) && l.skipped == CountOf(l.outcomes, Skip)
  }

  lemma TallyOne(outcomes: seq<Outcome>, outcome: Outcome)
    ensures FailedIds(outcomes + [outcome])
         == if outcome.status.Fail? then FailedIds(outcomes) + [outcome.suiteId] else FailedIds(outcomes)
    ensures forall status :: CountOf(outcomes + [outcome], status)
                          == CountOf(outcomes, status) + if outcome.status == status then 1 else 0
  {
    assert (outcomes + [outcome])[..|outcomes|] == outcomes;
  }

  lemma {:induction false} StrandedTallies(l: Ledger, trials: seq<Trial>)
    requires Tallied(l)
    ensures Tallied(Stranded(l, trials))
    decreases |trials|
  {
    if trials != [] {
      var suite := trials[0].suite;
      var first := Outcome(suite.id, Fail, suite.claims);
      TallyOne(l.outcomes, first);
      StrandedTallies(
        l.(failed := l.failed + [suite.id], outcomes := l.outcomes + [first],
           claimedIds := l.claimedIds + |suite.claims|),
        trials[1..]);
    }
  }

  lemma {:induction false} PhaseTallies(l: Ledger, trials: seq<Trial>, browser: bool)
    requires Tallied(l)
    ensures Tallied(PhaseRun(l, trials, browser))
    decreases |trials|
  {
    if trials != [] {
      if !trials[0].alive {
        StrandedTallies(l, trials);
      } else {
        TallyOne(l.outcomes, TurnOutcome(trials[0], browser));
        var next := Taken(l, trials[0], browser);
        if !next.timedOut {
          PhaseTallies(next, trials[1..], browser);
        }
      }
    }
  }

  predicate AllFine(trials: seq<Trial>, browser: bool) {
    trials != [] ==> Fine(trials[0], browser) && AllFine(trials[1..], browser)
  }

  predicate SomeUnproven(trials: seq<Trial>, browser: bool) {
    trials != [] && (Unproven(trials[0], browser) != [] || SomeUnproven(trials[1..], browser))
  }

  /** A phase fails exactly when one of its suites does, and is vacuous when one leaves a claim unproven. */
  lemma {:induction false} PhaseFails(l: Ledger, trials: seq<Trial>, browser: bool)
    requires !l.timedOut
    ensures var after := PhaseRun(l, trials, browser);
            && |after.failed| >= |l.failed|
            && (|after.failed| == |l.failed| <==> AllFine(trials, browser))
            && (after.timedOut ==> |after.failed| > |l.failed|)
            && (AllFine(trials, browser) ==>
                  (SomeVacuous(after.outcomes) <==> SomeVacuous(l.outcomes) || SomeUnproven(trials, browser)))
    decreases |trials|
  {
    if trials != [] {
      if !trials[0].alive {
        StrandedAccounts(l, trials);
      } else {
        OneMore(l.outcomes, TurnOutcome(trials[0], browser));
        var next := Taken(l, trials[0], browser);
        if !next.timedOut {
          PhaseFails(next, trials[1..], browser);
        }
      }
    }
  }

  // ------------------------------------------------------------------ the whole run

  function ClaimedBroken(broken: seq<Broken>): nat {
    if broken == [] then 0 else |broken[0].claims| + ClaimedBroken(broken[1..])
  }

  function BrokenFiles(broken: seq<Broken>): seq<Text> {
    if broken == [] then [] else [broken[0].file] + BrokenFiles(broken[1..])
  }

  /** The suite files that would not load, reported first. */
  function BrokenRun(l: Ledger, broken: seq<Broken>): Ledger
    decreases |broken|
  {
    if broken == [] then l
    else
      var b := broken[0];
      BrokenRun(
        l.(failed := l.failed + [b.file], outcomes := l.outcomes + [Outcome(b.file, Fail, b.claims)],
           claimedIds := l.claimedIds + |b.claims|),
        broken[1..])
  }

  /** Everything discovered, and whether each phase has a browser. */
  datatype World = World(trials: seq<Trial>, broken: seq<Broken>, browserB: bool, browserA: bool)

  /** The suites of a phase, in the order they run. */
  function PhasePlan(w: World, options: Options, phase: Phase, before: Order): seq<Trial> {
    Sorted(InPhase(Selected(w.trials, options), phase), before)
  }

  function FinalLedger(w: World, options: Options, before: Order): Ledger {
    var b := PhaseRun(BrokenRun(EMPTY, SelectedBroken(w.broken)), PhasePlan(w, options, B, before), w.browserB);
    if b.timedOut then b else PhaseRun(b, PhasePlan(w, options, A, before), w.browserA)
  }

  method RunBroken(before: Ledger, broken: seq<Broken>) returns (after: Ledger)
    ensures after == BrokenRun(before, broken)
  {
    after := before;
    for i := 0 to |broken|
      invariant BrokenRun(after, broken[i..]) == BrokenRun(before, broken)
    {
      var b := broken[i];
      assert broken[i..][1..] == broken[i + 1..];
      after := after.(claimedIds := after.claimedIds + |b.claims|, failed := after.failed + [b.file],
                      outcomes := after.outcomes + [Outcome(b.file, Fail, b.claims)]);
    }
    assert broken[|broken|..] == [];
  }

  /** `main`: the exit code, and the ledger when suites were run. */
  method Run(w: World, options: Options, before: Order) returns (exitCode: int, ledger: Ledger)
    ensures exitCode == ExitCode(w, options, before)
    ensures !options.list && (Selected(w.trials, options) != [] || SelectedBroken(w.broken) != []) ==>
              ledger == FinalLedger(w, options, before)
  {
    ledger := EMPTY;
    var selected := Selected(w.trials, options);
    var brokenSelected := SelectedBroken(w.broken);
    if options.list {
      return 0, ledger;
    }
    if |selected| == 0 && |brokenSelected| == 0 {
      return 1, ledger;
    }
    ledger := RunBroken(ledger, brokenSelected);
    BrokenAccounts(EMPTY, brokenSelected);
    ledger := RunPhase(ledger, Sorted(InPhase(selected, B), before), w.browserB);
    if !ledger.timedOut {
      ledger := RunPhase(ledger, Sorted(InPhase(selected, A), before), w.browserA);
    }
    if |ledger.failed| > 0 {
      return 1, ledger;
    }
    if SomeVacuous(ledger.outcomes) && !options.allowUnproven {
      return 1, ledger;
    }
    exitCode := 0;
  }

  function ExitCode(w: World, options: Options, before: Order): int {
    var ledger := FinalLedger(w, options, before);
    if options.list then 0
    else if Selected(w.trials, options) == [] && SelectedBroken(w.broken) == [] then 1
    else if ledger.failed != [] then 1
    else if SomeVacuous(ledger.outcomes) && !options.allowUnproven then 1
    else 0
  }

  lemma {:induction false} BrokenAccounts(l: Ledger, broken: seq<Broken>)
    ensures var after := BrokenRun(l, broken);
            && after.timedOut == l.timedOut
            && after.claimedIds == l.claimedIds + ClaimedBroken(broken)
            && RecordedIds(after.outcomes) == RecordedIds(l.outcomes) + BrokenFiles(broken)
            && UnprovenTotal(after.outcomes) == UnprovenTotal(l.outcomes) + ClaimedBroken(broken)
            && |after.failed| == |l.failed| + |broken|
            && (SomeVacuous(after.outcomes) <==> SomeVacuous(l.outcomes))
    decreases |broken|
  {
    if broken == [] {
      assert RecordedIds(l.outcomes) + [] == RecordedIds(l.outcomes);
    } else {
      var b := broken[0];
      var outcome := Outcome(b.file, Fail, b.claims);
      OneMore(l.outcomes, outcome);
      BrokenAccounts(
        l.(failed := l.failed + [b.file], outcomes := l.outcomes + [outcome], claimedIds := l.claimedIds + |b.claims|),
        broken[1..]);
      AssociateTexts(RecordedIds(l.outcomes), [b.file], BrokenFiles(broken[1..]));
    }
  }

  lemma AssociateTexts(a: seq<Text>, b: seq<Text>, c: seq<Text>)
    ensures a + b + c == a + (b + c)
  {
  }

  lemma {:induction false} ClaimsAdd(a: seq<Trial>, b: seq<Trial>)
    ensures Claimed(a + b) == Claimed(a) + Claimed(b) && SuiteIds(a + b) == SuiteIds(a) + SuiteIds(b)
    decreases |a|
  {
    if a == [] {
      assert a + b == b;
    } else {
      assert (a + b)[1..] == a[1..] + b;
      ClaimsAdd(a[1..], b);
      AssociateTexts([a[0].suite.id], SuiteIds(a[1..]), SuiteIds(b));
    }
  }

  /**
   On every path, a dead stack and a timeout included: the files that would not load and the first `n`
   selected suites, in the order they run, are each recorded once, the claimed count is the sum of their
   claims, and the proven count, what is claimed less what is left unproven, is not negative. Only a
   timeout leaves a selected suite out.
   */
  lemma RunAccounts(w: World, options: Options, before: Order) returns (n: nat)
    ensures var broken := SelectedBroken(w.broken);
            var plan := PhasePlan(w, options, B, before) + PhasePlan(w, options, A, before);
            var ledger := FinalLedger(w, options, before);
            && n <= |plan| && (ledger.timedOut || n == |plan|)
            && ledger.claimedIds == ClaimedBroken(broken) + Claimed(plan[..n])
            && RecordedIds(ledger.outcomes) == BrokenFiles(broken) + SuiteIds(plan[..n])
            && UnprovenTotal(ledger.outcomes) <= ledger.claimedIds
  {
    var start := BrokenRun(EMPTY, SelectedBroken(w.broken));
    BrokenAccounts(EMPTY, SelectedBroken(w.broken));
    assert [] + BrokenFiles(SelectedBroken(w.broken)) == BrokenFiles(SelectedBroken(w.broken));
    n := PhasesAccount(
      start, PhasePlan(w, options, B, before), w.browserB, PhasePlan(w, options, A, before), w.browserA);
  }

  lemma PhasesAccount(l: Ledger, planB: seq<Trial>, browserB: bool, planA: seq<Trial>, browserA: bool) returns (n: nat)
    requires !l.timedOut
    ensures var b := PhaseRun(l, planB, browserB);
            var after := if b.timedOut then b else PhaseRun(b, planA, browserA);
            && n <= |planB + planA| && (after.timedOut || n == |planB + planA|)
            && Accounts(l, after, (planB + planA)[..n])
  {
    var b := PhaseRun(l, planB, browserB);
    n := PhaseAccounts(l, planB, browserB);
    if b.timedOut {
      assert (planB + planA)[..n] == planB[..n];
    } else {
      var m := PhaseAccounts(b, planA, browserA);
      assert planB[..n] == planB;
      n := n + m;
      assert (planB + planA)[..n] == planB + planA[..m];
      ClaimsAdd(planB, planA[..m]);
      AssociateTexts(RecordedIds(l.outcomes), SuiteIds(planB), SuiteIds(planA[..m]));
    }
  }

  predicate AllBroken(outcomes: seq<Outcome>, broken: seq<Broken>) {
    && |outcomes| == |broken|
    && forall i :: 0 <= i < |broken| ==> outcomes[i] == Outcome(broken[i].file, Fail, broken[i].claims)
  }

  lemma {:induction false} BrokenTallies(l: Ledger, broken: seq<Broken>) returns (added: seq<Outcome>)
    requires Tallied(l)
    ensures Tallied(BrokenRun(l, broken)) && BrokenRun(l, broken).outcomes == l.outcomes + added
    ensures AllBroken(added, broken)
    decreases |broken|
  {
    if broken == [] {
      added := [];
    } else {
      var b := broken[0];
      var first := Outcome(b.file, Fail, b.claims);
      TallyOne(l.outcomes, first);
      var rest := BrokenTallies(
        l.(failed := l.failed + [b.file], outcomes := l.outcomes + [first], claimedIds := l.claimedIds + |b.claims|),
        broken[1..]);
      added := [first] + rest;
      AssociateOutcomes(l.outcomes, [first], rest);
    }
  }

  /**
   What a whole run records, on every path: the files that would not load, failed; then, phase B before
   phase A, each suite as its turn went, up to the first that ran into its deadline; and the failures and
   the counts are those of what is recorded.
   */
  lemma RunRecords(w: World, options: Options, before: Order)
    returns (files: seq<Outcome>, inB: seq<Outcome>, inA: seq<Outcome>)
    ensures var broken := SelectedBroken(w.broken);
            var planB, planA := PhasePlan(w, options, B, before), PhasePlan(w, options, A, before);
            var ledger := FinalLedger(w, options, before);
            var endsInB, endsInA := EndsEarly(inB, planB, w.browserB), EndsEarly(inA, planA, w.browserA);
            && Tallied(ledger) && ledger.outcomes == files + inB + inA
            && AllBroken(files, broken)
            && AllRecorded(inB, planB, w.browserB) && AllRecorded(inA, planA, w.browserA)
            && (if endsInB then inA == [] else |inB| == |planB|)
            && (!endsInB && !endsInA ==> |inA| == |planA|)
            && (ledger.timedOut <==> endsInB || endsInA)
  {
    var start := BrokenRun(EMPTY, SelectedBroken(w.broken));
    files := BrokenTallies(EMPTY, SelectedBroken(w.broken));
    BrokenAccounts(EMPTY, SelectedBroken(w.broken));
    assert start.outcomes == files;
    inB, inA := PhasesRecord(
      start, PhasePlan(w, options, B, before), w.browserB, PhasePlan(w, options, A, before), w.browserA);
  }

  lemma PhasesRecord(l: Ledger, planB: seq<Trial>, browserB: bool, planA: seq<Trial>, browserA: bool)
    returns (inB: seq<Outcome>, inA: seq<Outcome>)
    requires !l.timedOut && Tallied(l)
    ensures var b := PhaseRun(l, planB, browserB);
            var after := if b.timedOut then b else PhaseRun(b, planA, browserA);
            && Tallied(after) && after.outcomes == l.outcomes + inB + inA
            && AllRecorded(inB, planB, browserB) && AllRecorded(inA, planA, browserA)
            && (if EndsEarly(inB, planB, browserB) then inA == [] else |inB| == |planB|)
            && (!EndsEarly(inB, planB, browserB) && !EndsEarly(inA, planA, browserA) ==> |inA| == |planA|)
            && (after.timedOut <==> EndsEarly(inB, planB, browserB) || EndsEarly(inA, planA, browserA))
  {
    PhaseTallies(l, planB, browserB);
    inB := PhaseRecords(l, planB, browserB);
    var b := PhaseRun(l, planB, browserB);
    if b.timedOut {
      inA := [];
    } else {
      PhaseTallies(b, planA, browserA);
      inA := PhaseRecords(b, planA, browserA);
    }
  }

  // ------------------------------------------------------------------ the exit code

  function Browser(w: World, phase: Phase): bool {
    if phase == B then w.browserB else w.browserA
  }

  /** A suite that leaves nothing to object to. */
  predicate Acceptable(w: World, options: Options, trial: Trial) {
    var browser := Browser(w, PhaseOf(trial));
    Fine(trial, browser) && (options.allowUnproven || Unproven(trial, browser) == [])
  }

  lemma {:induction false} FineMembers(trials: seq<Trial>, browser: bool)
    ensures AllFine(trials, browser) <==> forall t :: t in trials ==> Fine(t, browser)
    ensures SomeUnproven(trials, browser) <==> exists t :: t in trials && Unproven(t, browser) != []
  {
    if trials != [] {
      FineMembers(trials[1..], browser);
      assert forall t :: t in trials <==> t == trials[0] || t in trials[1..];
    }
  }

  lemma PlanMembers(w: World, options: Options, phase: Phase, before: Order)
    ensures forall t :: t in PhasePlan(w, options, phase, before)
              <==> t in w.trials && IsSelected(t, options) && PhaseOf(t) == phase
  {
  }

  /** The suites of a phase: those that match, and that name it or, for phase B, name none. */
  lemma PlanIs(w: World, options: Options, phase: Phase, before: Order, t: Trial)
    ensures t in PhasePlan(w, options, phase, before) <==>
              && t in w.trials && t.suite.matchesFilters
              && (options.phase.None? || options.phase == Some(phase))
              && (t.suite.phase == Some(phase) || (t.suite.phase.None? && phase == B))
  {
    PlanMembers(w, options, phase, before);
  }

  /** When the whole run fails, and when it is vacuous. */
  lemma RunFails(w: World, options: Options, before: Order)
    ensures var planB, planA := PhasePlan(w, options, B, before), PhasePlan(w, options, A, before);
            var ledger := FinalLedger(w, options, before);
            && (ledger.failed == [] <==>
                  SelectedBroken(w.broken) == [] && AllFine(planB, w.browserB) && AllFine(planA, w.browserA))
            && (ledger.failed == [] ==>
                  (SomeVacuous(ledger.outcomes) <==> SomeUnproven(planB, w.browserB) || SomeUnproven(planA, w.browserA)))
  {
    var broken := SelectedBroken(w.broken);
    var planB, planA := PhasePlan(w, options, B, before), PhasePlan(w, options, A, before);
    var start := BrokenRun(EMPTY, broken);
    BrokenAccounts(EMPTY, broken);
    PhaseFails(start, planB, w.browserB);
    var afterB := PhaseRun(start, planB, w.browserB);
    if !afterB.timedOut {
      PhaseFails(afterB, planA, w.browserA);
    }
  }

  lemma PlanIsAcceptable(w: World, options: Options, phase: Phase, before: Order)
    ensures var plan := PhasePlan(w, options, phase, before);
            AllFine(plan, Browser(w, phase)) && (options.allowUnproven || !SomeUnproven(plan, Browser(w, phase)))
            <==> forall t :: t in w.trials && IsSelected(t, options) && PhaseOf(t) == phase ==> Acceptable(w, options, t)
  {
    var plan := PhasePlan(w, options, phase, before);
    FineMembers(plan, Browser(w, phase));
    PlanMembers(w, options, phase, before);
    assert forall t :: t in plan ==> Browser(w, PhaseOf(t)) == Browser(w, phase);
  }

  /**
   A run that executes suites exits 0 exactly when something was selected, no selected file failed to
   load, and every selected suite found the stack alive, passed or was skipped, and, without the
   override, left no claim unproven.
   */
  lemma ExitZeroIff(w: World, options: Options, before: Order)
    requires !options.list
    ensures ExitCode(w, options, before) == 0 <==>
              && (exists t :: t in w.trials && IsSelected(t, options))
              && (forall b :: b in w.broken ==> !b.matchesFilters)
              && (forall t :: t in w.trials && IsSelected(t, options) ==> Acceptable(w, options, t))
  {
    RunFails(w, options, before);
    PlanIsAcceptable(w, options, B, before);
    PlanIsAcceptable(w, options, A, before);
    NothingSelected(Selected(w.trials, options), w, options);
    NothingBroken(SelectedBroken(w.broken), w);
  }

  lemma NothingSelected(selected: seq<Trial>, w: World, options: Options)
    requires forall t :: t in selected <==> t in w.trials && IsSelected(t, options)
    ensures selected == [] <==> !exists t :: t in w.trials && IsSelected(t, options)
  {
    if selected != [] {
      assert selected[0] in selected;
    }
  }

  lemma NothingBroken(broken: seq<Broken>, w: World)
    requires forall b :: b in broken <==> b in w.broken && b.matchesFilters
    ensures broken == [] <==> forall b :: b in w.broken ==> !b.matchesFilters
  {
    if broken != [] {
      assert broken[0] in broken;
    }
  }

  /** A green run without the override proved every id that a selected suite claims. */
  lemma GreenProvesEveryClaim(w: World, options: Options, before: Order, trial: Trial, id: Id)
    requires ExitCode(w, options, before) == 0 && !options.list && !options.allowUnproven
    requires trial in w.trials && IsSelected(trial, options) && id in trial.suite.claims
    ensures trial.alive && trial.ran.Passed? && (id in trial.proven || id in trial.suite.ownIds)
    ensures !IsSkipped(trial, Browser(w, PhaseOf(trial)))
  {
    ExitZeroIff(w, options, before);
    assert Acceptable(w, options, trial);
  }
}
