/**
 One owned child process (factory/flows/harness.ts): its output tail, its timers, the signals sent to
 its group, and the one result it reports or the interruption that takes its place. What the child
 does and when a timer fires are arbitrary; signalling does not fail.
 */
module OwnedProcess {
  import opened Wrappers
  import opened Utf16

  const TAIL_UNITS := 4000

  datatype Signal = Term | Kill

  datatype TaskResult = TaskResult(exitCode: int, tail: Text)

  /** The log is ended by a result or by an interruption, and then flushed. */
  datatype Log = Writing | Ending(result: Option<TaskResult>) | Ended

  datatype Event =
    | Data(chunk: Text)
    | TimeoutFires
    | EscalationFires
    | Errored(message: Text)
    | Closed(code: Option<int>, validation: Option<Text>)
    | Interrupt
    | KillFires
    | BoundFires
    | Abandon
    | Flushed

  /** What never changes: whether the child has a pid, and the marker its output must hold. */
  datatype Spec = Spec(hasPid: bool, marker: Option<Text>)

  datatype Process = Process(
    settled: bool, timedOut: bool, tail: Text,
    timer: bool, escalation: bool, kill: bool, bound: bool,
    interrupted: bool, listening: bool, closed: bool,
    log: Log, resumed: seq<TaskResult>, done: nat, signals: seq<Signal>)

  const SPAWNED: Process :=
    Process(false, false, [], true, false, false, false, false, false, false, Writing, [], 0, [])

  function LastUnits(t: Text): Text {
    if |t| <= TAIL_UNITS then t else t[|t| - TAIL_UNITS..]
  }

  /** `signalProcessTree`: one more signal sent, if there is a process to send it to. */
  function Signalled(spec: Spec, signals: seq<Signal>, signal: Signal): seq<Signal> {
    if spec.hasPid then signals + [signal] else signals
  }

  function MarkerMissing(spec: Spec, tail: Text): bool {
    spec.marker.Some? && !Contains(tail, spec.marker.value)
  }

  function VerifiedExitCode(spec: Spec, exitCode: int, tail: Text, validation: Option<Text>): int {
    if exitCode == 0 && MarkerMissing(spec, tail) then -2
    else if exitCode == 0 && validation.Some? && validation.value != [] then -3
    else exitCode
  }

  /** `finish`. */
  function Finished(spec: Spec, p: Process, exitCode: int, tail: Text, validation: Option<Text>): Process {
    if p.settled then p
    else
      p.(settled := true, timer := false, escalation := false,
         log := Ending(Some(TaskResult(VerifiedExitCode(spec, exitCode, tail, validation), tail))))
  }

  /** `complete`, when it is listening. */
  function Completed(p: Process): Process {
    if !p.listening then p
    else p.(listening := false, kill := false, bound := false, log := Ending(None))
  }

  function ClosedCode(p: Process, code: Option<int>): int {
    if p.timedOut || code.None? then -1 else code.value
  }

  function Step(spec: Spec, p: Process, e: Event): Process {
    match e
    case Data(chunk) => p.(tail := LastUnits(p.tail + chunk))
    case TimeoutFires =>
      p.(timer := false, timedOut := true, escalation := true, signals := Signalled(spec, p.signals, Term))
    case EscalationFires => p.(escalation := false, signals := Signalled(spec, p.signals, Kill))
    case Errored(message) => Finished(spec, p, -1, message, None)
    case Closed(code, validation) =>
      var closed := p.(closed := true, escalation := false);
      Completed(Finished(spec, closed, ClosedCode(p, code), p.tail, validation))
    case Interrupt =>
      if p.settled then p.(interrupted := true, done := p.done + 1)
      else
        Process(true, p.timedOut, p.tail, false, false, true, true, true, true, p.closed,
                p.log, p.resumed, p.done, Signalled(spec, p.signals, Term))
    case KillFires => p.(kill := false, signals := Signalled(spec, p.signals, Kill))
    case BoundFires => Completed(p.(bound := false))
    case Abandon => p.(kill := false, bound := false, listening := false)
    case Flushed =>
      if p.log.Ending? && p.log.result.Some? then p.(log := Ended, resumed := p.resumed + [p.log.result.value])
      else p.(log := Ended, done := p.done + 1)
  }

  /** A timer fires only while armed, a child closes once and writes before that, a scope closes once. */
  predicate Enabled(p: Process, e: Event) {
    match e
    case Data(_) => !p.closed
    case TimeoutFires => p.timer
    case EscalationFires => p.escalation
    case Errored(_) => true
    case Closed(_, _) => !p.closed
    case Interrupt => !p.interrupted
    case KillFires => p.kill
    case BoundFires => p.bound
    case Abandon => p.interrupted
    case Flushed => p.log.Ending?
  }

  function Run(spec: Spec, events: seq<Event>): Process {
    if events == [] then SPAWNED else Step(spec, Run(spec, events[..|events| - 1]), events[|events| - 1])
  }

  predicate Legal(spec: Spec, events: seq<Event>) {
    events != [] ==>
      && Legal(spec, events[..|events| - 1])
      && Enabled(Run(spec, events[..|events| - 1]), events[|events| - 1])
  }

  predicate Consistent(spec: Spec, p: Process) {
    // a timer armed before settling does not outlive it, and those of an interruption end with it
    && (p.settled ==> !p.timer && !p.escalation)
    && (p.kill ==> p.listening) && (p.bound ==> p.listening)
    && (p.listening ==> p.settled && p.interrupted && !p.closed && p.log.Writing? && p.done == 0)
    && (p.closed ==> p.settled)
    // the log ends once: with the result, or for the interruption
    && (!p.settled ==> p.log.Writing? && !p.interrupted)
    && (p.resumed != [] ==> p.settled && |p.resumed| == 1 && p.log.Ended?)
    && (p.log.Ending? && p.log.result.None? ==> p.interrupted && p.done == 0)
    && (!p.interrupted ==> p.done == 0) && p.done <= 1
    // the group is asked to stop before it is killed
    && (p.signals != [] ==> p.signals[0] == Term)
    && ((p.escalation || p.kill) && spec.hasPid ==> p.signals != [])
  }

  lemma StepKeeps(spec: Spec, p: Process, e: Event)
    requires Consistent(spec, p) && Enabled(p, e)
    ensures Consistent(spec, Step(spec, p, e))
  {
  }

  /**
   In every interleaving of output, timers, error, close and interruption: at most one result is
   resumed with and the interruption is answered at most once, no timer of the run is armed once it is
   settled, and a kill is never the first signal sent.
   */
  lemma {:induction false} RunIsConsistent(spec: Spec, events: seq<Event>)
    requires Legal(spec, events)
    ensures Consistent(spec, Run(spec, events))
    ensures |Run(spec, events).resumed| <= 1 && Run(spec, events).done <= 1
  {
    if events != [] {
      RunIsConsistent(spec, events[..|events| - 1]);
      StepKeeps(spec, Run(spec, events[..|events| - 1]), events[|events| - 1]);
    }
  }

  /** Settling and closing are for good; once closed the group is never signalled again. */
  lemma {:induction false} NoSignalAfterClose(spec: Spec, events: seq<Event>, more: seq<Event>)
    requires Legal(spec, events + more)
    ensures Legal(spec, events)
    ensures Run(spec, events).settled ==> Run(spec, events + more).settled
    ensures Run(spec, events).closed ==>
              Run(spec, events + more).closed && Run(spec, events + more).signals == Run(spec, events).signals
    decreases |more|
  {
    if more == [] {
      assert events + more == events;
    } else {
      var all := events + more;
      assert all[..|all| - 1] == events + more[..|more| - 1];
      NoSignalAfterClose(spec, events, more[..|more| - 1]);
      RunIsConsistent(spec, all[..|all| - 1]);
      ClosedForGood(spec, Run(spec, all[..|all| - 1]), all[|all| - 1]);
    }
  }

  lemma ClosedForGood(spec: Spec, p: Process, e: Event)
    requires Consistent(spec, p) && Enabled(p, e)
    ensures p.settled ==> Step(spec, p, e).settled
    ensures p.closed ==> Step(spec, p, e).closed && Step(spec, p, e).signals == p.signals
  {
  }

  // ------------------------------------------------------------------ the result of a whole run

  /** Everything the child wrote. */
  function Output(events: seq<Event>): Text {
    if events == [] then []
    else
      var last := events[|events| - 1];
      Output(events[..|events| - 1]) + if last.Data? then last.chunk else []
  }

  predicate Settles(e: Event) {
    e.Errored? || e.Closed? || e.Interrupt?
  }

  predicate SettledBy(events: seq<Event>) {
    exists i :: 0 <= i < |events| && Settles(events[i])
  }

  predicate TimedOut(events: seq<Event>) {
    exists i :: 0 <= i < |events| && events[i].TimeoutFires?
  }

  /** The result, if the first event that settles the run gives one. */
  function Verdict(spec: Spec, events: seq<Event>): Option<TaskResult> {
    if events == [] then None
    else
      var front, last := events[..|events| - 1], events[|events| - 1];
      if SettledBy(front) then Verdict(spec, front)
      else if last.Errored? then Some(TaskResult(-1, last.message))
      else if last.Closed? then
        var tail := LastUnits(Output(front));
        var exitCode := if TimedOut(front) || last.code.None? then -1 else last.code.value;
        Some(TaskResult(VerifiedExitCode(spec, exitCode, tail, last.validation), tail))
      else None
  }

  /** The result that was handed over, or that waits for the log to be flushed. */
  function Reported(p: Process): Option<TaskResult> {
    if p.resumed != [] then Some(p.resumed[0])
    else if p.log.Ending? then p.log.result
    else None
  }

  lemma LastUnitsOfMore(a: Text, b: Text)
    ensures LastUnits(LastUnits(a) + b) == LastUnits(a + b)
  {
    var n := |a| + |b|;
    if |a| > TAIL_UNITS {
      assert LastUnits(a) + b == (a + b)[|a| - TAIL_UNITS..];
    }
  }

  lemma SettledByOneMore(events: seq<Event>)
    requires events != []
    ensures var front, last := events[..|events| - 1], events[|events| - 1];
            && (SettledBy(events) <==> SettledBy(front) || Settles(last))
            && (TimedOut(events) <==> TimedOut(front) || last.TimeoutFires?)
  {
    var front, last := events[..|events| - 1], events[|events| - 1];
    if i :| 0 <= i < |front| && Settles(front[i]) {
      assert Settles(events[i]);
    }
    if i :| 0 <= i < |front| && front[i].TimeoutFires? {
      assert events[i].TimeoutFires?;
    }
    if i :| 0 <= i < |events| && Settles(events[i]) {
      assert i < |front| ==> Settles(front[i]);
    }
    if i :| 0 <= i < |events| && events[i].TimeoutFires? {
      assert i < |front| ==> front[i].TimeoutFires?;
    }
  }

  /** Every run reports what its first settling event calls for, and nothing else ever. */
  lemma {:induction false} RunReportsItsVerdict(spec: Spec, events: seq<Event>)
    requires Legal(spec, events)
    ensures var p := Run(spec, events);
            && Reported(p) == Verdict(spec, events)
            && (p.settled <==> SettledBy(events))
            && (!p.settled ==> (p.timedOut <==> TimedOut(events)))
            && p.tail == LastUnits(Output(events))
  {
    if events != [] {
      var front, last := events[..|events| - 1], events[|events| - 1];
      RunReportsItsVerdict(spec, front);
      RunIsConsistent(spec, front);
      SettledByOneMore(events);
      LastUnitsOfMore(Output(front), if last.Data? then last.chunk else []);
      var p := Run(spec, front);
      if last.Flushed? {
        FlushKeeps(spec, p);
      } else {
        StepReports(spec, p, last);
      }
      if p.settled || !Settles(last) || last.Interrupt? {
        StepReportsOnce(spec, p, last);
      } else {
        SettlingReports(spec, p, last);
      }
      if !last.Data? {
        assert Output(front) + [] == Output(front);
        assert Output(events) == Output(front);
      }
    }
  }

  lemma FlushIs(spec: Spec, p: Process, e: Event)
    ensures e.Flushed? && p.log.Ending? && p.log.result.Some? ==>
              Step(spec, p, e) == p.(log := Ended, resumed := p.resumed + [p.log.result.value])
    ensures e.Flushed? && !(p.log.Ending? && p.log.result.Some?) ==>
              Step(spec, p, e) == p.(log := Ended, done := p.done + 1)
  {
  }

  /** Flushing the log touches nothing else. */
  lemma FlushKeeps(spec: Spec, p: Process)
    ensures var after := Step(spec, p, Flushed);
            after == p.(log := Ended, resumed := after.resumed, done := after.done)
  {
    FlushIs(spec, p, Flushed);
  }

  /** One step settles the run only by a settling event, and only then reports anything new. */
  lemma StepReports(spec: Spec, p: Process, e: Event)
    requires Consistent(spec, p) && Enabled(p, e) && !e.Flushed?
    ensures var after := Step(spec, p, e);
            && (after.settled <==> p.settled || Settles(e))
            && (!e.Data? ==> after.tail == p.tail)
            && (!p.settled && !e.TimeoutFires? ==> after.timedOut == p.timedOut)
            && (e.TimeoutFires? ==> after.timedOut)
  {
  }

  lemma StepReportsOnce(spec: Spec, p: Process, e: Event)
    requires Consistent(spec, p) && Enabled(p, e)
    requires p.settled || !Settles(e) || e.Interrupt?
    ensures Reported(Step(spec, p, e)) == Reported(p)
  {
    match e
    case Flushed => assert p.resumed == [];
    case _ =>
  }

  lemma SettlingReports(spec: Spec, p: Process, e: Event)
    requires Consistent(spec, p) && Enabled(p, e) && !p.settled
    ensures e.Errored? ==> Reported(Step(spec, p, e)) == Some(TaskResult(-1, e.message))
    ensures e.Closed? ==>
              var exitCode := VerifiedExitCode(spec, ClosedCode(p, e.code), p.tail, e.validation);
              Reported(Step(spec, p, e)) == Some(TaskResult(exitCode, p.tail))
  {
  }

  lemma {:induction false} VerdictOfFirst(spec: Spec, events: seq<Event>, k: nat)
    requires k < |events| && Settles(events[k]) && !SettledBy(events[..k])
    ensures Verdict(spec, events) == Verdict(spec, events[..k + 1])
    decreases |events|
  {
    var front := events[..|events| - 1];
    if k < |front| {
      assert front[..k] == events[..k] && front[..k + 1] == events[..k + 1];
      VerdictOfFirst(spec, front, k);
      assert Settles(front[k]);
    } else {
      assert events[..k + 1] == events;
    }
  }

  /**
   The first event that settles a run decides its result. An error reports -1 and the message; a close
   reports the last 4000 units written before it and the child's code, but -1 after the timeout or
   without a code, -2 for a success whose marker is not among those units and -3 for one that validation
   objects to; an interruption reports nothing.
   */
  lemma FirstSettlingDecides(spec: Spec, events: seq<Event>, k: nat)
    requires Legal(spec, events)
    requires k < |events| && Settles(events[k]) && !SettledBy(events[..k])
    ensures var result, output := Reported(Run(spec, events)), Output(events[..k]);
            var tail := if |output| <= 4000 then output else output[|output| - 4000..];
            match events[k]
            case Errored(message) => result == Some(TaskResult(-1, message))
            case Closed(code, validation) =>
              && result.Some? && result.value.tail == tail
              && result.value.exitCode ==
                 if TimedOut(events[..k]) || code.None? then -1
                 else if code.value != 0 then code.value
                 else if spec.marker.Some? && !Contains(tail, spec.marker.value) then -2
                 else if validation.Some? && validation.value != [] then -3
                 else 0
            case _ => result == None
  {
    RunReportsItsVerdict(spec, events);
    VerdictOfFirst(spec, events, k);
    assert events[..k + 1][..k] == events[..k];
    if events[k].Interrupt? {
      NoVerdictUnsettled(spec, events[..k]);
    }
  }

  lemma {:induction false} NoVerdictUnsettled(spec: Spec, events: seq<Event>)
    requires !SettledBy(events)
    ensures Verdict(spec, events) == None
  {
    if events != [] {
      assert !Settles(events[|events| - 1]);
    }
  }

  /** What a successful run needs of the event that settled it and of what came before. */
  predicate Succeeds(spec: Spec, before: seq<Event>, e: Event) {
    && e.Closed? && e.code == Some(0)
    && !SettledBy(before) && !TimedOut(before)
    && (spec.marker.None? || Contains(LastUnits(Output(before)), spec.marker.value))
    && (e.validation.None? || e.validation.value == [])
  }

  /**
   A run reports exit code 0 exactly when the child closed with 0 before anything else settled the run
   and before the timeout, the marker, if one is asked for, is in the last 4000 units of the output so
   far, and validation found nothing.
   */
  lemma ExitZeroIff(spec: Spec, events: seq<Event>)
    requires Legal(spec, events)
    ensures var result := Reported(Run(spec, events));
            result.Some? && result.value.exitCode == 0
            <==> exists k :: 0 <= k < |events| && Succeeds(spec, events[..k], events[k])
  {
    RunReportsItsVerdict(spec, events);
    VerdictZeroIff(spec, events);
  }

  predicate SucceedsSomewhere(spec: Spec, events: seq<Event>) {
    exists k :: 0 <= k < |events| && Succeeds(spec, events[..k], events[k])
  }

  lemma {:induction false} VerdictZeroIff(spec: Spec, events: seq<Event>)
    ensures Verdict(spec, events).Some? && Verdict(spec, events).value.exitCode == 0
       <==> SucceedsSomewhere(spec, events)
  {
    if events != [] {
      var n := |events| - 1;
      var front, last := events[..n], events[n];
      VerdictZeroIff(spec, front);
      if k :| 0 <= k < |front| && Succeeds(spec, front[..k], front[k]) {
        assert front[..k] == events[..k] && Succeeds(spec, events[..k], events[k]);
        assert Settles(front[k]);
        assert SettledBy(front);
      }
      if k :| 0 <= k < |events| && Succeeds(spec, events[..k], events[k]) {
        if k < n {
          assert front[..k] == events[..k] && Succeeds(spec, front[..k], front[k]);
        }
      }
      assert Succeeds(spec, front, last) ==> SucceedsSomewhere(spec, events);
    }
  }

  // ------------------------------------------------------------------ what is sent, armed and answered

  /** Some run so far `starts` something, and no event after it stops it. */
  ghost predicate Since(events: seq<Event>, starts: seq<Event> -> bool, stops: Event -> bool) {
    exists k :: 0 < k <= |events| && starts(events[..k]) && forall j :: k <= j < |events| ==> !stops(events[j])
  }

  lemma SinceNext(events: seq<Event>, starts: seq<Event> -> bool, stops: Event -> bool)
    requires events != []
    ensures var n := |events| - 1;
            Since(events, starts, stops) <==> starts(events) || (Since(events[..n], starts, stops) && !stops(events[n]))
  {
    var n := |events| - 1;
    var front := events[..n];
    assert events[..|events|] == events;
    if k :| 0 < k <= |events| && starts(events[..k]) && forall j :: k <= j < |events| ==> !stops(events[j]) {
      assert k <= n ==> front[..k] == events[..k];
    }
    if Since(front, starts, stops) && !stops(events[n]) {
      var k :| 0 < k <= n && starts(front[..k]) && forall j :: k <= j < n ==> !stops(front[j]);
      assert front[..k] == events[..k];
      assert forall j :: k <= j < n ==> !stops(events[j]) by {
        assert forall j :: k <= j < n ==> front[j] == events[j];
      }
    }
  }

  predicate TimesOut(events: seq<Event>) {
    events != [] && events[|events| - 1].TimeoutFires?
  }

  /** An interruption of a run that nothing has settled yet. */
  predicate TakesOver(events: seq<Event>) {
    events != [] && events[|events| - 1].Interrupt? && !SettledBy(events[..|events| - 1])
  }

  /** What puts an end to listening for the close after such an interruption. */
  predicate EndsListening(e: Event) {
    e.Closed? || e.BoundFires? || e.Abandon?
  }

  predicate EndsKill(e: Event) {
    EndsListening(e) || e.KillFires?
  }

  predicate EndsEscalation(e: Event) {
    e.EscalationFires? || Settles(e)
  }

  /** The close, or the bound, that the interruption listens for. */
  ghost predicate Completes(events: seq<Event>) {
    && events != [] && (events[|events| - 1].Closed? || events[|events| - 1].BoundFires?)
    && Since(events[..|events| - 1], TakesOver, EndsListening)
  }

  /** An interruption is answered at once when the run was settled, else when the log it ended is flushed. */
  ghost predicate Answers(events: seq<Event>) {
    && events != []
    && var front, last := events[..|events| - 1], events[|events| - 1];
       || (last.Interrupt? && SettledBy(front))
       || (last.Flushed? && Since(front, Completes, (e: Event) => e.Flushed?))
  }

  /** The result is handed over when the log it ended is flushed. */
  predicate Resumes(spec: Spec, events: seq<Event>) {
    && events != [] && events[|events| - 1].Flushed?
    && Verdict(spec, events[..|events| - 1]).Some?
  }

  /**
   The signals a run calls for: the group is asked to stop at the timeout and when an interruption takes
   over, and is killed whenever one of the two timers armed then fires.
   */
  function Sends(events: seq<Event>): seq<Signal> {
    if events == [] then []
    else
      var front, last := events[..|events| - 1], events[|events| - 1];
      Sends(front) + SentFor(SettledBy(front), last)
  }

  /** In every run the group gets exactly those signals, each to the whole group if there is one. */
  lemma {:induction false} SignalsAreExact(spec: Spec, events: seq<Event>)
    requires Legal(spec, events)
    ensures Run(spec, events).signals == if spec.hasPid then Sends(events) else []
  {
    if events != [] {
      var n := |events| - 1;
      SignalsAreExact(spec, events[..n]);
      RunReportsItsVerdict(spec, events[..n]);
      if events[n].Flushed? {
        FlushKeeps(spec, Run(spec, events[..n]));
      } else {
        StepSends(spec, Run(spec, events[..n]), events[n]);
      }
    }
  }

  /** The signal one event calls for. */
  function SentFor(settled: bool, e: Event): seq<Signal> {
    if e.TimeoutFires? || (e.Interrupt? && !settled) then [Term]
    else if e.EscalationFires? || e.KillFires? then [Kill]
    else []
  }

  lemma StepSends(spec: Spec, p: Process, e: Event)
    requires !e.Flushed?
    ensures Step(spec, p, e).signals
         == if spec.hasPid && SentFor(p.settled, e) != [] then p.signals + SentFor(p.settled, e) else p.signals
  {
  }

  lemma StepTimes(spec: Spec, p: Process, e: Event)
    requires Consistent(spec, p) && Enabled(p, e) && !e.Flushed?
    ensures Step(spec, p, e).timer <==> p.timer && !e.TimeoutFires? && !Settles(e)
  {
  }

  lemma StepEscalates(spec: Spec, p: Process, e: Event)
    requires Consistent(spec, p) && Enabled(p, e) && !e.Flushed?
    ensures Step(spec, p, e).escalation <==> e.TimeoutFires? || (p.escalation && !EndsEscalation(e))
  {
  }

  lemma StepListens(spec: Spec, p: Process, e: Event)
    requires Consistent(spec, p) && Enabled(p, e) && !e.Flushed?
    ensures var after, takesOver := Step(spec, p, e), e.Interrupt? && !p.settled;
            && (after.kill <==> takesOver || (p.kill && !EndsKill(e)))
            && (after.bound <==> takesOver || (p.bound && !EndsListening(e)))
            && (after.listening <==> takesOver || (p.listening && !EndsListening(e)))
  {
  }

  /**
   Which timers are armed after any run. The timeout's, until it fires or the run is settled; its
   escalation, from the timeout until it fires or the run is settled; and from an interruption that
   takes over until the close, the bound or an abandon, the bound and, until it fires, the kill.
   */
  lemma {:induction false} TimersAreExact(spec: Spec, events: seq<Event>)
    requires Legal(spec, events)
    ensures var p := Run(spec, events);
            && (p.timer <==> !SettledBy(events) && !TimedOut(events))
            && (p.escalation <==> Since(events, TimesOut, EndsEscalation))
            && (p.kill <==> Since(events, TakesOver, EndsKill))
            && (p.bound <==> Since(events, TakesOver, EndsListening))
            && (p.listening <==> Since(events, TakesOver, EndsListening))
  {
    if events != [] {
      var front, last := events[..|events| - 1], events[|events| - 1];
      TimersAreExact(spec, front);
      RunIsConsistent(spec, front);
      RunReportsItsVerdict(spec, front);
      SettledByOneMore(events);
      if last.Flushed? {
        FlushKeeps(spec, Run(spec, front));
      } else {
        StepTimes(spec, Run(spec, front), last);
        StepEscalates(spec, Run(spec, front), last);
        StepListens(spec, Run(spec, front), last);
      }
      SinceNext(events, TimesOut, EndsEscalation);
      SinceNext(events, TakesOver, EndsKill);
      SinceNext(events, TakesOver, EndsListening);
    }
  }

  lemma StepEndsLog(spec: Spec, p: Process, e: Event)
    requires Consistent(spec, p) && Enabled(p, e)
    ensures Step(spec, p, e).log == Ending(None) <==>
              (p.listening && (e.Closed? || e.BoundFires?)) || (p.log == Ending(None) && !e.Flushed?)
  {
    match e
    case Closed(_, _) =>
    case BoundFires =>
    case _ =>
  }

  lemma StepAnswers(spec: Spec, p: Process, e: Event)
    requires Consistent(spec, p) && Enabled(p, e)
    ensures Step(spec, p, e).done
         == p.done + if (e.Flushed? && p.log == Ending(None)) || (e.Interrupt? && p.settled) then 1 else 0
  {
    match e
    case Closed(_, _) =>
    case BoundFires =>
    case _ =>
  }

  lemma StepResumes(spec: Spec, p: Process, e: Event)
    requires Consistent(spec, p) && Enabled(p, e)
    ensures Step(spec, p, e).resumed != [] <==> p.resumed != [] || (e.Flushed? && Reported(p).Some?)
  {
    match e
    case Closed(_, _) =>
    case BoundFires =>
    case _ =>
  }

  lemma {:induction false} ClosedExactly(spec: Spec, events: seq<Event>)
    requires Legal(spec, events)
    ensures Run(spec, events).closed <==> exists k :: 0 <= k < |events| && events[k].Closed?
  {
    if events != [] {
      var n := |events| - 1;
      var front := events[..n];
      ClosedExactly(spec, front);
      RunIsConsistent(spec, front);
      if events[n].Flushed? {
        FlushKeeps(spec, Run(spec, front));
      } else {
        StepCloses(spec, Run(spec, front), events[n]);
      }
      assert forall k :: 0 <= k < n ==> front[k] == events[k];
    }
  }

  lemma StepCloses(spec: Spec, p: Process, e: Event)
    requires Consistent(spec, p) && Enabled(p, e) && !e.Flushed?
    ensures Step(spec, p, e).closed <==> p.closed || e.Closed?
  {
  }

  /** An interruption is answered, and a result handed over, exactly when something calls for it. */
  lemma {:induction false} AnswersAreExact(spec: Spec, events: seq<Event>)
    requires Legal(spec, events)
    ensures var p := Run(spec, events);
            && (p.log == Ending(None) <==>
                  Since(events, Completes, (e: Event) => e.Flushed?))
            && (p.done == 1 <==> Since(events, Answers, (e: Event) => false))
            && (p.resumed != [] <==> Since(events, (es: seq<Event>) => Resumes(spec, es), (e: Event) => false))
  {
    if events != [] {
      var front, last := events[..|events| - 1], events[|events| - 1];
      AnswersAreExact(spec, front);
      RunIsConsistent(spec, events);
      RunIsConsistent(spec, front);
      RunReportsItsVerdict(spec, front);
      TimersAreExact(spec, front);
      StepEndsLog(spec, Run(spec, front), last);
      StepAnswers(spec, Run(spec, front), last);
      StepResumes(spec, Run(spec, front), last);
      SinceNext(events, Completes, (e: Event) => e.Flushed?);
      SinceNext(events, Answers, (e: Event) => false);
      SinceNext(events, (es: seq<Event>) => Resumes(spec, es), (e: Event) => false);
    }
  }

  // ------------------------------------------------------------------ the callbacks

  class Runner {
    const spec: Spec
    var settled: bool
    var timedOut: bool
    var tail: Text
    var timer: bool
    var escalation: bool
    var kill: bool
    var bound: bool
    var interrupted: bool
    var listening: bool
    var closed: bool
    var log: Log
    var resumed: seq<TaskResult>
    var done: nat
    var signals: seq<Signal>

    function State(): Process
      reads this
    {
      Process(settled, timedOut, tail, timer, escalation, kill, bound, interrupted, listening, closed,
              log, resumed, done, signals)
    }

    constructor (spec: Spec)
      ensures this.spec == spec && State() == SPAWNED
    {
      this.spec := spec;
      settled, timedOut, tail, timer, escalation := false, false, [], true, false;
      kill, bound, interrupted, listening, closed := false, false, false, false, false;
      log, resumed, done, signals := Writing, [], 0, [];
    }

    method Keep(chunk: Text)
      modifies this`tail
      ensures State() == Step(spec, old(State()), Data(chunk))
    {
      tail := LastUnits(tail + chunk);
    }

    method Finish(exitCode: int, finalTail: Text, validation: Option<Text>)
      modifies `settled, `timer, `escalation, `log
      ensures State() == Finished(spec, old(State()), exitCode, finalTail, validation)
    {
      if settled {
        return;
      }
      settled, timer, escalation := true, false, false;
      var markerMissing := spec.marker.Some? && !Contains(finalTail, spec.marker.value);
      var validationError := if exitCode == 0 && !markerMissing then validation else None;
      var verified :=
        if exitCode == 0 && markerMissing then -2
        else if exitCode == 0 && validationError.Some? && validationError.value != [] then -3
        else exitCode;
      log := Ending(Some(TaskResult(verified, finalTail)));
    }

    method OnTimeout()
      modifies this
      ensures State() == Step(spec, old(State()), TimeoutFires)
    {
      timer, timedOut := false, true;
      signals := Signalled(spec, signals, Term);
      escalation := true;
    }

    method OnEscalation()
      modifies this
      ensures State() == Step(spec, old(State()), EscalationFires)
    {
      escalation := false;
      signals := Signalled(spec, signals, Kill);
    }

    method OnError(message: Text)
      modifies this
      ensures State() == Step(spec, old(State()), Errored(message))
    {
      Finish(-1, message, None);
    }

    method Complete()
      modifies `listening, `kill, `bound, `log
      ensures State() == Completed(old(State()))
    {
      if listening {
        listening, kill, bound, log := false, false, false, Ending(None);
      }
    }

    method OnClose(code: Option<int>, validation: Option<Text>)
      modifies this
      ensures State() == Step(spec, old(State()), Closed(code, validation))
    {
      closed, escalation := true, false;
      var exitCode := if timedOut then -1 else if code.Some? then code.value else -1;
      Finish(exitCode, tail, validation);
      Complete();
    }

    /** The run is taken over: it is settled, its own timers are disarmed and closing is listened for. */
    method TakeOver()
      modifies `settled, `timer, `escalation, `listening
      ensures settled && !timer && !escalation && listening
    {
      settled, timer, escalation, listening := true, false, false, true;
    }

    method OnInterrupt()
      modifies `interrupted, `done, `settled, `timer, `escalation, `listening, `kill, `bound, `signals
      ensures State() == Step(spec, old(State()), Interrupt)
    {
      interrupted := true;
      if settled {
        done := done + 1;
      } else {
        TakeOver();
        signals := Signalled(spec, signals, Term);
        kill, bound := true, true;
      }
    }

    method OnKill()
      modifies this
      ensures State() == Step(spec, old(State()), KillFires)
    {
      kill := false;
      signals := Signalled(spec, signals, Kill);
    }

    method OnBound()
      modifies this
      ensures State() == Step(spec, old(State()), BoundFires)
    {
      bound := false;
      Complete();
    }

    method OnAbandon()
      modifies this
      ensures State() == Step(spec, old(State()), Abandon)
    {
      kill, bound, listening := false, false, false;
    }

    method OnFlushed()
      modifies this
      ensures State() == Step(spec, old(State()), Flushed)
    {
      if log.Ending? && log.result.Some? {
        resumed := resumed + [log.result.value];
      } else {
        done := done + 1;
      }
      log := Ended;
    }
  }

  // ------------------------------------------------------------------ waves

  function Flattened<T>(waves: seq<seq<T>>): seq<T> {
    if waves == [] then [] else Flattened(waves[..|waves| - 1]) + waves[|waves| - 1]
  }

  lemma FlattenedSnoc<T>(waves: seq<seq<T>>, wave: seq<T>)
    ensures Flattened(waves + [wave]) == Flattened(waves) + wave
  {
    assert (waves + [wave])[..|waves|] == waves;
  }

  /** The waves hold the items in order, all full but perhaps the last, and none empty. */
  method Chunk<T>(items: seq<T>, size: nat) returns (waves: seq<seq<T>>)
    requires size > 0
    ensures Flattened(waves) == items
    ensures forall i :: 0 <= i < |waves| ==> 0 < |waves[i]| <= size
    ensures forall i :: 0 <= i < |waves| - 1 ==> |waves[i]| == size
  {
    waves := [];
    var index := 0;
    ghost var taken := 0;
    while index < |items|
      invariant taken <= |items| && taken == (if index < |items| then index else |items|)
      invariant Flattened(waves) == items[..taken]
      invariant forall i :: 0 <= i < |waves| ==> 0 < |waves[i]| <= size
      invariant forall i :: 0 <= i < |waves| - 1 ==> |waves[i]| == size
      invariant index < |items| && waves != [] ==> |waves[|waves| - 1]| == size
    {
      var end := if index + size < |items| then index + size else |items|;
      var wave := items[index..end];
      FlattenedSnoc(waves, wave);
      assert items[..end] == items[..index] + wave;
      waves := waves + [wave];
      index := index + size;
      taken := end;
    }
    assert items[..taken] == items;
  }
}
