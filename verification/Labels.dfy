/**
 The reproduction state machine (factory/automation/labels.ts). An issue's labels are its state:
 `Transition` decides one edit, `Edited` is the issue after the edit is applied.

 The labels the state machine manages are constructors; everything else an issue may carry is
 `Approved` (the maintainer gate) or `Other`.
 */
module Labels {

  datatype Label =
    | Proposed            // poc:proposed
    | Confirmed           // poc:confirmed
    | Rejected            // poc:rejected
    | NeedsInfo           // repro:needs-info
    | Verified            // repro:verified
    | Blocked             // repro:blocked
    | Duplicate           // dupe:candidate
    | Approved            // agent:approved
    | Other(name: string) // any label the state machine does not own

  const POC_LABELS: seq<Label> := [Proposed, Confirmed, Rejected]
  const REPRO_LABELS: seq<Label> := [NeedsInfo, Verified, Blocked]
  const MANAGED_LABELS: seq<Label> := POC_LABELS + REPRO_LABELS + [Duplicate]
  const MAXIMUM_POC_ATTEMPTS: nat := 3

  datatype Signal =
    | Intake(strongDuplicate: bool)
    | PocProposed
    | ReporterConfirmed
    | ReporterRejected(attempts: nat)
    | PocFailedOnMain
    | PocPassedOnMain
    | BlockedBy(blocker: string)
    | BlockerCleared
    | NoLongerReproduces

  /** A label edit, and whether the automation then waits for a person. */
  datatype Edit = Edit(add: seq<Label>, remove: seq<Label>, halt: bool)

  /** The labels of `from`, in order, that are present but not to be kept. */
  function PresentExcept(from: seq<Label>, keep: seq<Label>, current: set<Label>): (remove: seq<Label>)
    ensures forall l :: l in remove <==> l in from && l !in keep && l in current
  {
    if from == [] then []
    else
      var rest := PresentExcept(from[1..], keep, current);
      if from[0] !in keep && from[0] in current then [from[0]] + rest else rest
  }

  function Only(keep: seq<Label>, current: set<Label>): (remove: seq<Label>)
    ensures forall l :: l in remove <==> Managed(l) && l !in keep && l in current
  {
    PresentExcept(MANAGED_LABELS, keep, current)
  }

  predicate Managed(l: Label) {
    !l.Approved? && !l.Other?
  }

  function Transition(signal: Signal, current: set<Label>): Edit {
    match signal
    case Intake(strongDuplicate) =>
      if strongDuplicate then Edit([Duplicate], Only([Duplicate], current), true) else Edit([], [], false)
    case PocProposed => Edit([Proposed], Only([Proposed], current), true)
    case ReporterConfirmed => Edit([Confirmed], Only([Confirmed], current), false)
    case ReporterRejected(attempts) =>
      if attempts >= MAXIMUM_POC_ATTEMPTS then
        Edit([Rejected, NeedsInfo], Only([Rejected, NeedsInfo], current), true)
      else
        Edit([Rejected], Only([Rejected], current), false)
    case PocFailedOnMain =>
      if Confirmed in current then Edit([Verified], Only([Verified, Confirmed], current), false)
      else Edit([], [], true)
    case PocPassedOnMain => Edit([NeedsInfo], Only([NeedsInfo], current), true)
    case BlockedBy(_) => Edit([Blocked], Only([Blocked] + POC_LABELS, current), true)
    case BlockerCleared => Edit([], if Blocked in current then [Blocked] else [], false)
    case NoLongerReproduces => Edit([], Only([], current), true)
  }

  function Elements(labels: seq<Label>): set<Label> {
    set l | l in labels
  }

  /** The issue's labels once an edit has been applied. */
  function Edited(current: set<Label>, edit: Edit): set<Label> {
    current + Elements(edit.add) - Elements(edit.remove)
  }

  function After(signal: Signal, current: set<Label>): set<Label> {
    Edited(current, Transition(signal, current))
  }

  /** The unmanaged labels of an issue, and of the managed ones only those to keep. */
  function Keeping(current: set<Label>, keep: set<Label>): set<Label> {
    set l | l in current && (Managed(l) ==> l in keep)
  }

  /** What a signal leaves of an issue's labels, without the detour over edits, and when a person is waited for. */
  lemma AfterSignal(signal: Signal, current: set<Label>)
    ensures After(signal, current) == match signal
      case Intake(true) => Keeping(current, {}) + {Duplicate}
      case Intake(false) => current
      case PocProposed => Keeping(current, {}) + {Proposed}
      case ReporterConfirmed => Keeping(current, {}) + {Confirmed}
      case ReporterRejected(n) =>
        Keeping(current, {}) + if n < MAXIMUM_POC_ATTEMPTS then {Rejected} else {Rejected, NeedsInfo}
      case PocFailedOnMain =>
        if Confirmed in current then Keeping(current, {Confirmed}) + {Verified} else current
      case PocPassedOnMain => Keeping(current, {}) + {NeedsInfo}
      case BlockedBy(_) => Keeping(current, {Proposed, Confirmed, Rejected}) + {Blocked}
      case BlockerCleared => current - {Blocked}
      case NoLongerReproduces => Keeping(current, {})
    ensures Transition(signal, current).halt <==> match signal
      case Intake(strongDuplicate) => strongDuplicate
      case ReporterRejected(n) => n >= MAXIMUM_POC_ATTEMPTS
      case PocFailedOnMain => Confirmed !in current
      case ReporterConfirmed => false
      case BlockerCleared => false
      case _ => true
  {
  }

  /**
   An edit removes only managed labels that are there, never one it adds, and leaves every
   unmanaged label as it was; applying the same signal again changes nothing.
   */
  lemma EditIsClean(signal: Signal, current: set<Label>)
    ensures var edit := Transition(signal, current);
      && Elements(edit.remove) <= current
      && Elements(edit.add) !! Elements(edit.remove)
      && (forall l :: l in edit.add || l in edit.remove ==> Managed(l))
      && (forall l :: !Managed(l) ==> (l in After(signal, current) <==> l in current))
    ensures After(signal, After(signal, current)) == After(signal, current)
  {
    var next := After(signal, current);
    forall l
      ensures l in After(signal, next) <==> l in next
    {
    }
  }

  predicate AtMostOneOf(a: Label, b: Label, c: Label, labels: set<Label>) {
    !(a in labels && b in labels) && !(b in labels && c in labels) && !(a in labels && c in labels)
  }

  /**
   At most one proof-of-concept label, at most one reproduction label, verified only with
   confirmed, and a duplicate candidate alone.
   */
  ghost predicate Coherent(labels: set<Label>) {
    && AtMostOneOf(Proposed, Confirmed, Rejected, labels)
    && AtMostOneOf(NeedsInfo, Verified, Blocked, labels)
    && (Verified in labels ==> Confirmed in labels)
    && (Duplicate in labels ==> forall l :: l in labels && Managed(l) ==> l == Duplicate)
  }

  lemma TransitionKeepsCoherent(signal: Signal, current: set<Label>)
    requires Coherent(current)
    ensures Coherent(After(signal, current))
  {
    AfterSignal(signal, current);
  }

  /** What can happen to an issue: a signal, or a person editing labels outside the state machine. */
  datatype Event = Sent(signal: Signal) | Hand(add: set<Label>, remove: set<Label>)

  ghost predicate Allowed(e: Event) {
    e.Hand? ==> forall l :: l in e.add || l in e.remove ==> !Managed(l)
  }

  function Next(current: set<Label>, e: Event): set<Label> {
    match e
    case Sent(signal) => After(signal, current)
    case Hand(add, remove) => current + add - remove
  }

  /** The labels after a run of events. */
  function Run(start: set<Label>, events: seq<Event>): set<Label> {
    if events == [] then start
    else Next(Run(start, events[..|events| - 1]), events[|events| - 1])
  }

  ghost predicate Fresh(start: set<Label>) {
    forall l :: l in start ==> !Managed(l)
  }

  ghost predicate AllAllowed(events: seq<Event>) {
    forall e :: e in events ==> Allowed(e)
  }

  lemma {:induction false} ReachableIsCoherent(start: set<Label>, events: seq<Event>)
    requires Fresh(start) && AllAllowed(events)
    ensures Coherent(Run(start, events))
  {
    if events != [] {
      var earlier := events[..|events| - 1];
      ReachableIsCoherent(start, earlier);
      var last := events[|events| - 1];
      assert Allowed(last);
      if last.Sent? {
        TransitionKeepsCoherent(last.signal, Run(start, earlier));
      }
    }
  }

  /** The signals that take a confirmation away. */
  predicate Unconfirms(e: Event) {
    e.Sent? && (
      || e.signal == Intake(true)
      || e.signal.PocProposed?
      || e.signal.ReporterRejected?
      || e.signal.PocPassedOnMain?
      || e.signal.NoLongerReproduces?)
  }

  /** The signals that take only the verification away. */
  predicate Unverifies(e: Event) {
    e.Sent? && (e.signal.ReporterConfirmed? || e.signal.BlockedBy?)
  }

  /** A confirmation at `c` that nothing after it took away. */
  ghost predicate ConfirmedSince(events: seq<Event>, c: nat) {
    && c < |events|
    && events[c] == Sent(ReporterConfirmed)
    && forall k :: c < k < |events| ==> !Unconfirms(events[k])
  }

  /** A failure on main at `f`, after the standing confirmation at `c`, that nothing undid. */
  ghost predicate VerifiedSince(events: seq<Event>, c: nat, f: nat) {
    && ConfirmedSince(events, c)
    && c < f < |events|
    && events[f] == Sent(PocFailedOnMain)
    && forall k :: f < k < |events| ==> !Unverifies(events[k])
  }

  /** How one event moves the two labels the fix lane depends on. */
  lemma NextMoves(current: set<Label>, e: Event)
    requires Coherent(current) && Allowed(e)
    ensures Confirmed in Next(current, e) <==> e == Sent(ReporterConfirmed) || (Confirmed in current && !Unconfirms(e))
    ensures Verified in Next(current, e) <==>
      if e == Sent(PocFailedOnMain) then Confirmed in current
      else Verified in current && !Unconfirms(e) && !Unverifies(e)
  {
    if e.Sent? {
      AfterSignal(e.signal, current);
    }
  }

  lemma {:induction false} ConfirmedExactly(start: set<Label>, events: seq<Event>)
    requires Fresh(start) && AllAllowed(events)
    ensures Confirmed in Run(start, events) <==> exists c: nat :: ConfirmedSince(events, c)
  {
    if events != [] {
      var n := |events| - 1;
      var earlier := events[..n];
      assert Allowed(events[n]);
      ReachableIsCoherent(start, earlier);
      NextMoves(Run(start, earlier), events[n]);
      ConfirmedExactly(start, earlier);
      ConfirmedHistory(events);
    }
  }

  lemma ConfirmedHistory(events: seq<Event>)
    requires events != []
    ensures var n := |events| - 1;
      (exists c: nat :: ConfirmedSince(events, c)) <==>
        events[n] == Sent(ReporterConfirmed)
        || ((exists c: nat :: ConfirmedSince(events[..n], c)) && !Unconfirms(events[n]))
  {
    var n := |events| - 1;
    var earlier := events[..n];
    if c: nat :| ConfirmedSince(events, c) {
      assert c < n ==> ConfirmedSince(earlier, c);
    }
    if events[n] == Sent(ReporterConfirmed) {
      assert ConfirmedSince(events, n);
    }
    if (exists c: nat :: ConfirmedSince(earlier, c)) && !Unconfirms(events[n]) {
      var c: nat :| ConfirmedSince(earlier, c);
      assert ConfirmedSince(events, c);
    }
  }

  /** The label `repro:verified` says exactly this about the history. */
  lemma {:induction false} VerifiedExactly(start: set<Label>, events: seq<Event>)
    requires Fresh(start) && AllAllowed(events)
    ensures Verified in Run(start, events) <==> exists c: nat, f: nat :: VerifiedSince(events, c, f)
  {
    if events != [] {
      var n := |events| - 1;
      var earlier := events[..n];
      assert Allowed(events[n]);
      ReachableIsCoherent(start, earlier);
      NextMoves(Run(start, earlier), events[n]);
      ConfirmedExactly(start, earlier);
      VerifiedExactly(start, earlier);
      VerifiedHistory(events);
    }
  }

  lemma VerifiedHistory(events: seq<Event>)
    requires events != []
    ensures var n := |events| - 1;
      (exists c: nat, f: nat :: VerifiedSince(events, c, f)) <==>
        if events[n] == Sent(PocFailedOnMain) then exists c: nat :: ConfirmedSince(events[..n], c)
        else (exists c: nat, f: nat :: VerifiedSince(events[..n], c, f))
             && !Unconfirms(events[n]) && !Unverifies(events[n])
  {
    var n := |events| - 1;
    var earlier := events[..n];
    if c: nat, f: nat :| VerifiedSince(events, c, f) {
      assert ConfirmedSince(earlier, c);
      assert f < n ==> VerifiedSince(earlier, c, f);
    }
    if events[n] == Sent(PocFailedOnMain) {
      if c: nat :| ConfirmedSince(earlier, c) {
        assert VerifiedSince(events, c, n);
      }
    } else if (exists c: nat, f: nat :: VerifiedSince(earlier, c, f)) && !Unconfirms(events[n]) && !Unverifies(events[n]) {
      var c: nat, f: nat :| VerifiedSince(earlier, c, f);
      assert VerifiedSince(events, c, f);
    }
  }

  /** The gate of the fix lane: both labels, on the issue right now. */
  predicate FixGate(labels: set<Label>) {
    Verified in labels && Approved in labels
  }

  /** Whether a maintainer's approval stands: the last hand edit of that label put it there. */
  ghost predicate ApprovedSince(start: set<Label>, events: seq<Event>) {
    if events == [] then Approved in start
    else
      var last := events[|events| - 1];
      if last.Hand? && Approved in last.remove then false
      else if last.Hand? && Approved in last.add then true
      else ApprovedSince(start, events[..|events| - 1])
  }

  /**
   A fix is started only on a report the reporter confirmed and main failed, with nothing since
   that withdraws either, while a maintainer's approval stands; and whenever that holds.
   */
  lemma FixGateExactly(start: set<Label>, events: seq<Event>)
    requires Fresh(start) && AllAllowed(events)
    ensures FixGate(Run(start, events))
       <==> (exists c: nat, f: nat :: VerifiedSince(events, c, f)) && ApprovedSince(start, events)
  {
    VerifiedExactly(start, events);
    ApprovalIsByHand(start, events);
  }

  lemma {:induction false} ApprovalIsByHand(start: set<Label>, events: seq<Event>)
    requires AllAllowed(events)
    ensures Approved in Run(start, events) <==> ApprovedSince(start, events)
  {
    if events != [] {
      var earlier := events[..|events| - 1];
      ApprovalIsByHand(start, earlier);
      var last := events[|events| - 1];
      if last.Sent? {
        EditIsClean(last.signal, Run(start, earlier));
      }
    }
  }

  /**
   Parking a report on a blocker and unparking it restores the proof-of-concept labels always,
   and the whole issue exactly when it carried no reproduction outcome and no duplicate label: a
   verified report comes back unverified.
   */
  lemma ParkingLosesOutcome(current: set<Label>, blocker: string)
    ensures var back := After(BlockerCleared, After(BlockedBy(blocker), current));
      && (forall l :: l in POC_LABELS ==> (l in back <==> l in current))
      && (back == current <==> forall l :: l in REPRO_LABELS + [Duplicate] ==> l !in current)
  {
    var parked := After(BlockedBy(blocker), current);
    var back := After(BlockerCleared, parked);
    assert forall l :: l in back <==> l in current && (Managed(l) ==> l in POC_LABELS);
    if back != current {
      var l :| l in current && l !in back;
      assert Managed(l) && l !in POC_LABELS;
      assert l in REPRO_LABELS + [Duplicate];
    } else {
      forall l | l in REPRO_LABELS + [Duplicate]
        ensures l !in current
      {
        assert Managed(l) && l !in POC_LABELS;
      }
    }
  }

  /** A verified report that was parked and unparked is no longer verified. */
  lemma VerifiedReportIsUnverified(blocker: string)
    ensures After(BlockerCleared, After(BlockedBy(blocker), {Confirmed, Verified})) == {Confirmed}
  {
    AfterSignal(BlockedBy(blocker), {Confirmed, Verified});
    assert Keeping({Confirmed, Verified}, {Proposed, Confirmed, Rejected}) == {Confirmed};
    AfterSignal(BlockerCleared, {Confirmed, Blocked});
  }
}
