/**
 The DevTools connection (apps/ui/e2e/Browser.ts): calls in flight, their timers, and the handlers
 that settle them. Results, messages and errors are opaque texts; events come in any order.
 */
module BrowserConnect {
  import opened Wrappers
  import opened Utf16

  /** What an answer carries; an error that is present but null has no message to report. */
  datatype Reply = Result(value: Text) | Refusal(message: Text) | NullError

  datatype Outcome =
    | Resolved(value: Text)
    | Failed(message: Text)
    | TimedOut(name: Text)
    | ClosedInFlight(name: Text)
    | NotSent(name: Text)

  datatype Settlement = Settlement(id: nat, outcome: Outcome)

  datatype Event =
    | Send(name: Text, throws: bool)
    | Message(id: Option<int>, reply: Reply)
    | Fire(timer: nat)
    | Close

  /** The promises settled so far, in order, and those whose answer could not be reported. */
  datatype Calls = Calls(
    nextId: nat, pending: map<nat, Text>, armed: set<nat>, settled: seq<Settlement>, lost: set<nat>)

  const START: Calls := Calls(0, map[], {}, [], {})

  function ReplyOutcome(reply: Reply): Outcome
    requires !reply.NullError?
  {
    if reply.Result? then Resolved(reply.value) else Failed(reply.message)
  }

  /** A call leaves the table, its timer with it. */
  function Without(c: Calls, id: nat): Calls {
    c.(pending := c.pending - {id}, armed := c.armed - {id})
  }

  function Settled(c: Calls, id: nat, outcome: Outcome): Calls {
    Without(c, id).(settled := c.settled + [Settlement(id, outcome)])
  }

  /** The close handler, up to an id: the table is walked in the order calls were issued. */
  function ClosedUpTo(c: Calls, n: nat): Calls {
    if n == 0 then c
    else
      var before := ClosedUpTo(c, n - 1);
      if n in before.pending then Settled(before, n, ClosedInFlight(before.pending[n])) else before
  }

  function Step(c: Calls, e: Event): Calls {
    match e
    case Send(name, throws) =>
      var id := c.nextId + 1;
      var sent := c.(nextId := id, pending := c.pending[id := name], armed := c.armed + {id});
      if throws then Settled(sent, id, NotSent(name)) else sent
    case Message(id, reply) =>
      if id.None? || id.value < 0 || id.value !in c.pending then c
      else if reply.NullError? then Without(c, id.value).(lost := c.lost + {id.value})
      else Settled(c, id.value, ReplyOutcome(reply))
    case Fire(id) => if id in c.armed && id in c.pending then Settled(c, id, TimedOut(c.pending[id])) else c
    case Close => ClosedUpTo(c, c.nextId)
  }

  function Run(events: seq<Event>): Calls {
    if events == [] then START else Step(Run(events[..|events| - 1]), events[|events| - 1])
  }

  predicate HasSettled(settled: seq<Settlement>, id: nat) {
    exists i :: 0 <= i < |settled| && settled[i].id == id
  }

  /** Every call issued is in exactly one place, and the timers armed are those of the calls in flight. */
  ghost predicate Consistent(c: Calls) {
    && c.armed == c.pending.Keys
    && c.pending.Keys !! c.lost
    && (forall i, j :: 0 <= i < j < |c.settled| ==> c.settled[i].id != c.settled[j].id)
    && (forall id: nat :: HasSettled(c.settled, id) ==> id !in c.pending && id !in c.lost)
    && (forall id: nat :: 1 <= id <= c.nextId <==> id in c.pending || id in c.lost || HasSettled(c.settled, id))
  }

  lemma HasSettledSnoc(settled: seq<Settlement>, last: Settlement)
    ensures forall id: nat :: HasSettled(settled + [last], id) <==> HasSettled(settled, id) || id == last.id
  {
    var all := settled + [last];
    forall id: nat
      ensures HasSettled(all, id) <==> HasSettled(settled, id) || id == last.id
    {
      assert all[|settled|] == last;
      if i :| 0 <= i < |settled| && settled[i].id == id {
        assert all[i].id == id;
      }
    }
  }

  lemma SettledKeeps(c: Calls, id: nat, outcome: Outcome)
    requires Consistent(c) && id in c.pending
    ensures Consistent(Settled(c, id, outcome))
  {
    HasSettledSnoc(c.settled, Settlement(id, outcome));
    assert forall i :: 0 <= i < |c.settled| ==> HasSettled(c.settled, c.settled[i].id);
  }

  lemma {:induction false} ClosedKeeps(c: Calls, n: nat)
    requires Consistent(c)
    ensures var after := ClosedUpTo(c, n);
            && Consistent(after) && after.nextId == c.nextId && after.lost == c.lost
            && c.settled <= after.settled
            && (forall id: nat :: id in after.pending <==> id in c.pending && id > n)
            && (forall id: nat :: id in after.pending ==> after.pending[id] == c.pending[id])
            && (forall i :: |c.settled| <= i < |after.settled| ==>
                  var s := after.settled[i];
                  s.id in c.pending && s.outcome == ClosedInFlight(c.pending[s.id]))
  {
    if n > 0 {
      ClosedKeeps(c, n - 1);
      var before := ClosedUpTo(c, n - 1);
      if n in before.pending {
        SettledKeeps(before, n, ClosedInFlight(before.pending[n]));
      }
      assert c.pending.Keys == c.armed;
      assert 0 !in c.pending;
    }
  }

  lemma StepKeeps(c: Calls, e: Event)
    requires Consistent(c)
    ensures Consistent(Step(c, e))
    ensures c.settled <= Step(c, e).settled && c.nextId <= Step(c, e).nextId
  {
    match e
    case Send(name, throws) =>
      SendKeeps(c, name);
      if throws {
        var id := c.nextId + 1;
        SettledKeeps(c.(nextId := id, pending := c.pending[id := name], armed := c.armed + {id}), id, NotSent(name));
      }
    case Message(id, reply) =>
      if id.Some? && 0 <= id.value && id.value in c.pending && !reply.NullError? {
        SettledKeeps(c, id.value, ReplyOutcome(reply));
      }
    case Fire(id) =>
      if id in c.armed {
        SettledKeeps(c, id, TimedOut(c.pending[id]));
      }
    case Close => ClosedKeeps(c, c.nextId);
  }

  lemma SendKeeps(c: Calls, name: Text)
    requires Consistent(c)
    ensures var id := c.nextId + 1;
            Consistent(c.(nextId := id, pending := c.pending[id := name], armed := c.armed + {id}))
  {
    var id := c.nextId + 1;
    assert id !in c.pending && id !in c.lost && !HasSettled(c.settled, id);
  }

  /**
   In every run each call issued is in flight with its timer armed, settled exactly once, or lost; no
   call that was not issued is any of these, and no timer outlives its call.
   */
  lemma {:induction false} RunIsConsistent(events: seq<Event>)
    ensures Consistent(Run(events))
  {
    if events != [] {
      RunIsConsistent(events[..|events| - 1]);
      StepKeeps(Run(events[..|events| - 1]), events[|events| - 1]);
    }
  }

  /** What is settled stays settled as it was, whatever comes later. */
  lemma {:induction false} SettledForGood(events: seq<Event>, more: seq<Event>)
    ensures Run(events).settled <= Run(events + more).settled
    decreases |more|
  {
    if more == [] {
      assert events + more == events;
    } else {
      var front, last := more[..|more| - 1], more[|more| - 1];
      var all := events + more;
      assert all[..|all| - 1] == events + front;
      SettledForGood(events, front);
      RunIsConsistent(events + front);
      StepKeeps(Run(events + front), last);
      PrefixOfPrefix(Run(events).settled, Run(events + front).settled, Run(all).settled);
    }
  }

  lemma PrefixOfPrefix(a: seq<Settlement>, b: seq<Settlement>, c: seq<Settlement>)
    requires a <= b && b <= c
    ensures a <= c
  {
  }

  /** After the socket closed nothing is in flight and no timer is armed. */
  lemma CloseLeavesNothing(events: seq<Event>)
    ensures var c := Run(events + [Close]);
            && c.pending == map[] && c.armed == {}
            && forall id: nat :: 1 <= id <= c.nextId ==> HasSettled(c.settled, id) || id in c.lost
  {
    assert (events + [Close])[..|events|] == events;
    RunIsConsistent(events);
    RunIsConsistent(events + [Close]);
    var c := Run(events);
    ClosedKeeps(c, c.nextId);
    var after := ClosedUpTo(c, c.nextId);
    assert forall id: nat :: id in c.pending ==> id <= c.nextId;
    assert after.pending.Keys == {};
  }

  /** The event that explains a settlement. */
  predicate Explains(e: Event, s: Settlement) {
    match s.outcome
    case Resolved(value) => e == Message(Some(s.id), Result(value))
    case Failed(message) => e == Message(Some(s.id), Refusal(message))
    case TimedOut(_) => e == Fire(s.id)
    case ClosedInFlight(_) => e == Close
    case NotSent(name) => e == Send(name, true)
  }

  predicate Explained(events: seq<Event>, s: Settlement) {
    exists k :: 0 <= k < |events| && Explains(events[k], s)
  }

  lemma ExplainedLater(events: seq<Event>, e: Event, s: Settlement)
    requires Explained(events, s) || Explains(e, s)
    ensures Explained(events + [e], s)
  {
    var all := events + [e];
    if k :| 0 <= k < |events| && Explains(events[k], s) {
      assert Explains(all[k], s);
    } else {
      assert Explains(all[|events|], s);
    }
  }

  lemma StepExplains(c: Calls, e: Event)
    requires Consistent(c)
    ensures c.settled <= Step(c, e).settled
    ensures forall i :: |c.settled| <= i < |Step(c, e).settled| ==> Explains(e, Step(c, e).settled[i])
  {
    ClosedKeeps(c, c.nextId);
  }

  /** An answer reaches only the call with its id, and a call is settled only by what explains it. */
  lemma {:induction false} SettlementsAreExplained(events: seq<Event>)
    ensures forall i :: 0 <= i < |Run(events).settled| ==> Explained(events, Run(events).settled[i])
  {
    if events != [] {
      var front, last := events[..|events| - 1], events[|events| - 1];
      SettlementsAreExplained(front);
      RunIsConsistent(front);
      var c := Run(front);
      StepExplains(c, last);
      assert events == front + [last];
      forall i | 0 <= i < |Run(events).settled|
        ensures Explained(events, Run(events).settled[i])
      {
        var s := Run(events).settled[i];
        assert i < |c.settled| ==> s == c.settled[i];
        ExplainedLater(front, last, s);
      }
    }
  }

  lemma StepLoses(c: Calls, e: Event, id: nat)
    requires Consistent(c)
    ensures id in Step(c, e).lost <==> id in c.lost || (e == Message(Some(id), NullError) && id in c.pending)
  {
    ClosedKeeps(c, c.nextId);
  }

  /** At `k` an answer with an error that is null reached the call while it was in flight. */
  predicate LostAt(events: seq<Event>, id: nat, k: nat) {
    k < |events| && events[k] == Message(Some(id), NullError) && id in Run(events[..k]).pending
  }

  lemma LastEventLoses(events: seq<Event>, id: nat)
    requires events != []
    ensures id in Run(events).lost <==>
              id in Run(events[..|events| - 1]).lost || LostAt(events, id, |events| - 1)
  {
    RunIsConsistent(events[..|events| - 1]);
    StepLoses(Run(events[..|events| - 1]), events[|events| - 1], id);
  }

  lemma LostEarlier(events: seq<Event>, id: nat, n: nat, k: nat)
    requires k < n <= |events|
    ensures LostAt(events, id, k) <==> LostAt(events[..n], id, k)
  {
    assert events[..n][..k] == events[..k];
  }

  /** In every run a call is lost exactly when such an answer reached it; nothing else loses a call. */
  lemma {:induction false} LostOnlyToNull(events: seq<Event>, id: nat)
    ensures id in Run(events).lost <==> exists k: nat :: LostAt(events, id, k)
  {
    if events != [] {
      var n := |events| - 1;
      LostOnlyToNull(events[..n], id);
      LastEventLoses(events, id);
      if k: nat :| LostAt(events[..n], id, k) {
        LostEarlier(events, id, n, k);
      }
      if k: nat :| k < n && LostAt(events, id, k) {
        LostEarlier(events, id, n, k);
      }
    }
  }

  /** A call sent and so answered settles neither way, whatever the call. */
  lemma NullErrorSettlesNothing(name: Text)
    ensures var c := Run([Send(name, false), Message(Some(1), NullError)]);
            c.lost == {1} && c.settled == [] && c.pending == map[] && c.armed == {}
  {
    var events := [Send(name, false), Message(Some(1), NullError)];
    var first := [Send(name, false)];
    assert events[..1] == first && first[..0] == [];
    var sent := Run(first);
    assert Run(first[..0]) == START && sent == Step(START, Send(name, false));
    assert START.armed + {1} == {1} && START.pending[1 := name] == map[1 := name];
    assert sent == Calls(1, map[1 := name], {1}, [], {});
    assert sent.lost + {1} == {1} && sent.armed - {1} == {} && sent.pending - {1} == map[];
    assert Run(events) == Step(sent, Message(Some(1), NullError));
  }

  /** A call in flight is settled at once by its answer, its timer or the close. */
  lemma InFlightIsSettled(c: Calls, e: Event, id: nat)
    requires Consistent(c) && id in c.pending
    requires (e.Message? && e.id == Some(id) && !e.reply.NullError?) || e == Fire(id) || e == Close
    ensures id !in Step(c, e).pending && id !in Step(c, e).armed
    ensures exists i :: |c.settled| <= i < |Step(c, e).settled|
              && Step(c, e).settled[i].id == id && Explains(e, Step(c, e).settled[i])
  {
    StepKeeps(c, e);
    StepExplains(c, e);
    ClosedKeeps(c, c.nextId);
    var after := Step(c, e);
    assert id !in after.pending && id !in after.lost && HasSettled(after.settled, id);
    var i :| 0 <= i < |after.settled| && after.settled[i].id == id;
    assert i < |c.settled| ==> c.settled[i] == after.settled[i];
    assert !HasSettled(c.settled, id);
    assert Explains(e, after.settled[i]);
  }

  // ------------------------------------------------------------------ every call, from the events alone

  function Sends(events: seq<Event>): nat {
    if events == [] then 0 else Sends(events[..|events| - 1]) + if events[|events| - 1].Send? then 1 else 0
  }

  /** The call with this id was sent at `k`: it is the id-th to be sent. */
  predicate SentAt(events: seq<Event>, k: nat, id: nat, name: Text) {
    k < |events| && events[k] == Event.Send(name, false) && Sends(events[..k]) + 1 == id
  }

  /** What takes a call out of flight. */
  predicate Ends(e: Event, id: nat) {
    e == Close || e == Fire(id) || (e.Message? && e.id == Some(id))
  }

  /** The call was sent, and nothing has taken it out of flight since. */
  ghost predicate InFlight(events: seq<Event>, id: nat, name: Text) {
    exists k: nat :: SentAt(events, k, id, name) && forall j :: k < j < |events| ==> !Ends(events[j], id)
  }

  lemma InFlightNext(events: seq<Event>, id: nat, name: Text)
    requires events != []
    ensures var n := |events| - 1;
            InFlight(events, id, name) <==>
              || (events[n] == Event.Send(name, false) && Sends(events[..n]) + 1 == id)
              || (InFlight(events[..n], id, name) && !Ends(events[n], id))
  {
    var n := |events| - 1;
    var front := events[..n];
    assert forall k :: 0 <= k <= n ==> front[..k] == events[..k];
    if k: nat :| SentAt(events, k, id, name) && forall j :: k < j < |events| ==> !Ends(events[j], id) {
      assert k < n ==> SentAt(front, k, id, name);
    }
    if InFlight(front, id, name) && !Ends(events[n], id) {
      var k: nat :| SentAt(front, k, id, name) && forall j :: k < j < n ==> !Ends(front[j], id);
      assert SentAt(events, k, id, name);
      assert forall j :: k < j < n ==> front[j] == events[j];
    }
    if events[n] == Event.Send(name, false) && Sends(front) + 1 == id {
      assert SentAt(events, n, id, name);
    }
  }

  predicate Waits(c: Calls, id: nat, name: Text) {
    id in c.pending && c.pending[id] == name
  }

  lemma StepWaits(c: Calls, e: Event, id: nat, name: Text)
    requires Consistent(c)
    ensures Waits(Step(c, e), id, name) <==>
              (e == Event.Send(name, false) && id == c.nextId + 1) || (Waits(c, id, name) && !Ends(e, id))
    ensures Step(c, e).nextId == c.nextId + if e.Send? then 1 else 0
  {
    ClosedKeeps(c, c.nextId);
  }

  /** In every run the calls in flight, by id and name, are exactly those. */
  lemma {:induction false} PendingExactly(events: seq<Event>, id: nat, name: Text)
    ensures Run(events).nextId == Sends(events)
    ensures Waits(Run(events), id, name) <==> InFlight(events, id, name)
  {
    if events != [] {
      var front, last := events[..|events| - 1], events[|events| - 1];
      PendingExactly(front, id, name);
      RunIsConsistent(front);
      StepWaits(Run(front), last, id, name);
      InFlightNext(events, id, name);
    }
  }

  /** The last event settles this call in this way: an answer, its timer, the close, or a send that throws. */
  ghost predicate SettlesLast(events: seq<Event>, id: nat, outcome: Outcome) {
    && events != []
    && var front, last := events[..|events| - 1], events[|events| - 1];
       match outcome
       case Resolved(value) =>
         last == Message(Some(id), Result(value)) && exists name :: InFlight(front, id, name)
       case Failed(message) =>
         last == Message(Some(id), Refusal(message)) && exists name :: InFlight(front, id, name)
       case TimedOut(name) => last == Fire(id) && InFlight(front, id, name)
       case ClosedInFlight(name) => last == Close && InFlight(front, id, name)
       case NotSent(name) => last == Event.Send(name, true) && id == Sends(front) + 1
  }

  /** What one event settles, in the state it meets. */
  predicate SettlesNow(c: Calls, e: Event, id: nat, outcome: Outcome) {
    match outcome
    case Resolved(value) => e == Message(Some(id), Result(value)) && id in c.pending
    case Failed(message) => e == Message(Some(id), Refusal(message)) && id in c.pending
    case TimedOut(name) => e == Fire(id) && Waits(c, id, name)
    case ClosedInFlight(name) => e == Close && Waits(c, id, name)
    case NotSent(name) => e == Event.Send(name, true) && id == c.nextId + 1
  }

  lemma StepSettles(c: Calls, e: Event, id: nat, outcome: Outcome)
    requires Consistent(c)
    ensures Settlement(id, outcome) in Step(c, e).settled
       <==> Settlement(id, outcome) in c.settled || SettlesNow(c, e, id, outcome)
  {
    if e.Close? {
      CloseSettles(c, c.nextId, id, outcome);
    }
  }

  lemma {:induction false} CloseSettles(c: Calls, n: nat, id: nat, outcome: Outcome)
    requires Consistent(c)
    ensures Settlement(id, outcome) in ClosedUpTo(c, n).settled
       <==> Settlement(id, outcome) in c.settled
            || (outcome.ClosedInFlight? && Waits(c, id, outcome.name) && id <= n)
  {
    if n > 0 {
      CloseSettles(c, n - 1, id, outcome);
      ClosedKeeps(c, n - 1);
    } else {
      assert 0 !in c.pending by {
        assert c.pending.Keys == c.armed;
      }
    }
  }

  /** The close rejects the calls in flight in the order they were sent. */
  lemma {:induction false} CloseInOrder(c: Calls, n: nat)
    requires Consistent(c)
    ensures var after := ClosedUpTo(c, n);
            && |c.settled| <= |after.settled|
            && (forall i :: |c.settled| <= i < |after.settled| ==> after.settled[i].id <= n)
            && (forall i, j :: |c.settled| <= i < j < |after.settled| ==> after.settled[i].id < after.settled[j].id)
  {
    if n > 0 {
      CloseInOrder(c, n - 1);
    }
  }

  lemma SettlesLastIs(events: seq<Event>, id: nat, outcome: Outcome)
    requires events != []
    ensures var front, last := events[..|events| - 1], events[|events| - 1];
            SettlesLast(events, id, outcome) <==> SettlesNow(Run(front), last, id, outcome)
  {
    var front := events[..|events| - 1];
    var c := Run(front);
    PendingExactly(front, id, if id in c.pending then c.pending[id] else []);
    if outcome.TimedOut? || outcome.ClosedInFlight? {
      PendingExactly(front, id, outcome.name);
    }
    if name :| InFlight(front, id, name) {
      PendingExactly(front, id, name);
    }
  }

  /** In every run a call is settled in some way exactly when some event settled it so. */
  lemma {:induction false} SettledExactly(events: seq<Event>, id: nat, outcome: Outcome)
    ensures Settlement(id, outcome) in Run(events).settled
       <==> exists k :: 0 < k <= |events| && SettlesLast(events[..k], id, outcome)
  {
    if events != [] {
      var n := |events| - 1;
      var front := events[..n];
      SettledExactly(front, id, outcome);
      RunIsConsistent(front);
      StepSettles(Run(front), events[n], id, outcome);
      SettlesLastIs(events, id, outcome);
      assert forall k :: 0 <= k <= n ==> front[..k] == events[..k];
      assert events[..|events|] == events;
      if k :| 0 < k <= |front| && SettlesLast(front[..k], id, outcome) {
        assert SettlesLast(events[..k], id, outcome);
      }
      if k :| 0 < k <= |events| && SettlesLast(events[..k], id, outcome) {
        assert k <= n ==> SettlesLast(front[..k], id, outcome);
      }
    }
  }

  class Connection {
    var nextId: nat
    var pending: map<nat, Text>
    var timers: set<nat>
    ghost var settled: seq<Settlement>
    ghost var lost: set<nat>

    ghost function State(): Calls
      reads this
    {
      Calls(nextId, pending, timers, settled, lost)
    }

    ghost predicate Valid()
      reads this
    {
      Consistent(State())
    }

    constructor ()
      ensures State() == START && Valid()
    {
      nextId, pending, timers, settled, lost := 0, map[], {}, [], {};
    }

    method Send(name: Text, throws: bool) returns (id: nat)
      requires Valid()
      modifies this
      ensures Valid() && State() == Step(old(State()), Event.Send(name, throws))
      ensures id == nextId == old(nextId) + 1
    {
      ghost var before := State();
      nextId := nextId + 1;
      id := nextId;
      timers := timers + {id};
      pending := pending[id := name];
      if throws {
        pending := pending - {id};
        timers := timers - {id};
        settled := settled + [Settlement(id, NotSent(name))];
      }
      assert State() == Step(before, Event.Send(name, throws));
      StepKeeps(before, Event.Send(name, throws));
    }

    /** The message handler; `raised` when reporting the answer throws. */
    method OnMessage(id: Option<int>, reply: Reply) returns (raised: bool)
      requires Valid()
      modifies this
      ensures Valid() && State() == Step(old(State()), Message(id, reply))
      ensures raised <==> reply.NullError? && id.Some? && id.value >= 0 && id.value in old(pending)
    {
      StepKeeps(State(), Message(id, reply));
      if id.None? || id.value < 0 {
        return false;
      }
      var waiting := id.value in pending;
      pending := pending - {id.value};
      if !waiting {
        return false;
      }
      timers := timers - {id.value};
      if reply.NullError? {
        lost := lost + {id.value};
        return true;
      }
      settled := settled + [Settlement(id.value, ReplyOutcome(reply))];
      raised := false;
    }

    /** A timer that is armed fires. */
    method OnTimeout(id: nat)
      requires Valid() && id in timers
      modifies this
      ensures Valid() && State() == Step(old(State()), Fire(id))
    {
      StepKeeps(State(), Fire(id));
      settled := settled + [Settlement(id, TimedOut(pending[id]))];
      pending := pending - {id};
      timers := timers - {id};
    }

    method OnClose()
      requires Valid()
      modifies this
      ensures Valid() && State() == Step(old(State()), Close)
      ensures pending == map[] && timers == {}
    {
      ghost var before := State();
      StepKeeps(before, Close);
      for id := 1 to nextId + 1
        invariant State() == ClosedUpTo(before, id - 1) && nextId == before.nextId
      {
        if id in pending {
          var name := pending[id];
          pending := pending - {id};
          timers := timers - {id};
          settled := settled + [Settlement(id, ClosedInFlight(name))];
        }
      }
      ClosedKeeps(before, nextId);
      assert forall id: nat :: id in before.pending ==> id <= nextId;
      assert pending.Keys == {};
    }
  }
}
