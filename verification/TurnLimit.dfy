/**
 The per-login ceiling on model calls (apps/server/src/turnLimit.ts): one fixed window with a
 counter, opened by the first spend that finds no live window.

 A `Ledger` remembers every admitted spend next to the window the source stores, which is what
 the statements about whole runs are about; the class keeps it as a ghost field.
 */
module TurnLimit {
  import opened Wrappers

  const TURN_WINDOW_MAX: nat := 1000
  const TURN_WINDOW_MS: nat := 60 * 60 * 1000

  datatype Window = Window(start: int, count: nat)

  /** What a spend or a peek answers; `retryAt` is present only on a refusal. */
  datatype Budget = Budget(allowed: bool, remaining: nat, retryAt: Option<int>)

  /** The stored window while it is younger than the period, otherwise a fresh one at `now`. */
  function OpenWindow(stored: Option<Window>, now: int): Window {
    if stored.Some? && now - stored.value.start < TURN_WINDOW_MS then stored.value else Window(now, 0)
  }

  function SpendAnswer(stored: Option<Window>, now: int): Budget {
    var open := OpenWindow(stored, now);
    if open.count >= TURN_WINDOW_MAX then Budget(false, 0, Some(open.start + TURN_WINDOW_MS))
    else Budget(true, TURN_WINDOW_MAX - (open.count + 1), None)
  }

  /** The window stored after a spend; a refused spend stores nothing. */
  function SpendStore(stored: Option<Window>, now: int): Option<Window> {
    var open := OpenWindow(stored, now);
    if open.count >= TURN_WINDOW_MAX then stored else Some(Window(open.start, open.count + 1))
  }

  function PeekAnswer(stored: Option<Window>, now: int): Budget {
    var open := OpenWindow(stored, now);
    Budget(
      open.count < TURN_WINDOW_MAX,
      if open.count < TURN_WINDOW_MAX then TURN_WINDOW_MAX - open.count else 0,
      if open.count >= TURN_WINDOW_MAX then Some(open.start + TURN_WINDOW_MS) else None)
  }

  /**
   The history of one login: the stored window, the latest clock reading, the instants of the
   admitted spends, and for each of them the start of the window that admitted it.
   */
  datatype Ledger = Ledger(window: Option<Window>, clock: int, admitted: seq<int>, starts: seq<int>)

  function NewLedger(clock: int): Ledger {
    Ledger(None, clock, [], [])
  }

  /** The ledger after a spend at `now`. */
  function Entered(ledger: Ledger, now: int): Ledger {
    var open := OpenWindow(ledger.window, now);
    if !SpendAnswer(ledger.window, now).allowed then ledger.(clock := now)
    else Ledger(SpendStore(ledger.window, now), now, ledger.admitted + [now], ledger.starts + [open.start])
  }

  /** Every spend falls in its window, not after the clock, and the spends are in order. */
  ghost predicate InWindow(l: Ledger)
    requires |l.starts| == |l.admitted|
  {
    && (forall i :: 0 <= i < |l.admitted| ==> l.starts[i] <= l.admitted[i] < l.starts[i] + TURN_WINDOW_MS)
    && (forall i :: 0 <= i < |l.admitted| ==> l.admitted[i] <= l.clock)
    && (forall i, j :: 0 <= i < j < |l.admitted| ==> l.admitted[i] <= l.admitted[j])
  }

  /** Different windows begin at least a period apart. */
  ghost predicate Apart(starts: seq<int>) {
    forall i, j :: 0 <= i < j < |starts| ==> starts[i] == starts[j] || starts[i] + TURN_WINDOW_MS <= starts[j]
  }

  /** No window admits more than the ceiling. */
  ghost predicate Capped(starts: seq<int>) {
    forall i :: 0 <= i < |starts| - TURN_WINDOW_MAX ==> starts[i] != starts[i + TURN_WINDOW_MAX]
  }

  /** The spend that opens a window happens at the very start of that window. */
  ghost predicate OpenedBySpend(l: Ledger)
    requires |l.starts| == |l.admitted|
  {
    forall i :: 0 <= i < |l.starts| && Opens(l.starts, i) ==> l.admitted[i] == l.starts[i]
  }

  ghost predicate Opens(starts: seq<int>, i: nat)
    requires i < |starts|
  {
    i == 0 || starts[i - 1] != starts[i]
  }

  /** The stored counter counts exactly the latest spends, all of them in the stored window. */
  ghost predicate CountsTail(starts: seq<int>, w: Window) {
    && 1 <= w.count <= TURN_WINDOW_MAX
    && w.count <= |starts|
    && (forall i :: |starts| - w.count <= i < |starts| ==> starts[i] == w.start)
    && (forall i :: 0 <= i < |starts| - w.count ==> starts[i] != w.start)
  }

  ghost predicate Consistent(l: Ledger) {
    && |l.starts| == |l.admitted|
    && (l.window.None? <==> l.admitted == [])
    && (l.window.Some? ==> CountsTail(l.starts, l.window.value))
    && InWindow(l)
    && Apart(l.starts)
    && Capped(l.starts)
    && OpenedBySpend(l)
  }

  /** What a spend that is admitted appends, relative to the windows so far. */
  lemma NextStart(l: Ledger, now: int)
    requires Consistent(l) && l.clock <= now
    ensures var start := OpenWindow(l.window, now).start;
      && start <= now < start + TURN_WINDOW_MS
      && (forall i :: 0 <= i < |l.starts| ==> l.starts[i] == start || l.starts[i] + TURN_WINDOW_MS <= start)
      && (|l.starts| == 0 || l.starts[|l.starts| - 1] != start ==> start == now)
      && (SpendAnswer(l.window, now).allowed ==> CountsTail(l.starts + [start], SpendStore(l.window, now).value))
  {
    if l.window.Some? {
      var last := |l.starts| - 1;
      assert l.starts[last] == l.window.value.start;
      assert l.admitted[last] <= l.clock;
    }
  }

  lemma AppendKeepsCapped(starts: seq<int>, w: Window)
    requires Capped(starts) && starts != []
    requires w.count > 1 ==> CountsTail(starts, Window(w.start, w.count - 1))
    requires CountsTail(starts + [w.start], w)
    ensures Capped(starts + [w.start])
  {
    var next := starts + [w.start];
    forall i | 0 <= i < |next| - TURN_WINDOW_MAX
      ensures next[i] != next[i + TURN_WINDOW_MAX]
    {
      if i + TURN_WINDOW_MAX < |starts| {
        assert starts[i] != starts[i + TURN_WINDOW_MAX];
      }
    }
  }

  lemma AppendKeepsOpenedBySpend(l: Ledger, next: Ledger, now: int, start: int)
    requires |l.starts| == |l.admitted| && OpenedBySpend(l)
    requires next.starts == l.starts + [start] && next.admitted == l.admitted + [now]
    requires |l.starts| == 0 || l.starts[|l.starts| - 1] != start ==> start == now
    ensures OpenedBySpend(next)
  {
    forall i | 0 <= i < |next.starts| && Opens(next.starts, i)
      ensures next.admitted[i] == next.starts[i]
    {
      if i < |l.starts| {
        assert Opens(l.starts, i);
      }
    }
  }

  /** Every spend keeps the ledger consistent while the clock does not go back. */
  lemma EnteredKeepsConsistent(l: Ledger, now: int)
    requires Consistent(l) && l.clock <= now
    ensures Consistent(Entered(l, now))
  {
    if SpendAnswer(l.window, now).allowed {
      NextStart(l, now);
      var start := OpenWindow(l.window, now).start;
      var next := Entered(l, now);
      AppendKeepsApart(l.starts, start);
      if l.starts != [] {
        AppendKeepsCapped(l.starts, next.window.value);
      }
      AppendKeepsInWindow(l, next, now, start);
      AppendKeepsOpenedBySpend(l, next, now, start);
    }
  }

  lemma AppendKeepsApart(starts: seq<int>, start: int)
    requires Apart(starts)
    requires forall i :: 0 <= i < |starts| ==> starts[i] == start || starts[i] + TURN_WINDOW_MS <= start
    ensures Apart(starts + [start])
  {
  }

  lemma AppendKeepsInWindow(l: Ledger, next: Ledger, now: int, start: int)
    requires |l.starts| == |l.admitted| && InWindow(l) && l.clock <= now && start <= now < start + TURN_WINDOW_MS
    requires next.starts == l.starts + [start] && next.admitted == l.admitted + [now] && next.clock == now
    ensures InWindow(next)
  {
  }

  /**
   Any spend and the one admitted `2 * TURN_WINDOW_MAX - 1` places later are at least a whole
   period apart.
   */
  lemma SpendsSpreadOut(l: Ledger, i: nat)
    requires Consistent(l)
    requires i + 2 * TURN_WINDOW_MAX - 1 < |l.admitted|
    ensures l.admitted[i] + TURN_WINDOW_MS <= l.admitted[i + 2 * TURN_WINDOW_MAX - 1]
  {
    var middle := i + TURN_WINDOW_MAX - 1;
    assert l.starts[middle] != l.starts[middle + TURN_WINDOW_MAX];
    assert l.starts[i] != l.starts[i + TURN_WINDOW_MAX];
    if l.starts[middle] == l.starts[i] {
      // The window of `i` is full with the spends i..middle, so `i` opened it.
      assert i > 0 ==> l.starts[i - 1] != l.starts[i - 1 + TURN_WINDOW_MAX];
      assert Opens(l.starts, i);
    }
  }

  /** The number of the spends among `times` that fall in the half-open period beginning at `from`. */
  ghost function SpendsWithin(times: seq<int>, from: int): nat {
    if times == [] then 0
    else SpendsWithin(times[..|times| - 1], from)
         + if from <= times[|times| - 1] < from + TURN_WINDOW_MS then 1 else 0
  }

  /** While nothing is past the period yet, the spends inside it are the latest ones. */
  lemma {:induction false} EarlierSpends(times: seq<int>, from: int, last: int)
    requires forall i, j :: 0 <= i < j < |times| ==> times[i] <= times[j]
    requires last < from + TURN_WINDOW_MS
    requires forall i :: 0 <= i < |times| ==> times[i] <= last
    ensures SpendsWithin(times, from) <= |times|
    ensures forall i :: |times| - SpendsWithin(times, from) <= i < |times| ==> from <= times[i]
  {
    if times != [] {
      var n := |times| - 1;
      EarlierSpends(times[..n], from, last);
      if times[n] < from {
        BeforePeriod(times, from);
      } else {
        forall i | |times| - SpendsWithin(times, from) <= i < n
          ensures from <= times[i]
        {
          assert times[i] == times[..n][i];
        }
      }
    }
  }

  lemma {:induction false} BeforePeriod(times: seq<int>, from: int)
    requires forall i :: 0 <= i < |times| ==> times[i] < from
    ensures SpendsWithin(times, from) == 0
  {
    if times != [] {
      BeforePeriod(times[..|times| - 1], from);
    }
  }

  /** Instants `gap` places apart are at least a period apart. */
  ghost predicate Spread(times: seq<int>, gap: nat) {
    forall i :: 0 <= i < |times| - gap ==> times[i] + TURN_WINDOW_MS <= times[i + gap]
  }

  ghost predicate Ordered(times: seq<int>) {
    forall i, j :: 0 <= i < j < |times| ==> times[i] <= times[j]
  }

  /** Instants that are spread out never crowd a period. */
  lemma {:induction false} SpreadBoundsWithin(times: seq<int>, from: int, gap: nat)
    requires Ordered(times) && Spread(times, gap) && 0 < gap
    ensures SpendsWithin(times, from) <= gap
  {
    if times != [] {
      var n := |times| - 1;
      var earlier := times[..n];
      assert Spread(earlier, gap) by {
        forall i | 0 <= i < |earlier| - gap
          ensures earlier[i] + TURN_WINDOW_MS <= earlier[i + gap]
        {
          assert times[i] + TURN_WINDOW_MS <= times[i + gap];
        }
      }
      SpreadBoundsWithin(earlier, from, gap);
      if from <= times[n] < from + TURN_WINDOW_MS {
        EarlierSpends(times, from, times[n]);
        assert gap <= n ==> times[n - gap] + TURN_WINDOW_MS <= times[n - gap + gap];
      }
    }
  }

  /** However a period is placed, it sees at most `2 * TURN_WINDOW_MAX - 1` admitted spends. */
  lemma AtMostTwiceLessOne(l: Ledger, from: int)
    requires Consistent(l)
    ensures SpendsWithin(l.admitted, from) <= 2 * TURN_WINDOW_MAX - 1
  {
    var gap := 2 * TURN_WINDOW_MAX - 1;
    assert Spread(l.admitted, gap) by {
      forall i | 0 <= i < |l.admitted| - gap
        ensures l.admitted[i] + TURN_WINDOW_MS <= l.admitted[i + gap]
      {
        SpendsSpreadOut(l, i);
      }
    }
    SpreadBoundsWithin(l.admitted, from, gap);
  }

  /** The ledger after spends at the given instants. */
  function Played(clock: int, times: seq<int>): Ledger {
    if times == [] then NewLedger(clock)
    else Entered(Played(clock, times[..|times| - 1]), times[|times| - 1])
  }

  /**
   Over every run of spends on a clock that never goes back, no half-open period of
   `TURN_WINDOW_MS` sees more than `2 * TURN_WINDOW_MAX - 1` admitted spends.
   */
  lemma {:induction false} PlayedIsBounded(clock: int, times: seq<int>, from: int)
    requires Ordered([clock] + times)
    ensures Consistent(Played(clock, times))
    ensures Played(clock, times).clock == ([clock] + times)[|times|]
    ensures SpendsWithin(Played(clock, times).admitted, from) <= 2 * TURN_WINDOW_MAX - 1
  {
    if times != [] {
      var earlier := times[..|times| - 1];
      assert [clock] + earlier == ([clock] + times)[..|times|];
      PlayedIsBounded(clock, earlier, from);
      var last := |times| - 1;
      assert ([clock] + times)[last] <= ([clock] + times)[last + 1];
      EnteredKeepsConsistent(Played(clock, earlier), times[last]);
    }
    AtMostTwiceLessOne(Played(clock, times), from);
  }

  function Repeated(instant: int, length: nat): (times: seq<int>)
    ensures |times| == length && forall i :: 0 <= i < length ==> times[i] == instant
  {
    seq(length, i => instant)
  }

  /** The ledger after a number of spends at one instant. */
  function Burst(l: Ledger, instant: int, length: nat): Ledger {
    if length == 0 then l else Entered(Burst(l, instant, length - 1), instant)
  }

  lemma {:induction false} PlayedRepeated(clock: int, times: seq<int>, instant: int, length: nat)
    ensures Played(clock, times + Repeated(instant, length)) == Burst(Played(clock, times), instant, length)
  {
    var all := times + Repeated(instant, length);
    if length == 0 {
      assert all == times;
    } else {
      assert all[..|all| - 1] == times + Repeated(instant, length - 1);
      PlayedRepeated(clock, times, instant, length - 1);
    }
  }

  /** While the window has room for all of them, every spend of a burst is admitted. */
  lemma {:induction false} BurstIsAdmitted(l: Ledger, instant: int, length: nat, open: Window)
    requires length > 0 && OpenWindow(l.window, instant) == open
    requires open.start <= instant < open.start + TURN_WINDOW_MS
    requires open.count + length <= TURN_WINDOW_MAX
    ensures Burst(l, instant, length).admitted == l.admitted + Repeated(instant, length)
    ensures Burst(l, instant, length).window == Some(Window(open.start, open.count + length))
  {
    if length == 1 {
      assert Burst(l, instant, 0) == l;
    } else {
      BurstIsAdmitted(l, instant, length - 1, open);
    }
    RepeatedNext(l.admitted, instant, length - 1);
  }

  lemma RepeatedNext(before: seq<int>, instant: int, length: nat)
    ensures before + Repeated(instant, length + 1) == before + Repeated(instant, length) + [instant]
    ensures before + Repeated(instant, 0) == before
  {
  }

  lemma PlayedBurst(clock: int, times: seq<int>, instant: int, length: nat, open: Window)
    requires length > 0 && OpenWindow(Played(clock, times).window, instant) == open
    requires open.start <= instant < open.start + TURN_WINDOW_MS
    requires open.count + length <= TURN_WINDOW_MAX
    ensures Played(clock, times + Repeated(instant, length)).admitted
         == Played(clock, times).admitted + Repeated(instant, length)
    ensures Played(clock, times + Repeated(instant, length)).window == Some(Window(open.start, open.count + length))
  {
    PlayedRepeated(clock, times, instant, length);
    BurstIsAdmitted(Played(clock, times), instant, length, open);
  }

  lemma {:induction false} BurstWithin(times: seq<int>, instant: int, length: nat, from: int)
    requires from <= instant < from + TURN_WINDOW_MS
    ensures SpendsWithin(times + Repeated(instant, length), from) == SpendsWithin(times, from) + length
  {
    var all := times + Repeated(instant, length);
    if length == 0 {
      assert all == times;
    } else {
      assert all[..|all| - 1] == times + Repeated(instant, length - 1);
      BurstWithin(times, instant, length - 1, from);
    }
  }

  /** One spend opens a window, the ceiling fills up at its very end and again just after it. */
  function CrowdedRun(): seq<int> {
    Repeated(0, 1) + Repeated(TURN_WINDOW_MS - 1, TURN_WINDOW_MAX - 1) + Repeated(TURN_WINDOW_MS, TURN_WINDOW_MAX)
  }

  lemma CrowdedRunIsAdmitted()
    ensures Ordered([0] + CrowdedRun())
    ensures Played(0, CrowdedRun()).admitted == CrowdedRun()
  {
    var opening := Repeated(0, 1);
    var filled := opening + Repeated(TURN_WINDOW_MS - 1, TURN_WINDOW_MAX - 1);
    assert [] + opening == opening;
    PlayedBurst(0, [], 0, 1, Window(0, 0));
    PlayedBurst(0, opening, TURN_WINDOW_MS - 1, TURN_WINDOW_MAX - 1, Window(0, 1));
    PlayedBurst(0, filled, TURN_WINDOW_MS, TURN_WINDOW_MAX, Window(TURN_WINDOW_MS, 0));
  }

  /** The bound is attained. */
  lemma BoundIsAttained()
    ensures Ordered([0] + CrowdedRun())
    ensures SpendsWithin(Played(0, CrowdedRun()).admitted, 1) == 2 * TURN_WINDOW_MAX - 1
  {
    CrowdedRunIsAdmitted();
    var opening := Repeated(0, 1);
    BeforePeriod(opening, 1);
    BurstWithin(opening, TURN_WINDOW_MS - 1, TURN_WINDOW_MAX - 1, 1);
    BurstWithin(opening + Repeated(TURN_WINDOW_MS - 1, TURN_WINDOW_MAX - 1), TURN_WINDOW_MS, TURN_WINDOW_MAX, 1);
  }

  /**
   A refusal fixes the reset: whatever is refused in between, a later spend is admitted exactly
   when it comes at or after the instant the refusal named.
   */
  lemma RefusedUntilReset(stored: Option<Window>, now: int, later: int)
    requires now <= later && !SpendAnswer(stored, now).allowed
    ensures SpendAnswer(stored, now).retryAt.Some?
    ensures var reset := SpendAnswer(stored, now).retryAt;
      && (SpendAnswer(SpendStore(stored, now), later).allowed <==> reset.value <= later)
      && (later < reset.value ==> SpendAnswer(SpendStore(stored, now), later).retryAt == reset)
  {
  }

  /**
   What a spend is answered, in the history: the `n` spends that the live window admitted, its first one
   no more than an hour ago, leave room for another while there are fewer than a thousand.
   */
  lemma AdmittedExactly(l: Ledger, now: int) returns (n: nat)
    requires Consistent(l) && l.clock <= now
    ensures n <= |l.starts|
    ensures l.starts == [] || l.starts[|l.starts| - 1] + 3_600_000 <= now ==> n == 0
    ensures l.starts != [] && now < l.starts[|l.starts| - 1] + 3_600_000 ==>
              var live := l.starts[|l.starts| - 1];
              && (forall i :: |l.starts| - n <= i < |l.starts| ==> l.starts[i] == live)
              && (forall i :: 0 <= i < |l.starts| - n ==> l.starts[i] != live)
    ensures n < 1000 ==> SpendAnswer(l.window, now) == Budget(true, 999 - n, None)
    ensures n >= 1000 ==> SpendAnswer(l.window, now) == Budget(false, 0, Some(l.starts[|l.starts| - 1] + 3_600_000))
  {
    n := OpenWindow(l.window, now).count;
    if l.window.Some? {
      assert l.starts[|l.starts| - 1] == l.window.value.start;
    }
  }

  /** A peek predicts the spend that follows at the same instant. */
  lemma PeekPredictsSpend(stored: Option<Window>, now: int)
    ensures PeekAnswer(stored, now).allowed == SpendAnswer(stored, now).allowed
    ensures PeekAnswer(stored, now).retryAt == SpendAnswer(stored, now).retryAt
    ensures PeekAnswer(stored, now).remaining
         == SpendAnswer(stored, now).remaining + if SpendAnswer(stored, now).allowed then 1 else 0
  {
  }

  /** The limiter: reads and overwrites the one stored window. */
  class TurnRateLimiter {
    var window: Option<Window>
    ghost var ledger: Ledger

    ghost predicate Valid()
      reads this
    {
      ledger.window == window && Consistent(ledger)
    }

    constructor (ghost clock: int)
      ensures Valid() && ledger == NewLedger(clock)
    {
      window := None;
      ledger := NewLedger(clock);
    }

    method Spend(now: int) returns (budget: Budget)
      requires Valid() && ledger.clock <= now
      modifies this
      ensures Valid() && ledger == Entered(old(ledger), now)
      ensures budget == SpendAnswer(old(window), now)
      ensures budget.allowed ==> ledger.admitted == old(ledger.admitted) + [now]
      ensures !budget.allowed ==> window == old(window) && ledger.admitted == old(ledger.admitted)
    {
      EnteredKeepsConsistent(ledger, now);
      ledger := Entered(ledger, now);
      var open := Window(now, 0);
      if window.Some? && now - window.value.start < TURN_WINDOW_MS {
        open := window.value;
      }
      if open.count >= TURN_WINDOW_MAX {
        return Budget(false, 0, Some(open.start + TURN_WINDOW_MS));
      }
      var next := Window(open.start, open.count + 1);
      window := Some(next);
      budget := Budget(true, TURN_WINDOW_MAX - next.count, None);
    }

    method Peek(now: int) returns (budget: Budget)
      requires Valid()
      ensures budget == PeekAnswer(window, now)
    {
      var open := OpenWindow(window, now);
      if open.count >= TURN_WINDOW_MAX {
        budget := Budget(false, 0, Some(open.start + TURN_WINDOW_MS));
      } else {
        budget := Budget(true, TURN_WINDOW_MAX - open.count, None);
      }
    }
  }
}
