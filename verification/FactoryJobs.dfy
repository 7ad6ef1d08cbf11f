/**
 The jobs that drive the reproduction state machine: intake.ts, poc-publish.ts, advance.ts,
 reverify.ts and the gate of fix.ts, all under factory/automation.

 A job reads the issue, may send signals, and applies each edit. What the job learns from
 elsewhere (the sandbox result, the reading of a reply, which blockers are closed) is an input.
 */
module FactoryJobs {
  import opened Wrappers
  import opened Labels

  datatype Reading = Confirm | Reject | Unclear

  /** The latest comment on the issue, as the reply job classifies it. */
  datatype Reply = NoComment | TheProposal | Stranger | FromReporter(reading: Reading)

  datatype Job =
    | IntakeJob(closed: bool, strongDuplicate: bool)
    | PublishJob(failed: bool, unrelated: bool, blocker: string)
    | ReplyJob(reply: Reply, attempts: nat, failedOnMain: bool)
    | UnparkJob(blockerClosed: seq<bool>)
    | RecheckJob(onDisk: bool, stillFails: bool)
    | HandEdit(add: set<Label>, remove: set<Label>)

  predicate Parks(job: Job) {
    job.PublishJob? && job.failed && job.unrelated
  }

  predicate Proposes(job: Job) {
    job.PublishJob? && !Parks(job)
  }

  /** The events one job sends, in order, given the labels it reads. */
  function Events(job: Job, labels: set<Label>): seq<Event> {
    match job
    case IntakeJob(closed, strongDuplicate) => if closed then [] else [Sent(Intake(strongDuplicate))]
    case PublishJob(_, _, blocker) => if Parks(job) then [Sent(BlockedBy(blocker))] else [Sent(PocProposed)]
    case ReplyJob(reply, attempts, failedOnMain) =>
      if Proposed !in labels || !reply.FromReporter? then []
      else if reply.reading.Confirm? then
        [Sent(ReporterConfirmed)] + if failedOnMain then [Sent(PocFailedOnMain)] else []
      else if reply.reading.Reject? then [Sent(ReporterRejected(attempts))]
      else []
    case UnparkJob(blockerClosed) =>
      if blockerClosed == [] || false in blockerClosed then [] else [Sent(BlockerCleared)]
    case RecheckJob(onDisk, stillFails) => if !onDisk || stillFails then [] else [Sent(NoLongerReproduces)]
    case HandEdit(add, remove) => [Hand(add, remove)]
  }

  function AfterJob(labels: set<Label>, job: Job): set<Label> {
    Run(labels, Events(job, labels))
  }

  /** The labels after a run of jobs, one after the other. */
  function AfterJobs(start: set<Label>, jobs: seq<Job>): set<Label> {
    if jobs == [] then start
    else AfterJob(AfterJobs(start, jobs[..|jobs| - 1]), jobs[|jobs| - 1])
  }

  ghost predicate Admissible(job: Job) {
    job.HandEdit? ==> Allowed(Hand(job.add, job.remove))
  }

  /** The reporter's yes to a program that fails on main. */
  predicate Verifies(job: Job) {
    job.ReplyJob? && job.reply == FromReporter(Confirm) && job.failedOnMain
  }

  /** The jobs after which an open proposal no longer awaits an answer. */
  predicate Answers(job: Job) {
    || (job.ReplyJob? && job.reply.FromReporter? && !job.reply.reading.Unclear?)
    || Closes(job)
  }

  /** The jobs that clear the state of any report: a strong duplicate, or a repro that passes. */
  predicate Closes(job: Job) {
    || (job.IntakeJob? && !job.closed && job.strongDuplicate)
    || (job.RecheckJob? && job.onDisk && !job.stillFails)
  }

  lemma RunOne(labels: set<Label>, e: Event)
    ensures Run(labels, [e]) == Next(labels, e)
  {
    assert [e][..0] == [];
    assert Run(labels, [e][..0]) == labels;
  }

  lemma RunTwo(labels: set<Label>, e: Event, f: Event)
    ensures Run(labels, [e, f]) == Next(Next(labels, e), f)
  {
    assert [e, f][..1] == [e];
    RunOne(labels, e);
  }

  /** The labels each job leaves, in what it learned. */
  lemma AfterJobIs(labels: set<Label>, job: Job)
    ensures AfterJob(labels, job) == match job
      case HandEdit(add, remove) => labels + add - remove
      case IntakeJob(closed, strongDuplicate) =>
        if !closed && strongDuplicate then Keeping(labels, {}) + {Duplicate} else labels
      case PublishJob(failed, unrelated, _) =>
        if failed && unrelated then Keeping(labels, {Proposed, Confirmed, Rejected}) + {Blocked}
        else Keeping(labels, {}) + {Proposed}
      case ReplyJob(FromReporter(Confirm), _, failedOnMain) =>
        if Proposed !in labels then labels
        else Keeping(labels, {}) + if failedOnMain then {Confirmed, Verified} else {Confirmed}
      case ReplyJob(FromReporter(Reject), attempts, _) =>
        if Proposed !in labels then labels
        else Keeping(labels, {}) + if attempts >= 3 then {Rejected, NeedsInfo} else {Rejected}
      case ReplyJob(_, _, _) => labels
      case UnparkJob(blockerClosed) =>
        if blockerClosed != [] && false !in blockerClosed then labels - {Blocked} else labels
      case RecheckJob(onDisk, stillFails) => if onDisk && !stillFails then Keeping(labels, {}) else labels
  {
    var events := Events(job, labels);
    if |events| == 1 {
      RunOne(labels, events[0]);
      if events[0].Sent? {
        AfterSignal(events[0].signal, labels);
      }
    } else if |events| == 2 {
      assert events == [Sent(ReporterConfirmed), Sent(PocFailedOnMain)];
      RunTwo(labels, Sent(ReporterConfirmed), Sent(PocFailedOnMain));
      AfterSignal(ReporterConfirmed, labels);
      AfterSignal(PocFailedOnMain, After(ReporterConfirmed, labels));
      ConfirmThenVerify(labels);
    }
  }

  lemma ConfirmThenVerify(labels: set<Label>)
    ensures var confirmed := Keeping(labels, {}) + {Confirmed};
            Keeping(confirmed, {Confirmed}) + {Verified} == Keeping(labels, {}) + {Confirmed, Verified}
  {
  }

  /** How one job moves the labels that decide whether a fix starts. */
  lemma JobMoves(labels: set<Label>, job: Job)
    requires Coherent(labels) && Admissible(job)
    ensures Coherent(AfterJob(labels, job))
    ensures Proposed in AfterJob(labels, job) <==> Proposes(job) || (Proposed in labels && !Answers(job))
    ensures Verified in AfterJob(labels, job) <==>
      (Verifies(job) && Proposed in labels) || (Verified in labels && !job.PublishJob? && !Closes(job))
  {
    var events := Events(job, labels);
    if |events| == 1 {
      RunOne(labels, events[0]);
      EventMoves(labels, events[0]);
    } else if |events| == 2 {
      RunTwo(labels, events[0], events[1]);
      assert events == [events[0], events[1]];
      EventMoves(labels, events[0]);
      EventMoves(Next(labels, events[0]), events[1]);
    }
  }

  lemma EventMoves(labels: set<Label>, e: Event)
    requires Coherent(labels) && Allowed(e)
    ensures Coherent(Next(labels, e))
    ensures Confirmed in Next(labels, e) <==> e == Sent(ReporterConfirmed) || (Confirmed in labels && !Unconfirms(e))
    ensures Verified in Next(labels, e) <==>
      if e == Sent(PocFailedOnMain) then Confirmed in labels
      else Verified in labels && !Unconfirms(e) && !Unverifies(e)
    ensures Proposed in Next(labels, e) <==>
      match e
      case Hand(_, _) => Proposed in labels
      case Sent(PocProposed) => true
      case Sent(BlockedBy(_)) => Proposed in labels
      case Sent(BlockerCleared) => Proposed in labels
      case Sent(Intake(false)) => Proposed in labels
      case Sent(PocFailedOnMain) => Proposed in labels && Confirmed !in labels
      case Sent(_) => false
  {
    NextMoves(labels, e);
    if e.Sent? {
      AfterSignal(e.signal, labels);
      TransitionKeepsCoherent(e.signal, labels);
    }
  }

  /** A proposal posted at `p` that still awaits its answer. */
  ghost predicate AwaitsAnswer(jobs: seq<Job>, p: nat) {
    p < |jobs| && Proposes(jobs[p]) && forall k :: p < k < |jobs| ==> !Answers(jobs[k])
  }

  /** A proposal answered yes at `r` while failing on main, with nothing published or closed since. */
  ghost predicate VerifiedAt(jobs: seq<Job>, p: nat, r: nat) {
    && p < r < |jobs|
    && AwaitsAnswer(jobs[..r], p)
    && Verifies(jobs[r])
    && forall k :: r < k < |jobs| ==> !jobs[k].PublishJob? && !Closes(jobs[k])
  }

  lemma AwaitingHistory(jobs: seq<Job>)
    requires jobs != []
    ensures var n := |jobs| - 1;
      (exists p: nat :: AwaitsAnswer(jobs, p)) <==>
        Proposes(jobs[n]) || ((exists p: nat :: AwaitsAnswer(jobs[..n], p)) && !Answers(jobs[n]))
  {
    var n := |jobs| - 1;
    var earlier := jobs[..n];
    if p: nat :| AwaitsAnswer(jobs, p) {
      assert p < n ==> AwaitsAnswer(earlier, p);
    }
    if Proposes(jobs[n]) {
      assert AwaitsAnswer(jobs, n);
    }
    if (exists p: nat :: AwaitsAnswer(earlier, p)) && !Answers(jobs[n]) {
      var p: nat :| AwaitsAnswer(earlier, p);
      assert AwaitsAnswer(jobs, p);
    }
  }

  lemma VerifiedHistory(jobs: seq<Job>)
    requires jobs != []
    ensures var n := |jobs| - 1;
      (exists p: nat, r: nat :: VerifiedAt(jobs, p, r)) <==>
        (Verifies(jobs[n]) && exists p: nat :: AwaitsAnswer(jobs[..n], p))
        || ((exists p: nat, r: nat :: VerifiedAt(jobs[..n], p, r)) && !jobs[n].PublishJob? && !Closes(jobs[n]))
  {
    var n := |jobs| - 1;
    var earlier := jobs[..n];
    if p: nat, r: nat :| VerifiedAt(jobs, p, r) {
      if r < n {
        assert earlier[..r] == jobs[..r];
        assert VerifiedAt(earlier, p, r);
      }
    }
    if Verifies(jobs[n]) && exists p: nat :: AwaitsAnswer(earlier, p) {
      var p: nat :| AwaitsAnswer(earlier, p);
      assert VerifiedAt(jobs, p, n);
    }
    if (exists p: nat, r: nat :: VerifiedAt(earlier, p, r)) && !jobs[n].PublishJob? && !Closes(jobs[n]) {
      var p: nat, r: nat :| VerifiedAt(earlier, p, r);
      assert earlier[..r] == jobs[..r];
      assert VerifiedAt(jobs, p, r);
    }
  }

  /**
   Over every run of the jobs on a fresh issue, `poc:proposed` means a posted proposal awaits its
   answer, and `repro:verified` means the reporter said yes to a proposal that failed on main, with
   nothing published and nothing closed since.
   */
  lemma {:induction false} JobsExactly(start: set<Label>, jobs: seq<Job>)
    requires Fresh(start) && forall job :: job in jobs ==> Admissible(job)
    ensures Coherent(AfterJobs(start, jobs))
    ensures Proposed in AfterJobs(start, jobs) <==> exists p: nat :: AwaitsAnswer(jobs, p)
    ensures Verified in AfterJobs(start, jobs) <==> exists p: nat, r: nat :: VerifiedAt(jobs, p, r)
  {
    if jobs != [] {
      var n := |jobs| - 1;
      JobsExactly(start, jobs[..n]);
      JobMoves(AfterJobs(start, jobs[..n]), jobs[n]);
      AwaitingHistory(jobs);
      VerifiedHistory(jobs);
    }
  }

  // ------------------------------------------------------------------ every managed label over a run

  /** Some run of jobs so far `starts` something, and no run that goes on from it stops it. */
  ghost predicate Since(jobs: seq<Job>, starts: seq<Job> -> bool, stops: seq<Job> -> bool) {
    exists k :: 0 < k <= |jobs| && starts(jobs[..k]) && forall j :: k < j <= |jobs| ==> !stops(jobs[..j])
  }

  lemma SinceNext(jobs: seq<Job>, starts: seq<Job> -> bool, stops: seq<Job> -> bool)
    requires jobs != []
    ensures Since(jobs, starts, stops)
       <==> starts(jobs) || (Since(jobs[..|jobs| - 1], starts, stops) && !stops(jobs))
  {
    var n := |jobs| - 1;
    var front := jobs[..n];
    assert jobs[..|jobs|] == jobs;
    assert forall k :: 0 <= k <= n ==> front[..k] == jobs[..k];
    if k :| 0 < k <= |jobs| && starts(jobs[..k]) && forall j :: k < j <= |jobs| ==> !stops(jobs[..j]) {
      assert k <= n ==> starts(front[..k]);
    }
    if Since(front, starts, stops) && !stops(jobs) {
      var k :| 0 < k <= n && starts(front[..k]) && forall j :: k < j <= n ==> !stops(front[..j]);
      assert starts(jobs[..k]);
      assert forall j :: k < j <= n ==> !stops(jobs[..j]) by {
        assert forall j :: k < j <= n ==> !stops(front[..j]);
      }
    }
  }

  ghost predicate Awaits(jobs: seq<Job>) {
    exists p: nat :: AwaitsAnswer(jobs, p)
  }

  /** The reporter's answer to a proposal that awaits one. */
  ghost predicate Answered(jobs: seq<Job>, reading: Reading) {
    && jobs != [] && jobs[|jobs| - 1].ReplyJob? && jobs[|jobs| - 1].reply == FromReporter(reading)
    && Awaits(jobs[..|jobs| - 1])
  }

  ghost predicate SaidYes(jobs: seq<Job>) {
    Answered(jobs, Confirm)
  }

  ghost predicate SaidNo(jobs: seq<Job>) {
    Answered(jobs, Reject)
  }

  /** A no to the third attempt, or a later one. */
  ghost predicate SaidNoForGood(jobs: seq<Job>) {
    SaidNo(jobs) && jobs[|jobs| - 1].attempts >= 3
  }

  predicate Parked(jobs: seq<Job>) {
    jobs != [] && Parks(jobs[|jobs| - 1])
  }

  predicate FoundDuplicate(jobs: seq<Job>) {
    jobs != [] && var job := jobs[|jobs| - 1]; job.IntakeJob? && !job.closed && job.strongDuplicate
  }

  /** A new proposal, or the end of the report. */
  predicate StartsOver(jobs: seq<Job>) {
    jobs != [] && (Proposes(jobs[|jobs| - 1]) || Closes(jobs[|jobs| - 1]))
  }

  predicate PublishesOrCloses(jobs: seq<Job>) {
    jobs != [] && (jobs[|jobs| - 1].PublishJob? || Closes(jobs[|jobs| - 1]))
  }

  /** Every blocker, and there is one, is closed. */
  predicate AllClosed(job: Job) {
    job.UnparkJob? && job.blockerClosed != [] && forall closed :: closed in job.blockerClosed ==> closed
  }

  ghost predicate Unblocks(jobs: seq<Job>) {
    StartsOver(jobs) || SaidYes(jobs) || SaidNo(jobs) || (jobs != [] && AllClosed(jobs[|jobs| - 1]))
  }

  /** What holds of the labels after any run, besides being coherent. */
  ghost predicate Settled(labels: set<Label>) {
    Coherent(labels) && (NeedsInfo in labels ==> Proposed !in labels)
  }

  lemma JobKeepsSettled(labels: set<Label>, job: Job)
    requires Settled(labels) && Admissible(job)
    ensures Settled(AfterJob(labels, job))
  {
    JobMoves(labels, job);
    AfterJobIs(labels, job);
  }

  /** How one job moves the labels that record an answer. */
  lemma AnswerMoves(labels: set<Label>, job: Job)
    requires Settled(labels) && Admissible(job)
    ensures var after := AfterJob(labels, job);
            var wipes := Proposes(job) || Closes(job);
            var open := job.ReplyJob? && Proposed in labels;
            && (Confirmed in after <==> (open && job.reply == FromReporter(Confirm)) || (Confirmed in labels && !wipes))
            && (Rejected in after <==> (open && job.reply == FromReporter(Reject)) || (Rejected in labels && !wipes))
            && (NeedsInfo in after <==>
                  || (open && job.reply == FromReporter(Reject) && job.attempts >= 3)
                  || (NeedsInfo in labels && !job.PublishJob? && !Closes(job)))
  {
    AfterJobIs(labels, job);
  }

  /** How one job moves the labels that record a blocker or a duplicate. */
  lemma BlockMoves(labels: set<Label>, job: Job)
    requires Settled(labels) && Admissible(job)
    ensures var after := AfterJob(labels, job);
            var open := job.ReplyJob? && Proposed in labels;
            && (Blocked in after <==>
                  || Parks(job)
                  || (Blocked in labels && !Proposes(job) && !Closes(job) && !AllClosed(job)
                      && !(open && job.reply in {FromReporter(Confirm), FromReporter(Reject)})))
            && (Duplicate in after <==>
                  || (job.IntakeJob? && !job.closed && job.strongDuplicate)
                  || (Duplicate in labels && !job.PublishJob? && !Closes(job)))
  {
    AfterJobIs(labels, job);
  }

  lemma {:induction false} JobsKeepSettled(start: set<Label>, jobs: seq<Job>)
    requires Fresh(start) && forall job :: job in jobs ==> Admissible(job)
    ensures Settled(AfterJobs(start, jobs))
  {
    if jobs != [] {
      JobsKeepSettled(start, jobs[..|jobs| - 1]);
      JobKeepsSettled(AfterJobs(start, jobs[..|jobs| - 1]), jobs[|jobs| - 1]);
    }
  }

  /**
   Over every run of the jobs on a fresh issue: confirmed and rejected are the reporter's last answer, as
   long as nothing is proposed anew and nothing closes the report; more information is asked for from the
   third no on until something is published; a duplicate stands until then too.
   */
  lemma {:induction false} AnswersExactly(start: set<Label>, jobs: seq<Job>)
    requires Fresh(start) && forall job :: job in jobs ==> Admissible(job)
    ensures var labels := AfterJobs(start, jobs);
            && (Confirmed in labels <==> Since(jobs, SaidYes, StartsOver))
            && (Rejected in labels <==> Since(jobs, SaidNo, StartsOver))
            && (NeedsInfo in labels <==> Since(jobs, SaidNoForGood, PublishesOrCloses))
            && (Duplicate in labels <==> Since(jobs, FoundDuplicate, PublishesOrCloses))
  {
    if jobs != [] {
      var front, last := jobs[..|jobs| - 1], jobs[|jobs| - 1];
      AnswersExactly(start, front);
      JobsKeepSettled(start, front);
      JobsExactly(start, front);
      AnswerMoves(AfterJobs(start, front), last);
      BlockMoves(AfterJobs(start, front), last);
      SinceNext(jobs, SaidYes, StartsOver);
      SinceNext(jobs, SaidNo, StartsOver);
      SinceNext(jobs, SaidNoForGood, PublishesOrCloses);
      SinceNext(jobs, FoundDuplicate, PublishesOrCloses);
    }
  }

  /**
   A report is blocked from the job that parks it until every one of its blockers is closed, the reporter
   answers a proposal still open, a new one is made, or the report is closed.
   */
  lemma {:induction false} BlockedExactly(start: set<Label>, jobs: seq<Job>)
    requires Fresh(start) && forall job :: job in jobs ==> Admissible(job)
    ensures Blocked in AfterJobs(start, jobs) <==> Since(jobs, Parked, Unblocks)
  {
    if jobs != [] {
      var front, last := jobs[..|jobs| - 1], jobs[|jobs| - 1];
      BlockedExactly(start, front);
      JobsKeepSettled(start, front);
      JobsExactly(start, front);
      BlockMoves(AfterJobs(start, front), last);
      SinceNext(jobs, Parked, Unblocks);
    }
  }

  // ------------------------------------------------------------------ the approval

  predicate TouchesApproval(job: Job) {
    job.HandEdit? && (Approved in job.add || Approved in job.remove)
  }

  /** The last hand edit of the approval label is at `k`, and put it there. */
  ghost predicate ApprovedAt(jobs: seq<Job>, k: nat) {
    && k < |jobs| && TouchesApproval(jobs[k]) && Approved !in jobs[k].remove
    && forall m :: k < m < |jobs| ==> !TouchesApproval(jobs[m])
  }

  /** An approval that stands: the last hand edit of the label gave it, or none ever touched it. */
  ghost predicate ApprovalStands(start: set<Label>, jobs: seq<Job>) {
    || (exists k: nat :: ApprovedAt(jobs, k))
    || (Approved in start && forall m :: 0 <= m < |jobs| ==> !TouchesApproval(jobs[m]))
  }

  /** No job but a hand edit of the approval label moves it. */
  lemma ApprovalMoves(labels: set<Label>, job: Job)
    ensures Approved in AfterJob(labels, job) <==>
              if TouchesApproval(job) then Approved !in job.remove else Approved in labels
  {
    var events := Events(job, labels);
    if |events| == 1 {
      RunOne(labels, events[0]);
      SignalKeepsApproval(labels, events[0]);
    } else if |events| == 2 {
      RunTwo(labels, events[0], events[1]);
      assert events == [events[0], events[1]];
      SignalKeepsApproval(labels, events[0]);
      SignalKeepsApproval(Next(labels, events[0]), events[1]);
    }
  }

  lemma SignalKeepsApproval(labels: set<Label>, e: Event)
    ensures e.Sent? ==> (Approved in Next(labels, e) <==> Approved in labels)
  {
    if e.Sent? {
      EditIsClean(e.signal, labels);
    }
  }

  lemma ApprovalHistory(start: set<Label>, jobs: seq<Job>)
    requires jobs != []
    ensures var n := |jobs| - 1;
      ApprovalStands(start, jobs) <==>
        if TouchesApproval(jobs[n]) then Approved !in jobs[n].remove else ApprovalStands(start, jobs[..n])
  {
    var n := |jobs| - 1;
    var earlier := jobs[..n];
    if k: nat :| ApprovedAt(jobs, k) {
      assert k < n ==> ApprovedAt(earlier, k);
    }
    if TouchesApproval(jobs[n]) && Approved !in jobs[n].remove {
      assert ApprovedAt(jobs, n);
    }
    if !TouchesApproval(jobs[n]) {
      if k: nat :| ApprovedAt(earlier, k) {
        assert ApprovedAt(jobs, k);
      }
    }
  }

  lemma {:induction false} ApprovalExactly(start: set<Label>, jobs: seq<Job>)
    ensures Approved in AfterJobs(start, jobs) <==> ApprovalStands(start, jobs)
  {
    if jobs != [] {
      var n := |jobs| - 1;
      ApprovalExactly(start, jobs[..n]);
      ApprovalMoves(AfterJobs(start, jobs[..n]), jobs[n]);
      ApprovalHistory(start, jobs);
    }
  }

  /**
   After any run of the jobs the fix lane passes its gate exactly when the reporter said yes to a
   proposal that failed on main, with nothing published and nothing closed since, and the last hand
   edit of the approval label put it there.
   */
  lemma GateExactly(start: set<Label>, jobs: seq<Job>)
    requires Fresh(start) && forall job :: job in jobs ==> Admissible(job)
    ensures FixGate(AfterJobs(start, jobs)) <==>
              (exists p: nat, r: nat :: VerifiedAt(jobs, p, r)) && ApprovalStands(start, jobs)
  {
    JobsExactly(start, jobs);
    ApprovalExactly(start, jobs);
  }

  /** The issue a job works on: its live labels, and the labels the memory corpus last recorded. */
  class Issue {
    var labels: set<Label>
    var recorded: set<Label>

    constructor (labels: set<Label>)
      ensures this.labels == labels && recorded == {}
    {
      this.labels := labels;
      recorded := {};
    }

    /** One edit call: the adds and the removes together. */
    method EditLabels(edit: Edit)
      modifies this`labels
      ensures labels == Edited(old(labels), edit)
    {
      labels := labels + Elements(edit.add) - Elements(edit.remove);
    }

    /**
     The reply job. It reads the labels once; the second edit is decided on its own copy of them,
     updated by hand, and still is the edit the live issue calls for.
     */
    method Advance(reply: Reply, attempts: nat, failedOnMain: bool)
      modifies this`labels
      ensures labels == AfterJob(old(labels), ReplyJob(reply, attempts, failedOnMain))
    {
      ghost var job := ReplyJob(reply, attempts, failedOnMain);
      ghost var events := Events(job, labels);
      if Proposed !in labels || !reply.FromReporter? || reply.reading.Unclear? {
        return;
      }
      var report := labels;
      if reply.reading.Confirm? {
        var confirmed := Transition(ReporterConfirmed, report);
        EditLabels(confirmed);
        if failedOnMain {
          var local := set l | l in report + Elements(confirmed.add) && l !in confirmed.remove;
          var verified := Transition(PocFailedOnMain, local);
          assert local == labels;
          RunTwo(report, Sent(ReporterConfirmed), Sent(PocFailedOnMain));
          assert events == [Sent(ReporterConfirmed), Sent(PocFailedOnMain)];
          EditLabels(verified);
        } else {
          RunOne(report, Sent(ReporterConfirmed));
          assert events == [Sent(ReporterConfirmed)];
        }
        return;
      }
      RunOne(report, events[0]);
      var rejected := Transition(ReporterRejected(attempts), report);
      EditLabels(rejected);
    }

    /**
     The publishing job. What it records in the corpus are the live labels after a proposal; after
     parking it records the removed labels too, so the record is right exactly when there were none.
     */
    method Publish(failed: bool, unrelated: bool, blocker: string)
      modifies this
      ensures labels == AfterJob(old(labels), PublishJob(failed, unrelated, blocker))
      ensures Proposes(PublishJob(failed, unrelated, blocker)) ==> recorded == labels
      ensures Parks(PublishJob(failed, unrelated, blocker)) ==>
        (recorded == labels <==> {NeedsInfo, Verified, Duplicate} !! old(labels))
    {
      var report := labels;
      if failed && unrelated {
        var parked := Transition(BlockedBy(blocker), report);
        RunOne(report, Sent(BlockedBy(blocker)));
        AfterSignal(BlockedBy(blocker), report);
        EditLabels(parked);
        recorded := report + Elements(parked.add);
        ParkedRecord(report, labels, recorded);
        return;
      }
      var edit := Transition(PocProposed, report);
      RunOne(report, Sent(PocProposed));
      EditLabels(edit);
      recorded := set l | l in report + Elements(edit.add) && l !in edit.remove;
    }

    /** The sweep's two jobs. */
    method Unpark(blockerClosed: seq<bool>)
      modifies this`labels
      ensures labels == AfterJob(old(labels), UnparkJob(blockerClosed))
      ensures labels == if blockerClosed != [] && false !in blockerClosed then old(labels) - {Blocked} else old(labels)
    {
      AfterJobIs(labels, UnparkJob(blockerClosed));
      if |blockerClosed| == 0 || false in blockerClosed {
        return;
      }
      RunOne(labels, Sent(BlockerCleared));
      EditLabels(Transition(BlockerCleared, labels));
    }

    method Recheck(onDisk: bool, stillFails: bool)
      modifies this
      ensures labels == AfterJob(old(labels), RecheckJob(onDisk, stillFails))
      ensures onDisk && !stillFails ==> recorded == labels && forall l :: l in labels ==> !Managed(l)
    {
      if !onDisk || stillFails {
        return;
      }
      var report := labels;
      var edit := Transition(NoLongerReproduces, report);
      RunOne(report, Sent(NoLongerReproduces));
      EditLabels(edit);
      recorded := set l | l in report && l !in edit.remove;
    }
  }

  lemma ParkedRecord(report: set<Label>, parked: set<Label>, recorded: set<Label>)
    requires parked == Keeping(report, {Proposed, Confirmed, Rejected}) + {Blocked}
    requires recorded == report + {Blocked}
    ensures recorded == parked <==> {NeedsInfo, Verified, Duplicate} !! report
  {
    if l :| l in {NeedsInfo, Verified, Duplicate} && l in report {
      assert l in recorded && l !in parked;
    }
  }

  /** A verified report that is parked: the corpus keeps a label the issue has lost. */
  lemma ParkedRecordIsStale(blocker: string)
    ensures var report := {Confirmed, Verified};
      && AfterJob(report, PublishJob(true, true, blocker)) == {Confirmed, Blocked}
      && report + Elements(Transition(BlockedBy(blocker), report).add) == {Confirmed, Verified, Blocked}
  {
    var report := {Confirmed, Verified};
    RunOne(report, Sent(BlockedBy(blocker)));
    AfterSignal(BlockedBy(blocker), report);
    assert Keeping(report, {Proposed, Confirmed, Rejected}) == {Confirmed};
  }
}
