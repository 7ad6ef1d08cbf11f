# A verified model of the flows server, factory and test harness

This project models, in Dafny 4.11, the parts of the repository that keep state over time or must not
lose information: the server's bounded error log, its turn limiter and its gateway seam; the factory's
label state machine, the jobs that drive it, and its two printer/parser pairs; the scripted chat double,
the DevTools connection, the process runner and the accounting of the test harness. `dafny verify
dfyconfig.toml` checks all of it.

## How it is laid out

One module per source file, over four shared ones:

- `Wrappers`, `Utf16`, `Utf8`, `Json`: option and result types; JavaScript text as UTF-16 code units with
  the string operations the sources use (`trim`, `indexOf`, `split`, `join`, decimal numbers); its bytes after
  section 3 of RFC 3629, with a decoder; JSON text after RFC 8259 (strings after its section 7).
- `TurnLimit`, `Gateway`, `ClientErrorLog`: the server's three stateful seams.
- `Labels`, `FactoryJobs`, `Memory`, `Repro`, `Review`: the factory automation.
- `Canonical`: the comparison behind the evaluation suite's scorer.
- `ChatUpstream`, `BrowserConnect`, `E2eRun`, `OwnedProcess`, `BrowserFetch`: the harness and the browser tool.

Code that changes state is a class or a method with loops, proved equal to a function of the old state; what
the source promises is then proved of that function, over every run. Times, answers from upstream, events,
what a suite or a child process does, and how a comment reads are inputs, and nothing is assumed of them
beyond a clock that does not go back.

## Where the code and its promises part

Each of these has its exact condition, or its exact bound, stated for all inputs, and beside it stands a lemma
at an input where the promise fails.

- `apps/server/src/turnLimit.ts:27` speaks of "up to 2x" across an edge: the bound is one less than twice the
  ceiling, and it is attained (`TurnLimit.PlayedIsBounded`, `TurnLimit.BoundIsAttained`).
- `apps/server/src/clientErrorLog.ts:38-43` limits one report: no cut of the report helps when the page or the
  user agent fills the budget by itself (`ClientErrorLog.CappedFits`, `ClientErrorLog.CappedMayNotFit`), and then
  the log may exceed its own budget too (`ClientErrorLog.LogFits`, `ClientErrorLog.LogMayNotFit`).
- `apps/server/src/gateway.ts:585-590` says a call that a repeat could duplicate is not replayed: it is, after a
  401, and after an attempt that got no answer, which a passed deadline counts as
  (`Gateway.NonReplayableSentTwiceIff`, `Gateway.PassedDeadlineSendsTwice`).
- `factory/automation/labels.ts:151-153` says parking leaves the loop where it stopped: a verified report comes
  back unverified (`Labels.ParkingLosesOutcome`, `Labels.VerifiedReportIsUnverified`), and the corpus records
  labels the parked issue no longer has (`FactoryJobs.Issue.Publish`, `FactoryJobs.ParkedRecordIsStale`).
- `factory/automation/memory.ts` does not read back labels with a comma or empty ones, an empty summary or an
  empty repro key (`Memory.RoundTrip`, `Memory.EntriesThatAreLost`); `factory/automation/repro.ts` has its own
  list, a claim that opens or sets off a steps section among it (`Repro.RoundTrip`, `Repro.NotesThatAreLost`).
- `factory/automation/review.ts:120-123` collects the lines the diff shows: it also collects, for a file, the
  numbers of whatever counts behind its hunks. Those run on from the end of its hunks, or, behind the header of
  a deleted file, which names no new file, from that header's start: line zero. The empty line after a final
  line break counts (`Review.ExactIffNothingFollows`, `Review.DeletionAddsARun`, `Review.DeletionThenLineBreak`).
- `evals/agent/suite.ts:64` calls the comparison deep equality: an undefined item of an array passes for null, and
  so does NaN or an infinity anywhere (`Canonical.StableEqualIff`, `Canonical.MissingItemPassesForNull`,
  `Canonical.NaNPassesForNull`).
- `apps/ui/e2e/ChatUpstream.ts:183-190` relies on a rejected call being skipped: a rejected last call of a message
  runs on into what is armed behind it (`ChatUpstream.MessageIsServed`), and with nothing behind it is attempted
  again until it is accepted or the chain is out of links (`ChatUpstream.RejectedLastRepeats`,
  `ChatUpstream.RejectedCallIsNotSkipped`).
- `apps/ui/e2e/Browser.ts:212-217` settles every answered call, except one answered with `error: null`
  (`BrowserConnect.LostOnlyToNull`, `BrowserConnect.NullErrorSettlesNothing`).

## Model

| member | source | states |
|---|---|---|
| TurnLimit.TurnRateLimiter.Spend | apps/server/src/turnLimit.ts:80-97 | a spend is answered and stored as the window says, only an admitted one is entered in the history, which stays consistent |
| TurnLimit.TurnRateLimiter.Peek | apps/server/src/turnLimit.ts:98-103 | a peek answers from the stored window and changes nothing |
| TurnLimit.EnteredKeepsConsistent | apps/server/src/turnLimit.ts:80-97 | every spend keeps windows a period apart, at most MAX spends in each, and the stored counter equal to the latest spends |
| TurnLimit.SpendsSpreadOut | apps/server/src/turnLimit.ts:83-96 | any admitted spend and the one 2*MAX-1 places later are at least a period apart |
| TurnLimit.PlayedIsBounded | apps/server/src/turnLimit.ts:25-28 | over every run on a clock that does not go back, any half-open period sees at most 2*MAX-1 admitted spends |
| TurnLimit.BoundIsAttained | apps/server/src/turnLimit.ts:25-28 | a run exists in which a period sees exactly 2*MAX-1 |
| TurnLimit.RefusedUntilReset | apps/server/src/turnLimit.ts:89-93 | after a refusal a later spend is admitted exactly from the named instant on; refusals never move it |
| TurnLimit.AdmittedExactly | apps/server/src/turnLimit.ts:83-97 | in any history a spend is admitted iff the live window admitted fewer than 1000, with 999 less those remaining; a refusal names the end of that window |
| TurnLimit.PeekPredictsSpend | apps/server/src/turnLimit.ts:98-103 | a peek predicts the answer of a spend at the same instant |
| ClientErrorLog.CapRecord | apps/server/src/clientErrorLog.ts:82-100 | the shrinking loop ends with the record the recursive search chooses |
| ClientErrorLog.CappedKeepsAPrefix | apps/server/src/clientErrorLog.ts:85-99 | a record that fits is untouched; otherwise all but the report is kept, a string keeps a prefix of itself and any other report a prefix of its JSON, followed by the notice with the full length, and the prefix is the longest of the lengths tried that fits |
| ClientErrorLog.CappedFits | apps/server/src/clientErrorLog.ts:38-43 | a capped record fits its budget iff the record did or the rest of it leaves room for the notice |
| ClientErrorLog.CappedMayNotFit | apps/server/src/clientErrorLog.ts:82-100 | a record whose page fills the budget is over it after capping |
| ClientErrorLog.SizeOfReport | apps/server/src/clientErrorLog.ts:71-79 | the UTF-8 size of a record's JSON is a fixed part and the size of the escaped report, surrogates included |
| ClientErrorLog.SizeOfIsBytes | apps/server/src/clientErrorLog.ts:71-79 | the size of a record is the number of bytes of its JSON, spelled member by member, missing ones left out |
| Utf8.SizeIsBytes | apps/server/src/clientErrorLog.ts:71-79 | the size counted is the number of bytes that encoding yields |
| Utf8.RoundTrip | apps/server/src/clientErrorLog.ts:71-79 | the bytes of a text decode to it with every lone surrogate replaced, so to itself iff it has none |
| Json.ShortEscapesAre | apps/server/src/clientErrorLog.ts:79 | the seven units written by a letter |
| Json.OtherUnitsAre | apps/server/src/clientErrorLog.ts:79 | other controls and lone surrogates are written by four digits, any other unit as it is |
| ClientErrorLog.Bounded | apps/server/src/clientErrorLog.ts:109-122 | the budget loop keeps a prefix: the first report always, any other iff it is among 200 and the accumulated cost fits |
| ClientErrorLog.IncrementalIsOneShot | apps/server/src/clientErrorLog.ts:134-140 | bounding the stored log with one more report in front is bounding the whole history |
| ClientErrorLog.LogSizeIs | apps/server/src/clientErrorLog.ts:111-119 | the accumulated cost is the serialised array less one byte |
| ClientErrorLog.LogFits | apps/server/src/clientErrorLog.ts:33-36 | the stored log serialises within 96 KiB iff its newest report alone does |
| ClientErrorLog.LogMayNotFit | apps/server/src/clientErrorLog.ts:109-122 | a log of one capped report can exceed 96 KiB |
| ClientErrorLog.AtLeastTwentyThree | apps/server/src/clientErrorLog.ts:22-43 | when every report is within its budget the log is within its own and keeps at least the newest 23, at most 200 |
| ClientErrorLog.TwentyThreeIsExact | apps/server/src/clientErrorLog.ts:109-122 | reports that fill their budget to the byte leave room for exactly 23 |
| ClientErrorLog.FullRecordExists | apps/server/src/clientErrorLog.ts:71-79 | a record of exactly 4096 bytes exists, and capping leaves it as it is |
| ClientErrorLog.Log.Append | apps/server/src/clientErrorLog.ts:134-144 | the store stays the bounded form of every report ever appended, capped, newest first; a bad record changes nothing |
| ClientErrorLog.Log.Read | apps/server/src/clientErrorLog.ts:145-151 | the newest reports up to a positive asked limit, otherwise all that are stored |
| Gateway.RelayNamesKeepTheirRoute | apps/server/src/gateway.ts:131-139 | of names made of allowed characters, exactly the accepted ones survive the resolution of dot segments in the provision path |
| Gateway.NamesHoldNothingElse | apps/server/src/gateway.ts:131-139 | an accepted name holds one slash and otherwise letters, digits, dots, minuses and underscores |
| Gateway.RecordKeysDiffer | apps/server/src/gateway.ts:165-173 | no two pairs of login and repository share a record |
| Gateway.RunsAreSpaced | apps/server/src/gateway.ts:415-448 | over every run of calls no provision is posted within 30 s of a success for the key unless the relay refused it since, nor within 60 s unless the relay failed it since |
| Gateway.EnsureKeeps | apps/server/src/gateway.ts:432-470 | a ready gateway is the stored record, and forced or not no forbidden post is made |
| Gateway.MintAdopts | apps/server/src/gateway.ts:408-421 | every returned value is adopted, and renewal is at the midpoint of the issued window to the millisecond, or a minute on where the midpoint is sooner |
| Gateway.OutcomeIsLastAnswer | apps/server/src/gateway.ts:562-605 | what a call returns is what the relay answered last, for its own key |
| Gateway.CallSends | apps/server/src/gateway.ts:562-598 | a call relays at most twice and posts at most four provisions, whatever upstream answers, and relays again iff the gateway was ready, the first answer calls for it and the answers to the renewal grant one |
| Gateway.ReadyIff | apps/server/src/gateway.ts:432-470 | a gateway is ready iff the name keeps its route and either a fresh record may be used or a token and a success came, if need be after one fresh token |
| Gateway.EnsureOutcome | apps/server/src/gateway.ts:432-470 | every outcome of a resolution, named by the name, the stored record and the last answer asked for; a granted record is the one of the answer at the time it came |
| Gateway.EnsureSends | apps/server/src/gateway.ts:432-470 | every post a resolution makes, with its token and instant, the one record it may store, and nothing else |
| Gateway.CallOutcomeIs | apps/server/src/gateway.ts:562-605 | the relay's first answer is returned unless it is none, 401, or a tunnel failure on a record of 30 s or more; after a granted renewal the retry's answer, or asleep iff the tunnel failed on a call that must not be replayed |
| Gateway.CallStopsIff | apps/server/src/gateway.ts:562-583 | a call stops with an outcome iff the name is refused or a resolution it needs comes to it |
| Gateway.CallRelays | apps/server/src/gateway.ts:533-598 | all that a call sends to the relay: first with the token of the fresh or granted record, again with that of the renewed one |
| Gateway.NonReplayableSentTwiceIff | apps/server/src/gateway.ts:585-597 | a call that must not be replayed is sent twice iff the name keeps its route, the record was fresh or the first answers granted one, the first attempt got 401 or no answer, and the answers to the renewal granted one |
| Gateway.PassedDeadlineSendsTwice | apps/server/src/gateway.ts:585-597 | a run in which a call that must not be replayed is relayed twice after a passed deadline |
| Gateway.CallTouchesOneRecord | apps/server/src/gateway.ts:165-212 | a call leaves every other account's and repository's record as it was |
| Gateway.Worker.ProvisionGateway | apps/server/src/gateway.ts:312-424 | the answer taxonomy, and the returned gateway adopted and stored |
| Gateway.Worker.EnsureGateway | apps/server/src/gateway.ts:432-470 | a fresh record answers without a call; otherwise one post, and one more after a single re-mint |
| Gateway.Worker.CallGateway | apps/server/src/gateway.ts:522-606 | one relay attempt, at most one forced renewal and one retry, keeping the spacing of posts |
| Labels.EditIsClean | factory/automation/labels.ts:77-85 | an edit removes only managed labels that are present, never one it adds, leaves other labels alone, and is a no-op when applied again |
| Labels.AfterSignal | factory/automation/labels.ts:86-175 | the labels each signal leaves, and whether the automation then waits for a person |
| Labels.ReachableIsCoherent | factory/automation/labels.ts:86-175 | in every state reachable from one without managed labels there is at most one `poc:` and at most one `repro:` label, verified stands only with confirmed, and a duplicate candidate stands alone |
| Labels.ConfirmedExactly | factory/automation/labels.ts:104-149 | `poc:confirmed` is on the issue iff a confirmation stands that no later signal withdrew |
| Labels.VerifiedExactly | factory/automation/labels.ts:126-142 | `repro:verified` is on the issue iff a failure on main followed a standing confirmation and nothing undid either |
| Labels.FixGateExactly | factory/automation/fix.ts:63-70 | the fix lane passes iff that history holds and a maintainer's approval stands |
| Labels.ApprovalIsByHand | factory/automation/labels.ts:13-14 | the approval label is present iff the last hand edit of it put it there |
| Labels.ParkingLosesOutcome | factory/automation/labels.ts:150-166 | blocked then cleared restores the `poc:` labels always, and the whole issue iff it carried no reproduction outcome and no duplicate label |
| Labels.VerifiedReportIsUnverified | factory/automation/labels.ts:150-166 | a verified report that is blocked and cleared is only confirmed |
| FactoryJobs.JobsExactly | factory/automation/advance.ts:52-111 | over every run of the jobs, proposed iff a proposal awaits its answer, verified iff the reporter said yes to a proposal failing on main with nothing published or closed since |
| FactoryJobs.GateExactly | factory/automation/fix.ts:63-70 | over every run of the jobs the fix lane passes iff the reporter said yes to a proposal failing on main with nothing published or closed since, and the last hand edit of the approval put it there |
| FactoryJobs.Issue.Advance | factory/automation/advance.ts:86-108 | the second edit, decided on the job's own copy of the labels, is the one the live issue calls for |
| FactoryJobs.Issue.Publish | factory/automation/poc-publish.ts:34-85 | the labels after publishing, and the recorded ones equal to the live ones iff nothing was removed on parking |
| FactoryJobs.ParkedRecordIsStale | factory/automation/poc-publish.ts:34-85 | for a verified report that is parked the corpus records a label the issue has lost |
| FactoryJobs.Issue.Unpark | factory/automation/reverify.ts:36-57 | the blocked label goes, and nothing else, iff there are blockers and all are closed |
| FactoryJobs.Issue.Recheck | factory/automation/reverify.ts:59-98 | a repro that passes clears every managed label and records what is left |
| FactoryJobs.JobMoves | factory/automation/intake.ts:90-126 | how each job, a strong duplicate at intake included, moves the labels that decide whether a fix starts |
| FactoryJobs.AfterJobIs | factory/automation/advance.ts:52-111 | all the labels each job leaves, in what it learned |
| FactoryJobs.AnswersExactly | factory/automation/advance.ts:86-108 | over every run of the jobs: confirmed and rejected iff that was the answer to an open proposal and nothing was proposed or closed since; needs-info iff a third or later no stands; a duplicate until something is published |
| FactoryJobs.BlockedExactly | factory/automation/reverify.ts:36-57 | over every run of the jobs a report is blocked iff it was parked and since then its blockers were never all closed, no open proposal was answered, none made, and it was not closed |
| Memory.RoundTrip | factory/automation/memory.ts:48-108 | `parse(render(e))` is `e` iff the issue is positive, the title has nothing but white space after its first line break, labels are non-empty and comma-free, the repro key is absent or non-empty, and the summary is non-empty and trimmed |
| Memory.EntriesThatAreLost | factory/automation/memory.ts:48-108 | an entry that reads back, and for each part of it a change that does not |
| Memory.PrintedLines | factory/automation/memory.ts:48-64 | an entry as it is printed, line by line |
| Memory.Parse | factory/automation/memory.ts:84-108 | the reader, field loop included, is the specified one |
| Memory.ReadFields | factory/automation/memory.ts:87-92 | the loop over frontmatter lines builds the table, later lines winning |
| Memory.LastLineWins | factory/automation/memory.ts:87-92 | a key has the value, trimmed, of the last line that gives it |
| Memory.NoFrontmatterIff | factory/automation/memory.ts:84-86 | a text is refused for want of frontmatter iff none stands at its start between two fences |
| Memory.NoIssueIsRefused | factory/automation/memory.ts:93-94 | frontmatter in which no line gives the issue is refused |
| Memory.LabelsRoundTrip | factory/automation/memory.ts:71-75 | a quoted list reads back iff no label is empty or holds a comma |
| Memory.SummaryRoundTrip | factory/automation/memory.ts:96-98 | the summary behind the repeated heading reads back iff it is non-empty and trimmed and the title has nothing but white space after its first line break |
| Memory.ClosingFence | factory/automation/memory.ts:85-86 | the frontmatter ends at its own fence whatever the prose holds |
| Json.QuoteRoundTrip | factory/automation/memory.ts:39 | every string, lone surrogates included, survives JSON quoting and reading |
| Repro.RoundTrip | factory/automation/repro.ts:70-116 | for every note, issue, attempt, claim and steps read back iff the claim is trimmed and sets off no steps section, each step is non-empty, trimmed and one line, and the section the reader finds lists the steps: the note's own without a stray end behind it when empty, or one the claim opens and closes itself |
| Repro.NotesThatAreLost | factory/automation/repro.ts:70-116 | a claim that is the steps title, a step of two lines and a blank claim do not read back |
| Repro.ParseOfRender | factory/automation/repro.ts:104-116 | what is read from any rendered note: its numbers, the claim up to the first break before a steps title, and the steps of the first section opened below the heading |
| Repro.NoteIsTitled | factory/automation/repro.ts:70-80 | the heading with both numbers, the claim, the steps title and the steps numbered from one, in that order |
| Repro.OutcomeIsTitled | factory/automation/repro.ts:78-96 | what was expected and what happened each stand under their own title, before how to run it |
| Repro.RefusedIff | factory/automation/repro.ts:104-107 | a text is refused iff no line of it is a heading with two numbers and nothing behind |
| Repro.NumbersAreOfFirstHeading | factory/automation/repro.ts:105-111 | the numbers read are those of the first such line |
| Repro.ReadingIsPlain | factory/automation/repro.ts:109-115 | whatever is read, the claim is trimmed and each step is non-empty, trimmed and one line |
| Repro.StepsRoundTrip | factory/automation/repro.ts:108-114 | plain steps below a trimmed claim read back iff the section the reader finds, the note's or one the claim opens, lists them |
| Canonical.CanonicalEqualIffSame | evals/agent/suite.ts:44-55 | canonical forms are equal iff the trees differ only in key order and undefined fields, at any depth |
| Canonical.CanonicalIsIdempotent | evals/agent/suite.ts:44-55 | canonicalising twice is canonicalising once |
| Canonical.CanonicalIsSame | evals/agent/suite.ts:44-55 | the canonical form is the same tree, well formed |
| Canonical.Unambiguous | evals/agent/suite.ts:57 | serialised text determines the value and what follows it |
| Canonical.StableEqualIff | evals/agent/suite.ts:57-71 | two observations get the same text iff they differ only in key order, undefined fields, undefined against null in arrays, and, at any depth, numbers that are not finite against null or each other |
| Canonical.MissingItemPassesForNull | evals/agent/suite.ts:64-69 | the comparison is not deep equality |
| Canonical.NaNPassesForNull | evals/agent/suite.ts:64-69 | a field that is NaN or infinite gets the text of one that is null |
| ChatUpstream.ExpandProxyEntry | apps/ui/e2e/ChatUpstream.ts:191-256 | the frame loop yields the links of the coalesced effects, or the script itself; what those are is stated by the rows that follow |
| ChatUpstream.TranslationKeepsMeaning | apps/ui/e2e/ChatUpstream.ts:138-149 | the links show the same characters and acts in the same order as the frames, one effect a link, no needless split, all but the last continuing and the last iff a frame ended in a tool call |
| ChatUpstream.TranslatedIff | apps/ui/e2e/ChatUpstream.ts:150-200 | exactly which scripts are translated; any other is served as it is |
| ChatUpstream.FramesAreTranslatedApart | apps/ui/e2e/ChatUpstream.ts:209-256 | the links of a whole script show, in order, what its frames show each in a script of its own |
| ChatUpstream.CommandsCallTheFlow | apps/ui/e2e/ChatUpstream.ts:226-246 | a call of `commands` that names a flow becomes one link that calls it, with its text arguments if it has any and nothing otherwise |
| ChatUpstream.OtherCallsAreKept | apps/ui/e2e/ChatUpstream.ts:226-246 | any other call keeps its name and its parsed arguments |
| ChatUpstream.NamelessCallsAreKept | apps/ui/e2e/ChatUpstream.ts:226-246 | a call without a name is made under the empty one |
| ChatUpstream.MalformedArgumentsAreEmpty | apps/ui/e2e/ChatUpstream.ts:226-246 | arguments that are not JSON make an empty payload |
| ChatUpstream.NullCommandsAreEmpty | apps/ui/e2e/ChatUpstream.ts:226-246 | so does null given to `commands` |
| ChatUpstream.CardsAreShown | apps/ui/e2e/ChatUpstream.ts:214-218 | a card becomes one call of `card.show` with it |
| ChatUpstream.CardsAreUpdated | apps/ui/e2e/ChatUpstream.ts:219-225 | an update becomes one call of `card.update` with its id and patch |
| ChatUpstream.WordsAreSaid | apps/ui/e2e/ChatUpstream.ts:203-213 | words become one call of `say` with them |
| ChatUpstream.CoalescedShowsTheSame | apps/ui/e2e/ChatUpstream.ts:203-213 | joining neighbouring words changes nothing that is seen |
| ChatUpstream.PlayAttemptsInOrder | apps/ui/e2e/ChatUpstream.ts:277-324 | every run attempts the armed links in order, one a request, and stops at the first accepted finishing call or when out of links |
| ChatUpstream.MessageIsServed | apps/ui/e2e/ChatUpstream.ts:277-324 | a message armed among others is one chain that shows what it does on the old wire; run from its first link, it is served with exactly its own links and finishes at the next message iff there are links enough and its last call is accepted; rejected, the run goes on behind it |
| ChatUpstream.RejectedLastRepeats | apps/ui/e2e/ChatUpstream.ts:182-190 | from the last script on, every attempt is the last call's; the chain finishes iff one of them within its links is accepted |
| ChatUpstream.RejectedCallIsNotSkipped | apps/ui/e2e/ChatUpstream.ts:182-190 | one link whose call is rejected twice is attempted twice |
| ChatUpstream.Upstream.SetScript | apps/ui/e2e/ChatUpstream.ts:280-284 | arming replaces the scripts with all expansions and rewinds the cursor |
| ChatUpstream.Upstream.Respond | apps/ui/e2e/ChatUpstream.ts:323-333 | each request uses up one armed script, refused for a missing catalog or not |
| BrowserConnect.RunIsConsistent | apps/ui/e2e/Browser.ts:192-251 | in every run each issued call is in flight with its timer armed, settled exactly once, or lost; ids are never reused |
| BrowserConnect.SettledForGood | apps/ui/e2e/Browser.ts:212-217 | what is settled stays settled as it was |
| BrowserConnect.SettlementsAreExplained | apps/ui/e2e/Browser.ts:198-249 | a call settles only by the answer with its id, its own timer, the close, or its own failed send |
| BrowserConnect.PendingExactly | apps/ui/e2e/Browser.ts:229-244 | in every run a call is in flight under its name iff it was sent and no answer, timer or close has reached it since |
| BrowserConnect.SettledExactly | apps/ui/e2e/Browser.ts:198-249 | in every run a call is settled in a given way iff its own answer, its timer, the close or its failed send settled it so |
| BrowserConnect.CloseInOrder | apps/ui/e2e/Browser.ts:221-227 | the close rejects calls in the order they were sent |
| BrowserConnect.InFlightIsSettled | apps/ui/e2e/Browser.ts:212-249 | a call in flight is settled at once by its answer, its timer or the close |
| BrowserConnect.CloseLeavesNothing | apps/ui/e2e/Browser.ts:219-227 | after the close no call is in flight and no timer armed |
| BrowserConnect.LostOnlyToNull | apps/ui/e2e/Browser.ts:212-217 | in every run a call is lost iff at some point an answer with an error that is null reached it in flight |
| BrowserConnect.NullErrorSettlesNothing | apps/ui/e2e/Browser.ts:212-217 | a call sent and so answered settles neither way |
| BrowserConnect.Connection.Send | apps/ui/e2e/Browser.ts:229-244 | a call gets the next id, a timer and an entry, all withdrawn when sending throws |
| BrowserConnect.Connection.OnMessage | apps/ui/e2e/Browser.ts:198-218 | an answer settles the call with its id and no other |
| BrowserConnect.Connection.OnTimeout | apps/ui/e2e/Browser.ts:232-235 | a timer rejects its own call |
| BrowserConnect.Connection.OnClose | apps/ui/e2e/Browser.ts:221-227 | the loop over the table rejects every call in flight in the order issued |
| OwnedProcess.RunIsConsistent | factory/flows/harness.ts:82-161 | in every interleaving at most one result and one answer to the interruption, no timer of the run armed once settled, and no kill before a terminate |
| OwnedProcess.SignalsAreExact | factory/flows/harness.ts:120-152 | in every run the group gets, in order, a terminate at the timeout and when an interruption takes over, a kill when the escalation or the kill timer fires, and nothing else |
| OwnedProcess.TimersAreExact | factory/flows/harness.ts:119-158 | in every run each of the four timers is armed exactly from the event that sets it until it fires or is called off |
| OwnedProcess.AnswersAreExact | factory/flows/harness.ts:108-160 | in every run the interruption is answered, and a result handed over, iff the log it ended was flushed or there was nothing left to settle |
| OwnedProcess.NoSignalAfterClose | factory/flows/harness.ts:129-160 | settling and closing are for good, and a closed group is never signalled again |
| OwnedProcess.RunReportsItsVerdict | factory/flows/harness.ts:96-132 | every run reports what its first settling event calls for, with the last 4000 units of the output up to then, and nothing else |
| OwnedProcess.FirstSettlingDecides | factory/flows/harness.ts:96-132 | the code and the tail reported, by cases of the first settling event: -1, -2, -3 or the child's own code |
| OwnedProcess.ExitZeroIff | factory/flows/harness.ts:101-105 | exit code 0 iff the child closed with 0 first and before the timeout, the marker is in that tail, and validation found nothing |
| OwnedProcess.Runner.OnInterrupt | factory/flows/harness.ts:133-155 | an interruption takes over an unsettled run and is answered at once by a settled one |
| OwnedProcess.Runner.OnClose | factory/flows/harness.ts:129-132 | closing disarms the escalation, settles an open run and completes an interruption |
| OwnedProcess.Chunk | factory/flows/harness.ts:319-326 | the waves hold the items in order, full but perhaps the last, none empty |
| BrowserFetch.SpellingsAgree | apps/shared/src/BrowserFetch.ts:53-121 | dotted, mapped dotted and mapped hexadecimal spellings of an address, in either case and with leading zeros, get one verdict: public iff outside the nine reserved blocks |
| BrowserFetch.EveryAddressIsSpelled | apps/shared/src/BrowserFetch.ts:53-60 | every 32-bit address has a spelling in each of the three forms, so the verdict covers them all |
| BrowserFetch.OctetsAreJudgedByBlock | apps/shared/src/BrowserFetch.ts:93-101 | the octet tests are membership in blocks of section 3 of RFC 1918, section 7 of RFC 6598, and the other six |
| BrowserFetch.BracketsChangeNothing | apps/shared/src/BrowserFetch.ts:62-73 | a bracketed literal is judged like the literal |
| BrowserFetch.ZonesChangeNothing | apps/shared/src/BrowserFetch.ts:67-73 | a literal with a zone is judged like the literal |
| BrowserFetch.SixIsJudgedByBlock | apps/shared/src/BrowserFetch.ts:109-120 | an IPv6 literal with groups left out is public iff its address is in 2000::/3 or it maps an IPv4 address outside the reserved blocks |
| BrowserFetch.EightGroupsAreJudgedByBlock | apps/shared/src/BrowserFetch.ts:109-120 | one with all eight groups is public iff its address is in 2000::/3 |
| BrowserFetch.ReadCapped | apps/shared/src/BrowserFetch.ts:210-233 | for every chunking exactly the first min(total, cap) bytes, and no chunk pulled once the cap is reached |
| BrowserFetch.Merge | apps/shared/src/BrowserFetch.ts:224-231 | the copy loop fills the buffer with the chunks end to end |
| Review.CommentableLines | factory/automation/review.ts:125-148 | the loop over the lines is the fold over their kinds |
| Review.FoldHunk | factory/automation/review.ts:136-145 | a hunk adds exactly the consecutive run from its start, one line for each context or added line |
| Review.DiffIsCollected | factory/automation/review.ts:125-148 | for a whole diff, deleted files included: exactly the paths it names, and for each the lines of its hunks and the numbers of the counted lines behind them up to the next file named |
| Review.ShownLinesAreCommentable | factory/automation/review.ts:117-124 | every new-side line a diff shows is in its file's set, whatever lies before, between and after the files |
| Review.ExactIffNothingFollows | factory/automation/review.ts:117-124 | for a file named once, with hunks in order and only deleted files opened behind them, the set is exactly what it shows iff no counted line follows its hunks |
| Review.DeletionAddsARun | factory/automation/review.ts:136-145 | the header of a deleted file starts a run of its own: what counts behind it is numbered from its start |
| Review.DeletionThenLineBreak | factory/automation/review.ts:136-145 | with a deleted file and a final line break behind a file, line zero of that file may be commented on |
| Review.FinalLineBreakCounts | factory/automation/review.ts:129-145 | the empty text that splitting leaves after a final line break counts as a line |
| Review.HeaderReads | factory/automation/review.ts:136-139 | hunk headers of either form read as their new-side start |
| Review.CountsIff | factory/automation/review.ts:141-145 | a line that is neither pattern counts iff it does not begin with a minus or a backslash |
| E2eRun.Run | apps/ui/e2e/run.ts:276-478 | the exit code is the specified one, and the loops, breaks included, compute the specified ledger on every path once something is selected |
| E2eRun.RunPhase | apps/ui/e2e/run.ts:342-429 | one phase, a dead stack and a timeout included |
| E2eRun.RunAccounts | apps/ui/e2e/run.ts:306-450 | on every path the claimed count is the sum of the claims of the outcomes recorded, each selected suite is recorded once and in order unless one timed out, and the proven count is not negative |
| E2eRun.RunRecords | apps/ui/e2e/run.ts:306-429 | on every path, what is recorded of each suite in turn: skipped, passed, failed or stranded, each with the ids it leaves unproven, up to the first deadline; the failures and counts are those of the record |
| E2eRun.SortedInOrder | apps/ui/e2e/run.ts:324-331 | suites run in the order compared by, ties as they were found |
| E2eRun.PlanIs | apps/ui/e2e/run.ts:276-325 | the suites of a phase are those that match and name it or, for phase B, name none |
| E2eRun.ExitZeroIff | apps/ui/e2e/run.ts:438-477 | a run exits 0 iff something was selected, every selected file loaded, and every selected suite found the stack alive, passed or was skipped, and without the override left nothing unproven |
| E2eRun.GreenProvesEveryClaim | apps/ui/e2e/run.ts:438-447 | a green run without the override proved every id each selected suite claims |

## Left out

- Gateway.RunsAreSpaced: storage that fails to read or write is not modelled; a lost record is re-provisioned on the next call.
- Gateway.Worker.CallGateway: two calls in flight at once are not modelled; calls run one after another.
- Canonical.StableEqualIff: keys that collate as equal under the locale without being equal are not modelled; the order is total. Neither are functions, symbols, BigInt and `toJSON`; minus zero is spelled as zero.
- Review.ExactIffNothingFollows: hunks out of order, a file named twice and a header with a new side behind the hunks are left to `Review.DiffIsCollected`, which gives their sets exactly.
- ChatUpstream.TranslationKeepsMeaning: the text of a link, a fenced script around one call, is not modelled, nor that the chain parses it back.
- ChatUpstream.MessageIsServed: chains over scripts of which some are served raw are not modelled, nor approvals that park a chain.
- ClientErrorLog.Log.Append: records are typed; a posted JSON value of another shape is not modelled.
- OwnedProcess.RunIsConsistent: a signal refused for a reason other than a missing process, and writes to a log already ended, are not modelled.
- E2eRun.Run: a stack that does not start, and teardown between suites, are not modelled.
- E2eRun.ExitZeroIff: `--list`, which exits 0 without running anything, is outside it.
- Memory.Parse: `Number` is read on texts of an optional minus and digits only; other spellings count as no number.
- Numbers above 2^53, where JavaScript rounds, are exact integers here.
- `candidates`, `score` and `tokens` of factory/automation/memory.ts: a ranking whose order is its own definition.
- `idsFromSuiteId`, `idsFromSource`, `leadingChecklistId` and `blockersOf`: pattern matching whose results are inputs here.
- `readsAsConfirmation`, `readsAsRejection` and the agent's reading of a reply: the reading is an input.
- `guardTarget`, redirects, `extractReadableText` and `frameability` of apps/shared/src/BrowserFetch.ts: DNS, HTTP and text extraction.
- BrowserFetch.SixIsJudgedByBlock: literals that end in a dotted address are stated about only behind `::ffff:`.
- `hasScenario`, `renderReview` and the posting of reviews: prose.
- HTTP routing, Durable Object plumbing, `gh`, `git`, sockets and file access everywhere: replaced by inputs and maps.
- The durable engine, its journal and its store: not part of this model.
