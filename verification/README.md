# The session-report relay, modelled and proved

The adapter sits between an SMF and its user planes. A user plane's session report is claimed under one of the
adapter's own sequence numbers, relayed to the SMF as a request, and answered to the user plane under the number it
came with: by the SMF's answer, by a give-up when none comes, or by a refusal when it could not be relayed. Reports
are accepted only from addresses the SMF has recently named. Most of the argument for why this works is about what may
happen between two critical sections, and this project makes that argument in Dafny 4.11.

`dafny verify dfyconfig.toml` checks everything.

## The layers

| file | what it is |
|---|---|
| `Basics.dfy` | peers, times and the constants |
| `Allocator.dfy` | the cyclic search for a free number: the loop, its specification by distances, consecutive searches |
| `RelaySpec.dfy`, `RelayTable.dfy` | the relay table as a value, and as the class with its index and walks that is proved against it |
| `RelayRuns.dfy`, `RelayExpiry.dfy`, `RelayToken.dfy`, `RelayTokenLimits.dfy` | runs of the table: spacing, age, reuse of numbers; lazy expiry against an eager set; the release count as a token, and exactly when it misleads |
| `AuthSpec.dfy`, `AuthReleases.dfy`, `AuthTable.dfy`, `NamingOrder.dfy` | the authorisation maps as values, the releases a naming brings, the maps as the class, and the order of namings |
| `Transactions.dfy`, `TransactionSteps.dfy` | the two-level transaction tables as classes over one flat map, and the same under interleaving |
| `ResendMachine.dfy`, `Waiters.dfy` | the resend loops with their timers; the HTTP requesters' one-slot channels |
| `ReportHandler.dfy` | the report handlers as methods, run one at a time |
| `Protocol.dfy` | the whole relay as steps: any number of report handlers, transaction goroutines and response handlers, SMF messages naming nodes, one read loop and a clock, interleaved at every lock |
| `ProtocolTables.dfy`, `ProtocolSafety.dfy`, `ProtocolOwnership.dfy`, `ProtocolAnswers.dfy`, `ProtocolAnswerSteps.dfy`, `ProtocolHandover.dfy`, `ProtocolCopies.dfy`, `ProtocolReuse.dfy`, `ProtocolTiming.dfy`, `ProtocolAnswered.dfy`, `ProtocolGate.dfy` | what holds in every state of every run |
| `ProtocolAlone.dfy`, `ProtocolNamings.dfy`, `ProtocolProgress.dfy` | that the steps, uninterrupted, are the methods, and that nobody is stuck |
| `ProtocolExample.dfy` | one report's whole way as such a run, and one of a report relayed twice |

In the steps a critical section is one step, but a release is several: the address is dropped, then its relays, then the
transactions of each of its ports in turn, all under the one authorisation lock. A claim takes only the relay lock and
can land in between. The history a state carries (which claims were made, whose each entry is, who took it, which
answers went out) is for the argument; no step's choice depends on it.

## What the theorems assume

* `NoClaimOutlivesItsAuthorisation` is about runs in which each claim reaches the lock by a deadline: within one relay
  lifetime of reading the release count when no count was held, and of the last release when one was. The source says
  the window is microseconds and drops counts older than a lifetime on that ground (`config/config.go:189-198`);
  `ASweptCountCanBeMistaken` is a run that shows what happens otherwise. Under the deadline the token is exact, in both
  directions; without it, `ClaimIsMisjudgedExactlyWhenForgotten` says exactly when a claim is misjudged, and
  `TheWindowIsExact` that the deadline, or the next sweep being due if that is later, is the last moment of safety.
* `OneAnswerPerClaim`, `HandoverLeavesNoGap` and `ASecondRelayHasAReason` are about runs in which no number is handed
  out while a thread from an earlier use of it can still act on it. `NoNumberComesBackWhileHeld` derives this from a
  bound on how many numbers are handed out while one is held. `NoClaimIsStranded` and `AttemptsAreBounded` assume nothing.
* `AReportIsAnswered` gives a run that meets both assumptions.
* `SweepAgeBound` takes the claims' clock readings not to go back in the order they reach the lock. The spacing of claims
  and the comparison with the live set do not: `ClaimsAreDecidedByTheLiveSet` says exactly what a late reading changes,
  and `ALateReadingIsRecognisedAllTheSame` is a run of it.
* `OrderDoesNotMatter` is about namings that resolved. `OrderMattersExactlyWhenUndecided` is the exact condition for
  namings that may not have.
* `NoReportIsLeftToItsLifetime` and `NoReportIsForgotten` are about runs in which each thread keeps to its budget.
  `EveryTakerAnswers` assumes nothing.
* A response carries the type of the request in flight under its number, as the lookup does not check it; the adapter's
  own address is no peer's; a message that was marshalled parses back. What a write, a send, a resolution or the
  clock does, and when a message arrives, are inputs.

## Where the code and its comments differ

* `PutTransaction` loops for a table detached under it (`pfcp/udp/udp.go:146-151`). Under the lock it holds that cannot
  happen; `PutTransaction` proves the first round decides.
* The comment on the release counts says an old count cannot be reached by anyone (`config/config.go:193-198`). That is
  the timing assumption above, not something the code enforces.
* `findTransaction` looks the number up twice (`pfcp/udp/udp.go:319-323`), and for a response its caller uses what the
  second look returns without asking whether there is anything (`pfcp/udp/udp.go:287-294`). The transaction can end
  between the two: `ALookupVanishesExactlyWhenLeftEmpty` is the exact condition.
* The order of answering and forgetting is there so that no copy of a report is relayed a second time
  (`pfcp/handler/handler.go:435-439`). A copy already taken from the socket when the answer is registered gets past it:
  `CopyIsRecognisedExactlyByALiveEntry` is the exact condition at the claim, `ASecondRelayHasAReason` lists the only ways
  to a second relay, and `AReportCanBeRelayedTwice` is a run of that one.

## Model

| member | source | states |
|---|---|---|
| `ProtocolSafety.NoClaimOutlivesItsAuthorisation` | pfcp/handler/handler.go:228-274 | In every state of every timely run, over every interleaving of report handlers, namings, transactions, response handlers and the clock, each outstanding relay belongs to an address some identity is at, or to one whose release has begun and has not reached its relays. |
| `ProtocolSafety.StepKeepsInv` | config/config.go:456-476 | Every step keeps that, with what each handler knows between reading the count and claiming: its count is current, or a release has happened since, or its deadline has passed. |
| `ProtocolSafety.AdmittedClaimsAreAuthorised` | config/config.go:541-547 | A claim reaching the lock in time and not turned away finds its host authorised, or its release not yet at the relays. |
| `ProtocolSafety.AuthorisationEndsInARelease` | config/config.go:468-475 | An address stops being authorised only through a release, and the release ends only by forgetting the address's relays. |
| `ProtocolSafety.ReleasesAreCounted` | config/config.go:691-704 | The number of releases of a host goes up by one exactly at the step that purges its relays. |
| `ProtocolOwnership.NoClaimIsStranded` | pfcp/handler/handler.go:310-373 | In every state of every run, with no assumption, a relay neither answered nor past its lifetime is held by a handler in its retry loop, by a request in flight under its number (or failed and not yet past its error handler's take), or by a response the read loop or a handler has yet to act on. |
| `ProtocolOwnership.StepKeepsInv` | pfcp/udp/udp.go:191-211 | Every step, including every exit of the retry loop and of a transaction's goroutine, hands such a relay on or leaves it with its holder. |
| `ProtocolOwnership.AttemptsAreBounded` | pfcp/handler/handler.go:310-373 | In every state of every run no handler is about to send, or to renumber so as to send, after its fourth attempt. |
| `ProtocolAnswerSteps.OneAnswerPerClaim` | pfcp/handler/handler.go:378-410 | Over every interleaving in which no number is handed out while held, two answers (of the SMF, of a give-up, of a handler's refusal) are never to one claim; each goes to the claim's own peer under the number its report came with, through any chain of renumberings; a response answers the claim whose own request it answers; and a claim its handler refused never went out in a request. |
| `ProtocolAnswerSteps.EveryStateIsSound` | pfcp/handler/handler.go:205-410 | Every state of such a run keeps the invariant that links each thread to its claim and its claim to its entry. |
| `ProtocolAnswerSteps.StepKeepsSound` | pfcp/handler/handler.go:256-266 | Each of the steps keeps it. |
| `ProtocolAnswerSteps.ClaimsKeepSound` | config/config.go:537-568 | A claim, with the sweep it may run, keeps it: the entries dropped are nobody's loss but their own claims'. |
| `ProtocolAnswerSteps.RenumberedKeepsSound` | config/config.go:657-681 | A renumbering moves one claim's entry and no other thread's claim loses its own. |
| `ProtocolAnswerSteps.TakingKeepsSound` | config/config.go:754-775 | Whoever takes an entry is the first to, takes its own claim's, and finds it unanswered by anyone. |
| `ProtocolAnswerSteps.TakersAnswerAlone` | pfcp/handler/handler.go:256-266 | Once a claim has been taken, only its taker is anywhere about to answer it. |
| `ProtocolAnswerSteps.AnsweringLeavesOnlyTheThread` | pfcp/handler/handler.go:446-463 | Sending an answer leaves its claim met by a response transaction, or ended when the send failed, and every other thread as it should be. |
| `ProtocolTiming.NoReportIsLeftToItsLifetime` | pfcp/handler/handler.go:246-266 | If every thread does its part within a budget (a handler from its claim, a request from its registration, the read loop and the response handler from when they got the response), and the budgets fit in a claim's lifetime with a request's nine seconds of resends among them, then in every state of every such run a relay past its lifetime has been taken. |
| `ProtocolAnswered.EveryTakerAnswers` | pfcp/handler/handler.go:387-410 | In every state of every run, with no assumption, a claim somebody has taken has been answered, or whoever took it is about to answer it. |
| `ProtocolAnswered.NoReportIsForgotten` | pfcp/handler/handler.go:246-266 | So with those budgets, in every state of every orderly run, the claim of a relay past its lifetime has been answered toward its own peer under its own number, or whoever took it is about to answer it. |
| `ProtocolTiming.StaysInTime` | pfcp/udp/udp.go:191-211 | Whoever owns an unanswered relay keeps it or passes it on within its budget, at every step. |
| `ProtocolReuse.NoNumberComesBackWhileHeld` | config/config.go:725-741 | If whatever holds a number lets go of it before N/(k+1) others have been handed out since it was, k being a bound on the relays outstanding meanwhile, no number is ever handed out while held: the assumption of the one-answer and handover theorems, from a condition on loads. |
| `ProtocolReuse.ReuseTakesManyHandOuts` | config/config.go:559-565 | In the protocol's own runs, two hand-outs of one number, with at most k relays outstanding between them, have at least N/(k+1) hand-outs between them, counting the later. |
| `ProtocolReuse.AHeldNumberWasHandedOut` | pfcp/handler/handler.go:310-373 | Whatever number a handler, a relayed request, the read loop or a response handler holds was handed out earlier in the run. |
| `ProtocolHandover.HandoverLeavesNoGap` | pfcp/handler/handler.go:402-410 | In any state after a claim, a copy of its report is recognised, by a live claim or by a transaction under its peer and number; or the claim, its answer not out yet, is past its lifetime; or its need ended at an earlier step, by one of the ending events. |
| `ProtocolHandover.NeedsEndByTheseEventsOnly` | pfcp/handler/handler.go:446-463 | The step at which a need ends is one of these: a claim let past the release check runs a sweep that is due and drops its entry, past its lifetime; its host is released, dropping its entry or the transaction its answer has met; that transaction ends; or its answer could not be sent for a reason other than a duplicate. |
| `ProtocolHandover.AnUnendedClaimIsMet` | pfcp/udp/udp.go:153-189 | Until then the report is recognised, or its claim, not answered yet, has outlived its lifetime. |
| `ProtocolHandover.AMetReportIsRecognised` | config/config.go:575-585 | And recognised it is: with a live match a claim ends turned away or as a retransmission, whatever clock reading it carries, and with a transaction under its number a report is not handed to a handler. |
| `ProtocolCopies.ASecondRelayHasAReason` | pfcp/handler/handler.go:435-453 | Over every interleaving in which no number is handed out while held, a report that has been claimed is claimed afresh for one of three reasons only: the earlier claim's need has ended, by one of the ending events; or that claim, not answered, is past its lifetime; or it has been answered, and this copy was taken from the socket when the answer's transaction was not there yet. |
| `ProtocolCopies.CopyIsRecognisedExactlyByALiveEntry` | config/config.go:551-553 | At the claim: a report let past the release check is taken for a copy if and only if some claim made on it before still has its entry, within its lifetime at the reading the copy carries. |
| `ProtocolCopies.WhatIsHandledWasRead` | pfcp/udp/udp.go:380-397 | Every report a handler has was taken by the read loop, and was in its hand until it was dispatched to that handler. |
| `ProtocolExample.AReportCanBeRelayedTwice` | pfcp/handler/handler.go:402-410 | The third of them happens: a run, timely and orderly, in which a report that has been answered is relayed again. |
| `ProtocolTables.RelaysStaySound` | config/config.go:537-712 | Between any two critical sections of any threads, every relay number is the adapter's own and two claims on one report are dated more than a lifetime apart. |
| `ProtocolTables.AuthorisationAgrees` | config/config.go:357-476 | Between any two steps, in the middle of a naming too, the reverse map is exactly the inverse of where the nodes are, a node underway being nowhere. |
| `ProtocolTables.NamingsRecord` | config/config.go:357-422 | However its steps are interleaved with others', a naming leaves the records as one uninterrupted RecordUpfAddr does. |
| `Protocol.StepsActOnTheTable` | config/config.go:537-784 | Every step of the protocol is one operation of the relay table or leaves it alone, so what the table's runs keep the protocol's runs keep. |
| `ProtocolExample.AReportIsAnswered` | pfcp/handler/handler.go:205-410 | There is a run, timely and orderly, that takes a report from the naming of its user plane to its answer: what is proved of such runs is not empty. |
| `ProtocolGate.OnlyTheCheckedAreDealtWith` | pfcp/handler/handler.go:228-233 | In every state of every run, whoever has been answered, has a transaction of an answer to it, has a relay outstanding, or is about to be refused, sent a report that passed the source check earlier in the run, when some node recorded at its host had been named within the last half hour. |
| `ProtocolAlone.AHandlerAloneIsTheMethod` | pfcp/handler/handler.go:205-373 | A report handler of the protocol that nothing interrupts, from its start to its end, does to the relay table and the transactions what one call of the method does, with the same outcome for the same sends: retries, refusals and all. |
| `ProtocolAlone.AResponseAloneIsTheMethod` | pfcp/handler/handler.go:378-410 | So does a response handler. |
| `ProtocolAlone.AGiveUpAloneIsTheMethod` | pfcp/handler/handler.go:256-266 | So does the goroutine of a request that failed. |
| `ProtocolNamings.ANamingAloneIsTheMethod` | config/config.go:357-422 | A naming of the protocol that nothing interrupts leaves the records, the maps in agreement, the relays and the transactions as one call of RecordUpfAddr does, in whatever order it expires nodes and drops ports. |
| `ProtocolProgress.NobodyIsStuck` | pfcp/handler/handler.go:205-410 | In every state of every run each handler, transaction, response handler and the read loop that has not ended can take a step, the source check waiting for a naming that holds the lock, and that naming can. |
| `ProtocolProgress.EveryStepGetsOn` | pfcp/handler/handler.go:310-373 | Each step of its own brings a report handler nearer its end, and fourteen are enough, however its sends go. |
| `ProtocolProgress.ASendMayGoThrough` | pfcp/udp/udp.go:213-235 | A send can go through when nothing has its number, and can find it taken when something has. |
| `ProtocolProgress.ATransactionMayEndEitherWay` | pfcp/udp/udp.go:191-211 | A transaction can fail at any time, and can end well unless it is a relayed request nothing has answered. |
| `ReportHandler.Adapter.SendRelay` | pfcp/handler/handler.go:310-373 | The retry loop: which numbers it tries, each the next free one while the claim still holds the one before; that all but the last were taken; and for each way it ends the whole new relay table and transactions. |
| `ReportHandler.Adapter.Try` | pfcp/handler/handler.go:310-356 | One round of it. |
| `ReportHandler.Adapter.RelayAdmitted` | pfcp/handler/handler.go:268-373 | From the claim on: turned away exactly when the quoted count is not the current one; recognised as a copy, refused for want of numbers, or tried. |
| `ReportHandler.Adapter.HandlePfcpSessionReportRequest` | pfcp/handler/handler.go:205-373 | Dropped with nothing done exactly when no node at the host was named in the last half hour; with no SMF, refused under its own number unless the send fails; otherwise as an admitted report. |
| `ReportHandler.Adapter.HandlePfcpSessionReportResponse` | pfcp/handler/handler.go:378-410 | A response to a claim neither answered nor past thirty seconds goes to the claim's peer under its own number and ends the claim, and no other; any other response changes nothing. |
| `ReportHandler.Adapter.GiveUp` | pfcp/handler/handler.go:256-266 | The error handler does the same with a refusal, and leaves a claim it could not take alone. |
| `ReportHandler.Adapter.RefuseAndRelease` | pfcp/handler/handler.go:446-453 | The refusal is registered, or a transaction is there already, unless sending failed; and the claim ends either way. |
| `ReportHandler.Adapter.SendPfcp` | pfcp/udp/udp.go:213-235 | A send fails before registering, finds its number taken, or registers one new transaction and changes no other. |
| `ReportHandler.ReportedInPlainTerms` | pfcp/handler/handler.go:268-373 | What becomes of an admitted report, by the maps alone: dropped exactly when its host's count has moved; recognised exactly when a claim on it is within thirty seconds, and then nothing sent; refused under its own number, with every number taken or every number tried; or relayed under a number in 0x800000 to 0xFFFFFF that was free. |
| `ReportHandler.ReportedLeavesOthersAlone` | pfcp/handler/handler.go:268-373 | No other claim within its lifetime changes, and no transaction comes or goes but the report's own answer or its own request. |
| `ReportHandler.ANamedPeersReportIsRelayed` | pfcp/handler/handler.go:228-346 | Through the source check: with an SMF, no copy held, and room among numbers and transactions, the report is relayed. |
| `ReportHandler.ARelayLeavesOneClaimOrNone` | pfcp/handler/handler.go:310-373 | A report that was relayed leaves exactly one claim more, under the number its request has and with its own peer and number; one that was refused leaves none; no other claim changes. |
| `ReportHandler.TheRetryGetsThrough` | pfcp/handler/handler.go:319-346 | A report is relayed, not refused for a coincidence, whenever its sends can register and the SMF has fewer transactions in the adapter's half than there are attempts and than there are numbers no relay holds, however many relays are in flight. |
| `ReportHandler.AnAnswerComesHomeOnce` | pfcp/handler/handler.go:387-410 | From what one call that relayed a report leaves and what one call that handles its response does: between them a copy is recognised; the answer reaches the report's peer under its own number; the table is as it was after the sweep; and no later response does anything. |
| `Allocator.NextFreeRelaySequence` | config/config.go:725-741 | The loop, on every 32-bit input: the first free number in cyclic order, or none when the range is full; and what it does when floor exceeds ceil or the trip count wraps. |
| `Allocator.EveryNumberIsVisitedOnce` | config/config.go:729-737 | A turn of the search visits each number of the range on one trip and no other. |
| `Allocator.NextFreeIsUnique` | config/config.go:725-741 | There is one right answer. |
| `Allocator.HandOutSkipsOnlyTaken` | config/config.go:732-737 | The search moves on by at most one more than there are outstanding numbers. |
| `Allocator.ExhaustionTakesTheWholeRange` | config/config.go:739-741 | It fails exactly when every number is outstanding, and so never with fewer entries than numbers. |
| `Allocator.TripCountIsTheRangeSize` | config/config.go:729 | The 32-bit trip count is the size of the range, unless the range is the whole 32-bit space, for which it is zero. |
| `Allocator.ConsecutiveAreDistinct` | config/config.go:657-681 | Numbers found one after another, each while the one before is still taken, are free and do not repeat until every free number has been found. |
| `RelayTableClass.RelayTable.RelayReportSequence` | config/config.go:537-568 | Keeps the index exact, the numbers in range and claims spaced, and does what the unindexed table's claim does in all four outcomes. |
| `RelayTableClass.RelayTable.RenumberReportRelay` | config/config.go:657-681 | The claim moves, whole, to the next free number; or stays when there is none; or was not held. |
| `RelayTableClass.RelayTable.TakeReportRelay` | config/config.go:754-775 | The claim is returned at most once and only within its lifetime, and stays in the table marked answered. |
| `RelayTableClass.RelayTable.ForgetReportRelay` | config/config.go:779-784 | Exactly the entry under the number goes. |
| `RelayTableClass.RelayTable.ForgetRelaysForHost` | config/config.go:691-712 | The count goes up and exactly the host's entries go, found through the index alone. |
| `RelayTableClass.RelayTable.SweepRelaysLocked` | config/config.go:618-646 | At most once an interval, exactly the entries and counts past the lifetime go. |
| `RelayTableClass.RelayTable.SweepGenerations` | config/config.go:625-631 | The counts no claim can still quote go, and no other. |
| `RelayTableClass.RelayTable.SweepClaims` | config/config.go:633-645 | The entries past their lifetime go, and no other, and the index with them. |
| `RelayTableClass.RelayTable.RelayFromLocked` | config/config.go:575-585 | The walk of one bucket finds a live claim on the report exactly when the whole table has one. |
| `RelayTableClass.RelayTable.RecordRelayLocked` | config/config.go:589-598 | The entry and its index are added together. |
| `RelayTableClass.RelayTable.DropRelayLocked` | config/config.go:600-614 | The entry and its index go together, and the bucket with its last. |
| `RelayTableClass.RelayTable.RelayGeneration` | config/config.go:510-515 | The count of releases remembered. |
| `RelaySpec.AFreshClaimKeepsSpacing` | config/config.go:553-567 | A claim made because nothing matched is more than a lifetime after every other claim on its report, whatever order clock readings reach the lock in. |
| `RelayRuns.EveryStateIsSound` | config/config.go:537-585 | Every state of every run of the table has its numbers in range and its claims spaced. |
| `RelayRuns.AtMostOneLiveClaim` | config/config.go:575-585 | At a reading no claim is dated after, a report has at most one live claim. |
| `RelayRuns.HandOutOverwritesNothing` | config/config.go:559-567 | A number handed out is the next free one, was under no entry, and becomes the cursor; a renumbered claim keeps everything but its number. |
| `RelayRuns.SweepAgeBound` | config/config.go:206-215 | With readings that never go back, after any claim that passes the release check nothing is as old as the lifetime and the interval together. |
| `RelayRuns.AdvancesAreWholeTurns` | config/config.go:559-565 | The cursor accounts for every advance of the search, up to whole turns. |
| `RelayRuns.ReuseTakesAWholeTurn` | config/config.go:725-741 | Between two hand-outs of one number the search advances by at least the whole range. |
| `RelayRuns.ReuseBound` | config/config.go:725-741 | With at most k outstanding throughout, that takes at least N/(k+1) hand-outs, counting the later. |
| `RelayExpiry.SweepChangesNoAnswer` | config/config.go:618-646 | No match and no take asked at or after a sweep's time can tell whether it happened. |
| `RelayExpiry.LazyRefinesEager` | config/config.go:551-585 | The throttled, indexed table and a set purged at every claim hold the same claims within their lifetime, at any reading not before those purged by so far, after every step of every run, whatever order readings reach the lock in. |
| `RelayExpiry.TheLiveSetIsPartOfTheTable` | config/config.go:551-585 | The set is always part of the table, and what it lacks of it is past its lifetime at the furthest reading. |
| `RelayExpiry.StepKeepsPart` | config/config.go:618-646 | Each operation keeps that, whatever reading it carries. |
| `RelayExpiry.ClaimsAreDecidedByTheLiveSet` | config/config.go:551-553 | On every run: a report let past the release check is a retransmission if and only if the live set holds it, or the table still has an entry for it that is within its lifetime at the reading it carries and was not at an earlier one; and whatever it is matched with is one of the two. |
| `RelayExpiry.TakesAreDecidedByTheLiveSet` | config/config.go:754-775 | On every run: a take yields what the live set holds unanswered, unless it finds an entry the set has purged, and then that entry is overdue in the same way. |
| `RelayExpiry.DecisionsAreThoseOfTheLiveSet` | config/config.go:767-769 | So for a step whose own reading is not before those purged by so far, whatever the order of the others, both decisions are exactly the live set's. |
| `RelayExpiry.ALateReadingIsRecognisedAllTheSame` | config/config.go:537-568 | A witness: a copy that reaches the lock late is recognised by an entry the live set has purged. |
| `RelayToken.ClaimIsAdmittedExactlyWhenNotReleased` | config/config.go:541-547 | A claim that reaches the lock by its quote's deadline is turned away if and only if its host was released since the count was read, whatever else was released, named or swept. |
| `RelayToken.StepKeepsToken` | config/config.go:510-515 | Until the deadline the count has moved on by exactly the releases since the read, whatever operation comes. |
| `RelayTokenLimits.ClaimIsMisjudgedExactlyWhenForgotten` | config/config.go:541-547 | Over every run, with no assumption on time: a claim is admitted across a release of its host if and only if a sweep forgot the count since it was read and there have been since as many releases as it quotes; and it is turned away without a release if and only if it quotes a count that was forgotten. |
| `RelayTokenLimits.TheWindowIsExact` | config/config.go:625-631 | From any run: there is a way to go on in which a claim quoting the count read there is admitted at a given clock reading across a release, if and only if that reading is past the deadline and a sweep is due by then. |
| `RelayTokenLimits.CountIsThatSinceForgotten` | config/config.go:691-704 | The count is the count read and the releases since, or the releases since a sweep last forgot it. |
| `RelayTokenLimits.ClaimHasAnOutcome` | config/config.go:537-568 | Whatever the table, every claim has an outcome. |
| `RelayToken.ASweptCountCanBeMistaken` | config/config.go:193-198 | A witness: a run in which the count is swept and comes back, and a claim is admitted across a release. |
| `AuthTableClass.AuthTable.RecordUpfAddr` | config/config.go:357-422 | The new records, the reverse map in exact agreement with them, and that the addresses left with nobody, each once, are released: their relays and every port's transactions gone, their counts one higher, nobody else's touched; and if every relay's host had somebody at it before, it has after. |
| `AuthTableClass.AuthTable.ExpireUpfAddrsLocked` | config/config.go:429-444 | Exactly the nodes not named within the lifetime go, in whatever order the walk takes, and the addresses they leave empty are released. |
| `AuthTableClass.AuthTable.ForgetUpfAddrLocked` | config/config.go:456-476 | An identity leaves its address; only the last one takes the address with it and releases it. |
| `AuthTableClass.AuthTable.Release` | config/config.go:472-475 | A release forgets the host's relays, counts itself, and drops every port's transactions. |
| `AuthTableClass.AuthTable.IsKnownUpfAddr` | config/config.go:488-505 | With the maps in agreement, true exactly when some node recorded at the address was named in the last half hour. |
| `AuthReleases.ReleasesInPlainTerms` | config/config.go:691-712 | Releases of distinct addresses: their relays and all their ports' transactions are gone and nobody else's; each is counted once more and no other. |
| `AuthReleases.RelaysStayAuthorised` | config/config.go:404-421 | Only an address somebody was at, and nobody but the named node is at any more, is released by a naming; every other address somebody was at still has somebody. |
| `AuthSpec.KnownMeansNamedLately` | config/config.go:488-505 | With the maps in agreement: known if and only if some node recorded at the address was named in the last half hour. |
| `AuthSpec.RecordedInPlainTerms` | config/config.go:371-421 | Another node's record stays for half an hour from its own date and then goes; the named node's is dated now, at what it resolved to or where it was, unless a later naming came first. |
| `AuthSpec.ANamingIsGoodForHalfAnHour` | config/config.go:217-223 | A naming that resolved makes its address known for half an hour, and not for longer unless another node is there. |
| `AuthSpec.ExpiryChangesNoAnswer` | config/config.go:482-487 | Whether an address is known at a time is the same before and after any expiry dated no later. |
| `AuthSpec.AgreementDeterminesAddrs` | config/config.go:174-180 | There is one reverse map that agrees with the records. |
| `AuthSpec.VacatingKeepsAgreement` | config/config.go:456-468 | Leaving an address keeps the agreement, whether the node goes or is about to be elsewhere. |
| `AuthSpec.OccupyingKeepsAgreement` | config/config.go:411-421 | Placing a node that is nowhere, or already there, keeps it. |
| `NamingOrder.OrderDoesNotMatter` | config/config.go:357-422 | Resolved namings with distinct dates per node, within one lifetime, end with the same maps in every commit order, each node at its latest-dated resolution, or at its record when that is newer. |
| `NamingOrder.EveryOrderEndsAs` | config/config.go:371-375 | Whatever the order, resolved or not: the record bears the latest date; it has the latest naming's address if that resolved; and if no resolution is to another address it keeps the one it had. |
| `NamingOrder.OrderMattersExactlyWhenUndecided` | config/config.go:381-403 | For any number of namings, resolved or not: every commit order ends alike if and only if for every node the latest naming resolved, or no resolution its record does not supersede is to another address. |
| `NamingOrder.TwoNamingsCommuteExactlyWhen` | config/config.go:381-403 | For two namings of one node and any records: the two orders agree if and only if the later resolved, or the earlier did not, or the record supersedes the earlier, or the earlier resolved to where the node is. |
| `NamingOrder.UnresolvedNamingsDoNotCommute` | config/config.go:381-392 | An instance: a later naming that did not resolve and an earlier one that did leave different records in the two orders. |
| `TransactionTables.ConsumerTable.PutTransaction` | pfcp/udp/udp.go:153-189 | Inserts into the one flat map if absent, and returns in its first round: the bounded retry never runs out. |
| `TransactionTables.ConsumerTable.PutRounds` | pfcp/udp/udp.go:163-188 | The loop itself. |
| `TransactionTables.ConsumerTable.DeleteByHost` | pfcp/udp/udp.go:95-110 | Exactly the tables of the address go, whatever port each is under. |
| `TransactionTables.ConsumerTable.FindTransaction` | pfcp/udp/udp.go:303-336 | With nothing in between, finds what the flat map has; for a response nothing found is an error, for a request it means a new one. |
| `TransactionTables.ConsumerTable.ReadPfcpMessage` | pfcp/udp/udp.go:255-301 | A copy of an answered request is absorbed, an unmatched response dropped, all else dispatched, a message that is neither included; the one transaction concerned finds a resend request in its empty channel for a request and a valid response for a response, a full channel stays as it is, and no other is touched. |
| `TransactionTables.ConsumerTable.RemoveTransaction` | pfcp/udp/udp.go:399-421 | Removes the transaction from the flat map if it is still the one there. |
| `TransactionTables.ConsumerTable.DeleteFrom` | pfcp/udp/udp.go:404-411 | So too on a table loaded earlier that has been detached or replaced since: never a successor. |
| `TransactionTables.TxTable.LoadOrStore` | pfcp/udp/transaction.go:28-32 | Inserts only if absent, and says which. |
| `TransactionTables.TxTable.DeleteIf` | pfcp/udp/transaction.go:54-60 | Compares and deletes. |
| `TransactionSpec.FlattenPut` | pfcp/udp/udp.go:153-189 | Inserting into a peer's table is inserting into the flat map. |
| `TransactionSpec.FlattenRemove` | pfcp/udp/transaction.go:54-60 | Compare-and-delete in a peer's table is that of the flat map. |
| `TransactionSpec.FlattenRelease` | pfcp/udp/udp.go:95-110 | Dropping an address's tables is dropping its keys. |
| `TransactionSteps.StepRefinesFlatMap` | pfcp/udp/udp.go:399-421 | With removal split into load and delete and anything in between, every step acts on what lookups see as the flat map's own operation does. |
| `TransactionSteps.RunRefinesFlatMap` | pfcp/udp/udp.go:79-119 | So in every state of every interleaving lookups see one flat map. |
| `TransactionSteps.RegisteredStaysFindable` | pfcp/udp/udp.go:153-189 | No step but its own removal and the drop of its consumer's table loses a registered transaction. |
| `TransactionSteps.RegisteredIsFoundUntilRemoved` | pfcp/udp/udp.go:153-189 | So over every run it is found under its key, and no other in its place, until one of those. |
| `TransactionSteps.AWalkIsARelease` | pfcp/udp/udp.go:95-110 | A release that drops its tables one at a time, with removals in between, ends with exactly the flat map's release less what was removed meanwhile. |
| `TransactionSteps.ALookupVanishesExactlyWhenLeftEmpty` | pfcp/udp/udp.go:311-323 | With the four lookups of a search each in a state of its own, over every run: having found the number, the last comes back with nothing if and only if in between the occupant of the number was taken out and nothing was put there after; and then the transaction that was found has ended. |
| `TransactionSteps.ALookupCanVanish` | pfcp/udp/udp.go:311-323 | It can happen. |
| `TransactionSteps.WhatStaysIsGot` | pfcp/udp/udp.go:303-336 | A transaction registered when a search begins, and neither removed nor its table dropped before it ends, is what the search gets. |
| `TransactionSteps.WhatIsGotIsTheKeys` | pfcp/udp/udp.go:303-336 | What the search gets was registered under the peer and number looked up. |
| `ResendMachine.StartRequest` | pfcp/udp/transaction.go:111-134 | At most three writes and nine seconds; a valid response that comes within three seconds of some write, after silence, ends it there and then; silence lasts nine seconds; finishes exactly when a valid response is taken after all writes so far succeeded, fails with the first failed write, and times out exactly when neither comes. |
| `ResendMachine.StartResponse` | pfcp/udp/transaction.go:135-172 | At most three writes and 45 seconds; unasked it is held fifteen seconds, and asked again in that time it is written again and held fifteen more; ends exactly by a failed write, by fifteen quiet seconds, or by a third event. |
| `ResendMachine.Select` | pfcp/udp/transaction.go:119-132 | An event that comes before the timer is taken when it comes, and one after it is not. |
| `ResendMachine.AResendRequestIsAnswered` | pfcp/udp/transaction.go:145-165 | At any point of a response's life, a resend request within the quiet period is answered by another write and starts the period again. |
| `ResendMachine.FinishedMeansThreeResendRequests` | pfcp/udp/transaction.go:145-166 | As only resend requests reach a response, the third event is the third resend request, and each restarted the quiet period. |
| `ResendMachine.GiveUpIsInTime` | config/config.go:204-206 | A request registered up to 21 seconds after its claim gives up within the claim's lifetime, so its take succeeds. |
| `ResendMachine.HeldAfter` | pfcp/udp/transaction.go:137-165 | Through any rounds a response is held at most fifteen seconds past the last time it was asked for, and fifteen seconds a round in all. |
| `Waiters.RepliesNeverBlock` | pfcp/handler/handler.go:76-110 | In every state of every run whoever has got a waiter's channel can send into it at once, a channel is under at most one number, and at most one value is ever sent into it. |
| `Waiters.StepKeepsInv` | config/config.go:786-827 | Each registration, rollback, get, send and receipt keeps what that rests on, registrations overwritten under one number included. |
| `Waiters.WaiterTable.RegisterAndSend` | pfcp/util.go:60-70 | A requester waits exactly when its send went out, and otherwise its registration is gone. |
| `Waiters.WaiterTable.ForgetUpfPfcpTxn` | config/config.go:803-813 | Drops its own registration and never another's. |
| `Waiters.WaiterTable.GetUpfPfcpTxn` | config/config.go:815-827 | Hands a channel out and takes it from the table at once. |
| `Waiters.WaiterTable.InsertUpfPfcpTxn` | config/config.go:786-791 | Overwrites what was registered under the number. |

## Left out

- HTTP and JSON, signals, start-up, shutdown and logging: plumbing around the relay.
- PFCP encoding and information elements: a message is its kind, its number and its peer.
- DNS and its cache: a resolution is an optional address dated before the lock; an unspecified address counts as none.
- UPF association state, stored responses, PSREI, the SMF's address, message-type predicates and dispatch: each is settled by reading one body.
- Whether an HTTP requester is ever answered: it need not be, since a registration can be overwritten and the heartbeat send has no error handler.
- "Transaction tables exist only for authorised peers": not so, since an answer already taken can register after a release.
- Real sockets, UDP loss and Go's memory model: lock sections are sequentially consistent, a sync.Map operation is one step.
- The 64-bit wrap of a release count, the 32-bit width of a user plane's own number, and times before Go's zero time.
- TransactionTables.ConsumerTable.FindTransaction: looks once, where the source looks the table and the number up twice each; TransactionSteps has the four lookups, and Protocol's read loop takes those of one message as one step, with no transaction vanishing in it.
- Removing a transaction is one step in Protocol; TransactionSteps has its load and its delete apart.
- ReportHandler.Adapter.SendRelay: works on the flat map of transactions, which ConsumerTable is proved to present, and is run without interruption; interruption is Protocol's subject, and ProtocolAlone joins the two. The source's three refusals in the loop are one after it.
- ReportHandler.Adapter.HandlePfcpSessionReportRequest: run without interruption, as SendRelay is.
- ReportHandler.Adapter.RelayAdmitted: run without interruption, as SendRelay is.
- ReportHandler.TheRetryGetsThrough: about a call that nothing interrupts.
- ResendMachine.StartRequest: a write takes no time.
- ResendMachine.StartResponse: a write takes no time, and a timer that fires together with an event is not left over in its channel.
- Waiters.WaiterTable.RegisterAndSend: the association, heartbeat and session cases differ only in the message they build, and are one.
