# Dispute engine: a verified model

The engine handles card and direct-debit disputes. One dispute moves through a lifecycle that its regime
parameterises; every accepted event is logged, settles regulatory clocks, may post to a double-entry ledger, and may
instruct an external banking core whose movements a rollback cannot undo. This project models that step and proves
what holds over whole runs of it, together with the smaller cores around it: the business-day calendar, the reference
store with its snapshots and idempotent replay, the paged list, the grants compiler, the failure limiter, and the order
in which generated schemas are written.

`dafny verify dfyconfig.toml` checks everything.

## How the model is laid out

- **Domain.** `Regimes`, `Lifecycle`, `Calendars`, `Deadlines`, `Ledger` and `Risk` follow the files of
  `backend/internal/dispute/domain`. Theorems hold for every well-formed row of rules (one resolution clock, no
  negative liability cap); the four shipped rows are shown to be such rows.
- **One step.** `BankingCore` is the core with its duplicate detection; `Cases` says, as functions on one dispute's
  rows, what opening, applying an event and moving between teams do, including every way they refuse.
- **Runs.** `Logs`, `LedgerRuns`, `ClockRuns`, `ScoreRuns` and `Causes` each give an invariant of one dispute; `Runs`
  puts them together for any number of disputes, attempts and failures sharing one core. `Payments`, `Movements`,
  `Reconciliation`, `Bookings` and `Retries` relate the books to what the bank has really moved. `Interleaving` lets any
  number of requests, on any number of disputes, overlap.
- **What it comes to.** `Openings`, `Transfers`, `Guards` and `Remedies` say what these functions mean without naming
  them: in the fields of requests and rows, literal texts and amounts, when an event commits, what it moves, whom it is
  refused, and in which order a customer is refunded and a merchant pursued.
- **The program.** `Store.MemStore` is the reference store, with maps of rows and, for the clocks, slices written in
  place. `Service.Service` performs the use cases on it step by step. Each method is proved against the functions of
  `Cases`, so the theorems about runs are theorems about the service (`StoreEffects.WritesAreActions`,
  `StoreEffects.CallsKeepTheInvariant`).
- **Around it.** `Idempotency`, `Paging`, `Grants`, `Limiter` and `Emission` stand on their own; `Duties` joins the
  guardrails of `Grants` to runs.

Quantities are modelled so that rounding and time zones do not blur the statements: money is an exact `real` (for
grants, an integer number of ten-thousandths, which is the column's precision), an instant is an integer number of
nanoseconds, and days are integers with the weekday given by their remainder modulo seven. A time zone is any pair of
functions that cut time into days, so days of 23 or 25 hours are covered. Identifiers are natural numbers ordered as
their text is. How a reference becomes a retrieval reference number is a parameter, about which nothing is assumed: a
number that keeps six bytes of a hash cannot be injective. Where it matters that references are told apart, the
hypothesis is that no two references the run's own attempts send share a number (`Movements.ToldApart`), and without it
the exact condition is given. The text of a payload is reduced to what the code reads from it; the caller, the
authorizer's answer, the tenant's teams, calendar and core, the account's history, the clock, and whether the steps after
the posting succeed are circumstances of each attempt (`Cases.Env`).

## What turned out not to hold

- *An approval means the money moved.* The core approves a number it has seen, whatever reference it was seen for. An
  approval means that money has moved under the very reference exactly when nothing had moved under another with its
  number (`BankingCore.ApprovalMeansMovedIffUnmistaken`), and over runs all that is committed on a dispute was paid
  exactly when that held at each commit (`Reconciliation.PaidIffCommitsUnmistaken`).
- *Books and bank agree.* After a run through a connected core they agree on a dispute, entry by entry and movement by
  movement, exactly when three things hold (`Bookings.BooksAreTheBankIff`): no commit on it was mistaken for another
  reference; none repeated a reference with another amount, which the core does not compare
  (`Retries.ARetryWithAnotherAmountDisagrees`); and every payment for it was committed before its version moved on, by
  the attempt that paid or by a retry (`Retries.APaymentMayBeLeftBehind` is a dispute closed with a payment no ledger
  shows). Then all that ever moved for the dispute sums to the balance shown (`Bookings.AllThatMovedIsTheBalance`). The
  first two alone give the sum over the dispute's committed references
  (`Reconciliation.TheBankAgreesWithTheBooks`).
- *A retry moves money once.* The reference names the dispute's next version. In every run an attempt, of whatever kind,
  moves money exactly when it sends a willing core an instruction whose number nothing was paid under
  (`Movements.AnAttemptPaysUnlessItsNumberHas`); with references told apart, that is when no earlier attempt at the same
  version of the dispute has moved money (`Movements.AnAttemptPaysUnlessItsVersionHas`). So a retry pays again exactly
  when the version has moved on since the last payment (`Movements.ARetryPaysAgainIffTheVersionMoved`), for instance by
  a move between teams (`Retries.AMoveBetweenRetriesPaysTwice`).
- *A compiled grant's limit is respected.* Compiling lets through a limit equal to the largest Cedar decimal, and as
  amounts are capped there, any larger amount passes it (`Grants.LimitsAreHonouredExceptAtTheTop`). The table's own check
  constraint (`backend/migrations/0023_access.sql:28`) keeps limits below that value, and then decisions follow the
  limits as written (`Grants.LimitsBelowTheTopAreHonoured`).

The customer's balance is bounded by the disputed amount for each cycle, not by the disputed amount alone: an appeal may
lead to a second credit.

## Model

| member | source | states |
|---|---|---|
| `Regimes.ShippedRulesAreWellFormed` | backend/internal/dispute/domain/regime.go:61-121 | the four shipped rows meet the hypotheses every theorem makes about a row |
| `Transfers.WhatTheShippedRowsSay` | backend/internal/dispute/domain/regime.go:61-121 | what the shipped regimes come to: caps, refund paths and states, appeals, settlement, currencies, and the days of each clock |
| `Lifecycle.Allowed` | backend/internal/dispute/domain/state.go:125-133 | lists each event the automaton accepts exactly once: those whose own condition, on state and row, holds; empty exactly for an unknown regime or a closed dispute without appeals left |
| `Lifecycle.EachEventLeadsToOneState` | backend/internal/dispute/domain/state.go:103-122 | event by event, exactly when it is accepted (a chargeback after the refund, under rows that have one), that where it leads depends on the row alone, and which refusal it gets otherwise |
| `Lifecycle.ReachedIffPossible` | backend/internal/dispute/domain/state.go:143-261 | the states disputes under a row can reach are exactly those its refund path, adjudication and contest make possible |
| `Lifecycle.NothingAllowedIffExhausted` | backend/internal/dispute/domain/state.go:103-122 | no dead ends: nothing is accepted exactly when the regime is unknown or the dispute is closed for good |
| `Lifecycle.AnEventUsesUpSome` | backend/internal/dispute/domain/state.go:103-261 | every accepted event lowers the measure of appeals left, then state |
| `Lifecycle.RunsAreBounded` | backend/internal/dispute/domain/state.go:103-261 | any accepted sequence of events is bounded by that measure, and appeals never exceed the maximum |
| `Lifecycle.EveryDisputeEnds` | backend/internal/dispute/domain/state.go:95-122 | at most 10·(MaxAppeals+1) lifecycle events from a new dispute |
| `Lifecycle.TheBoundIsAttained` | backend/internal/dispute/domain/state.go:143-261 | that bound is tight: a Regulation E dispute can use all twenty |
| `Lifecycle.FourEventsCloseAnyDispute` | backend/internal/dispute/domain/state.go:143-261 | from every state under every row at most four accepted events, none an appeal, lead to CLOSED |
| `Lifecycle.FollowConcat` | backend/internal/dispute/domain/state.go:103-122 | applying a sequence after another is applying their concatenation |
| `Calendars.HorizonSuffices` | backend/internal/dispute/domain/deadline.go:110-133 | the loop of Due terminates: within 7·⌈(count+holidays)/5⌉ days enough days have counted |
| `Calendars.Seek` | backend/internal/dispute/domain/deadline.go:122-133 | the day sought has exactly the required number of counting days up to it and is one of them |
| `Calendars.DueDayIsTheEarliest` | backend/internal/dispute/domain/deadline.go:120-133 | a day is on or after the due day exactly when enough counting days have passed by then |
| `Calendars.RunsOutOnItsDueDay` | backend/internal/dispute/domain/deadline.go:110-133 | on the calendar alone: a business-day clock runs out on the day that is no Saturday, Sunday or holiday and up to which, after the start, exactly count such days lie; a calendar-day clock count days later; either on the day it starts if the count is not positive |
| `Calendars.FindDue` | backend/internal/dispute/domain/deadline.go:122-133 | the loop terminates, and its result is the last instant of that day, for every count and every finite set of holidays |
| `Calendars.DueComposes` | backend/internal/dispute/domain/deadline.go:120-133 | waiting a and then b days is waiting a+b days |
| `Calendars.DueIsMonotone` | backend/internal/dispute/domain/deadline.go:120-133 | a later start, a longer count or more holidays never bring a clock forward |
| `Calendars.BusinessDaysTakeLonger` | backend/internal/dispute/domain/deadline.go:110-133 | a business-day clock is never due before the calendar-day clock of the same count |
| `Calendars.DueIsNotBeforeTheStart` | backend/internal/dispute/domain/deadline.go:120-133 | a clock never runs out before the instant it starts |
| `Calendars.CountSplit` | backend/internal/dispute/domain/deadline.go:110-118 | counting days over adjacent stretches adds up |
| `Deadlines.OpeningDeadlines` | backend/internal/dispute/domain/deadline.go:143-149 | one clock of cycle 0 for each of the row's, started at the opening |
| `Deadlines.AppealDeadlines` | backend/internal/dispute/domain/deadline.go:152-160 | every clock an appeal starts is an open resolution clock of its own cycle |
| `Deadlines.StartOpening` | backend/internal/dispute/domain/deadline.go:143-149 | the appending loop produces those opening clocks |
| `Deadlines.StartAppeal` | backend/internal/dispute/domain/deadline.go:152-160 | the filtering loop produces those appeal clocks |
| `Deadlines.AnAppealRestartsOneClock` | backend/internal/dispute/domain/deadline.go:152-160 | under a row with one resolution clock an appeal restarts exactly that clock |
| `Deadlines.SettlingIsFinal` | backend/internal/dispute/domain/deadline.go:175-195 | settlement changes only an open clock, either meets or voids it, and moves no due time |
| `Deadlines.WhatSettlesAClock` | backend/internal/dispute/domain/deadline.go:171-195 | closing settles every open clock, meeting the resolution clock and voiding the others, a credit meets the refund clock, and nothing else settles any |
| `Deadlines.HowAClockReads` | backend/internal/dispute/domain/deadline.go:62-79 | an open clock runs through its due time and is breached after it; a settled one reads the same for ever, and met or late by when it was met |
| `Deadlines.OneTurnSettlesOneMore` | backend/internal/dispute/application/service.go:503-538 | settling through the store, by kind and cycle, settles the same clocks as settling each on its own |
| `Deadlines.NextDeadline` | backend/internal/dispute/application/apptest/memstore.go:543-559 | the clock found is the first of the open ones with the least due time, and none is found exactly when none is open |
| `Deadlines.Overdue` | backend/internal/dispute/application/apptest/memstore.go:494-501 | the filter says whether some open clock is past due |
| `Deadlines.OverdueMeansNextIsBreached` | backend/internal/dispute/domain/deadline.go:62-79 | the filter selects a dispute exactly when its next clock reads BREACHED at the same instant |
| `Ledger.AcceptedLiabilities` | backend/internal/dispute/domain/ledger.go:63-77 | a liability is accepted exactly when it is within the cap and below a positive claim, and the credit then lies in [disputed − cap, disputed] and is positive for a positive claim |
| `Ledger.SumSuspense` | backend/internal/dispute/domain/ledger.go:140-151 | the loop computes debits less credits of suspense |
| `Ledger.Balances.Add` | backend/internal/dispute/application/service.go:1107-1118 | a movement changes the one balance it names, the customer's with the opposite sign |
| `Ledger.Balances.Tally` | backend/internal/dispute/application/service.go:999-1103 | after all postings each shown balance is the net of its account |
| `Ledger.BooksBalance` | backend/internal/dispute/application/service.go:1107-1118 | double entry: whatever was posted, customer = suspense + recovery + loss |
| `Ledger.PairedSuspense` | backend/internal/dispute/domain/ledger.go:140-151 | a ledger of credits each followed by its clearing holds in suspense the last credit, if it is not yet cleared |
| `Ledger.PairedBalances` | backend/internal/dispute/domain/ledger.go:100-137 | no balance of such a ledger is negative, and the customer holds at most one disputed amount a credit |
| `Ledger.ConservedWithin` | backend/internal/dispute/domain/ledger.go:100-151 | both facts together, with the bound as a product, for any bound on the number of credits |
| `Ledger.TimesIsProduct` | backend/internal/dispute/domain/ledger.go:63-77 | the repeated addition in those bounds is the product |
| `Risk.Score` | backend/internal/dispute/domain/risk.go:71-154 | the loop over the signals computes the assessment, which is HIGH exactly from 45 and LOW exactly below 20 |
| `Risk.ScoreIsMonotone` | backend/internal/dispute/domain/risk.go:71-154 | score and tier are monotone in every risk input and antitone in account age |
| `Risk.ScoreIsBounded` | backend/internal/dispute/domain/risk.go:71-154 | the score is at most 110, and exactly when it is 110 |
| `Risk.DisputesAdd` | backend/internal/dispute/domain/risk.go:71-154 | by exactly how much this changes the score from what it would be without it: disputes in the last year |
| `Risk.AnswersAdd` | backend/internal/dispute/domain/risk.go:71-154 | by exactly how much this changes the score from what it would be without it: contradictions in a questionnaire that came back, and in no other |
| `Risk.LossesAdd` | backend/internal/dispute/domain/risk.go:71-154 | by exactly how much this changes the score from what it would be without it: lost chargebacks |
| `Risk.TransactionAgeAdds` | backend/internal/dispute/domain/risk.go:71-154 | by exactly how much this changes the score from what it would be without it: the transaction's age |
| `Risk.MerchantAdds` | backend/internal/dispute/domain/risk.go:71-154 | by exactly how much this changes the score from what it would be without it: a high-risk merchant |
| `Risk.AmountAdds` | backend/internal/dispute/domain/risk.go:71-154 | by exactly how much this changes the score from what it would be without it: the disputed amount |
| `Risk.AccountAgeAdds` | backend/internal/dispute/domain/risk.go:71-154 | by exactly how much this changes the score from what it would be without it: the account's age |
| `Risk.NothingAddsNothing` | backend/internal/dispute/domain/risk.go:71-154 | without any of them the score is nought |
| `BankingCore.Core.Post` | backend/internal/dispute/infrastructure/mockcore/mockcore.go:88-138 | the core's answer and new state, for each of the tenant's configurations and the core's failures |
| `BankingCore.WhatTheCoreAnswers` | backend/internal/dispute/infrastructure/mockcore/mockcore.go:88-138 | which response code each case gets, which are remembered and which move money, and that every request is counted |
| `BankingCore.ExchangeKeepsSound` | backend/internal/dispute/infrastructure/mockcore/mockcore.go:114-137 | what the core has seen and what it has moved stay consistent |
| `BankingCore.MoneyMovesAtMostOnce` | backend/internal/dispute/infrastructure/mockcore/mockcore.go:114-137 | money moves at most once per reference, however references are numbered |
| `BankingCore.ApprovalMeansMovedIffUnmistaken` | backend/internal/dispute/infrastructure/mockcore/mockcore.go:114-155 | an approval through a connected core means money moved under that very reference exactly when nothing had moved under another reference with its number |
| `BankingCore.ACollisionIsApprovedUnpaid` | backend/internal/dispute/infrastructure/mockcore/mockcore.go:114-121 | so it can fail: a colliding reference is approved as a duplicate and nothing moves |
| `Logs.OpeningEstablishesLog` | backend/internal/dispute/application/service.go:327-407 | a new dispute's log starts at 1 and replays to its record |
| `Logs.AttemptKeepsLog` | backend/internal/dispute/application/service.go:416-500 | every attempt leaves the log gapless, connected and replaying to the record, and a change is one appended entry |
| `Logs.AttemptAppends` | backend/internal/dispute/application/service.go:434-469 | what that entry says: the next number, from the old state to the new, an event the automaton accepts or a move |
| `LedgerRuns.AtMostOneEntry` | backend/internal/dispute/application/service.go:628-676 | an accepted event posts at most one entry, named after itself, approved if it touches the customer |
| `LedgerRuns.CommittedEvent` | backend/internal/dispute/application/service.go:416-500 | what a committed event has gone through: the decision, the recording, the posting |
| `LedgerRuns.LiabilityIsCapped` | backend/internal/dispute/domain/ledger.go:63-77 | an accepted liability is within the cap and below a positive claim |
| `LedgerRuns.LedgerEffect` | backend/internal/dispute/application/service.go:628-676 | the ledger gains exactly the posting the entered state causes, if any |
| `LedgerRuns.OpeningEstablishesLedger` | backend/internal/dispute/application/service.go:327-407 | a new dispute satisfies the ledger invariant |
| `LedgerRuns.AttemptKeepsLedger` | backend/internal/dispute/application/service.go:416-500 | every attempt keeps it: credits in [disputed − cap, disputed] each followed by a clearing of the same amount, at most appeals+1 of them, placed in their cycles |
| `LedgerRuns.SuspenseFollowsState` | backend/internal/dispute/domain/ledger.go:100-151 | suspense is the current cycle's credit in the refund and in-flight chargeback states and in CHARGEBACK_LOST under provisional credit, and zero everywhere else |
| `LedgerRuns.CustomerIsNeverOverpaid` | backend/internal/dispute/domain/ledger.go:63-137 | conservation, no negative balance, and the customer's bound of (appeals+1) disputed amounts |
| `LedgerRuns.OneCreditACycle` | backend/internal/dispute/domain/ledger.go:100-137 | at most appeals+1 credits, and none left uncleared when CLOSED |
| `ClockRuns.OpeningEstablishesClocks` | backend/internal/dispute/application/service.go:327-407 | a new dispute has the row's clocks, the acknowledgement already met |
| `ClockRuns.AttemptKeepsClocks` | backend/internal/dispute/application/service.go:503-538 | every attempt keeps the clocks' invariant, moves no due time and unsettles nothing |
| `ClockRuns.OneResolutionClockACycle` | backend/internal/dispute/domain/deadline.go:142-195 | exactly one resolution clock a cycle: past ones met, the current one open exactly until CLOSED |
| `ClockRuns.AClockRunsUntilClosed` | backend/internal/dispute/application/apptest/memstore.go:543-559 | there is a next clock exactly while the dispute is not CLOSED |
| `ClockRuns.AcknowledgementReadsMet` | backend/internal/dispute/application/service.go:754-758 | an acknowledgement clock reads MET whenever it is looked at |
| `ClockRuns.OpeningClocksRunOutOnTheirDays` | backend/internal/dispute/domain/deadline.go:143-149 | each of a row's clocks starts at the opening and runs out at the end of its working or calendar day |
| `ClockRuns.AnAppealRunsOutOnItsDay` | backend/internal/dispute/domain/deadline.go:152-160 | an appeal adds the one resolution clock, started at its own instant and due at the end of its day |
| `ScoreRuns.OpeningEstablishesScore` | backend/internal/dispute/application/service.go:555-577 | a new dispute has one assessment |
| `ScoreRuns.AttemptKeepsScore` | backend/internal/dispute/application/service.go:438-442 | every attempt keeps: one assessment more than questionnaires received, and each credit caused by a refund whose latest earlier assessment was not HIGH or which carried a non-blank override |
| `ScoreRuns.NewCreditIsJustified` | backend/internal/dispute/application/service.go:580-594 | why: the hold check passed on the assessments as they then were |
| `ScoreRuns.AnOpeningIsAssessed` | backend/internal/dispute/application/service.go:555-577 | a new dispute is assessed on the amount claimed and the account as they are, with no answers |
| `ScoreRuns.AnswersAreAssessed` | backend/internal/dispute/application/service.go:555-577 | a received questionnaire is assessed once more: one contradiction adds 15 to the score without answers, more add 25 |
| `Causes.OpeningEstablishesCauses` | backend/internal/dispute/application/service.go:327-407 | a new dispute's clocks are what its log says |
| `Causes.AttemptKeepsCauses` | backend/internal/dispute/application/service.go:416-500 | every attempt leaves a log that explains each ledger entry, its instant and its currency, and each clock |
| `Causes.PostingIsExplained` | backend/internal/dispute/domain/ledger.go:100-137 | the posting a state causes is of the kind, between the accounts and for the credit its event and payload call for |
| `Causes.ALossHasACause` | backend/internal/dispute/domain/ledger.go:100-137 | a loss on the bank's books needs a chargeback lost without provisional credit, or a closing whose text is WRITTEN_OFF or is empty under a row that writes off |
| `Causes.ARefundClockEndsOnce` | backend/internal/dispute/domain/deadline.go:171-195 | a refund clock is met exactly when a credit came before any closing, at that credit's instant, and void exactly when the dispute closed first, at that instant; so voided at a first close it stays void |
| `Causes.SettlementExplains` | backend/internal/dispute/domain/deadline.go:175-195 | settling one clock keeps what the log says of it |
| `Runs.EveryRunIsSound` | backend/internal/dispute/application/service.go:416-500 | all these invariants hold after every run of openings, events, moves, failures and retries over any number of disputes and one core |
| `Runs.ActKeepsWorld` | backend/internal/dispute/application/service.go:416-500 | each action keeps them for every dispute |
| `Runs.OnlyTheInstructionReachesTheCore` | backend/internal/dispute/application/service.go:661-706 | an attempt touches the core through at most one instruction, that of its posting |
| `Openings.EveryDisputeIsAsOpened` | backend/internal/dispute/application/service.go:327-407 | after every run each dispute still has the tenant, regime, reason, account, amount, currency and instant of the one action that opened it |
| `Openings.EveryInstructionNamesTheAccount` | backend/internal/dispute/application/service.go:681-706 | whatever any attempt of a run sends names the account the dispute was opened on |
| `Openings.TheClaimBoundsTheCustomer` | backend/internal/dispute/domain/ledger.go:63-137 | after every run the books are conserved and the customer holds at most the amount claimed at the opening for each cycle |
| `Transfers.UnacceptableFactsAreRefused` | backend/internal/dispute/domain/ledger.go:63-88 | whatever the event, a liability that is unreadable or out of bounds, or a settlement that is none of the three texts, is refused with books and core untouched |
| `Transfers.AnEventMakesItsTransfer` | backend/internal/dispute/domain/ledger.go:100-137 | a committed event changes the four balances by exactly the transfer its kind, its payload and the suspense it found say |
| `Transfers.AClosingSettlesAsAsked` | backend/internal/dispute/domain/ledger.go:79-113 | a closing moves all that is in suspense to recovery for RECOVERED, to loss for WRITTEN_OFF and where the row says for no text, and touches nothing else |
| `Guards.NothingUnauthorised` | backend/internal/dispute/application/service.go:430-433 | an attempt the authorizer refuses is refused and leaves the case and the core as they were |
| `Guards.AnOpeningGoesThroughIff` | backend/internal/dispute/application/service.go:327-407 | a dispute is opened exactly for the authorised under a known regime, if what comes with it goes through |
| `Guards.OnlyAuthorisedActionsMatter` | backend/internal/dispute/application/authorize.go:22-51 | dropping every unauthorised action from a run leaves the same world |
| `Guards.TheCoreIsSent` | backend/internal/dispute/application/service.go:416-500 | exactly which events reach the core, after which checks, and with which reference, account, direction and amount |
| `Guards.AnEventCommitsIff` | backend/internal/dispute/application/service.go:416-500 | on every dispute a run can reach, an event commits exactly if it is authorised, accepted in its state, in order in every fact, not held, and approved by the core where it asks |
| `Guards.ADeclineReadsAsOne` | backend/internal/dispute/application/service.go:681-706 | where the core is asked and does not approve, no money moves and the refusal is a decline, or unavailability if there was no core or no answer |
| `Guards.AQuestionnaireIsAskedAndAnswered` | backend/internal/dispute/application/service.go:598-624 | a questionnaire is what was last sent, with exactly the answers last received |
| `Guards.ARefundIsHeldFrom45On` | backend/internal/dispute/application/service.go:580-594 | a refund is put on hold exactly from a score of 45 on without a reason that is not blank, whatever else there is to say about it |
| `Guards.AMoveMovesOnly` | backend/internal/dispute/application/routing.go:43-82 | a move goes through exactly for the authorised to a team of the tenant's, logs itself and changes nothing else |
| `Remedies.MadeWholeBeforeTheMerchantIsPursued` | backend/internal/dispute/domain/state.go:160-207 | after every run, under a row with a refund, a dispute with a chargeback under way was refunded in this cycle, and from the refund until it is settled a positive claim has its credit in suspense, within the cap of the claim |
| `Payments.CommittedMeansApproved` | backend/internal/dispute/application/service.go:661-706 | a committed customer posting is the instruction that was sent, and the core approved it |
| `Payments.AttemptKeepsPaidIff` | backend/internal/dispute/application/service.go:661-706 | what is committed on a dispute stays paid through an attempt on it exactly when the attempt, if it commits, was not mistaken for another reference |
| `Payments.OthersStayPaid` | backend/internal/dispute/infrastructure/mockcore/mockcore.go:140-155 | no attempt pays or unpays what another reference names |
| `Payments.OthersStayReconciled` | backend/internal/dispute/infrastructure/mockcore/mockcore.go:140-155 | an instruction disturbs nothing another reference names |
| `Payments.CommitReconcilesIffAmountsAgree` | backend/internal/dispute/infrastructure/mockcore/mockcore.go:116-121 | a commit leaves books and bank equal exactly when what already moved under its reference was for the same amount |
| `Reconciliation.PaidIffCommitsUnmistaken` | backend/internal/dispute/application/service.go:661-706 | however references are numbered, after every run through a connected core all that is committed on a dispute was approved and paid under its own reference exactly when no commit on it was mistaken for another |
| `Reconciliation.EveryPostingIsPaid` | backend/internal/dispute/application/service.go:661-706 | so with references told apart every committed customer posting was paid |
| `Reconciliation.AttemptReconcilesIff` | backend/internal/dispute/infrastructure/mockcore/mockcore.go:116-121 | an attempt leaves its dispute reconciled exactly when it was, and the attempt, if it commits, agrees with what had moved |
| `Reconciliation.ReconciledIffCommitsAgree` | backend/internal/dispute/infrastructure/mockcore/mockcore.go:116-121 | after every run through a connected core a dispute's committed amounts are the amounts moved exactly when no commit on it repeated a reference with another amount |
| `Reconciliation.TheBankAgreesWithTheBooks` | backend/internal/dispute/infrastructure/mockcore/mockcore.go:114-137 | with commits neither mistaken nor disagreeing, the signed movements under the dispute's committed references sum to its customer balance |
| `Bookings.WhatIsBookedStays` | backend/internal/dispute/application/service.go:661-706 | what an attempt sends and commits is and stays on the ledger |
| `Bookings.EntriesWereBooked` | backend/internal/dispute/application/service.go:661-706 | every entry on the customer's account was sent and committed by some attempt of the run |
| `Bookings.BookedIffPaymentsAreBooked` | backend/internal/dispute/application/service.go:661-706 | after every run, all that moved for a dispute is on its ledger exactly when each payment for it was committed at the version it was made, by itself or by a retry |
| `Bookings.BooksAreTheBankIff` | backend/internal/dispute/infrastructure/mockcore/mockcore.go:114-137 | the exact condition, over every run through a connected core, for a dispute's books and the bank to say the same |
| `Bookings.AllThatMovedIsTheBalance` | backend/internal/dispute/infrastructure/mockcore/mockcore.go:114-137 | then all movements of the dispute sum to its customer balance |
| `Movements.MoneyMovesForANewNumber` | backend/internal/dispute/infrastructure/mockcore/mockcore.go:114-137 | an attempt of any kind moves money exactly when it sends a willing core a number nothing has moved under |
| `Movements.OneReferenceAVersion` | backend/internal/dispute/application/service.go:661-676 | at one version of a dispute every attempt that reaches the core uses the same reference |
| `Movements.WhatMovedWasPaid` | backend/internal/dispute/infrastructure/mockcore/mockcore.go:114-137 | whatever has moved in a run was moved by one of its attempts, under the reference that attempt sent |
| `Movements.VersionsOnlyGrow` | backend/internal/dispute/application/apptest/memstore.go:412-440 | versions never go back, and a dispute is the same whenever its version is |
| `Movements.AnAttemptPaysUnlessItsNumberHas` | backend/internal/dispute/infrastructure/mockcore/mockcore.go:114-137 | in every run, however references are numbered, an attempt moves money exactly when it sends a willing core a number no earlier attempt paid under |
| `Movements.SentIsUnmistaken` | backend/internal/dispute/infrastructure/mockcore/mockcore.go:140-155 | if the references sent in a run are told apart, none is mistaken for another, because whatever moved was sent |
| `Movements.AnAttemptPaysUnlessItsVersionHas` | backend/internal/dispute/application/service.go:661-706 | then an attempt moves money exactly when it sends a willing core an instruction and no earlier attempt at that version has paid |
| `Movements.ARetryPaysAgainIffTheVersionMoved` | backend/internal/dispute/application/service.go:661-706 | in every run with references told apart and no payment for the dispute in between, an attempt after a paid one pays again exactly when the version has moved on |
| `Movements.NothingMovesAhead` | backend/internal/dispute/infrastructure/mockcore/mockcore.go:140-155 | nothing has moved for a dispute that is not there, or beyond the next version of one that is |
| `Retries.RefundCommitsIfTheRestDoes` | backend/internal/dispute/application/service.go:628-676 | a refund the core approves has moved money whether or not its transaction then commits |
| `Retries.ARetryWithAnotherAmountDisagrees` | backend/internal/dispute/infrastructure/mockcore/mockcore.go:116-121 | a retry with another liability commits an amount the bank never moved |
| `Retries.AMoveBetweenRetriesPaysTwice` | backend/internal/dispute/application/routing.go:43-82 | a move between two tries of one refund makes the bank pay twice for one ledger entry |
| `Retries.APaymentMayBeLeftBehind` | backend/internal/dispute/application/service.go:661-706 | a refund paid, rolled back and never retried: the dispute closes with an empty ledger, every commit agreeing with the bank, and the customer keeps the money |
| `Retries.ACreditableDisputeIsReached` | backend/internal/dispute/application/service.go:416-500 | such disputes are reachable |
| `Interleaving.LosersChangeNothing` | backend/internal/dispute/application/ports.go:156-160 | a request that loses the version check changes nothing and never reaches the core |
| `Interleaving.InterleavingsAreSerial` | backend/internal/dispute/application/service.go:434-469 | every interleaving of openings and requests over any disputes and one core has the effect of its winners running one at a time |
| `Interleaving.EveryInterleavingIsSound` | backend/internal/dispute/application/apptest/memstore.go:412-440 | so under every interleaving every invariant of runs holds: each log is numbered 1..version, connected, and folds to its record, and money has moved at most once per reference |
| `Interleaving.EveryInterleavingIsPaid` | backend/internal/dispute/application/service.go:661-706 | and through a connected core, with references told apart, each committed customer posting was approved and paid under its own reference |
| `Idempotency.AKeyIsAnsweredOnce` | backend/internal/dispute/application/service.go:935-992 | after a first answer every later request under the key replays that view or is refused, and changes nothing |
| `Idempotency.AKeyedWriteCommitsOnce` | backend/internal/dispute/application/service.go:935-992 | the wrapped write commits at most once per key |
| `Idempotency.AFailureLeavesTheKeyFree` | backend/internal/dispute/application/service.go:935-992 | a failed attempt leaves the table of keys as it was |
| `Idempotency.OtherNamesAreIndependent` | backend/internal/dispute/application/service.go:935-992 | a request decides nothing for one of another tenant, another key or another scope |
| `Idempotency.AFreshKeyProceeds` | backend/internal/dispute/application/service.go:935-992 | a key under which no request of the tenant came before, with its scope or the bare one, lets the write run |
| `Idempotency.AnOldKeyIsNotUsedAgain` | backend/internal/dispute/application/service.go:935-992 | a key answered under the bare scope is never written under again, and refused unless its own scope has an answer |
| `Store.MemStore.TakeSnapshot` | backend/internal/dispute/application/apptest/memstore.go:205-237 | copies the nine tables, and each slice of clocks into an array nothing else can write to |
| `Store.MemStore.Restore` | backend/internal/dispute/application/apptest/memstore.go:239-242 | brings the nine tables back, but not the notice counter |
| `Store.MemStore.EndTx` | backend/internal/dispute/application/apptest/memstore.go:148-162 | keeps what was done, or puts the copies back |
| `Store.MemStore.WithTx` | backend/internal/dispute/application/apptest/memstore.go:148-162 | whatever operations ran before one failed, in-place settlement included, the nine tables equal their values before; on success they are what the operations made them |
| `Store.MemStore.Body` | backend/internal/dispute/application/apptest/memstore.go:148-162 | operations run in order up to the first that fails |
| `Store.StopsAtTheFirstFailure` | backend/internal/dispute/application/apptest/memstore.go:148-162 | what follows a failure has no part in the outcome |
| `Store.ClosedDisputesAreNotTouched` | backend/internal/dispute/application/apptest/memstore.go:391-410 | every operation that looks its dispute up is refused, and changes nothing, for another tenant and for an analyst of another team, who may at most compare a version |
| `Store.OtherDisputesAreLeftAlone` | backend/internal/dispute/application/apptest/memstore.go:371-725 | no operation changes the rows of a dispute it is not about |
| `Store.RecordsAreComparedAndSet` | backend/internal/dispute/application/apptest/memstore.go:412-430 | a record is advanced or moved exactly by whoever names its tenant and the version it has |
| `Store.InsertionsAreMarked` | backend/internal/dispute/application/apptest/memstore.go:371-376 | a record is stored as the caller's own tenant's, and a notice under the next number |
| `Store.SettlementsAreStamped` | backend/internal/dispute/application/apptest/memstore.go:525-541 | a settlement stamps exactly the open clocks of its kind and cycle |
| `Store.AnswersAreTheTenants` | backend/internal/dispute/application/apptest/memstore.go:446-460 | answers kept for a tenant are touched by no other |
| `Cases.AppendedUpToATakenReference` | backend/internal/dispute/application/apptest/memstore.go:561-574 | what is appended is a beginning of the entries, ending before the first whose reference is taken |
| `Store.MemStore.InsertDispute` | backend/internal/dispute/application/apptest/memstore.go:371-376 | the row is stored under the caller's tenant |
| `Store.MemStore.UpdateDisputeState` | backend/internal/dispute/application/apptest/memstore.go:412-420 | compare-and-set on version, a conflict when tenant or version differ |
| `Store.MemStore.UpdateDisputeTeam` | backend/internal/dispute/application/apptest/memstore.go:422-430 | the same check for a move |
| `Store.MemStore.AppendEvent` | backend/internal/dispute/application/apptest/memstore.go:432-440 | appends unless the number is taken |
| `Store.MemStore.PutIdempotent` | backend/internal/dispute/application/apptest/memstore.go:454-460 | the answer is stored under tenant, scope and key |
| `Store.MemStore.InsertDeadlines` | backend/internal/dispute/application/apptest/memstore.go:510-516 | clocks are appended to those of a dispute the caller can see |
| `Store.MemStore.SettleDeadline` | backend/internal/dispute/application/apptest/memstore.go:525-541 | stamps the open clocks of one kind and cycle in place, and no others |
| `Store.MemStore.AppendLedger` | backend/internal/dispute/application/apptest/memstore.go:561-574 | entries go in up to the first whose reference is taken |
| `Store.MemStore.SendQuestionnaire` | backend/internal/dispute/application/apptest/memstore.go:587-594 | a questionnaire is sent afresh, without answers |
| `Store.MemStore.AnswerQuestionnaire` | backend/internal/dispute/application/apptest/memstore.go:596-607 | answers are recorded once; a questionnaire not sent or already answered is not found |
| `Store.MemStore.InsertNotice` | backend/internal/dispute/application/apptest/memstore.go:635-643 | a notice takes the next number of the counter |
| `Store.MemStore.InsertRisk` | backend/internal/dispute/application/apptest/memstore.go:690-696 | an assessment is appended |
| `Store.MemStore.InsertAttachment` | backend/internal/dispute/application/apptest/memstore.go:718-725 | an attachment is stored for a dispute the caller can see |
| `StoreEffects.WritesAreActions` | backend/internal/dispute/application/service.go:416-500 | what a service call does to the world is one action of a run, or nothing |
| `StoreEffects.CallsKeepTheInvariant` | backend/internal/dispute/application/service.go:935-992 | so service calls keep the invariants of every run |
| `StoreEffects.TheRefusedChangeNothing` | backend/internal/dispute/application/service.go:422-433 | to a caller of another tenant or team a dispute is not found, to one not authorised it is forbidden, and neither changes the world |
| `StoreEffects.ACallCommitsIff` | backend/internal/dispute/application/service.go:416-500 | in every world a run can reach, a call goes through exactly for a caller who may see and do it, if the event commits |
| `StoreEffects.TransactionIsTheWrite` | backend/internal/dispute/application/apptest/memstore.go:148-162 | rows kept on success and put back on refusal make a transaction the specified write |
| `StoreEffects.KeyedIsGuarded` | backend/internal/dispute/application/service.go:935-992 | rows kept on success and put back on refusal make a keyed transaction the write guarded by the key |
| `StoreEffects.OpeningIsTheWrite` | backend/internal/dispute/application/apptest/memstore.go:148-162 | the same for an opening |
| `StoreEffects.StateMovesAndLogGrows` | backend/internal/dispute/application/service.go:443-469 | advancing the record and appending its entry touch that dispute's record and log and nothing else |
| `StoreEffects.LogGrowsAndTeamMoves` | backend/internal/dispute/application/routing.go:74-82 | logging a move and making it touch that dispute's record and log and nothing else |
| `StoreEffects.SettlingTouchesOnlyClocks` | backend/internal/dispute/application/apptest/memstore.go:525-541 | settlement changes that dispute's clocks and nothing else |
| `StoreEffects.LedgerIsAppended` | backend/internal/dispute/application/apptest/memstore.go:561-574 | appending changes that dispute's ledger and nothing else |
| `Service.Service.SettleDeadlines` | backend/internal/dispute/application/service.go:503-538 | the dispute's clocks become the settled ones and, after an appeal, the restarted one |
| `Service.Service.SettleOpen` | backend/internal/dispute/application/service.go:503-538 | the loop over open clocks settles each as its own rule says |
| `Service.Service.InstructCore` | backend/internal/dispute/application/service.go:681-706 | sends the posting's instruction; a decline becomes a refusal |
| `Service.Service.BookMovements` | backend/internal/dispute/application/service.go:661-676 | books movements in order and stops at the first the core refuses, with what the core did before kept |
| `Service.Service.ReadFacts` | backend/internal/dispute/application/service.go:628-660 | the amounts and the settlement are read exactly when both are acceptable, the settlement by its text, with the suspense balance of the rows as they are |
| `Service.Service.Post` | backend/internal/dispute/application/service.go:628-676 | the ledger gains exactly the movements the new state causes, or the step refuses; what is in suspense at a closing goes to recovery or loss as the text asks |
| `Service.Service.AskOrAnswer` | backend/internal/dispute/application/service.go:598-624 | sends the questionnaire or records acceptable answers once |
| `Service.Service.RecordEvent` | backend/internal/dispute/application/service.go:443-469 | record, log, questionnaire and clocks advance together |
| `Service.Service.Rescore` | backend/internal/dispute/application/service.go:555-577 | a received questionnaire adds one assessment |
| `Service.Service.ApplyEventTx` | backend/internal/dispute/application/service.go:416-500 | the transaction's outcome, the core's state and, on success, exactly this dispute's new rows; a caller outside the tenant or team, or not authorised, is refused before the core is reached |
| `Service.Service.KeyedEvent` | backend/internal/dispute/application/service.go:935-992 | inside one transaction the key is consulted, the event written and the answer kept |
| `Service.Service.ApplyEvent` | backend/internal/dispute/application/service.go:416-500 | the whole call, keyed or not, is the specified write guarded by the key; a refusal leaves every row as it was, and what is refused to the caller leaves the core too |
| `Service.Service.ConsultKey` | backend/internal/dispute/application/service.go:935-992 | what the key alone decides: replay, refuse, or proceed |
| `Service.Service.CreateDisputeTx` | backend/internal/dispute/application/service.go:327-407 | opening writes the record, its first entry, its clocks and its assessment, or refuses |
| `Service.Service.KeyedOpening` | backend/internal/dispute/application/service.go:935-992 | the same transaction around an opening |
| `Service.Service.CreateDispute` | backend/internal/dispute/application/service.go:327-407 | the whole opening is the specified write guarded by the key, and a refusal leaves every row as it was |
| `Service.Service.ReassignTx` | backend/internal/dispute/application/routing.go:43-82 | a move is decided, logged and made under the version check |
| `Service.Service.Reassign` | backend/internal/dispute/application/routing.go:43-82 | the whole move is the specified write, or nothing |
| `Paging.Listing` | backend/internal/dispute/application/apptest/memstore.go:462-492 | the first rows in order, all of the caller's tenant and, for an analyst, teams, of the state and reason asked for and overdue if asked |
| `Paging.ListDisputes` | backend/internal/dispute/application/service.go:873-918 | every item is stored and is what the caller may see and asked for; a page without Next holds exactly all that is, and Next exists exactly when something is left; pages are of 25 or of the 1 to 100 asked for |
| `Paging.NextDeadlines` | backend/internal/dispute/application/apptest/memstore.go:543-559 | a listed dispute shows its earliest open clock exactly when it has one |
| `Paging.NothingIsListedTwice` | backend/internal/dispute/application/service.go:872-918 | whatever happens to the store between pages, nothing is returned twice or out of order |
| `Paging.NothingIsSkipped` | backend/internal/dispute/application/service.go:872-918 | whatever else happens, a dispute selected whenever a page is served is returned or still ahead |
| `Paging.EachSelectedDisputeIsListedOnce` | backend/internal/dispute/application/service.go:872-918 | following Next ends and returns exactly the disputes selected at the start, each once, newest first, for every limit |
| `Paging.AnUnchangedStoreIsSteady` | backend/internal/dispute/application/service.go:872-918 | this holds of a store that does not change, under every filter on state and reason at whatever times, and under the overdue filter at one instant |
| `Paging.TimeOnlyAddsOverdueDisputes` | backend/internal/dispute/application/service.go:872-918 | under the overdue filter, as time passes over a store that does not change, following Next ends, lists each dispute selected at the start once, and nothing that was not selected when served |
| `Paging.LaterDisputesAreSteady` | backend/internal/dispute/application/service.go:872-918 | and of unfiltered pages between which later-opened disputes are inserted and others change |
| `Grants.Compile` | backend/internal/dispute/authz/compile.go:27-43 | one permit for each row that can be expressed safely, in order, and the rest reported |
| `Grants.ExpressibleIffPlain` | backend/internal/dispute/authz/compile.go:15-34 | exactly the rows with one of the three roles, a team and an action of 1 to 64 letters, digits, underscores and hyphens (and colons, in actions), and a limit in range become permits |
| `Grants.StandsIffPlain` | backend/internal/dispute/authz/authz.go:56-76 | the grants in force are the plain ones no later plain one for the same team, role and action replaces |
| `Grants.IdsAreKeys` | backend/internal/dispute/authz/compile.go:35-36 | policy ids coincide exactly for grants with one team, role and action |
| `Grants.StandingGrantsAreInForce` | backend/internal/dispute/authz/authz.go:56-76 | the policy set holds exactly the permits of grants no later grant with their key replaces |
| `Grants.Ladder` | backend/internal/dispute/authz/entities.go:29-36 | the entities' parents are exactly lead over senior over junior, team by team |
| `Grants.Entities` | backend/internal/dispute/authz/entities.go:29-70 | the graph's edges are the ladder, an analyst's memberships and the dispute's team; the teams an analyst leads are those it is lead of; amounts are capped |
| `Grants.InARoleIffHeld` | backend/internal/dispute/authz/entities.go:29-70 | an analyst is in a team's role exactly when a membership is that rung or one above it, a tenant key never |
| `Grants.InATeamIffItsOwn` | backend/internal/dispute/authz/entities.go:65-68 | a dispute is in its own team and no other |
| `Grants.PermittedIffAGrantLetsIt` | backend/internal/dispute/authz/authz.go:78-99 | a permit applies exactly when some standing grant names the team, a held rung, the action and a limit not below the capped amount |
| `Grants.GuardrailsStandFirm` | backend/internal/dispute/authz/authz.go:70-75 | no grant displaces a guardrail in the policy set, and none poses as one |
| `Grants.GuardrailsDecide` | backend/internal/dispute/authz/policy/guardrails.cedar:1-34 | on disputes the guardrails refuse exactly: its final credit to whoever opened the investigation or to anyone if that was not recorded, a move to all but the team's leads, and the actions for people to keys |
| `Grants.AllowedIffLetAndNotRefused` | backend/internal/dispute/authz/authz.go:78-99 | an analyst may act on a dispute exactly when a standing grant lets it and no guardrail refuses it, a tenant key exactly when none refuses it |
| `Grants.LimitsAreHonouredExceptAtTheTop` | backend/internal/dispute/authz/entities.go:59-64 | capping changes a decision exactly when an amount beyond the range meets only a limit at its top |
| `Grants.LimitsBelowTheTopAreHonoured` | backend/migrations/0023_access.sql:28 | with every limit below that, as the column demands, decisions follow the limits as written |
| `Grants.ALimitAtTheTopLetsMoreThrough` | backend/internal/dispute/authz/compile.go:15-16 | a tenant for which that happens |
| `Grants.Engine.PolicySetOf` | backend/internal/dispute/authz/authz.go:56-76 | cached or compiled anew, the policy set is that of the grants, when a version names one set of grants |
| `Grants.Engine.Ask` | backend/internal/dispute/authz/authz.go:78-99 | the question put to Cedar about a dispute is answered yes exactly in those cases; an amount below the range is an error |
| `Duties.FindOpener` | backend/internal/dispute/application/authorize.go:72-90 | the loop over the log finds who opened the investigation, with the stand-in if it was not recorded |
| `Duties.EveryRunInvestigatesOnce` | backend/internal/dispute/domain/state.go:143-261 | in every run an investigation is opened at most once for a dispute, and exactly once outside INITIATED unless no questions are asked |
| `Duties.TheEngineHeedsTheLog` | backend/internal/dispute/authz/policy/guardrails.cedar:1-9 | whatever the grants, the engine's answer on facts read from the log refuses a final credit to the analyst on record, and to every analyst if nobody is |
| `Duties.NobodyCreditsTheirOwnInvestigation` | backend/internal/dispute/authz/policy/guardrails.cedar:1-9 | so after every run an analyst whose final credit goes through is not the one, recorded by name, who opened the dispute's investigation |
| `Limiter.FailureLimiter.RecentLocked` | backend/internal/platform/auth/failures.go:69-77 | what is left after trimming is as many failures as were ever recorded within the minute |
| `Limiter.FailureLimiter.SweepLocked` | backend/internal/platform/auth/failures.go:79-90 | sweeping keeps all that can still count |
| `Limiter.FailureLimiter.Blocked` | backend/internal/platform/auth/failures.go:56-61 | a peer is blocked exactly when at least perMinute of all its failures ever recorded are not older than a minute |
| `Limiter.FailureLimiter.Record` | backend/internal/platform/auth/failures.go:63-67 | the history gains exactly this failure at the latest reading |
| `Limiter.FailureLimiter.Enter` | backend/internal/platform/auth/failures.go:43-48 | a peer is let through exactly below the limit, and what is bounded stays bounded with one more request of it under way |
| `Limiter.FailureLimiter.Leave` | backend/internal/platform/auth/failures.go:49-52 | only a refused credential is counted; with at most c requests of a peer at once between check and end, no minute ever holds more than perMinute + c − 1 of its failures |
| `Limiter.FailureLimiter.Handle` | backend/internal/platform/auth/failures.go:32-54 | with none of its peer's requests beside it, no minute holds more than perMinute |
| `Limiter.RecordingKeeps` | backend/internal/platform/auth/failures.go:63-77 | recording onto the trimmed times loses nothing that can still count |
| `Limiter.ForgettingKeeps` | backend/internal/platform/auth/failures.go:79-90 | dropping an idle peer loses nothing that can still count |
| `Limiter.TheRestCounts` | backend/internal/platform/auth/failures.go:69-77 | trimming a prefix of old times leaves the failures of the minute |
| `Limiter.StaysLimited` | backend/internal/platform/auth/failures.go:32-54 | one more failure keeps every minute within a bound if there was room at an instant since the one before |
| `Emission.CollectRefs` | frontend/scripts/generate-api.ts:92-99 | the set gains exactly the names the node refers to, at any depth |
| `Emission.MentionedIsPointedAt` | frontend/scripts/generate-api.ts:92-99 | a node mentions whatever it points at, at any depth, with the literal prefix and the name, and nothing else if its references are all to schemas |
| `Emission.Emitter.EmitAfterDependencies` | frontend/scripts/generate-api.ts:100-107 | terminates on cyclic graphs too, only appends, and keeps the order's invariant |
| `Emission.Emitter.EmitAll` | frontend/scripts/generate-api.ts:90-108 | every schema and every name mentioned appears exactly once, and each after what it refers to exactly when the graph has no cycle |
| `Emission.AfterEverythingReached` | frontend/scripts/generate-api.ts:90-108 | in such an order a schema comes after everything it reaches through any chain of references |
| `Emission.OnlyAcyclicGraphsCanBeOrdered` | frontend/scripts/generate-api.ts:90-108 | a cyclic graph has no such order |
| `Emission.NotOnTheStack` | frontend/scripts/generate-api.ts:100-107 | without cycles, what is referred to is never among the names still being written out |

## Left out

- Notices, mail and templates: of a notice the service model keeps only that the acknowledgement meets its clock; the
  store models the row and its counter. The notice outcome, which reads the whole ledger, is not modelled.
- Templates, logos and avatars in the store: transactions write them too, and a rollback does not bring them back.
- Views: a view is the rows it is rendered from.
- Routing rules: which team a new dispute goes to is an input; the first matching rule is a plain selection.
- Deriving the regime from a transaction's rail and currency, and parsing a reason: both are inputs.
- Decimal rendering: money is exact, so formatting and currency precision are not represented.
- Calendars.FindDue: does not model time zones whose clocks skip a local midnight or are set back across one; the rules
  of a zone are any that cut time into days.
- The text of payloads: JSON that is not an object, JSON whose facts do not decode, and the facts are told apart; the
  override is blank when it consists of spaces, tabs and line ends, without the other Unicode spaces.
- The questionnaire's questions: whether answers are acceptable and how often they contradict are inputs.
- Purging: stored idempotency keys and draft attachments never expire here.
- The hash of a request body: compared, never computed. The dispute is not part of a stored key, as in the source.
- Identifiers: a new dispute's identifier is one no table has a row for.
- The banking core's latency and outages beyond giving no answer, malformed core settings, and the trace number of a
  message.
- PostgreSQL: only the version check and the unique numbering of a dispute's log are used, in `Interleaving`.
- Cedar itself and its policy text: policies are values, `in` is reflexive and transitive reachability, and a request is
  allowed when some policy permits it and none forbids it.
- Requests about a team or about the tenant itself: the grants model covers analysts and tenant keys acting on an
  existing dispute.
- Handlers, sessions, sign-in, telemetry, configuration, and the rest of the frontend.
- Service.Service.ApplyEvent: does not model retries inside a call or a core that answers after the timeout; no answer
  is a refusal.
- Paging.Listing: puts rows in order as it selects them, where the source sorts once; the order is the same.
