# Verified model of the orchestrator's host-side logic

This project models five parts of the desktop agent host and proves what they promise:

1. **The coding router** (`runtime/patch-worker/coding_router.py`): the checkpoint policy of one coding episode, a state
   machine with a finishing reserve, check schedules, a one-shot critic and repair phase, a one-shot cloud hand-off and a
   hash-chained decision log.
2. **The budget ledger, the attempt unit of work and the event store** (`src/main/budget-ledger.ts`,
   `src/main/attempt-unit-of-work.ts`, `src/main/event-store.ts`, with the row guards of `src/main/database.ts` and the
   reducer of `src/shared/session-reducer.ts`): an append-only money ledger that commits together with an append-only
   event log.
3. **The cloud egress policy** (`src/main/cloud-egress-policy.ts`): provenance that must partition every message exactly,
   and a bounded closure of every text under string transforms.
4. **The select-and-repair loop** (`scripts/phase4-loop.ts`): a resumable workflow whose stage directories outlive the
   process.
5. **Canonical change records and review coverage** (`src/main/change-acquisition-contracts.ts`): the serializer every
   identity rests on, and the derivation of coverage from verified records.

Run `dafny verify dfyconfig.toml` to check everything.

## How the model is built

Every object whose methods update its fields is a class here (`CodingRouter`, `SoarDatabase`, `EventStore`,
`BudgetLedger`, `AttemptUnitOfWork`, `SelectionLoop`), and every loop that updates variables is a loop. Each method is
proved equal to a specification function on values (`RouterSpec`, `Ledger`, `Sessions`, `EventStore.dfy`'s `Append`,
`AttemptUnit.dfy`'s `BudgetedStart` and `AttemptFinish`, `LoopRuns.Loop`, `CoverageSpec`) or to a declarative condition (the
egress methods). The theorems are then proved about whole runs of those functions, and the `Audit` files say in so many
words what a decision log, a ledger, a session, a saved record and a coverage record must show, without those functions. A
thrown error is a failure result that leaves the state as it was.

| file | what it holds |
|---|---|
| `RouterTypes`, `RouterSpec` | the episode, its calls and its decision log as functions |
| `RouterInvariants`, `RouterHistory`, `RouterTheorems`, `RouterSafety` | what every run keeps, and what a run's end proves |
| `RouterAudit`, `RouterAcceptance` | why each decision of a log is what it is, and exactly when a call is accepted |
| `CodingRouter` | the mutable object, every method equal to its function |
| `Pricing`, `Ledger`, `LedgerTheorems`, `LedgerAudit` | prices, guarded row insertion, exposure and its bound, and what a lawful ledger looks like |
| `Sessions`, `EventStore`, `StoreTheorems`, `SessionTheorems`, `SessionAudit` | the reducer, the append, what appends keep, and what every replayable session says |
| `Reconciliation`, `BudgetLedger`, `ReconciliationTheorems` | what the reconciliation gate accepts, the gate's loops, and what acceptance means |
| `AttemptUnit`, `CommitAudit`, `PersistenceInvariant`, `PersistenceSteps`, `PersistenceCommits`, `PersistenceFinishes`, `PersistenceTheorems` | the atomic commits, what each has added, and every interleaving of them |
| `EgressPaths`, `EgressScan`, `EgressClosure`, `EgressProvenance`, `EgressMessages`, `EgressPolicy` | path views, the worklist, the closure told from the transforms, the partition sweep, the scanned texts, the decision |
| `LoopSpec`, `LoopRun`, `LoopHistory`, `SelectionLoop`, `LoopTheorems` | the uninterrupted loop, one invocation and the whole life of a directory as functions, what an invocation keeps, the mutable object, and their agreement |
| `LoopAudit`, `LoopStages` | what a saved record says, and what one invocation starts and lists |
| `JsonText`, `CanonicalJson`, `JsonRecords`, `CanonicalTheorems`, `JsonReader`, `GitIndex` | canonical texts and why they identify their records |
| `ReviewRecords`, `CoverageSpec`, `CoverageSums`, `CoverageTheorems`, `CoverageSchema`, `ReviewCoverage`, `CoverageJson`, `CoverageAudit` | coverage: its meaning, its derivation, its schema and its check |
| `Text`, `Sorting`, `Wrappers` | UTF-16 texts, library sorting, results and options |

Modelling decisions that a reader should know:

- SHA-256 is an injective constructor in the router's log (`TextDigest`, `EvidenceId`) and an arbitrary function parameter
  elsewhere; nothing in the egress or coverage theorems needs it to be injective.
- Seconds that the router receives as floats are real numbers; `_milliseconds` keeps its floor and its ceiling.
- `BEGIN IMMEDIATE` is a copy of the tables that a rollback restores. Fault points of the original's fault injector are
  parameters, so a crash can hit after the budget mutation and after every single persisted event.
- Table order is insertion order, which is what `ORDER BY created_at, rowid` gives; foreign keys are part of the insertion
  guards. Runs start from an empty database, so there are no rows without a cost scope.
- `src/shared/session-reducer.ts` and `src/shared/session-events.ts` reject a decision that differs from its egress
  admission, a finish with another cost scope, a session that ends with an open attempt, and an unsuccessful finish without
  an `errorCode`. The model has these as rejections of the reducer, so they are not preconditions of any theorem. The
  fallback `finish.errorCode ?? "definitely_unsent"` of `src/main/attempt-unit-of-work.ts:987` is modelled and shown
  harmless for that reason.
- Reducer rejections that are not modelled (messages, tools, leases, obligations) only refuse more events, so every run of
  the original is a run of the model.
- `PersistenceTheorems.Permitted` says that attempts start and finish through the unit of work alone, as the runtime does;
  the theorems on event order (`EventsAreNumberedAndFolded`, `OnlyOneExpectationCommits`) do without it.
- A host price can exceed its reservation by one microdollar, because two rates round up separately:
  `HostPriceCanExceedReservation` gives the input, `WhenReservationsCover` says exactly which reservations cover every
  usage within their estimate, and `SuchRatesCover` gives rates for which every reservation does.
- A stage of the loop that throws and leaves nothing behind, or whose directory is moved aside, does start again; only a
  finished stage never does.
- The code units of a text are numbers below 65536 (`Texts.CodeUnit`), so unpaired surrogates exist.

## Model

| member | source | states |
|---|---|---|
| CodingRouterObject.CodingRouter.constructor | runtime/patch-worker/coding_router.py:145-186 | a router starts exactly in the state that its accepted configuration determines, with its first decision recorded |
| CodingRouterObject.CodingRouter.AllowedActions | runtime/patch-worker/coding_router.py:238-258 | computes the actions open in this state: none, those fixed with the pending request, or the finishing allowance |
| RouterSpec.ActionsFor | runtime/patch-worker/coding_router.py:247-258 | the finishing allowance offers a command exactly above the reserve and outside the forced check, a check exactly while one fits, a submission exactly on a fresh check, and help while a call is left |
| CodingRouterObject.CodingRouter.ShouldRunHostCheck | runtime/patch-worker/coding_router.py:260-269 | the host check falls due exactly at the schedule's boundary, once |
| CodingRouterObject.CodingRouter.BeginHostCheck | runtime/patch-worker/coding_router.py:271-284 | the new state and log are those of the specification, or the error leaves the object alone |
| CodingRouterObject.CodingRouter.BeforeLocalRequest | runtime/patch-worker/coding_router.py:351-388 | as above, for a request with or without a time reserve |
| CodingRouterObject.CodingRouter.AuthorizeAction | runtime/patch-worker/coding_router.py:390-398 | an action passes exactly when a request is pending and allows it |
| CodingRouterObject.CodingRouter.ObserveCommand | runtime/patch-worker/coding_router.py:400-419 | an observation updates duplicates, tree and freshness as specified, or is rejected without a change |
| CodingRouterObject.CodingRouter.ObserveVisibleCheck | runtime/patch-worker/coding_router.py:421-484 | a check passes, counts one failure, times out or is refused, exactly as specified |
| CodingRouterObject.CodingRouter.ValidatePlannerCheck | runtime/patch-worker/coding_router.py:486-505 | the planner check is accepted exactly when it is bound to this artifact and this tree |
| CodingRouterObject.CodingRouter.AskForHelp | runtime/patch-worker/coding_router.py:507-511 | a help request checkpoints, or is rejected without a change |
| CodingRouterObject.CodingRouter.Submit | runtime/patch-worker/coding_router.py:513-531 | a submission ends the phase by policy, or is rejected without a change |
| CodingRouterObject.CodingRouter.MarkCriticStarted | runtime/patch-worker/coding_router.py:533-547 | the one critic request starts on the submitted draft only |
| CodingRouterObject.CodingRouter.MarkCriticComplete | runtime/patch-worker/coding_router.py:549-581 | a settled verdict submits the draft or opens the repair; anything else stops |
| CodingRouterObject.CodingRouter.MarkCloudPlanComplete | runtime/patch-worker/coding_router.py:583-599 | a settled plan binds its planner artifact and opens the local phase |
| CodingRouterObject.CodingRouter.ConfirmHandoff | runtime/patch-worker/coding_router.py:601-638 | the hand-off escalates with its reserves shown, or stops |
| CodingRouterObject.CodingRouter.Stop | runtime/patch-worker/coding_router.py:640-655 | a stop is terminal and keeps no check that someone still had to confirm |
| CodingRouterObject.CodingRouter.Record | runtime/patch-worker/coding_router.py:286-317 | one decision is appended, linked to the one before it, and its event id is used up |
| CodingRouterObject.CodingRouter.Perform | runtime/patch-worker/coding_execution.py:417-586 | any public call leaves the object in the state of the specification's step |
| CodingRouterObject.Converse | runtime/patch-worker/coding_router.py:124-655 | a whole conversation, rejected calls included, ends in the run's state; a submission carries a standing check and the log keeps its bound |
| RouterTheorems.RunsAreSound | runtime/patch-worker/coding_router.py:124-655 | every run keeps the invariant, the log chain, the one-shot flags, the check windows and the duplicate count |
| RouterTheorems.LogIsChained | runtime/patch-worker/coding_router.py:286-317 | after any run the log is numbered without gaps, linked, free of repeated event ids, and its last record is the live state |
| RouterTheorems.EvidenceIdentifiesHistory | runtime/patch-worker/coding_router.py:286-317 | two runs that end in the same evidence id have the same configuration, decisions and used event ids, and live states equal in every field that a record carries or the log counts |
| RouterHistory.EqualTipsMeanEqualLogs | runtime/patch-worker/coding_router.py:291-317 | linked logs with the same last evidence id are equal |
| RouterTheorems.RunsKeepConfig | runtime/patch-worker/coding_router.py:145-186 | no call changes the configuration of a router |
| RouterTheorems.RunsAreFinite | runtime/patch-worker/coding_router.py:286-317 | a run records at most 2 * limit + 7 decisions, however many calls are made |
| RouterHistory.MeasureDecreases | runtime/patch-worker/coding_router.py:260-284 | every accepted call lowers a measure over phase, remaining calls and pending work |
| RouterTheorems.TerminalIsAbsorbing | runtime/patch-worker/coding_router.py:319-321 | submitted and stopped accept no call |
| RouterTheorems.PhasesAreOneShot | runtime/patch-worker/coding_router.py:206-216 | at most one host check, critic request, repair and escalation; draft at most 8, repair at most 4, total at most 12 calls; none where the policy has none |
| RouterTheorems.WindowsHoldACheck | runtime/patch-worker/coding_router.py:247-284 | behind every late state of the windowed schedules stands a completed visible check, and the failed-check counter is the number of failed checks in the whole log, below two while local |
| RouterTheorems.FailuresAreCounted | runtime/patch-worker/coding_router.py:462-484 | after any run the failed-check counter is min(2, completed checks of the log that did not pass), across the repair phase |
| RouterTheorems.DuplicatesAreTheLongestAgreement | runtime/patch-worker/coding_router.py:400-419 | the duplicate counter is min(3, longest agreeing suffix) of the observations since the last completed check or repair start |
| RouterHistory.StreakIsLongestAgreement | runtime/patch-worker/coding_router.py:400-408 | the suffix the counter measures is the longest one that agrees |
| RouterTheorems.RepetitionFiresOnThree | runtime/patch-worker/coding_router.py:338-342 | a command is stopped for repetition exactly when it is the third of such observations |
| RouterInvariants.StartEstablishesInv | runtime/patch-worker/coding_router.py:145-186 | every accepted configuration starts in the invariant |
| RouterInvariants.MoveKeepsInv | runtime/patch-worker/coding_router.py:260-655 | every accepted call keeps the invariant, the finishing reserve in it |
| RouterInvariants.ContinueKeepsInv | runtime/patch-worker/coding_router.py:338-349 | going on after an observation leaves the reserve intact, or checkpoints |
| RouterSafety.SubmissionsAreChecked | runtime/patch-worker/coding_router.py:421-531 | a submitted tree, and a draft handed to the critic, passed the exact configured check and the bound planner check, unchanged since |
| RouterSafety.FreshMeansCheckStands | runtime/patch-worker/coding_router.py:328-331 | whenever the check is fresh, an earlier call of the run is the check behind it |
| RouterSafety.CanAlwaysFinish | runtime/patch-worker/coding_router.py:351-388 | from every reachable idle local state at most a passing check and a submission reach the end of the phase |
| RouterSafety.ReserveIsKept | runtime/patch-worker/coding_router.py:338-349 | an idle local state keeps one call, and two unless its check is fresh |
| RouterSafety.CommandsNeverExhaust | runtime/patch-worker/coding_router.py:338-349 | no command observation exhausts the call limit or the reserve |
| RouterSafety.ReserveSurvivesOnePhase | runtime/patch-worker/coding_router.py:89-99 | with floor and ceiling, half of a strictly exceeded reserve survives one phase that keeps its limits |
| RouterSafety.HandoffCannotStop | runtime/patch-worker/coding_router.py:617-638 | after a request was let through and kept its limits, the hand-off cannot stop for time or calls |
| RouterAudit.LogsAnswer | runtime/patch-worker/coding_router.py:286-655 | every decision of every run has exactly the verdict, reason and state that the facts and figures in its own record call for |
| RouterAudit.VerdictsAreKept | runtime/patch-worker/coding_router.py:549-581 | under the critic policy a submitted draft was found acceptable in the last decision, a repair is open exactly if the log has a settled verdict that requires one, and a settled lack of context is always a stop |
| RouterAudit.CriticCompletes | runtime/patch-worker/coding_router.py:549-581 | in the one state that awaits it, each settled verdict submits, reopens for four calls, or stops, and an unsettled one stops |
| RouterAudit.EndsAreExplained | runtime/patch-worker/coding_router.py:513-638 | after every run a submission is the fresh tree that was submitted or found acceptable, a critic draft went to the critic, an escalation was settled with a call and both reserves left, and every other hand-off and unsettled plan stopped |
| RouterAudit.PlansBindTheirChecks | runtime/patch-worker/coding_router.py:583-599 | a settled plan binds exactly the artifact it names, and no later call of the run changes that |
| RouterAudit.CallsAreOnRecord | runtime/patch-worker/coding_router.py:286-317 | the decision of every accepted call repeats what the call reported, its times rounded down and its limits rounded up |
| RouterAcceptance.ConfigsAccepted | runtime/patch-worker/coding_router.py:145-186 | a router can be made exactly of the configurations listed, and starts blank, in the planner's hands if there is one |
| RouterAcceptance.EventsAccepted | runtime/patch-worker/coding_router.py:260-655 | in every run a call changes the router exactly if its event id is new and state and arguments are what the call needs, field by field |
| RouterAcceptance.LastRecordShowsState | runtime/patch-worker/coding_router.py:286-310 | after every run the last record shows the live state, the calls left in its phase, the evidence of schedule and critic, and the actions open |
| RouterAcceptance.StopsKeepConfirmedChecks | runtime/patch-worker/coding_router.py:640-655 | a stop keeps a passing check unless a planner artifact or a critic had still to confirm it, and drops whatever was pending |
| Pricing.HostPriceStaysNearReservation | src/main/budget-ledger.ts:595-633 | within the estimate the host price exceeds the reservation by at most one microdollar, and not at all without cache reads or with a cache component |
| Pricing.HostPriceCanExceedReservation | src/main/budget-ledger.ts:354-415 | the input on which it exceeds the reservation by that microdollar |
| Pricing.WhenReservationsCover | src/main/budget-ledger.ts:354-415 | a reservation covers every usage within its estimate exactly when it has a nonzero cache component or no split of its input tokens over both rates rounds up beyond its input component |
| Pricing.SuchRatesCover | src/main/budget-ledger.ts:354-415 | a closed condition on rates and rounding residue under which every reservation covers: a whole rate, or a discount that makes up for the second rounding |
| Pricing.HostPricesAgree | src/main/attempt-unit-of-work.ts:654-701 | the two host-pricing functions agree on every input, errors included |
| Pricing.HostPricesAreBilled | src/main/budget-ledger.ts:595-633 | both host prices pay uncached input, output with reasoning, and cache reads each up to a whole microdollar and add the fee; the sum is the price exactly if it is a safe integer |
| Pricing.HostPricesAreExact | src/main/attempt-unit-of-work.ts:654-701 | a host price is the exact cost of all reported tokens rounded up by less than three microdollars, and usage that cannot be priced has none |
| Pricing.ProjectionsAreBilled | src/main/budget-ledger.ts:354-415 | a projection pays each of its three parts up and adds the fee; the sum is its price exactly if it is a safe integer |
| Pricing.StoredRatesReproject | src/main/budget-ledger.ts:531-560 | a stored reservation re-projects to its amount, an absent cache rate read back as zero |
| LedgerTheorems.GuardedIsLinked | src/main/database.ts:352-438 | rows admitted one by one by the guards have unique ids, owned terminals and single resolutions |
| LedgerTheorems.InsertKeepsGuarded | src/main/database.ts:459-542 | an insertion that the guards admit keeps the table guarded |
| LedgerTheorems.InsertKeepsLinked | src/main/database.ts:459-542 | an insertion keeps every link between campaigns, reservations and terminal rows |
| LedgerTheorems.LinkedIsAnchored | src/main/budget-ledger.ts:1205-1303 | in a linked table no campaign holds a terminal row without its reservation |
| LedgerTheorems.ReservationRaisesExposure | src/main/budget-ledger.ts:1205-1303 | a new reservation raises its campaign's exposure by its amount |
| LedgerTheorems.TerminalMovesExposure | src/main/budget-ledger.ts:1205-1303 | a terminal row replaces the outstanding amount by its own |
| LedgerTheorems.ReserveKeepsBounds | src/main/budget-ledger.ts:1305-1447 | a reservation, admitted or denied, keeps every campaign's exposure bound |
| LedgerTheorems.ResolveKeepsBounds | src/main/budget-ledger.ts:1449-1534 | a terminal row keeps every campaign's exposure bound |
| LedgerTheorems.CreateKeepsBounds | src/main/budget-ledger.ts:294-328 | a new campaign keeps every campaign's exposure bound |
| LedgerTheorems.NoOverrunMeansWithinStop | src/main/budget-ledger.ts:1205-1303 | without an overrun, exposure is at most the automatic stop, which is at most the hard ceiling |
| LedgerTheorems.OverrunDisables | src/main/budget-ledger.ts:1394-1447 | after an overrun the campaign's reservations are denied for it and add no row |
| LedgerTheorems.FirstReservationHasTheCap | src/main/budget-ledger.ts:1355-1366 | a session without a reservation has its whole episode cap left |
| LedgerTheorems.EpisodeExposureIsItsReservation | src/main/budget-ledger.ts:1205-1303 | a session's episode exposure is the amount of its one reservation, and once resolved what its terminal row charged |
| LedgerTheorems.WhenAdmitted | src/main/budget-ledger.ts:1305-1447 | a decided reservation is admitted exactly if there is no overrun and the price fits the cap and, on top of the exposure, the ceiling and the stop; a denial names the first that fails |
| LedgerAudit.WhenInsertable | src/main/database.ts:352-542 | a row is admitted exactly if it reads as its kind must and joins the rows before it: ids, credentials, attempts, admissions, campaign and the one end of a reservation |
| LedgerAudit.InsertKeepsLawful | src/main/database.ts:459-542 | a ledger in which every row reads and joins as it must stays so with each admitted row |
| LedgerAudit.WhenCreated | src/main/budget-ledger.ts:680-703 | a campaign is created exactly within safe, ordered limits, in a current scope, under a new id and credential |
| LedgerAudit.WhenResolved | src/main/budget-ledger.ts:1449-1534 | a reservation is resolved exactly once, by a release, settlement or overrun that fits its amount, and by exactly that row |
| LedgerAudit.WhenReserved | src/main/budget-ledger.ts:1305-1447 | a reservation is decided only for a priced, admitted request of the campaign's provider and scope in a session without one, and adds exactly its row or nothing |
| BudgetLedgers.BudgetLedger.InsertCampaign | src/main/budget-ledger.ts:680-703 | inserts the campaign its input describes, or raises the specified error and changes nothing |
| BudgetLedgers.BudgetLedger.Accumulate | src/main/budget-ledger.ts:1205-1303 | the two loops compute exposure, episode exposure and overrun of a campaign |
| BudgetLedgers.BudgetLedger.GetPosition | src/main/budget-ledger.ts:1205-1303 | the position is that of the specification, including its errors |
| BudgetLedgers.BudgetLedger.Reserve | src/main/budget-ledger.ts:1305-1447 | the decision and the new row are those of the specification |
| BudgetLedgers.BudgetLedger.Resolve | src/main/budget-ledger.ts:1449-1534 | the terminal row is appended, or the specified error changes nothing |
| BudgetLedgers.BudgetLedger.ReconcileAttempt | src/main/budget-ledger.ts:878-1062 | one paid attempt passes exactly when it matches reservation, decision, campaign, admission and terminal row |
| BudgetLedgers.BudgetLedger.ReconcileSession | src/main/budget-ledger.ts:858-1064 | a session passes exactly when all its paid attempts do and none is linked twice |
| BudgetLedgers.BudgetLedger.AssertEventReconciled | src/main/budget-ledger.ts:752-1074 | the gate accepts exactly the tables in which ledger and event log agree |
| ReconciliationTheorems.AcceptedAttemptsAreBacked | src/main/budget-ledger.ts:878-1062 | when the gate accepts, every paid attempt has its reservation, decision, campaign and admission, and a terminal row exactly if it is finished, repeating amount, disposition, time, scope and provenance, at the host's price where the host priced it |
| ReconciliationTheorems.ExposureIsLogged | src/main/budget-ledger.ts:752-1074 | when the gate accepts, a campaign's exposure is its opening plus the finish costs and open projections of the paid attempts in the log: nothing else, and nothing twice |
| EventStores.EventStore.GetEvents | src/main/event-store.ts:465-485 | returns the session's events in order |
| EventStores.EventStore.ReplaySession | src/main/event-store.ts:487-493 | returns the left fold of the reducer over the session's events |
| EventStores.EventStore.PersistAll | src/main/event-store.ts:495-613 | the loop's log, state and sequence are those of the specification, fault by fault |
| EventStores.EventStore.UpdateSessionProjection | src/main/event-store.ts:638-669 | updates the one projection row it is given |
| EventStores.EventStore.AppendInternal | src/main/event-store.ts:495-613 | a batch and its projection commit together, or nothing does |
| StoreTheorems.AppendAllFolds | src/main/event-store.ts:495-613 | an append adds its batch in order and its state stays the fold of the session's events |
| StoreTheorems.AppendKeepsStoreSound | src/main/event-store.ts:495-613 | an append keeps every projection the fold of its events and leaves other sessions alone |
| StoreTheorems.ReplayNumbers | src/shared/session-reducer.ts:763-773 | what replays is numbered 1..n without gaps |
| StoreTheorems.SequenceIsCount | src/main/event-store.ts:495-613 | a session's sequence is the number of its events |
| StoreTheorems.ExpectationIsCount | src/main/event-store.ts:495-613 | an append with an expected sequence commits only on exactly that many events |
| SessionTheorems.ReduceKeepsSound | src/shared/session-reducer.ts:870-2779 | every accepted event keeps attempts ordered and admitted cloud decisions grounded in their admission |
| SessionTheorems.ReplayIsSound | src/shared/session-reducer.ts:2781-2791 | every session that replays is sound |
| SessionTheorems.ReduceEvolves | src/shared/session-reducer.ts:870-2779 | decisions, admissions and attempts only grow, and a terminal session never changes |
| SessionTheorems.FoldEvolves | src/shared/session-reducer.ts:2781-2791 | the same over any number of events |
| SessionAudit.ReplaysHold | src/shared/session-reducer.ts:870-2779 | every session that replays has complete decisions within its cap, once per boundary, resting on their admissions; attempts that follow their decisions within the paid limit; finishes that repeat their starts; and an end with nothing open |
| SessionAudit.ReplaysAreOrdered | src/shared/session-reducer.ts:514-822 | the events of a session with a policy are numbered, in time order, and each may follow the one before: admission, decision, route, answer, context, attempt, finish, end |
| AttemptUnits.AttemptUnitOfWork.AppendAtomicEvents | src/main/attempt-unit-of-work.ts:926-948 | appends the preallocated batch at the expected sequence, or leaves what the rollback discards |
| AttemptUnits.AttemptUnitOfWork.CommitBudgetedStart | src/main/attempt-unit-of-work.ts:760-836 | reservation and event batch commit together, or neither does |
| AttemptUnits.AttemptUnitOfWork.CommitLocalStart | src/main/attempt-unit-of-work.ts:729-758 | a local start commits its exact batch without a ledger row |
| AttemptUnits.AttemptUnitOfWork.ResolveAttemptBudget | src/main/attempt-unit-of-work.ts:950-1022 | a finish ends its reservation by release, settlement or overrun as specified |
| AttemptUnits.AttemptUnitOfWork.CommitAttemptFinish | src/main/attempt-unit-of-work.ts:838-906 | terminal row and finish batch commit together, or neither does |
| CommitAudit.StartsCommitWhole | src/main/attempt-unit-of-work.ts:525-652 | a committed budgeted start stood on a reconciled ledger at the expected sequence; where the budget allows it has added its reservation and six events, and otherwise five events and no row, each field as the input has it |
| CommitAudit.LocalStartsCommitWhole | src/main/attempt-unit-of-work.ts:348-440 | a committed local start has added its own events and no row, with an unpaid attempt and decisions that have nothing to do with money |
| CommitAudit.FinishesCommitWhole | src/main/attempt-unit-of-work.ts:838-1022 | a committed finish of an open attempt has added its batch and, if the attempt was reserved, exactly the one terminal row its disposition and cost call for |
| PersistenceInvariant.InvIsReconciled | src/main/budget-ledger.ts:752-1074 | the invariant implies that the gate accepts |
| PersistenceInvariant.NewAttemptReconciled | src/main/attempt-unit-of-work.ts:525-652 | a new paid attempt agrees with the reservation inserted for it |
| PersistenceInvariant.FinishedAttemptReconciled | src/main/attempt-unit-of-work.ts:950-1022 | a finished attempt agrees with the terminal row inserted for it |
| PersistenceInvariant.ReservationProjects | src/main/budget-ledger.ts:531-560 | the stored row re-projects to the amount it reserves |
| PersistenceSteps.OthersStay | src/main/budget-ledger.ts:752-1074 | an operation on one session leaves every other session's attempts reconciled |
| PersistenceSteps.AppendKeepsInv | src/main/event-store.ts:376-400 | an append without attempts keeps the invariant |
| PersistenceSteps.LocalStartKeepsInv | src/main/attempt-unit-of-work.ts:729-758 | a local start keeps the invariant |
| PersistenceCommits.CampaignKeepsInv | src/main/budget-ledger.ts:1568-1577 | a new campaign keeps the invariant |
| PersistenceCommits.StartKeepsInv | src/main/attempt-unit-of-work.ts:760-836 | a budgeted start, admitted or denied, keeps the invariant |
| PersistenceFinishes.FinishKeepsInv | src/main/attempt-unit-of-work.ts:838-906 | a finish, reserved or not, keeps the invariant |
| PersistenceTheorems.RunsAreReconciled | src/main/budget-ledger.ts:752-1074 | after every interleaving of campaigns, starts, finishes, appends and rolled-back crashes the gate accepts |
| PersistenceTheorems.PaidAttemptsHaveTheCap | src/main/budget-ledger.ts:1355-1366 | every paid attempt of every run was decided with its session's whole episode cap remaining, and it and its reservation are the session's only ones |
| PersistenceTheorems.SessionsReserveOnce | src/main/budget-ledger.ts:1355-1366 | in every run two reservations belong to two sessions |
| PersistenceTheorems.OnePaidAttempt | src/main/budget-ledger.ts:1355-1366 | in every run a session has at most one attempt with a reservation |
| PersistenceTheorems.ExposureIsBounded | src/main/budget-ledger.ts:1205-1303 | a reported exposure is at most the stop plus what overruns charged above their reservations, and at most the stop without one |
| PersistenceTheorems.MoneyIsConserved | src/main/budget-ledger.ts:1205-1303 | in every run a campaign's exposure is its opening plus, for each paid attempt the log replays, its finish's cost or its projection while open |
| PersistenceTheorems.EpisodesOweTheirReservation | src/main/budget-ledger.ts:1205-1303 | in every run a session owes its one reservation, or what that was resolved for |
| PersistenceTheorems.RunsAreLawful | src/main/database.ts:352-542 | after every run every row reads as its kind must and joins the others |
| PersistenceTheorems.SessionsHold | src/shared/session-reducer.ts:870-2791 | after every run every session that replays holds in these respects, and its events are in order |
| PersistenceTheorems.PositionsAreAnchored | src/main/budget-ledger.ts:1205-1303 | a position never fails for a dangling terminal row |
| PersistenceTheorems.NoAdmissionAfterOverrun | src/main/budget-ledger.ts:1394-1447 | once a campaign has an overrun, no later transaction adds a reservation to it |
| PersistenceTheorems.EventsAreNumberedAndFolded | src/main/event-store.ts:495-613 | after any interleaving of writers events are numbered 1..n and the projection is their fold |
| PersistenceTheorems.OnlyOneExpectationCommits | src/main/event-store.ts:495-613 | of two appends with the same expected sequence at most one commits, whatever happens between |
| PersistenceTheorems.Perform | src/main/attempt-unit-of-work.ts:715-906 | one operation on the mutable objects is one step of the specification |
| PersistenceTheorems.RunHistory | src/main/budget-ledger.ts:752-1074 | a whole history on new objects ends with the gate accepting |
| EgressPaths.ComparisonView | src/main/cloud-egress-policy.ts:702-723 | the segment loop computes the comparison view |
| EgressPaths.ViewKeepsTheWalk | src/main/cloud-egress-policy.ts:702-723 | from every directory the view leads where the path leads |
| EgressPaths.ViewIsIdempotent | src/main/cloud-egress-policy.ts:702-723 | the view of a view is itself |
| EgressPaths.ViewIsDirect | src/main/cloud-egress-policy.ts:702-723 | a view has no backslash, no doubled slash, no empty or dot segment, and steps up only at the front of a relative path |
| EgressPaths.SplitIsExact | src/main/cloud-egress-policy.ts:702-723 | the segments are what stands between slashes, and join back to the text |
| EgressClosure.ScanViews | src/main/cloud-egress-policy.ts:737-773 | the queue loop terminates, returns what chains of at most nine transforms make of the text and the path views of those, and reports exhaustion exactly when a longer chain leads to something that no chain of eight reaches |
| EgressScan.ExhaustedMeansFar | src/main/cloud-egress-policy.ts:725-773 | exhausted exactly when some reachable text is more than eight transforms away |
| EgressScan.UnexhaustedViewsAreLeastClosed | src/main/cloud-egress-policy.ts:725-773 | otherwise the views are the least set with the text that the scan's candidates keep |
| EgressClosure.ViewsAreChains | src/main/cloud-egress-policy.ts:737-773 | the views are what chains of normalisation, decoding, both, and path comparison make of the text in at most nine steps, and the path view of each |
| EgressClosure.ExhaustedMeansLongChain | src/main/cloud-egress-policy.ts:725-773 | a scan is exhausted exactly when some chain of transforms leads to a text that no chain of at most eight reaches |
| EgressClosure.UnexhaustedViewsAreLeastKept | src/main/cloud-egress-policy.ts:745-770 | otherwise the views are exactly what chains of any length make of the text: the least set that each of the four transforms keeps |
| EgressScan.ExpandEntry | src/main/cloud-egress-policy.ts:745-770 | one entry's candidates are viewed, and enqueued exactly if new and within the limit |
| EgressProvenance.ChainIffPartition | src/main/cloud-egress-policy.ts:587-660 | over sorted segments the sweep's chain and an exact partition are the same condition |
| EgressProvenance.PartitionConcatenates | src/main/cloud-egress-policy.ts:587-660 | the slices of a partition, in order, concatenate to the content |
| EgressProvenance.GroupByMessage | src/main/cloud-egress-policy.ts:592-598 | groups hold each message's entries in manifest order |
| EgressProvenance.Sweep | src/main/cloud-egress-policy.ts:630-658 | incomplete is added exactly for a gap or an entry beyond the content, invalid exactly for an entry that fits no slice or two that overlap |
| EgressProvenance.SweepEmpty | src/main/cloud-egress-policy.ts:611-628 | invalid is added exactly unless an empty message has one empty entry; incomplete never |
| EgressProvenance.EvaluateProvenanceBinding | src/main/cloud-egress-policy.ts:587-660 | each of the two reasons is given exactly when some message calls for it, in any order of entries, and neither exactly when every message is partitioned exactly |
| EgressProvenance.PartitionIffNoReason | src/main/cloud-egress-policy.ts:587-660 | a message is partitioned exactly when it has no gap, no misfit and no overlap |
| EgressMessages.MessagesAreAdmitted | src/main/cloud-egress-policy.ts:240-324 | every request has a canonical text |
| EgressMessages.ContentsAreScanned | src/main/cloud-egress-policy.ts:775-780 | every nonempty message content is among the scanned texts |
| EgressMessages.EveryTextIsScanned | src/main/cloud-egress-policy.ts:204-324 | every text a message carries is scanned: role, content, call identities, tool names and arguments; and so is the request as sent |
| EgressPolicy.Evaluate | src/main/cloud-egress-policy.ts:816-913 | each of the thirteen reasons is given exactly when it applies, and the request passes exactly when none does |
| EgressPolicy.PassKeepsSecretsIn | src/main/cloud-egress-policy.ts:782-797 | after a pass no chain of transforms, however long, turns a scanned text into one that contains what at most nine transforms make of a known secret |
| EgressPolicy.PassKeepsSecretsOutOfMessages | src/main/cloud-egress-policy.ts:782-797 | after a pass no chain of transforms turns a message's content, or the serialized request, into a text with a view of a known secret |
| EgressPolicy.HiddenSecretIsFound | src/main/cloud-egress-policy.ts:782-797 | a secret that at most nine transforms bring to light in a scanned text denies the request |
| EgressPolicy.PassShowsNoHost | src/main/cloud-egress-policy.ts:816-913 | after a pass no chain of transforms of a message or the request shows a host path in any letter case, an API token or a private key |
| EgressPolicy.PassIsPlain | src/main/cloud-egress-policy.ts:816-913 | a request that passes was consented to, offers no tools and carries no tool protocol |
| EgressPolicy.PassAttributesEverything | src/main/cloud-egress-policy.ts:587-660 | after a pass every code unit belongs to exactly one entry, on whole surrogate pairs and with its hash, from an admitted source whose path is not denied |
| SelectionLoops.SelectionLoop.RunStage | scripts/phase4-loop.ts:112-126 | leaves the object as the stage's function says: a finished stage is reused, an unfinished one refused, an interrupt starts nothing, and a start goes on record with the state it saw and the outcome it had |
| SelectionLoops.SelectionLoop.Summarise | scripts/phase4-loop.ts:127-142 | a candidate is taken exactly if it is this loop's and its dispatches are settled; one with uncertain dispatches ends the invocation but stays on record with its counts |
| SelectionLoops.SelectionLoop.MakeCritique | scripts/phase4-loop.ts:168-178 | the critique is run or read back, and must be of the chosen draft |
| SelectionLoops.SelectionLoop.RecordStage1 | scripts/phase4-loop.ts:161-166 | the saved record is the whole record with the first selection in it, before anything else starts |
| SelectionLoops.SelectionLoop.Refuse | scripts/phase4-loop.ts:177-186 | a refused critique ends the loop with its draft, and counts a call exactly if it reached the model |
| SelectionLoops.SelectionLoop.Attempt | scripts/phase4-loop.ts:150-196 | an invocation ends in exactly the state and outcome of the function that the theorems on lives are about |
| SelectionLoops.SelectionLoop.Run | scripts/phase4-loop.ts:92-201 | the same for a run: after a final choice it refuses and changes nothing, any other saves its choice or its failure, and a death saves nothing more |
| LoopHistory.RunLives | scripts/phase4-loop.ts:92-201 | one invocation keeps every finished stage, and starts a stage only where it left nothing behind, after settled candidates and before a final choice |
| LoopHistory.AttemptChooses | scripts/phase4-loop.ts:150-196 | an invocation that chooses, whatever it reused, has the content of an uninterrupted loop over the stages finished then |
| LoopHistory.AttemptDelivers | scripts/phase4-loop.ts:150-196 | from new directories, an invocation that is delivered given results chooses as the uninterrupted loop over them |
| LoopTheorems.FinishedStagesDecide | scripts/phase4-loop.ts:112-142 | only finished stages decide what an uninterrupted loop chooses |
| LoopTheorems.TotalsAreSums | scripts/phase4-loop.ts:127-147 | totals are the candidates' counts plus the critique call, whatever was reused |
| LoopTheorems.SuccessIsASettledRun | scripts/phase4-loop.ts:215-219 | exit code 0 means a submitted, settled run of this task and runtime was chosen |
| LoopTheorems.Happen | scripts/phase4-loop.ts:92-201 | the object after an invocation or a moved-aside directory is in exactly the state the life's function gives |
| LoopTheorems.Live | scripts/phase4-loop.ts:92-201 | after any sequence of happenings the object is in exactly the state of that life |
| LoopTheorems.LivesAreChronicled | scripts/phase4-loop.ts:112-126 | at each start of a life its stage was absent, everything before it had finished settled, and no choice was on record |
| LoopTheorems.NoFinishedStageStartsAgain | scripts/phase4-loop.ts:112-126 | of two starts of one stage in a life the earlier left nothing finished; what a start left finished is unchanged at every later start and at the end |
| LoopTheorems.FinishedIsFinal | scripts/phase4-loop.ts:112-126 | from any moment of a life on, a finished stage keeps its result and never starts |
| LoopTheorems.NothingStartsAfterAnUnsettledCandidate | scripts/phase4-loop.ts:137-142 | once a candidate with unknown or failed dispatches has finished, no stage starts for the rest of the life |
| LoopTheorems.NothingStartsAfterAChoice | scripts/phase4-loop.ts:96-101 | once a final choice is saved, it stays and no stage starts for the rest of the life |
| LoopTheorems.OneDeliveredRun | scripts/phase4-loop.ts:92-201 | the first invocation of a new directory, delivered given results, saves the choice of the uninterrupted loop over them |
| LoopTheorems.ResumedEqualsUninterrupted | scripts/phase4-loop.ts:92-201 | in every life, a final choice is that of an uninterrupted loop over the finished stages, whole record content included, and any one invocation of a new directory that is delivered the same results saves exactly this content |
| LoopTheorems.SomeWorldRepeatsALife | scripts/phase4-loop.ts:92-201 | for every life an uninterrupted invocation with the same results exists, so the agreement is never vacuous |
| LoopAudit.LivesAreAudited | scripts/phase4-loop.ts:92-201 | after every life each line of the saved record holds: candidates of this task, runtime and lineage, both selections, the critique of the chosen draft, and every total as a sum of numbers |
| LoopAudit.RefusalsAreOnRecord | scripts/phase4-loop.ts:177-186 | a refused critique is on record with the code, fee, usage and finish reason of the error that the last start threw |
| LoopAudit.FinishedSamplesAreTaken | scripts/phase4-loop.ts:127-166 | an invocation that finds a settled and b finished takes b exactly if it is of this task and runtime, written from a's packet in a research loop and from none otherwise, and selects exactly if b is settled |
| LoopAudit.FinishedRepairsAreTaken | scripts/phase4-loop.ts:168-196 | and with critique and repair finished too it chooses exactly if the critique is of the chosen draft and packet and the repair is due for it and settled |
| LoopStages.InvocationsFit | scripts/phase4-loop.ts:112-126 | one invocation starts stages in order, none after an interrupt or an unfinished one, and lists only finished stages, in order, each marked as reused exactly if it had finished before |
| LoopStages.InterruptedStartsNothing | scripts/phase4-loop.ts:112-126 | an invocation that is interrupted from the start starts nothing |
| LoopStages.InvocationsEnd | scripts/phase4-loop.ts:92-201 | an invocation refuses unchanged after a choice, saves its choice, saves its error code without one, or dies without one |
| JsonText.QuotedDecodes | src/main/change-acquisition-contracts.ts:45-47 | a quoted string ends where it ends and gives its text back |
| JsonText.DecimalDecodes | src/main/change-acquisition-contracts.ts:48-53 | a decimal that no digit follows gives its integer back |
| CanonicalJson.KeysAreInOrder | src/main/change-acquisition-contracts.ts:65-72 | keys are written once each, in increasing code unit order (section 3.2.3 of RFC 8785) |
| CanonicalJson.CanonicalIffAdmitted | src/main/change-acquisition-contracts.ts:44-73 | the serializer throws exactly outside its admitted values |
| CanonicalTheorems.SameHaveSameText | src/main/change-acquisition-contracts.ts:65-72 | records equal up to key order have the same text |
| CanonicalTheorems.TextsDecode | src/main/change-acquisition-contracts.ts:44-73 | equal texts, whatever follows them, come from records equal up to key order |
| CanonicalTheorems.CanonicalTextIsExact | src/main/change-acquisition-contracts.ts:44-73 | on admitted values two texts are equal exactly when the records are equal up to key order |
| JsonReader.ChunksAreStringified | src/main/change-acquisition-contracts.ts:45-47 | each code unit of a string has its one way of being written: as it is, as one of seven short escapes, or as four lower-case hexadecimal digits |
| JsonReader.ValueReads | src/main/change-acquisition-contracts.ts:44-73 | whatever follows that is no digit, a reader of JSON reads an admitted value back from its text, up to key order, and stops where the text stops |
| JsonReader.CanonicalTextsReadBack | src/main/change-acquisition-contracts.ts:44-73 | a canonical text is a JSON text (RFC 8259) and reads back as its record |
| GitIndex.CanonicalGitIndexStageOutput | src/main/change-acquisition-contracts.ts:99-121 | throws on the first record outside the schemas, then exactly on a shared path and stage; else writes every record in order |
| GitIndex.NeighboursSuffice | src/main/change-acquisition-contracts.ts:110-116 | comparing neighbours of the sorted list finds every duplicate |
| GitIndex.IndexTextIsExact | src/main/change-acquisition-contracts.ts:117-121 | accepted indexes have the same text exactly when they hold the same records |
| GitIndex.AcceptanceIgnoresOrder | src/main/change-acquisition-contracts.ts:99-116 | whether an index is accepted does not depend on its order |
| GitIndex.RecordsAccepted | src/main/change-acquisition-contracts.ts:99-108 | a record passes the schemas exactly with one of four modes, a 40 or 64 digit lower-case id, a stage from 0 to 3 and a plain relative path |
| GitIndex.IndexReadsBack | src/main/change-acquisition-contracts.ts:117-121 | the text of an accepted index reads back as exactly its records, in order of path and stage |
| ReviewCoverage.AssertSnapshotIdentity | src/main/change-acquisition-contracts.ts:219-229 | passes exactly on snapshots whose hunks and snapshot hash to their identities |
| ReviewCoverage.SnapshotHunkIds | src/main/change-acquisition-contracts.ts:300-304 | the set holds exactly the identities of the snapshot's hunks |
| ReviewCoverage.AssertEvidenceIdentity | src/main/change-acquisition-contracts.ts:306-369 | passes exactly on evidence of this snapshot, with its hunks and required bodies only |
| ReviewCoverage.CoverFile | src/main/change-acquisition-contracts.ts:452-506 | a file record carries exactly the codes that apply to its entry, whatever order they were pushed in |
| ReviewCoverage.CountFiles | src/main/change-acquisition-contracts.ts:509-522 | sums over the sorted file records are the totals over the manifest |
| ReviewCoverage.OmissionCodes | src/main/change-acquisition-contracts.ts:523-567 | the codes are exactly the reasons that apply, each once and in order |
| ReviewCoverage.ChangedTests | src/main/change-acquisition-contracts.ts:551-560 | the changed test paths, each once and in order |
| ReviewCoverage.DeriveReviewCoverage | src/main/change-acquisition-contracts.ts:444-590 | refuses exactly unverified records, and otherwise derives the specified coverage, which its schema admits |
| CoverageTheorems.NoCodesIffComplete | src/main/change-acquisition-contracts.ts:523-573 | no omission code exactly when nothing is omitted, every hunk, body and read is there, and both gates hold |
| CoverageTheorems.CountsReconcile | src/main/change-acquisition-contracts.ts:509-522 | admitted and omitted add up to changed, for paths and hunks, within safe integers |
| CoverageTheorems.MoreEvidenceNeverHurts | src/main/change-acquisition-contracts.ts:444-590 | enlarging the evidence never adds a code, lowers an admitted figure or undoes completeness |
| CoverageAudit.CompleteMeansReviewed | src/main/change-acquisition-contracts.ts:452-573 | a record is complete, without codes, exactly if both gates hold, nothing is omitted, every hunk is in the evidence, and every file was read whole under its path in its admitted content |
| CoverageAudit.CodesSayWhatIsMissing | src/main/change-acquisition-contracts.ts:523-567 | each of the seven codes is listed exactly when the thing it names is missing |
| CoverageAudit.TestsAndRuntime | src/main/change-acquisition-contracts.ts:551-565 | the test paths are exactly the changed paths that name a test, and runtime code counts as untested exactly if a path under src/ changed and no test did |
| CoverageSums.AdmittedIffCovered | src/main/change-acquisition-contracts.ts:515-519 | a file record without codes is an entry for which nothing is missing |
| CoverageSums.SortedFileSums | src/main/change-acquisition-contracts.ts:507-519 | the figures do not depend on the order of the file records |
| CoverageSpec.CodesDecideTheList | src/main/change-acquisition-contracts.ts:429-431 | however codes were collected, the canonical list of them is the same |
| CoverageSchema.DerivedCoverageParses | src/shared/change-review-contracts.ts:972-1262 | the derived record satisfies every cross-field rule of the coverage schema |
| CoverageSchema.CompletenessAgrees | src/shared/change-review-contracts.ts:1233-1254 | the derived status agrees with the record's own account of completeness |
| CoverageJson.CoverageDecides | src/main/change-acquisition-contracts.ts:611-613 | coverage values equal up to key order come from equal records |
| CoverageJson.AssertReviewCoverage | src/main/change-acquisition-contracts.ts:601-615 | accepts a record exactly when it is, field for field, the one the host derives |

## Left out

- Docker, subprocesses, HTTP, providers and the worker bridge: input and output; the router is driven by its public calls only.
- Electron start-up, IPC, credentials and view projections: plumbing and display.
- SHA-256, UUIDs, wall clocks and SQLite itself: functions, parameters and guarded sequences.
- Database migrations, rows without a cost scope, `getCostScopeSummary`, `listOutstandingReservations` and `ensureCampaign`: reports over the same rows, or an insertion that is already modelled.
- `commitRecoveryFinish`, `assertOpenState` and the one-use receipts of `src/main/attempt-unit-of-work.ts:177-282`: further refusals in front of the modelled commit.
- Bounded-identifier, reason-code and timestamp validators: they only reject more inputs; timestamps are numbers.
- RouterSpec.Start: a policy or schedule string outside the known ones, a boolean given as an integer and a planner dictionary of another shape are excluded by types.
- Sessions.Reduce: messages, tools, routes, leases, obligations and imported checkpoints; their further rejections only shrink the set of runs.
- EgressPolicy.Evaluate: the order in which reason codes are listed, the two semantic hashes, and the shape checks that throw (message indexes are in range, texts within their bounds); NFKC, escape decoding, lower-casing and the token patterns are parameters.
- SelectionLoops.SelectionLoop.Run: stage times, the log file, unreadable result files, `checkLoopInput` and the text patterns of `failureCode`; `compareCandidates` is a parameter.
- CanonicalJson.Canonical: sparse arrays and minus zero; numbers are integers or fractions.
- GitIndex.CanonicalGitIndexStageOutput: a stage that is no integer is excluded by type.
- ReviewCoverage.DeriveReviewCoverage: the line-by-line rules of hunks, byte limits and the shape of evidence sets; they only reject more records. Identities are the values of a digest parameter.
- The native tool-call parser (`runtime/patch-worker/native_local.py`), which reads a model's reply into one of the four actions the router is told of, and `src/main/change-review-view.ts`, which projects finished reviews for display: the router's calls and the review records are modelled, what stands before and after them is not.
