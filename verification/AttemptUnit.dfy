/** The attempt unit of work: one immediate transaction joins a ledger mutation to its exact event batch. */
module AttemptUnits {
  import opened Wrappers
  import opened Pricing
  import opened Ledger
  import opened LedgerTheorems
  import opened Sessions
  import opened EventStores
  import opened Reconciliation
  import opened BudgetLedgers

  datatype UnitError =
    | StoreFailed(store: StoreError) | LedgerFailed(ledger: LedgerError) | ActualNotAuthorized | BadEventIds | BadBatch
    | StaleSequence | NotReconciled | NoExecutionPolicy | ScopeMismatch | NotOpenAttempt | UnreservedTerminal
    | NotLocalZeroCost | TerminalIdMissing | ReservationMismatch | CostMismatch | OverrunNotFailed | FaultInjected

  /** Where a crash is injected: between the two mutations, between two events, or before the commit. */
  datatype Fault = NoFault | AfterBudgetMutation | AfterEvent(index: nat) | AfterAppend

  function EventFault(fault: Fault): Option<nat> {
    if fault.AfterEvent? then Some(fault.index) else None
  }

  function Batch(events: seq<EventData>, ids: seq<string>, createdAt: Time): (batch: seq<Pending>)
    requires |ids| == |events|
    ensures |batch| == |events|
  {
    seq(|events|, i requires 0 <= i < |events| => Pending(ids[i], createdAt, events[i]))
  }

  /** `appendMany` with preallocated event ids. */
  function AppendBatch(t: Tables, session: string, events: seq<EventData>, ids: seq<string>, createdAt: Time, expected: nat,
                       fault: Fault): Result<Tables, UnitError>
  {
    var guard := Need(events != [] && |ids| == |events|, BadBatch);
    :- guard;
    match Append(t, session, Batch(events, ids, createdAt), Some(expected), EventFault(fault))
    case Success(next) => if fault.AfterAppend? then Failure(FaultInjected) else Success(next)
    case Failure(error) => Failure(StoreFailed(error))
  }

  /** The session a batch continues, at the sequence its caller expects. */
  function OpenSession(t: Tables, session: string, expected: nat): Result<SessionState, UnitError> {
    var state := StateOf(t, session);
    :- Need(state.Some?, StoreFailed(SessionNotFound));
    :- Need(state.value.lastSequence == expected, StaleSequence);
    Success(state.value)
  }

  // ----- Budgeted starts

  datatype StartInput = StartInput(
    sessionId: string, expected: nat, createdAt: Time, admittedIds: seq<string>, deniedIds: seq<string>, campaignId: string,
    reservationId: string, attemptId: string, providerId: string, pricingId: string, scope: Scope,
    admissionId: Option<string>, projection: Projection, build: Resolution -> seq<EventData>)

  predicate EventIdsFit(input: StartInput) {
    var all := input.admittedIds + input.deniedIds;
    && |input.admittedIds| == 6 && |input.deniedIds| == 5
    && (forall i :: 0 <= i < |all| ==> all[i] != "")
    && (forall i, j :: 0 <= i < j < |all| ==> all[i] != all[j])
  }

  function ReserveInputOf(input: StartInput, cap: nat): ReserveInput {
    ReserveInput(input.campaignId, input.reservationId, input.sessionId, input.attemptId, input.providerId, input.pricingId,
                 input.scope, input.admissionId, cap, input.projection, input.createdAt)
  }

  predicate AdmittedPattern(events: seq<EventData>) {
    |events| == 6 && events[0].EgressRecorded? && events[1].DecisionRecorded? && events[2].RouteAssigned?
    && events[3].AssistantStarted? && events[4].ContextCompiled? && events[5].AttemptStarted?
  }

  predicate DeniedPattern(events: seq<EventData>) {
    |events| == 5 && events[0].EgressRecorded? && events[1].DecisionRecorded? && events[2].AssistantStarted?
    && events[3].ContextCompiled? && events[4].AttemptStarted?
  }

  /** What both outcomes of a budgeted start must repeat from the input and the locked budget position. */
  predicate StartLinks(input: StartInput, resolution: Resolution, e: Admission, d: Decision, a: AttemptStart, credential: string) {
    && Some(e.admissionId) == input.admissionId && e.passed && e.evaluatedAt == input.createdAt
    && d.admissionId == input.admissionId && d.provenance == Some(e.provenance) && a.admissionId == input.admissionId
    && d.scope == Some(input.scope) && a.scope == Some(input.scope) && d.asOf == Some(input.createdAt)
    && d.billing == Some(resolution.billing) && d.campaignId == Some(input.campaignId)
    && d.pricingId == Some(input.pricingId) && d.credentialId == Some(credential) && a.attemptId == input.attemptId
  }

  /** `validateBudgetedStartBatch` */
  predicate StartBatchFits(input: StartInput, resolution: Resolution, events: seq<EventData>, credential: string) {
    if resolution.Admitted? then
      && AdmittedPattern(events)
      && var d, a := events[1].decision, events[5].start;
         && StartLinks(input, resolution, events[0].admission, d, a, credential)
         && d.reason.CloudAdmitted? && d.selectedProvider == input.providerId && d.reservationId == Some(input.reservationId)
         && a.providerId == input.providerId && a.reservationId == Some(input.reservationId)
         && a.maxOutput == resolution.billing.projection.outputTokens && Safe(events[4].billableTokens)
         && resolution.billing.projection.inputTokens == events[4].billableTokens
    else
      && DeniedPattern(events)
      && var d, a := events[1].decision, events[4].start;
         && StartLinks(input, resolution, events[0].admission, d, a, credential)
         && d.reason.BudgetDenial? && d.proposedProvider == Some(input.providerId) && d.reservationId.None?
         && a.reservationId.None? && d.denial == Some(resolution.reason)
  }

  /** `commitBudgetedStart`: the tables it commits, or the error it rolls back with. */
  function BudgetedStart(t: Tables, input: StartInput, fault: Fault): Result<Tables, UnitError> {
    var guard := Need(input.scope.Simulation?, ActualNotAuthorized);
    :- guard;
    :- Need(EventIdsFit(input), BadEventIds);
    var state :- OpenSession(t, input.sessionId, input.expected);
    :- Need(Reconciled(t), NotReconciled);
    var campaign := FindCampaign(t.rows, input.campaignId);
    :- Need(campaign.Some?, LedgerFailed(UnknownCampaign));
    :- Need(campaign.value.scope == input.scope, ScopeMismatch);
    :- Need(state.policy.Some?, NoExecutionPolicy);
    match Reserve(t.rows, ReserveInputOf(input, state.policy.value.cap))
    case Failure(error) => Failure(LedgerFailed(error))
    case Success((resolution, rows)) => StartAppended(t.(rows := rows), input, resolution, campaign.value.credentialId, fault)
  }

  /** The second half of a budgeted start, after the budget mutation. */
  function StartAppended(t: Tables, input: StartInput, resolution: Resolution, credential: string, fault: Fault)
    : Result<Tables, UnitError>
  {
    var guard := Need(!fault.AfterBudgetMutation?, FaultInjected);
    :- guard;
    var events := input.build(resolution);
    :- Need(StartBatchFits(input, resolution, events, credential), BadBatch);
    AppendBatch(t, input.sessionId, events, if resolution.Admitted? then input.admittedIds else input.deniedIds,
                input.createdAt, input.expected, fault)
  }

  // ----- Local starts

  datatype LocalInput = LocalInput(
    sessionId: string, expected: nat, createdAt: Time, ids: seq<string>, scope: Scope, admissionId: Option<string>,
    events: seq<EventData>)

  predicate LocalPattern(events: seq<EventData>) {
    var n := |events|;
    && 3 <= n <= 6 && events[n - 1].AttemptStarted? && events[n - 2].ContextCompiled? && events[n - 3].AssistantStarted?
    && (n == 4 ==> events[0].DecisionRecorded?)
    && (n == 5 ==> (events[0].EgressRecorded? && events[1].DecisionRecorded?) || (events[0].DecisionRecorded? && events[1].RouteAssigned?))
    && (n == 6 ==> events[0].SessionStarted? && events[1].DecisionRecorded? && events[2].RouteAssigned?)
  }

  /** `validateLocalStartBatch`: an exact batch without any paid metadata. */
  predicate LocalBatchFits(input: LocalInput) {
    && LocalPattern(input.events) && !input.scope.Legacy?
    && var n := |input.events|;
       var a := input.events[n - 1].start;
       && a.scope == Some(input.scope) && a.admissionId == input.admissionId && a.reservationId.None?
       && (forall i :: 0 <= i < n && input.events[i].DecisionRecorded? ==>
             var d := input.events[i].decision;
             && d.scope == Some(input.scope) && d.admissionId == input.admissionId && d.asOf == Some(input.createdAt)
             && !d.reason.CloudAdmitted? && !d.reason.BudgetDenial? && d.billing.None? && d.reservationId.None? && d.campaignId.None?)
       && (input.events[0].EgressRecorded? ==>
             var e := input.events[0].admission;
             Some(e.admissionId) == input.admissionId && e.evaluatedAt == input.createdAt
             && input.events[1].DecisionRecorded? && input.events[1].decision.provenance == Some(e.provenance))
  }

  function LocalStart(t: Tables, input: LocalInput, fault: Fault): Result<Tables, UnitError> {
    var guard := Need(LocalBatchFits(input), BadBatch);
    :- guard;
    AppendBatch(t, input.sessionId, input.events, input.ids, input.createdAt, input.expected, fault)
  }

  // ----- Finishes

  datatype FinishInput = FinishInput(
    sessionId: string, expected: nat, createdAt: Time, ids: seq<string>, events: seq<EventData>, terminalId: Option<string>)

  /** Where a finish stands in its batch: after its optional assistant completion. */
  function FinishIndex(events: seq<EventData>): nat {
    if events != [] && events[0].AssistantCompleted? then 1 else 0
  }

  /** `validateAttemptFinishBatch` */
  predicate FinishBatchFits(events: seq<EventData>) {
    var k := FinishIndex(events);
    && k < |events| <= k + 2 && events[k].AttemptFinished?
    && (|events| == k + 2 ==> EndsSession(events[k + 1]))
    && (k == 1 ==> events[0].attemptId == events[1].finish.attemptId)
  }

  /** `requireOverrunFailure` */
  predicate EndsByOverrun(events: seq<EventData>) {
    events != [] && events[|events| - 1].SessionFailed? && MentionsOverrun(events[|events| - 1].error)
  }

  /** The ledger resolution of a reserved attempt's finish. */
  function ResolutionFor(rows: seq<Row>, input: FinishInput, a: Attempt, f: Finish): Result<ResolveInput, UnitError>
    requires a.start.reservationId.Some?
  {
    var reservationId := a.start.reservationId.value;
    :- Need(input.terminalId.Some?, TerminalIdMissing);
    var reservation := FindReservation(rows, reservationId);
    :- Need(reservation.Some?, LedgerFailed(UnknownReservation));
    var r := reservation.value;
    :- Need(r.sessionId == input.sessionId && r.attemptId == a.start.attemptId && f.cost.reservationId == Some(reservationId),
            ReservationMismatch);
    if f.disposition.NotSent? then
      :- Need(f.cost.amount == 0 && f.cost.provenance.HostPricing?, CostMismatch);
      Success(ResolveInput(input.terminalId.value, reservationId, Release, 0, None, NotSent,
                           Some(f.errorCode.GetOr("definitely_unsent")), input.createdAt))
    else
      :- Need(!f.cost.provenance.LocalZeroCost?, CostMismatch);
      :- Need(f.cost.provenance.HostPricing? ==> UnitHostPrice(r.rates, f.usage) == Success(f.cost.amount), CostMismatch);
      :- Need(f.cost.provenance.ReservedUnknown? ==> f.cost.amount == r.amount, CostMismatch);
      var overrun := f.cost.amount > r.amount;
      :- Need(overrun ==> EndsByOverrun(input.events), OverrunNotFailed);
      Success(ResolveInput(input.terminalId.value, reservationId, if overrun then Overrun else Settlement, f.cost.amount,
                           Some(f.cost.provenance), f.disposition, if overrun then Some("budget_overrun") else None,
                           input.createdAt))
  }

  function FindAttempt(attempts: seq<Attempt>, id: string): (found: Option<Attempt>)
    ensures found.Some? ==> found.value in attempts && found.value.start.attemptId == id
  {
    if attempts == [] then None
    else if attempts[0].start.attemptId == id then Some(attempts[0])
    else FindAttempt(attempts[1..], id)
  }

  /** The ledger after a finish: untouched for an unreserved attempt, with its terminal row for a reserved one. */
  function FinishBudget(rows: seq<Row>, input: FinishInput, a: Attempt, f: Finish): Result<seq<Row>, UnitError> {
    if a.start.reservationId.None? then
      :- Need(input.terminalId.None?, UnreservedTerminal);
      :- Need(f.cost.amount == 0 && f.cost.provenance.LocalZeroCost? && f.cost.reservationId.None?, NotLocalZeroCost);
      Success(rows)
    else
      var resolution :- ResolutionFor(rows, input, a, f);
      match Resolve(rows, resolution)
      case Success(next) => Success(next)
      case Failure(error) => Failure(LedgerFailed(error))
  }

  /** `commitAttemptFinish` */
  function AttemptFinish(t: Tables, input: FinishInput, fault: Fault): Result<Tables, UnitError> {
    var guard := Need(FinishBatchFits(input.events), BadBatch);
    :- guard;
    var f := input.events[FinishIndex(input.events)].finish;
    var state :- OpenSession(t, input.sessionId, input.expected);
    var attempt := FindAttempt(state.attempts, f.attemptId);
    :- Need(attempt.Some? && attempt.value.finished.None?, NotOpenAttempt);
    var rows :- FinishBudget(t.rows, input, attempt.value, f);
    :- Need(attempt.value.start.reservationId.Some? ==> !fault.AfterBudgetMutation?, FaultInjected);
    AppendBatch(t.(rows := rows), input.sessionId, input.events, input.ids, input.createdAt, input.expected, fault)
  }

  // ----- The mutable unit of work

  class AttemptUnitOfWork {
    const ledger: BudgetLedger

    constructor (ledger: BudgetLedger)
      ensures this.ledger == ledger
    {
      this.ledger := ledger;
    }

    ghost function Contents(): Tables
      reads ledger.store.database
    {
      ledger.store.database.Contents()
    }

    method AppendAtomicEvents(session: string, events: seq<EventData>, ids: seq<string>, createdAt: Time, expected: nat, fault: Fault)
      returns (result: Result<seq<StoredEvent>, UnitError>)
      modifies ledger.store.database
      ensures var appended := AppendBatch(old(Contents()), session, events, ids, createdAt, expected, fault);
              && (result.Success? <==> appended.Success?)
              && (result.Failure? ==> result.error == appended.error)
              && (result.Success? ==> Contents() == appended.value)
    {
      hide Append;
      :- Need(events != [] && |ids| == |events|, BadBatch);
      var appended := ledger.store.AppendInternal(session, Batch(events, ids, createdAt), Some(expected), EventFault(fault));
      if appended.Failure? {
        return Failure(StoreFailed(appended.error));
      }
      if fault.AfterAppend? {
        return Failure(FaultInjected);
      }
      result := Success(appended.value);
    }

    method RequireOpenSession(session: string, expected: nat) returns (result: Result<SessionState, UnitError>)
      ensures result == OpenSession(Contents(), session, expected)
    {
      hide StateOf;
      var state := ledger.store.ReplaySession(session);
      :- Need(state.Some?, StoreFailed(SessionNotFound));
      :- Need(state.value.lastSequence == expected, StaleSequence);
      result := Success(state.value);
    }

    method BudgetedStartBody(input: StartInput, fault: Fault) returns (result: Result<Resolution, UnitError>)
      requires Distinct(ledger.store.database.rows)
      modifies ledger.store.database
      ensures var next := BudgetedStart(old(Contents()), input, fault);
              && (result.Success? <==> next.Success?)
              && (result.Failure? ==> result.error == next.error)
              && (result.Success? ==> Contents() == next.value)
    {
      hide Reconciled, Ledger.Reserve, Find, StateOf, EventIdsFit, AppendBatch, StartBatchFits;
      :- Need(input.scope.Simulation?, ActualNotAuthorized);
      :- Need(EventIdsFit(input), BadEventIds);
      var state :- RequireOpenSession(input.sessionId, input.expected);
      var reconciled := ledger.AssertEventReconciled();
      :- Need(reconciled, NotReconciled);
      var campaign := FindCampaign(ledger.store.database.rows, input.campaignId);
      :- Need(campaign.Some?, LedgerFailed(UnknownCampaign));
      :- Need(campaign.value.scope == input.scope, ScopeMismatch);
      :- Need(state.policy.Some?, NoExecutionPolicy);
      var reserved := ledger.Reserve(ReserveInputOf(input, state.policy.value.cap));
      if reserved.Failure? {
        return Failure(LedgerFailed(reserved.error));
      }
      var resolution := reserved.value;
      :- Need(!fault.AfterBudgetMutation?, FaultInjected);
      var events := input.build(resolution);
      :- Need(StartBatchFits(input, resolution, events, campaign.value.credentialId), BadBatch);
      var _ :- AppendAtomicEvents(input.sessionId, events, if resolution.Admitted? then input.admittedIds else input.deniedIds,
                                  input.createdAt, input.expected, fault);
      result := Success(resolution);
    }

    /** Reservation and event batch commit together, or the transaction rolls both back. */
    method CommitBudgetedStart(input: StartInput, fault: Fault) returns (result: Result<Resolution, UnitError>)
      requires Distinct(ledger.store.database.rows)
      modifies ledger.store.database
      ensures var next := BudgetedStart(old(Contents()), input, fault);
              && (result.Success? <==> next.Success?)
              && (result.Failure? ==> result.error == next.error)
              && Contents() == if next.Success? then next.value else old(Contents())
    {
      hide BudgetedStart;
      var before := ledger.store.database.Begin();
      result := BudgetedStartBody(input, fault);
      if result.Failure? {
        ledger.store.database.Rollback(before);
      }
    }

    method CommitLocalStart(input: LocalInput, fault: Fault) returns (result: Result<seq<StoredEvent>, UnitError>)
      modifies ledger.store.database
      ensures var next := LocalStart(old(Contents()), input, fault);
              && (result.Success? <==> next.Success?)
              && (result.Failure? ==> result.error == next.error)
              && Contents() == if next.Success? then next.value else old(Contents())
    {
      hide LocalBatchFits, AppendBatch;
      :- Need(LocalBatchFits(input), BadBatch);
      var before := ledger.store.database.Begin();
      result := AppendAtomicEvents(input.sessionId, input.events, input.ids, input.createdAt, input.expected, fault);
      if result.Failure? {
        ledger.store.database.Rollback(before);
      }
    }

    /** `resolveAttemptBudget` for a reserved attempt, or the zero-cost rule for an unreserved one. */
    method ResolveAttemptBudget(input: FinishInput, a: Attempt, f: Finish) returns (outcome: Wrappers.Outcome<UnitError>)
      modifies ledger.store.database`rows
      ensures var next := FinishBudget(old(ledger.store.database.rows), input, a, f);
              && (outcome.Pass? <==> next.Success?)
              && (outcome.Fail? ==> outcome.error == next.error)
              && ledger.store.database.rows == if next.Success? then next.value else old(ledger.store.database.rows)
    {
      hide Ledger.Resolve, Find;
      if a.start.reservationId.None? {
        if input.terminalId.Some? {
          return Fail(UnreservedTerminal);
        }
        if f.cost.amount != 0 || !f.cost.provenance.LocalZeroCost? || f.cost.reservationId.Some? {
          return Fail(NotLocalZeroCost);
        }
        return Pass;
      }
      var resolution := ResolutionFor(ledger.store.database.rows, input, a, f);
      if resolution.Failure? {
        return Fail(resolution.error);
      }
      var terminal := ledger.Resolve(resolution.value);
      outcome := if terminal.Failure? then Fail(LedgerFailed(terminal.error)) else Pass;
    }

    method AttemptFinishBody(input: FinishInput, fault: Fault) returns (result: Result<seq<StoredEvent>, UnitError>)
      modifies ledger.store.database
      ensures var next := AttemptFinish(old(Contents()), input, fault);
              && (result.Success? <==> next.Success?)
              && (result.Failure? ==> result.error == next.error)
              && (result.Success? ==> Contents() == next.value)
    {
      hide StateOf, AppendBatch, FinishBudget, FinishBatchFits, FindAttempt;
      :- Need(FinishBatchFits(input.events), BadBatch);
      FinishStandsAt(input.events);
      var f := input.events[FinishIndex(input.events)].finish;
      var state :- RequireOpenSession(input.sessionId, input.expected);
      var attempt := FindAttempt(state.attempts, f.attemptId);
      :- Need(attempt.Some? && attempt.value.finished.None?, NotOpenAttempt);
      :- ResolveAttemptBudget(input, attempt.value, f);
      :- Need(attempt.value.start.reservationId.Some? ==> !fault.AfterBudgetMutation?, FaultInjected);
      result := AppendAtomicEvents(input.sessionId, input.events, input.ids, input.createdAt, input.expected, fault);
    }

    /** Terminal row and finish batch commit together, or the transaction rolls both back. */
    method CommitAttemptFinish(input: FinishInput, fault: Fault) returns (result: Result<seq<StoredEvent>, UnitError>)
      modifies ledger.store.database
      ensures var next := AttemptFinish(old(Contents()), input, fault);
              && (result.Success? <==> next.Success?)
              && (result.Failure? ==> result.error == next.error)
              && Contents() == if next.Success? then next.value else old(Contents())
    {
      hide AttemptFinish;
      var before := ledger.store.database.Begin();
      result := AttemptFinishBody(input, fault);
      if result.Failure? {
        ledger.store.database.Rollback(before);
      }
    }
  }

  lemma FinishStandsAt(events: seq<EventData>)
    requires FinishBatchFits(events)
    ensures FinishIndex(events) < |events| && events[FinishIndex(events)].AttemptFinished?
  {
  }
}
