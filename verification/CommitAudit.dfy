/** What a committed start or finish has added to the ledger and to the event log, field by field. */
module CommitAudit {
  import opened Wrappers
  import opened Pricing
  import opened Ledger
  import opened LedgerTheorems
  import opened LedgerAudit
  import opened Sessions
  import opened EventStores
  import opened Reconciliation
  import ReconciliationTheorems
  import opened AttemptUnits

  // ----- The event batch

  /** The log has grown by exactly these events, numbered on from `last`, under these ids and at this time. */
  predicate Grows(log: seq<StoredEvent>, next: seq<StoredEvent>, session: string, events: seq<EventData>, ids: seq<string>,
                  at: Time, last: nat)
  {
    && |next| == |log| + |events| && |ids| == |events| && next[..|log|] == log
    && forall i :: 0 <= i < |events| ==>
         var e := next[|log| + i];
         e.id == ids[i] && e.sessionId == session && e.sequence == last + i + 1 && e.createdAt == at && e.data == events[i]
  }

  lemma {:induction false} AppendAllGrows(log: seq<StoredEvent>, state: Option<SessionState>, session: string, sequence: nat,
                                          pending: seq<Pending>, fault: Option<nat>)
    requires AppendAll(log, state, session, sequence, pending, fault).Success?
    ensures var next := AppendAll(log, state, session, sequence, pending, fault).value.0;
            && |next| == |log| + |pending| && next[..|log|] == log
            && forall i :: 0 <= i < |pending| ==>
                 next[|log| + i] == StoredEvent(pending[i].id, session, sequence + i + 1, pending[i].createdAt, pending[i].data)
    decreases |pending|
  {
    hide IdUsed, Reduced;
    if pending != [] {
      var event := Stored(session, sequence + 1, pending[0]);
      AppendAllGrows(log + [event], Reduced(state, event), session, sequence + 1, pending[1..], Remaining(fault, 1));
      var next := AppendAll(log, state, session, sequence, pending, fault).value.0;
      assert next[..|log| + 1] == log + [event];
      assert next[..|log|] == next[..|log| + 1][..|log|];
      forall i | 0 <= i < |pending|
        ensures next[|log| + i] == StoredEvent(pending[i].id, session, sequence + i + 1, pending[i].createdAt, pending[i].data)
      {
        if i == 0 {
          assert next[|log|] == next[..|log| + 1][|log|];
        } else {
          assert pending[i] == pending[1..][i - 1];
        }
      }
    }
  }

  lemma AppendGrows(t: Tables, session: string, pending: seq<Pending>, last: nat, fault: Option<nat>)
    requires pending != [] && Append(t, session, pending, Some(last), fault).Success?
    ensures var next := Append(t, session, pending, Some(last), fault).value;
            && next.rows == t.rows && |next.log| == |t.log| + |pending| && next.log[..|t.log|] == t.log
            && forall i :: 0 <= i < |pending| ==>
                 next.log[|t.log| + i] == StoredEvent(pending[i].id, session, last + i + 1, pending[i].createdAt, pending[i].data)
  {
    hide AppendAll, StateOf, CurrentState;
    var state := CurrentState(t, session).value;
    AppendAllGrows(t.log, state, session, last, pending, fault);
  }

  lemma BatchGrows(t: Tables, session: string, events: seq<EventData>, ids: seq<string>, at: Time, last: nat, fault: Fault)
    requires AppendBatch(t, session, events, ids, at, last, fault).Success?
    ensures var next := AppendBatch(t, session, events, ids, at, last, fault).value;
            Grows(t.log, next.log, session, events, ids, at, last) && next.rows == t.rows && events != []
  {
    var batch := Batch(events, ids, at);
    assert forall i :: 0 <= i < |events| ==> batch[i] == Pending(ids[i], at, events[i]);
    hide Append, Batch;
    AppendGrows(t, session, batch, last, EventFault(fault));
  }

  // ----- Budgeted starts

  /** The admission passed, and decision and attempt repeat it and the input. */
  predicate StartReads(input: StartInput, e: Admission, d: Decision, a: AttemptStart, credential: string) {
    && e.passed && input.admissionId == Some(e.admissionId) && e.evaluatedAt == input.createdAt
    && d.admissionId == input.admissionId && a.admissionId == input.admissionId && d.provenance == Some(e.provenance)
    && d.scope == Some(Simulation) && a.scope == Some(Simulation) && d.asOf == Some(input.createdAt)
    && d.campaignId == Some(input.campaignId) && d.pricingId == Some(input.pricingId) && d.credentialId == Some(credential)
    && a.attemptId == input.attemptId
  }

  /** An admitted start: six events, the reservation in decision and attempt, and the tokens it was projected for. */
  predicate AdmittedStart(input: StartInput, events: seq<EventData>, credential: string) {
    && |events| == 6 && events[0].EgressRecorded? && events[1].DecisionRecorded? && events[2].RouteAssigned?
    && events[3].AssistantStarted? && events[4].ContextCompiled? && events[5].AttemptStarted?
    && var d, a := events[1].decision, events[5].start;
       && StartReads(input, events[0].admission, d, a, credential)
       && d.reason.CloudAdmitted? && d.selectedProvider == input.providerId && a.providerId == input.providerId
       && d.reservationId == Some(input.reservationId) && a.reservationId == Some(input.reservationId)
       && a.maxOutput == input.projection.outputTokens && events[4].billableTokens == input.projection.inputTokens
  }

  /** A denied start: five events, no reservation anywhere, and the reason it was denied for. */
  predicate DeniedStart(input: StartInput, events: seq<EventData>, credential: string, reason: DenialReason) {
    && |events| == 5 && events[0].EgressRecorded? && events[1].DecisionRecorded? && events[2].AssistantStarted?
    && events[3].ContextCompiled? && events[4].AttemptStarted?
    && var d, a := events[1].decision, events[4].start;
       && StartReads(input, events[0].admission, d, a, credential)
       && d.reason.BudgetDenial? && d.proposedProvider == Some(input.providerId) && d.denial == Some(reason)
       && d.reservationId.None? && a.reservationId.None?
  }

  /** The row that an admitted start adds. */
  function StartRow(input: StartInput, amount: nat): Row {
    ReservedRow(ReserveInputOf(input, 0), amount)
  }

  /** Whether the campaign and a session with this cap have the budget for `amount` more. */
  ghost predicate HasBudget(rows: seq<Row>, c: Row, cap: nat, amount: nat)
    requires c.CampaignRow?
  {
    var entries := EntriesOf(rows, c.id);
    && (forall e :: e in entries && e.TerminalRow? ==> !e.kind.Overrun?)
    && amount <= cap && Exposure(c.opening, entries) + amount <= c.ceiling && Exposure(c.opening, entries) + amount <= c.stop
  }

  /** The event ids of both outcomes are there and differ. */
  ghost predicate IdsFit(ids: seq<string>) {
    |ids| == 11 && (forall id :: id in ids ==> id != "") && forall i, j :: 0 <= i < j < |ids| ==> ids[i] != ids[j]
  }

  lemma StartForm(t: Tables, input: StartInput, fault: Fault)
    requires BudgetedStart(t, input, fault).Success?
    ensures Reconciled(t) && input.scope == Simulation && IdsFit(input.admittedIds + input.deniedIds)
    ensures StateOf(t, input.sessionId).Some? && StateOf(t, input.sessionId).value.policy.Some?
    ensures StateOf(t, input.sessionId).value.lastSequence == input.expected
    ensures FindCampaign(t.rows, input.campaignId).Some?
    ensures var reserved := Reserve(t.rows, ReserveInputOf(input, StateOf(t, input.sessionId).value.policy.value.cap));
            && reserved.Success?
            && var (resolution, rows) := reserved.value;
               var events, ids := input.build(resolution), if resolution.Admitted? then input.admittedIds else input.deniedIds;
               var appended := AppendBatch(t.(rows := rows), input.sessionId, events, ids, input.createdAt, input.expected, fault);
               && StartBatchFits(input, resolution, events, FindCampaign(t.rows, input.campaignId).value.credentialId)
               && appended.Success? && BudgetedStart(t, input, fault).value == appended.value
  {
    hide AppendBatch, Find, StateOf, Reconciled, StartBatchFits, Reserve;
  }

  lemma BatchReads(input: StartInput, resolution: Resolution, events: seq<EventData>, credential: string)
    requires StartBatchFits(input, resolution, events, credential) && input.scope == Simulation
    requires resolution.billing.projection == input.projection
    ensures |events| >= 5 && events[1].DecisionRecorded? && events[1].decision.billing == Some(resolution.billing)
    ensures resolution.Admitted? ==> AdmittedStart(input, events, credential)
    ensures resolution.Denied? ==> DeniedStart(input, events, credential, resolution.reason)
  {
  }

  lemma BudgetDecides(t: Tables, input: StartInput, cap: nat)
    requires Reserve(t.rows, ReserveInputOf(input, cap)).Success? && Distinct(t.rows)
    ensures ProjectWorstCase(input.projection).Success? && FindCampaign(t.rows, input.campaignId).Some?
    ensures var (resolution, rows) := Reserve(t.rows, ReserveInputOf(input, cap)).value;
            var amount, c := ProjectWorstCase(input.projection).value, FindCampaign(t.rows, input.campaignId).value;
            && (resolution.Admitted? <==> HasBudget(t.rows, c, cap, amount))
            && rows == (if resolution.Admitted? then t.rows + [StartRow(input, amount)] else t.rows)
            && resolution.billing.projection == input.projection && resolution.billing.projected == amount
  {
    WhenAdmitted(t.rows, ReserveInputOf(input, cap));
    WhenReserved(t.rows, ReserveInputOf(input, cap));
    hide Reserve, Find, ProjectWorstCase, EntriesOf, Exposure;
    FoundCampaign(t.rows, input.campaignId);
  }

  lemma FoundCampaign(rows: seq<Row>, id: string)
    requires FindCampaign(rows, id).Some?
    ensures FindCampaign(rows, id).value.CampaignRow? && FindCampaign(rows, id).value.id == id
  {
    hide Find;
  }

  /** The events `next` has beyond `log`. */
  function Tail(log: seq<StoredEvent>, next: seq<StoredEvent>): seq<EventData>
    requires |log| <= |next|
  {
    seq(|next| - |log|, i requires 0 <= i < |next| - |log| => next[|log| + i].data)
  }

  lemma GrownTail(log: seq<StoredEvent>, next: seq<StoredEvent>, session: string, events: seq<EventData>, ids: seq<string>, at: Time, last: nat)
    requires Grows(log, next, session, events, ids, at, last)
    ensures Tail(log, next) == events
  {
  }

  /**
   * A budgeted start commits on a reconciled ledger, at the expected sequence, in a simulation. Where the campaign and the
   * session have the budget it adds the reservation and six events, and otherwise five events and no row; in both cases
   * the decision shows the projected price.
   */
  lemma StartsCommitWhole(t: Tables, input: StartInput, fault: Fault)
    requires BudgetedStart(t, input, fault).Success? && Distinct(t.rows)
    ensures Reconciled(t) && input.scope == Simulation && IdsFit(input.admittedIds + input.deniedIds)
    ensures StateOf(t, input.sessionId).Some? && StateOf(t, input.sessionId).value.policy.Some?
    ensures StateOf(t, input.sessionId).value.lastSequence == input.expected
    ensures ProjectWorstCase(input.projection).Success? && FindCampaign(t.rows, input.campaignId).Some?
    ensures var next, amount := BudgetedStart(t, input, fault).value, ProjectWorstCase(input.projection).value;
            var cap, c := StateOf(t, input.sessionId).value.policy.value.cap, FindCampaign(t.rows, input.campaignId).value;
            && |next.log| >= |t.log| + 5
            && var events, fits := Tail(t.log, next.log), HasBudget(t.rows, c, cap, amount);
               && Grows(t.log, next.log, input.sessionId, events, if fits then input.admittedIds else input.deniedIds,
                        input.createdAt, input.expected)
               && events[1].DecisionRecorded? && events[1].decision.billing.Some?
               && events[1].decision.billing.value.projection == input.projection
               && events[1].decision.billing.value.projected == amount
               && if fits then next.rows == t.rows + [StartRow(input, amount)] && AdmittedStart(input, events, c.credentialId)
                  else next.rows == t.rows && exists reason :: DeniedStart(input, events, c.credentialId, reason)
  {
    StartForm(t, input, fault);
    var cap := StateOf(t, input.sessionId).value.policy.value.cap;
    BudgetDecides(t, input, cap);
    hide BudgetedStart, AppendBatch, Find, StateOf, Reconciled, StartBatchFits, Reserve, ProjectWorstCase, HasBudget, AdmittedStart,
         DeniedStart, Grows, StartRow, Tail;
    var (resolution, rows) := Reserve(t.rows, ReserveInputOf(input, cap)).value;
    var events, ids := input.build(resolution), if resolution.Admitted? then input.admittedIds else input.deniedIds;
    BatchGrows(t.(rows := rows), input.sessionId, events, ids, input.createdAt, input.expected, fault);
    BatchReads(input, resolution, events, FindCampaign(t.rows, input.campaignId).value.credentialId);
    var next := BudgetedStart(t, input, fault).value;
    GrownTail(t.log, next.log, input.sessionId, events, ids, input.createdAt, input.expected);
    GrownLength(t.log, next.log, input.sessionId, events, ids, input.createdAt, input.expected);
  }

  lemma GrownLength(log: seq<StoredEvent>, next: seq<StoredEvent>, session: string, events: seq<EventData>, ids: seq<string>, at: Time, last: nat)
    requires Grows(log, next, session, events, ids, at, last)
    ensures |next| == |log| + |events|
  {
  }

  // ----- Local starts

  /** A decision that has nothing to do with money. */
  predicate IsFree(d: Decision) {
    !d.reason.CloudAdmitted? && !d.reason.BudgetDenial? && d.billing.None? && d.reservationId.None? && d.campaignId.None?
  }

  /** A local start adds its own events and no row: its attempt is unpaid, and every decision in it is free. */
  lemma LocalStartsCommitWhole(t: Tables, input: LocalInput, fault: Fault)
    requires LocalStart(t, input, fault).Success?
    ensures var next := LocalStart(t, input, fault).value;
            && next.rows == t.rows
            && Grows(t.log, next.log, input.sessionId, input.events, input.ids, input.createdAt, input.expected)
    ensures 3 <= |input.events| <= 6 && input.scope != Legacy
    ensures var n := |input.events|;
            && input.events[n - 3].AssistantStarted? && input.events[n - 2].ContextCompiled? && input.events[n - 1].AttemptStarted?
            && input.events[n - 1].start.reservationId.None? && input.events[n - 1].start.scope == Some(input.scope)
            && input.events[n - 1].start.admissionId == input.admissionId
            && (forall i :: 0 <= i < n - 1 ==> !input.events[i].AttemptStarted? && !input.events[i].AttemptFinished?)
            && (forall i :: 0 <= i < n && input.events[i].DecisionRecorded? ==>
                  && IsFree(input.events[i].decision) && input.events[i].decision.scope == Some(input.scope)
                  && input.events[i].decision.admissionId == input.admissionId
                  && input.events[i].decision.asOf == Some(input.createdAt))
  {
    hide AppendBatch;
    BatchGrows(t, input.sessionId, input.events, input.ids, input.createdAt, input.expected, fault);
  }

  // ----- Finishes

  /** The terminal row of a finish: a release where nothing was sent, an overrun above the reservation, a settlement otherwise. */
  function FinishRow(terminalId: string, f: Finish, r: Row, at: Time): Row
    requires r.ReservationRow?
  {
    if f.disposition.NotSent? then
      TerminalRow(terminalId, Release, r.campaignId, r.id, r.scope, 0, None, NotSent,
                  Some(if f.errorCode.Some? then f.errorCode.value else "definitely_unsent"), at)
    else if f.cost.amount > r.amount then
      TerminalRow(terminalId, Overrun, r.campaignId, r.id, r.scope, f.cost.amount, Some(f.cost.provenance), f.disposition,
                  Some("budget_overrun"), at)
    else
      TerminalRow(terminalId, Settlement, r.campaignId, r.id, r.scope, f.cost.amount, Some(f.cost.provenance), f.disposition, None, at)
  }

  /** The batch fails the session for an overrun. */
  ghost predicate FailsForOverrun(events: seq<EventData>) {
    && events != [] && events[|events| - 1].SessionFailed?
    && ReconciliationTheorems.SaysOverrun(events[|events| - 1].error)
  }

  /**
   * The cost of a finish is what it may be: nothing if nothing was sent, else the host's price, the reserved amount or what
   * the provider reported.
   */
  ghost predicate CostReads(f: Finish, r: Row, events: seq<EventData>)
    requires r.ReservationRow?
  {
    && f.cost.reservationId == Some(r.id)
    && if f.disposition.NotSent? then f.cost.amount == 0 && f.cost.provenance.HostPricing?
       else
         && !f.cost.provenance.LocalZeroCost?
         && (f.cost.provenance.HostPricing? ==> ReconciliationTheorems.IsHostPrice(r.rates, f.usage, f.cost.amount))
         && (f.cost.provenance.ReservedUnknown? ==> f.cost.amount == r.amount)
         && (f.cost.amount > r.amount ==> FailsForOverrun(events))
  }

  /** The batch of a finish: perhaps the completed answer of the same attempt, the finish, and perhaps the end of the session. */
  predicate FinishBatch(events: seq<EventData>, k: nat) {
    && k <= 1 && k < |events| <= k + 2 && events[k].AttemptFinished?
    && (k == 1 ==> events[0].AssistantCompleted? && events[0].attemptId == events[1].finish.attemptId)
    && (|events| == k + 2 ==>
          var end := events[k + 1]; end.SessionCompleted? || end.SessionFailed? || end.SessionCancelled? || end.SessionInterrupted?)
  }

  lemma OverrunFails(events: seq<EventData>)
    requires EndsByOverrun(events)
    ensures FailsForOverrun(events)
  {
    ReconciliationTheorems.PhraseIsRead(events[|events| - 1].error);
  }

  lemma ResolutionReads(rows: seq<Row>, input: FinishInput, a: Attempt, f: Finish)
    requires a.start.reservationId.Some? && ResolutionFor(rows, input, a, f).Success?
    ensures input.terminalId.Some? && FindReservation(rows, a.start.reservationId.value).Some?
    ensures var r, resolution := FindReservation(rows, a.start.reservationId.value).value, ResolutionFor(rows, input, a, f).value;
            && r.sessionId == input.sessionId && r.attemptId == a.start.attemptId && CostReads(f, r, input.events)
            && TerminalFor(resolution, r) == FinishRow(input.terminalId.value, f, r, input.createdAt)
            && resolution.reservationId == r.id
  {
    hide Find, LedgerHostPrice, UnitHostPrice, EndsByOverrun, FailsForOverrun, RoundsUp, ExactHostCost, Priceable;
    var r := FindReservation(rows, a.start.reservationId.value).value;
    HostPricesAreExact(r.rates, f.usage);
    if EndsByOverrun(input.events) {
      OverrunFails(input.events);
    }
  }

  lemma ResolvedAdds(rows: seq<Row>, input: FinishInput, a: Attempt, f: Finish)
    requires a.start.reservationId.Some? && FinishBudget(rows, input, a, f).Success? && Distinct(rows)
    ensures input.terminalId.Some? && FindReservation(rows, a.start.reservationId.value).Some?
    ensures var r := FindReservation(rows, a.start.reservationId.value).value;
            && r in rows && r.id == a.start.reservationId.value && r.sessionId == input.sessionId && r.attemptId == a.start.attemptId
            && CostReads(f, r, input.events)
            && FinishBudget(rows, input, a, f).value == rows + [FinishRow(input.terminalId.value, f, r, input.createdAt)]
            && Ends(FinishRow(input.terminalId.value, f, r, input.createdAt), r)
  {
    ResolutionReads(rows, input, a, f);
    hide Find, ResolutionFor, CostReads, FinishRow, Insertable, ResolutionFits;
    var r := FindReservation(rows, a.start.reservationId.value).value;
    var resolution := ResolutionFor(rows, input, a, f).value;
    FoundReservation(rows, a.start.reservationId.value);
    ResolveAdds(rows, resolution, r);
  }

  lemma FoundReservation(rows: seq<Row>, id: string)
    requires FindReservation(rows, id).Some?
    ensures var r := FindReservation(rows, id).value; r in rows && r.ReservationRow? && r.id == id
  {
    hide Find;
  }

  lemma ResolveAdds(rows: seq<Row>, input: ResolveInput, r: Row)
    requires Resolve(rows, input).Success? && Distinct(rows) && FindReservation(rows, input.reservationId) == Some(r)
    requires r in rows && r.ReservationRow? && r.id == input.reservationId
    ensures Resolve(rows, input).value == rows + [TerminalFor(input, r)] && Ends(TerminalFor(input, r), r)
  {
    TerminalJoins(rows, TerminalFor(input, r));
    EndsOnce(rows, TerminalFor(input, r), r);
    hide Find, Insertable, Ends;
  }

  lemma FinishForm(t: Tables, input: FinishInput, fault: Fault)
    requires AttemptFinish(t, input, fault).Success?
    ensures FinishBatchFits(input.events) && FinishIndex(input.events) < |input.events|
    ensures input.events[FinishIndex(input.events)].AttemptFinished?
    ensures StateOf(t, input.sessionId).Some? && StateOf(t, input.sessionId).value.lastSequence == input.expected
    ensures var f := input.events[FinishIndex(input.events)].finish;
            var found := FindAttempt(StateOf(t, input.sessionId).value.attempts, f.attemptId);
            && found.Some? && found.value.finished.None?
            && var rows := FinishBudget(t.rows, input, found.value, f);
               && rows.Success?
               && var appended := AppendBatch(t.(rows := rows.value), input.sessionId, input.events, input.ids, input.createdAt,
                                                input.expected, fault);
                  appended.Success? && AttemptFinish(t, input, fault).value == appended.value
  {
    hide AppendBatch, StateOf, FinishBudget, FindAttempt;
  }

  lemma BatchOfFinish(events: seq<EventData>)
    requires FinishBatchFits(events)
    ensures FinishBatch(events, FinishIndex(events))
  {
  }

  /**
   * A finish commits at the expected sequence, for an open attempt of the session. It adds its own batch of events, and
   * exactly one terminal row that ends the attempt's reservation, or none where nothing was reserved and nothing was paid.
   */
  lemma FinishesCommitWhole(t: Tables, input: FinishInput, fault: Fault) returns (k: nat, a: Attempt)
    requires AttemptFinish(t, input, fault).Success? && Distinct(t.rows)
    ensures FinishBatch(input.events, k)
    ensures StateOf(t, input.sessionId).Some? && StateOf(t, input.sessionId).value.lastSequence == input.expected
    ensures a in StateOf(t, input.sessionId).value.attempts && a.finished.None?
    ensures a.start.attemptId == input.events[k].finish.attemptId
    ensures var next, f := AttemptFinish(t, input, fault).value, input.events[k].finish;
            && Grows(t.log, next.log, input.sessionId, input.events, input.ids, input.createdAt, input.expected)
            && if a.start.reservationId.None? then
                 && next.rows == t.rows && input.terminalId.None?
                 && f.cost.amount == 0 && f.cost.provenance.LocalZeroCost? && f.cost.reservationId.None?
               else
                 && input.terminalId.Some?
                 && exists r :: r in t.rows && Finishes(t.rows, next.rows, input, a, f, r)
  {
    FinishForm(t, input, fault);
    BatchOfFinish(input.events);
    k := FinishIndex(input.events);
    var f := input.events[k].finish;
    a := FindAttempt(StateOf(t, input.sessionId).value.attempts, f.attemptId).value;
    var rows := FinishBudget(t.rows, input, a, f).value;
    BatchGrows(t.(rows := rows), input.sessionId, input.events, input.ids, input.createdAt, input.expected, fault);
    if a.start.reservationId.Some? {
      ResolvedAdds(t.rows, input, a, f);
      hide FinishBudget, CostReads, Ends, FinishRow, AttemptFinish, AppendBatch, StateOf, FindReservation, FinishBatchFits, Grows;
      var r := FindReservation(t.rows, a.start.reservationId.value).value;
      assert Finishes(t.rows, rows, input, a, f, r);
    }
  }

  /** The reservation `r` of the attempt ends in the one row that is new. */
  ghost predicate Finishes(rows: seq<Row>, next: seq<Row>, input: FinishInput, a: Attempt, f: Finish, r: Row) {
    && input.terminalId.Some? && r.ReservationRow? && a.start.reservationId == Some(r.id)
    && r.sessionId == input.sessionId && r.attemptId == a.start.attemptId && CostReads(f, r, input.events)
    && next == rows + [FinishRow(input.terminalId.value, f, r, input.createdAt)]
    && Ends(FinishRow(input.terminalId.value, f, r, input.createdAt), r)
  }
}
