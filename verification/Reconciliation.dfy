/** The integrity gate between the budget ledger and the session event log. */
module Reconciliation {
  import opened Wrappers
  import opened Pricing
  import opened Ledger
  import opened LedgerTheorems
  import opened Sessions
  import opened EventStores

  // ----- Matching one reservation with one attempt

  /** The projection a stored reservation row stands for. */
  function StoredProjection(r: Row): Projection
    requires r.ReservationRow?
  {
    Projection(r.inputTokens, r.cacheTokens, r.outputTokens, r.rates.input, r.rates.output, Some(r.rates.cacheRead), r.rates.fee)
  }

  predicate ProjectionHolds(r: Row)
    requires r.ReservationRow?
  {
    r.amount > 0 && ProjectWorstCase(StoredProjection(r)) == Success(r.amount)
  }

  function FindTerminal(rows: seq<Row>, reservationId: string): (found: Option<Row>)
    ensures found.Some? ==> found.value in rows && found.value.TerminalRow? && found.value.reservationId == reservationId
    ensures found.None? <==> !IsResolved(rows, reservationId)
  {
    if rows == [] then None
    else
      assert IsResolved(rows, reservationId)
             <==> (rows[0].TerminalRow? && rows[0].reservationId == reservationId) || IsResolved(rows[1..], reservationId) by {
        assert forall i :: 1 <= i < |rows| ==> rows[i] == rows[1..][i - 1];
      }
      if rows[0].TerminalRow? && rows[0].reservationId == reservationId then Some(rows[0])
      else FindTerminal(rows[1..], reservationId)
  }

  predicate StartMatches(state: SessionState, a: Attempt, r: Row)
    requires r.ReservationRow?
  {
    && r.sessionId == state.id && r.attemptId == a.start.attemptId && r.providerId == a.start.providerId
    && r.outputTokens == a.start.maxOutput && r.createdAt == a.createdAt && r.scope == Effective(a.start.scope)
    && r.admissionId == a.start.admissionId
  }

  predicate BillingMatches(b: Billing, r: Row)
    requires r.ReservationRow?
  {
    && b.projection.inputTokens == r.inputTokens && b.projection.cacheTokens == r.cacheTokens
    && b.projection.outputTokens == r.outputTokens && RatesOf(b.projection) == r.rates && b.projected == r.amount
  }

  predicate DecisionMatches(d: Decision, r: Row)
    requires r.ReservationRow?
  {
    && d.reason.CloudAdmitted? && d.selectedProvider == r.providerId && d.reservationId == Some(r.id)
    && d.campaignId == Some(r.campaignId) && d.pricingId == Some(r.pricingId) && d.billing.Some?
    && Effective(d.scope) == r.scope && d.admissionId == r.admissionId && BillingMatches(d.billing.value, r)
  }

  /** The campaign's authority, and a remaining budget it can have had: the whole episode cap among them. */
  predicate CampaignMatches(campaign: Row, state: SessionState, d: Decision, r: Row)
    requires campaign.CampaignRow? && r.ReservationRow? && d.billing.Some?
  {
    && campaign.providerId == r.providerId && d.credentialId == Some(campaign.credentialId) && campaign.scope == r.scope
    && state.policy.Some? && d.billing.value.remainingEpisode == state.policy.value.cap
    && d.billing.value.remainingCampaign
       <= (if campaign.stop <= campaign.ceiling then campaign.stop else campaign.ceiling) - campaign.opening
  }

  predicate AdmissionMatches(state: SessionState, d: Decision, r: Row)
    requires r.ReservationRow?
  {
    r.scope.Simulation? ==>
      && r.admissionId.Some? && d.admissionId == r.admissionId
      && var found := FindAdmission(state.admissions, r.admissionId.value);
         && found.Some? && found.value.passed && d.messages == Some(found.value.messages)
         && d.provenance == Some(found.value.provenance) && d.checkpointId == Some(found.value.checkpointId)
  }

  function Lower(c: char): char {
    if 'A' <= c <= 'Z' then c + 32 as char else c
  }

  /** The error text mentions a budget overrun, whatever its letter case. */
  predicate MentionsOverrun(error: string) {
    exists i :: 0 <= i <= |error| && BeginsWith(error[i..], "budget overrun")
  }

  predicate BeginsWith(text: string, phrase: string) {
    |phrase| <= |text| && forall j :: 0 <= j < |phrase| ==> Lower(text[j]) == phrase[j]
  }

  predicate FailedByOverrun(state: SessionState) {
    state.status.Failed? && state.error.Some? && MentionsOverrun(state.error.value)
  }

  /** `expectedTerminalRowType` */
  function ExpectedKind(r: Row, f: Finish): Kind
    requires r.ReservationRow?
  {
    if f.disposition.NotSent? then Release else if f.cost.amount > r.amount then Overrun else Settlement
  }

  /** A terminal row repeats the finish of its attempt. */
  predicate FinishMatches(state: SessionState, f: FinishRecord, r: Row, terminal: Row)
    requires r.ReservationRow? && terminal.TerminalRow?
  {
    var cost, kind := f.finish.cost, ExpectedKind(r, f.finish);
    && terminal.kind == kind && terminal.campaignId == r.campaignId && terminal.amount == cost.amount
    && terminal.disposition == f.finish.disposition && terminal.createdAt == f.createdAt
    && cost.reservationId == Some(r.id) && Effective(cost.scope) == r.scope && terminal.scope == r.scope
    && if kind.Release? then
         cost.provenance.HostPricing? && terminal.provenance.None? && terminal.reason == f.finish.errorCode
       else
         && terminal.provenance == Some(cost.provenance)
         && terminal.reason == (if kind.Overrun? then Some("budget_overrun") else None)
         && (cost.provenance.HostPricing? ==> LedgerHostPrice(r.rates, f.finish.usage) == Success(cost.amount))
         && (kind.Overrun? ==> FailedByOverrun(state))
  }

  predicate TerminalMatches(rows: seq<Row>, state: SessionState, a: Attempt, r: Row)
    requires r.ReservationRow?
  {
    var terminal := FindTerminal(rows, r.id);
    if a.finished.None? || terminal.None? then a.finished.None? && terminal.None? && state.status.Running?
    else FinishMatches(state, a.finished.value, r, terminal.value)
  }

  /** One paid attempt of one session agrees with the ledger. */
  predicate AttemptReconciled(rows: seq<Row>, state: SessionState, a: Attempt)
    requires a.start.reservationId.Some?
  {
    var reservation := FindReservation(rows, a.start.reservationId.value);
    && reservation.Some?
    && var r := reservation.value;
       && StartMatches(state, a, r)
       && var decision := FindDecision(state.decisions, a.start.decisionId);
          && decision.Some? && DecisionMatches(decision.value, r)
          && var campaign := FindCampaign(rows, r.campaignId);
             && campaign.Some? && CampaignMatches(campaign.value, state, decision.value, r)
             && AdmissionMatches(state, decision.value, r)
             && TerminalMatches(rows, state, a, r)
  }

  // ----- The whole gate

  predicate RowsReconciled(rows: seq<Row>) {
    && (forall i :: 0 <= i < |rows| && rows[i].ReservationRow? ==> ProjectionHolds(rows[i]))
    && (forall i :: 0 <= i < |rows| && rows[i].TerminalRow? ==>
          FindReservation(rows, rows[i].reservationId).Some?
          && FindReservation(rows, rows[i].reservationId).value.scope == rows[i].scope)
    && (forall i, j :: 0 <= i < j < |rows| && rows[i].TerminalRow? && rows[j].TerminalRow? ==>
          rows[i].reservationId != rows[j].reservationId)
  }

  predicate IsPaidStart(e: StoredEvent) {
    e.data.AttemptStarted? && e.data.start.reservationId.Some?
  }

  /** The sessions of reservation rows and of paid attempt events. */
  function Universe(t: Tables): set<string> {
    (set r | r in t.rows && r.ReservationRow? :: r.sessionId) + (set e | e in t.log && IsPaidStart(e) :: e.sessionId)
  }

  predicate SessionReconciled(t: Tables, session: string) {
    && StateOf(t, session).Some?
    && var attempts := StateOf(t, session).value.attempts;
       && (forall k :: 0 <= k < |attempts| && attempts[k].start.reservationId.Some? ==>
             AttemptReconciled(t.rows, StateOf(t, session).value, attempts[k]))
       && (forall j, k :: 0 <= j < k < |attempts| && attempts[k].start.reservationId.Some? ==>
             attempts[j].start.reservationId != attempts[k].start.reservationId)
  }

  predicate PaysFor(t: Tables, session: string, reservationId: string) {
    && StateOf(t, session).Some?
    && exists k :: 0 <= k < |StateOf(t, session).value.attempts|
                   && StateOf(t, session).value.attempts[k].start.reservationId == Some(reservationId)
  }

  /**
   * Ledger and event log agree: rows are well formed, every paid attempt matches its reservation, no reservation is
   * linked to two attempts, and every reservation is linked to one.
   */
  predicate Reconciled(t: Tables) {
    && RowsReconciled(t.rows)
    && (forall s :: s in Universe(t) ==> SessionReconciled(t, s))
    && (forall i :: 0 <= i < |t.rows| && t.rows[i].ReservationRow? ==> PaysFor(t, t.rows[i].sessionId, t.rows[i].id))
  }
}
