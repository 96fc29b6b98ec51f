/** The invariant of ledger and event log together, and the facts that keep one paid attempt reconciled. */
module PersistenceInvariant {
  import opened Wrappers
  import opened Pricing
  import opened Ledger
  import opened LedgerTheorems
  import opened Sessions
  import opened SessionTheorems
  import opened EventStores
  import opened StoreTheorems
  import opened Reconciliation
  import opened BudgetLedgers

  // ----- The invariant

  ghost predicate PaidReconciled(rows: seq<Row>, s: SessionState) {
    forall k :: 0 <= k < |s.attempts| && s.attempts[k].start.reservationId.Some? ==> AttemptReconciled(rows, s, s.attempts[k])
  }

  ghost predicate AllPaidReconciled(t: Tables) {
    forall s :: s in t.sessions && StateOf(t, s).Some? ==> PaidReconciled(t.rows, StateOf(t, s).value)
  }

  ghost predicate ReservationsHeld(t: Tables) {
    forall r :: r in t.rows && r.ReservationRow? ==>
      ProjectionHolds(r) && r.sessionId in t.sessions && PaysFor(t, r.sessionId, r.id)
  }

  ghost predicate Inv(t: Tables) {
    Linked(t.rows) && AllBounded(t.rows) && StoreSound(t) && AllPaidReconciled(t) && ReservationsHeld(t)
  }

  const EMPTY := Tables([], [], map[])

  lemma EmptyIsInv()
    ensures Inv(EMPTY)
  {
  }

  // ----- The invariant implies the gate

  lemma {:induction false} PaidStartHasSession(log: seq<StoredEvent>, e: StoredEvent)
    requires e in log
    ensures e in EventsOf(log, e.sessionId)
  {
    var shorter, last := log[..|log| - 1], log[|log| - 1];
    if e != last {
      assert e in shorter;
      PaidStartHasSession(shorter, e);
    }
  }

  lemma SessionIsReconciled(t: Tables, session: string)
    requires Inv(t) && session in t.sessions
    ensures SessionReconciled(t, session)
  {
    hide Linked, AllBounded, ReservationsHeld, AttemptReconciled, Find, FindReservation, Replay, EventsOf;
    var state := StateOf(t, session).value;
    assert PaidReconciled(t.rows, state);
    ReplayIsSound(EventsOf(t.log, session));
    forall j, k | 0 <= j < k < |state.attempts| && state.attempts[k].start.reservationId.Some?
      ensures state.attempts[j].start.reservationId != state.attempts[k].start.reservationId
    {
      if state.attempts[j].start.reservationId == state.attempts[k].start.reservationId {
        ReservationNamesAttempt(t.rows, state, state.attempts[j]);
        ReservationNamesAttempt(t.rows, state, state.attempts[k]);
      }
    }
  }

  lemma ReservationNamesAttempt(rows: seq<Row>, s: SessionState, a: Attempt)
    requires a.start.reservationId.Some? && AttemptReconciled(rows, s, a)
    ensures var found := FindReservation(rows, a.start.reservationId.value);
            found.Some? && found.value.attemptId == a.start.attemptId && found.value.sessionId == s.id
  {
    hide Find, DecisionMatches, CampaignMatches, AdmissionMatches, TerminalMatches;
  }

  lemma RowsAreReconciled(t: Tables)
    requires Inv(t)
    ensures RowsReconciled(t.rows)
  {
    hide Find, ProjectionHolds, AllBounded, AllPaidReconciled, PaysFor, StoreSound;
    forall i | 0 <= i < |t.rows| && t.rows[i].ReservationRow? ensures ProjectionHolds(t.rows[i]) {
      assert t.rows[i] in t.rows;
    }
  }

  /** The invariant implies that `assertEventReconciled` accepts. */
  lemma InvIsReconciled(t: Tables)
    requires Inv(t)
    ensures Reconciled(t)
  {
    hide Linked, AllBounded, AllPaidReconciled, SessionReconciled, PaysFor, EventsOf, RowsReconciled;
    RowsAreReconciled(t);
    forall s | s in Universe(t) ensures SessionReconciled(t, s) {
      if e :| e in t.log && IsPaidStart(e) && e.sessionId == s {
        PaidStartHasSession(t.log, e);
      }
      assert s in t.sessions;
      SessionIsReconciled(t, s);
    }
    forall i | 0 <= i < |t.rows| && t.rows[i].ReservationRow? ensures PaysFor(t, t.rows[i].sessionId, t.rows[i].id) {
      assert t.rows[i] in t.rows;
    }
  }

  // ----- A reconciled attempt stays reconciled

  /** The rows that decide about reservation `id` are the same. */
  ghost predicate SameLedgerFor(rows: seq<Row>, rows': seq<Row>, id: string) {
    && FindReservation(rows, id).Some? && FindReservation(rows', id) == FindReservation(rows, id)
    && FindTerminal(rows', id) == FindTerminal(rows, id)
    && var campaignId := FindReservation(rows, id).value.campaignId;
       FindCampaign(rows, campaignId).Some? ==> FindCampaign(rows', campaignId) == FindCampaign(rows, campaignId)
  }

  lemma {:induction false} FindTerminalInExtension(rows: seq<Row>, row: Row, id: string)
    requires !(row.TerminalRow? && row.reservationId == id)
    ensures FindTerminal(rows + [row], id) == FindTerminal(rows, id)
  {
    if rows == [] {
      assert [row][1..] == [];
    } else {
      assert (rows + [row])[1..] == rows[1..] + [row];
      FindTerminalInExtension(rows[1..], row, id);
    }
  }

  lemma SameLedgerAfterInsert(rows: seq<Row>, row: Row, id: string)
    requires !HasId(rows, row.id) && FindReservation(rows, id).Some? && !(row.TerminalRow? && row.reservationId == id)
    ensures SameLedgerFor(rows, rows + [row], id)
  {
    hide Find, FindTerminal;
    FindStays(rows, row);
    FindTerminalInExtension(rows, row, id);
  }

  /** An attempt whose ledger rows are unchanged stays reconciled as its session evolves. */
  lemma AttemptStays(rows: seq<Row>, rows': seq<Row>, s: SessionState, s': SessionState, a: Attempt)
    requires a.start.reservationId.Some? && AttemptReconciled(rows, s, a)
    requires SameLedgerFor(rows, rows', a.start.reservationId.value)
    requires Evolves(s, s') && (a.finished.None? ==> s'.status.Running?)
    ensures AttemptReconciled(rows', s', a)
  {
    hide Find, FindTerminal, FindDecision, FindAdmission, DecisionMatches, FinishMatches;
    var r := FindReservation(rows, a.start.reservationId.value).value;
    LookupsStay(s, s', a.start.decisionId, r.admissionId.GetOr(""));
    if a.finished.Some? && FindTerminal(rows, r.id).Some? {
      FinishStays(s, s', a.finished.value, r, FindTerminal(rows, r.id).value);
    }
  }

  lemma FinishStays(s: SessionState, s': SessionState, f: FinishRecord, r: Row, terminal: Row)
    requires r.ReservationRow? && terminal.TerminalRow? && FinishMatches(s, f, r, terminal) && Evolves(s, s')
    ensures FinishMatches(s', f, r, terminal)
  {
    hide LedgerHostPrice, MentionsOverrun;
  }

  // ----- A new reservation and its attempt

  /** The stored row re-projects to the amount it reserves. */
  lemma ReservationProjects(input: ReserveInput, projected: nat)
    requires ProjectWorstCase(input.projection) == Success(projected) && projected > 0
    ensures ProjectionHolds(ReservationFor(input, projected))
  {
    hide ProjectWorstCase;
    var r := ReservationFor(input, projected);
    StoredRatesReproject(input.projection);
    assert StoredProjection(r) == input.projection.(cacheRate := Some(input.projection.cacheRate.GetOr(0)));
  }

  /** What an admitted reservation was billed on. */
  lemma AdmittedBilling(rows: seq<Row>, input: ReserveInput)
    requires Reserve(rows, input).Success? && Reserve(rows, input).value.0.Admitted?
    ensures var (resolution, next) := Reserve(rows, input).value;
            && ProjectWorstCase(input.projection) == Success(resolution.billing.projected) && resolution.billing.projected > 0
            && resolution.reservation == ReservationFor(input, resolution.billing.projected)
            && Insertable(rows, resolution.reservation) && next == rows + [resolution.reservation]
            && resolution.billing.projection == input.projection
            && !SessionReserved(rows, input.sessionId)
  {
    hide Insertable, Find, ProjectWorstCase, GetPosition;
  }

  lemma BilledRemainders(rows: seq<Row>, input: ReserveInput)
    requires Linked(rows) && Reserve(rows, input).Success?
    ensures FindCampaign(rows, input.campaignId).Some?
    ensures var campaign, billing := FindCampaign(rows, input.campaignId).value, Reserve(rows, input).value.0.billing;
            && campaign.providerId == input.providerId && campaign.scope == input.scope
            && billing.remainingEpisode == input.cap
            && billing.remainingCampaign <= (if campaign.stop <= campaign.ceiling then campaign.stop else campaign.ceiling) - campaign.opening
  {
    hide Insertable, ProjectWorstCase, Outstanding, Settled, EntriesOf, EpisodeExposure, Anchored;
    FirstReservationHasTheCap(rows, input.campaignId, input.sessionId, input.cap);
    CampaignHasLimits(rows, input.campaignId);
  }

  lemma CampaignHasLimits(rows: seq<Row>, id: string)
    requires Linked(rows) && FindCampaign(rows, id).Some?
    ensures var c := FindCampaign(rows, id).value; c.opening <= c.stop <= c.ceiling
  {
    hide Find, TerminalsLinked, ReservationsLinked, Distinct;
    var c := FindCampaign(rows, id).value;
    var i :| 0 <= i < |rows| && rows[i] == c;
  }

  lemma NewReservationIsUnresolved(rows: seq<Row>, row: Row)
    requires Linked(rows) && row.ReservationRow? && !HasId(rows, row.id)
    ensures FindTerminal(rows + [row], row.id).None?
  {
    hide Find, FindTerminal, Distinct, ReservationsLinked, CampaignsLimited;
    FindTerminalInExtension(rows, row, row.id);
    forall i | 0 <= i < |rows| && rows[i].TerminalRow? ensures rows[i].reservationId != row.id {
      assert FindReservation(rows, rows[i].reservationId).Some?;
    }
  }

  /** A new paid attempt is reconciled with the reservation inserted for it. */
  lemma NewAttemptReconciled(rows: seq<Row>, input: ReserveInput, s: SessionState, a: Attempt, d: Decision)
    requires Linked(rows) && Reserve(rows, input).Success? && Reserve(rows, input).value.0.Admitted?
    requires input.scope.Simulation? && SessionSound(s) && s.status.Running? && s.policy.Some? && s.policy.value.cap == input.cap
    requires a.start.reservationId == Some(input.reservationId) && a.finished.None? && a.createdAt == input.createdAt
    requires s.id == input.sessionId && a.start.attemptId == input.attemptId && a.start.providerId == input.providerId
    requires a.start.maxOutput == input.projection.outputTokens && a.start.scope == Some(input.scope)
    requires a.start.admissionId == input.admissionId
    requires d in s.decisions && FindDecision(s.decisions, a.start.decisionId) == Some(d)
    requires d.reason.CloudAdmitted? && d.selectedProvider == input.providerId && d.reservationId == Some(input.reservationId)
    requires d.campaignId == Some(input.campaignId) && d.pricingId == Some(input.pricingId) && d.scope == Some(input.scope)
    requires d.admissionId == input.admissionId && d.billing == Some(Reserve(rows, input).value.0.billing)
    requires FindCampaign(rows, input.campaignId).Some? && d.credentialId == Some(FindCampaign(rows, input.campaignId).value.credentialId)
    ensures AttemptReconciled(Reserve(rows, input).value.1, s, a)
  {
    hide Insertable, Find, FindTerminal, FindDecision, FindAdmission, ProjectWorstCase, Reserve, AttemptsOrdered, Linked;
    AdmittedBilling(rows, input);
    BilledRemainders(rows, input);
    var (resolution, next) := Reserve(rows, input).value;
    var row := resolution.reservation;
    InsertableIsNew(rows, row);
    FindStays(rows, row);
    NewReservationIsUnresolved(rows, row);
    var i :| 0 <= i < |s.decisions| && s.decisions[i] == d;
    assert Grounded(s.admissions, s.decisions[i]);
  }

  // ----- A resolved reservation and its finished attempt

  lemma ResolvedRow(rows: seq<Row>, input: ResolveInput)
    requires Resolve(rows, input).Success?
    ensures FindReservation(rows, input.reservationId).Some?
    ensures var row := TerminalFor(input, FindReservation(rows, input.reservationId).value);
            Resolve(rows, input).value == rows + [row] && Insertable(rows, row) && !IsResolved(rows, input.reservationId)
  {
    hide Insertable, Find;
  }

  lemma {:induction false} FindTerminalOfNew(rows: seq<Row>, row: Row)
    requires row.TerminalRow? && !IsResolved(rows, row.reservationId)
    ensures FindTerminal(rows + [row], row.reservationId) == Some(row)
  {
    if rows == [] {
    } else {
      assert (rows + [row])[1..] == rows[1..] + [row];
      assert forall i :: 0 <= i < |rows[1..]| ==> rows[1..][i] == rows[i + 1];
      FindTerminalOfNew(rows[1..], row);
    }
  }

  /** A finished attempt is reconciled with the terminal row inserted for it. */
  lemma FinishedAttemptReconciled(rows: seq<Row>, input: ResolveInput, s: SessionState, s': SessionState, a: Attempt, f: FinishRecord)
    requires a.start.reservationId == Some(input.reservationId) && AttemptReconciled(rows, s, a) && Evolves(s, s')
    requires Resolve(rows, input).Success?
    requires var r := FindReservation(rows, input.reservationId).value;
             FinishMatches(s', f, r, TerminalFor(input, r))
    ensures AttemptReconciled(Resolve(rows, input).value, s', a.(finished := Some(f)))
  {
    hide Insertable, Find, FindTerminal, FindDecision, FindAdmission, FinishMatches, DecisionMatches, Resolve;
    ResolvedRow(rows, input);
    var r := FindReservation(rows, input.reservationId).value;
    var row := TerminalFor(input, r);
    InsertableIsNew(rows, row);
    FindStays(rows, row);
    FindTerminalOfNew(rows, row);
    LookupsStay(s, s', a.start.decisionId, r.admissionId.GetOr(""));
  }
}
