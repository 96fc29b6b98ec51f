/** The ledger object: position and reconciliation loops, and row insertion inside a transaction. */
module BudgetLedgers {
  import opened Wrappers
  import opened Pricing
  import opened Ledger
  import opened LedgerTheorems
  import opened Sessions
  import opened EventStores
  import opened Reconciliation
  import opened StoreTheorems

  class BudgetLedger {
    const store: EventStore

    constructor (store: EventStore)
      ensures this.store == store
    {
      this.store := store;
    }

    method Insert(row: Row) returns (result: Result<Row, LedgerError>)
      modifies store.database`rows
      ensures result.Success? <==> Ledger.Insert(old(store.database.rows), row).Success?
      ensures result == if result.Success? then Success(row) else Failure(ConstraintViolated)
      ensures store.database.rows == if result.Success? then old(store.database.rows) + [row] else old(store.database.rows)
    {
      if !Insertable(store.database.rows, row) {
        return Failure(ConstraintViolated);
      }
      store.database.rows := store.database.rows + [row];
      result := Success(row);
    }

    method InsertCampaign(input: CampaignInput) returns (result: Result<Row, LedgerError>)
      modifies store.database`rows
      ensures var created := CreateCampaign(old(store.database.rows), input);
              && (result.Success? <==> created.Success?)
              && (result.Failure? ==> result.error == created.error)
              && store.database.rows == if created.Success? then created.value else old(store.database.rows)
    {
      hide Insertable;
      :- Need(Safe(input.opening) && Safe(input.stop) && Safe(input.ceiling) && input.ceiling > 0, BadCampaignLimits);
      :- Need(!input.scope.Legacy?, BadCampaignLimits);
      :- Need(input.opening <= input.stop && input.stop <= input.ceiling, BadCampaignLimits);
      result := Insert(CampaignRow(input.id, input.providerId, input.credentialId, input.opening, input.stop, input.ceiling,
                                   input.scope, input.createdAt));
    }

    /** The exposure loops: one pass over a campaign's entries, after the identities of its terminal rows are collected. */
    method Accumulate(campaign: Row, entries: seq<Row>, session: string)
      returns (campaignExposure: nat, episodeExposure: nat, disabled: bool)
      requires campaign.CampaignRow? && Anchored(entries)
      ensures campaignExposure == Exposure(campaign.opening, entries)
      ensures episodeExposure == EpisodeExposure(entries, session)
      ensures disabled == HasOverrun(entries)
    {
      var resolved := set e | e in entries && e.TerminalRow? :: e.reservationId;
      campaignExposure := campaign.opening;
      episodeExposure := 0;
      disabled := false;
      for i := 0 to |entries|
        invariant campaignExposure
                  == campaign.opening + Outstanding(entries[..i], resolved, None) + Settled(entries[..i], entries, None)
        invariant episodeExposure
                  == Outstanding(entries[..i], resolved, Some(session)) + Settled(entries[..i], entries, Some(session))
        invariant disabled == HasOverrun(entries[..i])
      {
        hide Anchored, BelongsTo;
        var row := entries[i];
        assert entries[..i + 1][..i] == entries[..i];
        OverrunSoFar(entries, i);
        if row.ReservationRow? {
          if row.id !in resolved {
            campaignExposure := campaignExposure + row.amount;
            if row.sessionId == session {
              episodeExposure := episodeExposure + row.amount;
            }
          }
        } else if row.TerminalRow? {
          if row.kind.Overrun? {
            disabled := true;
          }
          campaignExposure := campaignExposure + row.amount;
          if BelongsTo(entries, row, session) {
            episodeExposure := episodeExposure + row.amount;
          }
        }
      }
      assert entries[..|entries|] == entries;
    }

    method GetPosition(campaignId: string, session: string, cap: nat) returns (result: Result<Position, LedgerError>)
      ensures result == Ledger.GetPosition(store.database.rows, campaignId, session, cap)
    {
      var campaign := FindCampaign(store.database.rows, campaignId);
      :- Need(campaign.Some?, UnknownCampaign);
      var entries := EntriesOf(store.database.rows, campaignId);
      :- Need(Anchored(entries), DanglingTerminal);
      var exposure, episode, disabled := Accumulate(campaign.value, entries, session);
      hide Exposure, EpisodeExposure, HasOverrun, Anchored, EntriesOf, Find;
      var remainingEpisode := if episode >= cap then 0 else cap - episode;
      var remainingStop := if exposure >= campaign.value.stop then 0 else campaign.value.stop - exposure;
      var remainingCeiling := if exposure >= campaign.value.ceiling then 0 else campaign.value.ceiling - exposure;
      :- Need(Safe(episode) && Safe(exposure) && Safe(remainingEpisode) && Safe(remainingStop) && Safe(remainingCeiling),
              UnsafeExposure);
      result := Success(Position(episode, exposure, remainingEpisode, remainingStop, remainingCeiling,
                                 if remainingStop < remainingCeiling then remainingStop else remainingCeiling, disabled));
    }

    method Reserve(input: ReserveInput) returns (result: Result<Resolution, LedgerError>)
      modifies store.database`rows
      ensures var reserved := Ledger.Reserve(old(store.database.rows), input);
              && (result.Success? <==> reserved.Success?)
              && (result.Failure? ==> result.error == reserved.error)
              && (result.Success? ==> result.value == reserved.value.0)
              && store.database.rows == if reserved.Success? then reserved.value.1 else old(store.database.rows)
    {
      hide Insertable, Find, EntriesOf, ProjectWorstCase, Ledger.GetPosition, SessionReserved;
      :- Need(!input.scope.Legacy?, CampaignMismatch);
      :- Need(input.admissionId.Some?, EgressIdentityMissing);
      var projected :- Priced(input.projection);
      :- Need(projected > 0, NotPositive);
      var campaign := FindCampaign(store.database.rows, input.campaignId);
      :- Need(campaign.Some?, UnknownCampaign);
      :- Need(campaign.value.providerId == input.providerId && campaign.value.scope == input.scope, CampaignMismatch);
      :- Need(input.scope.Actual? ==> forall i :: 0 <= i < |store.database.rows| ==> !store.database.rows[i].scope.Legacy?,
              LegacyExposure);
      :- Need(!SessionReserved(store.database.rows, input.sessionId), SessionHasReservation);
      var position :- GetPosition(input.campaignId, input.sessionId, input.cap);
      var billing := Billing(input.projection, projected, position.remainingEpisode, position.remainingCampaign);
      if position.disabled {
        return Success(Denied(CampaignOverrun, billing, position));
      }
      if projected > position.remainingEpisode {
        return Success(Denied(EpisodeCap, billing, position));
      }
      if projected > position.remainingCeiling {
        return Success(Denied(CampaignHardCeiling, billing, position));
      }
      if projected > position.remainingStop {
        return Success(Denied(CampaignAutomaticStop, billing, position));
      }
      var row :- Insert(ReservationFor(input, projected));
      result := Success(Admitted(billing, position, row));
    }

    method Resolve(input: ResolveInput) returns (result: Result<Row, LedgerError>)
      modifies store.database`rows
      ensures var resolved := Ledger.Resolve(old(store.database.rows), input);
              && (result.Success? <==> resolved.Success?)
              && (result.Failure? ==> result.error == resolved.error)
              && store.database.rows == if resolved.Success? then resolved.value else old(store.database.rows)
    {
      hide Insertable, Find, IsResolved;
      :- Need(Safe(input.amount), BadResolution);
      var reservation := FindReservation(store.database.rows, input.reservationId);
      :- Need(reservation.Some?, UnknownReservation);
      :- Need(!IsResolved(store.database.rows, input.reservationId), AlreadyResolved);
      if input.kind.Release? {
        :- Need(input.amount == 0 && input.disposition.NotSent? && input.provenance.None? && input.reason.Some?, BadResolution);
      } else {
        :- Need(!input.disposition.NotSent? && input.provenance.Some?
                && input.reason == (if input.kind.Overrun? then Some("budget_overrun") else None), BadResolution);
        :- Need(input.kind.Settlement? ==> input.amount <= reservation.value.amount, BadResolution);
        :- Need(input.kind.Overrun? ==> input.amount > reservation.value.amount, BadResolution);
        :- Need(input.provenance == Some(ReservedUnknown) ==> input.amount == reservation.value.amount, BadResolution);
      }
      result := Insert(TerminalFor(input, reservation.value));
    }

    // ----- The reconciliation gate

    /** The reservation rows by id, and their sessions; fails on a row that does not re-project to its amount. */
    method CollectReservations() returns (ok: bool, byId: map<string, Row>, sessions: set<string>)
      requires Distinct(store.database.rows)
      ensures ok <==> ReservationsProject(store.database.rows)
      ensures ok ==> IndexesReservations(store.database.rows, byId)
      ensures ok ==> sessions == set r | r in store.database.rows && r.ReservationRow? :: r.sessionId
    {
      hide ProjectionHolds;
      var rows := store.database.rows;
      byId, sessions := map[], {};
      for i := 0 to |rows|
        invariant ReservationsProject(rows[..i])
        invariant forall id :: id in byId <==> exists k :: 0 <= k < i && rows[k].ReservationRow? && rows[k].id == id
        invariant forall id :: id in byId ==> byId[id] in rows && byId[id].ReservationRow? && byId[id].id == id
        invariant sessions == set r | r in rows[..i] && r.ReservationRow? :: r.sessionId
      {
        assert rows[..i + 1] == rows[..i] + [rows[i]];
        if rows[i].ReservationRow? {
          if !ProjectionHolds(rows[i]) {
            return false, byId, sessions;
          }
          assert rows[i].id !in byId;
          byId := byId[rows[i].id := rows[i]];
          sessions := sessions + {rows[i].sessionId};
        }
      }
      assert rows[..|rows|] == rows;
      ok := true;
      IndexIsComplete(rows, byId);
    }

    /** The terminal rows by reservation; fails on an orphan, a scope mismatch or a second terminal row. */
    method CollectTerminals(byId: map<string, Row>) returns (ok: bool, terminals: map<string, Row>)
      requires IndexesReservations(store.database.rows, byId)
      ensures ok <==> TerminalsReconciled(store.database.rows)
      ensures ok ==> IndexesTerminals(store.database.rows, terminals)
    {
      hide Find;
      var rows := store.database.rows;
      terminals := map[];
      for i := 0 to |rows|
        invariant TerminalPrefix(rows, i)
        invariant forall id :: id in terminals <==> exists k :: 0 <= k < i && rows[k].TerminalRow? && rows[k].reservationId == id
        invariant forall id :: id in terminals ==> terminals[id] in rows && terminals[id].TerminalRow? && terminals[id].reservationId == id
      {
        if rows[i].TerminalRow? {
          var id := rows[i].reservationId;
          if id !in byId || byId[id].scope != rows[i].scope {
            return false, terminals;
          }
          if id in terminals {
            return false, terminals;
          }
          terminals := terminals[id := rows[i]];
        }
      }
      ok := true;
      TerminalIndexIsComplete(rows, terminals);
    }

    /** The sessions with a paid attempt event, so that the ledger does not define its own universe. */
    method CollectPaidSessions(known: set<string>) returns (sessions: set<string>)
      ensures sessions == known + set e | e in store.database.log && IsPaidStart(e) :: e.sessionId
    {
      var log := store.database.log;
      sessions := known;
      for i := 0 to |log|
        invariant sessions == known + set e | e in log[..i] && IsPaidStart(e) :: e.sessionId
      {
        assert log[..i + 1] == log[..i] + [log[i]];
        if IsPaidStart(log[i]) {
          sessions := sessions + {log[i].sessionId};
        }
      }
      assert log[..|log|] == log;
    }

    /** One paid attempt against its reservation, decision, campaign, egress admission and terminal row. */
    method ReconcileAttempt(state: SessionState, a: Attempt, byId: map<string, Row>, terminals: map<string, Row>)
      returns (ok: bool)
      requires a.start.reservationId.Some?
      requires IndexesReservations(store.database.rows, byId) && IndexesTerminals(store.database.rows, terminals)
      ensures ok <==> AttemptReconciled(store.database.rows, state, a)
    {
      hide Find, FindTerminal, StartMatches, DecisionMatches, CampaignMatches, AdmissionMatches, FinishMatches;
      var id := a.start.reservationId.value;
      if id !in byId {
        return false;
      }
      var reservation := byId[id];
      if !StartMatches(state, a, reservation) {
        return false;
      }
      var decision := FindDecision(state.decisions, a.start.decisionId);
      if decision.None? || !DecisionMatches(decision.value, reservation) {
        return false;
      }
      var campaign := FindCampaign(store.database.rows, reservation.campaignId);
      MatchedDecisionIsBilled(decision.value, reservation);
      if campaign.None? || !CampaignMatches(campaign.value, state, decision.value, reservation) {
        return false;
      }
      if !AdmissionMatches(state, decision.value, reservation) {
        return false;
      }
      assert reservation.id == id;
      if a.finished.None? || id !in terminals {
        return a.finished.None? && id !in terminals && state.status.Running?;
      }
      ok := FinishMatches(state, a.finished.value, reservation, terminals[id]);
    }

    /** One session's paid attempts; `linked` maps each reservation met so far to its session. */
    method ReconcileSession(session: string, byId: map<string, Row>, terminals: map<string, Row>, linked: map<string, string>)
      returns (ok: bool, links: map<string, string>)
      requires IndexesReservations(store.database.rows, byId) && IndexesTerminals(store.database.rows, terminals)
      requires LinksAreOwn(store.database.Contents(), linked)
      requires forall id :: id in linked ==> linked[id] != session
      ensures ok <==> SessionReconciled(store.database.Contents(), session)
      ensures ok ==> LinksAreOwn(store.database.Contents(), links)
      ensures ok ==> forall id :: id in links <==> id in linked || PaysFor(store.database.Contents(), session, id)
      ensures ok ==> forall id :: id in links ==> links[id] == if id in linked then linked[id] else session
    {
      hide AttemptReconciled, StateOf, FindReservation, IndexesReservations, IndexesTerminals, SessionReconciled, LinksAreOwn, PaysFor;
      links := linked;
      ghost var t := store.database.Contents();
      var replayed := store.ReplaySession(session);
      if replayed.None? {
        UnreplayableIsNotReconciled(t, session);
        return false, links;
      }
      var state := replayed.value;
      var attempts := state.attempts;
      for k := 0 to |attempts|
        invariant AttemptsReconciled(t.rows, state, k)
        invariant LinksAreOwn(t, links)
        invariant forall id :: id in links <==>
                    id in linked || exists j :: 0 <= j < k && attempts[j].start.reservationId == Some(id)
        invariant forall id :: id in links ==> links[id] == if id in linked then linked[id] else session
      {
        if attempts[k].start.reservationId.Some? {
          var id := attempts[k].start.reservationId.value;
          if id in links {
            LinkedTwice(t, session, state, linked, k);
            return false, links;
          }
          var matches := ReconcileAttempt(state, attempts[k], byId, terminals);
          if !matches {
            MismatchIsNotReconciled(t, session, state, k);
            return false, links;
          }
          AttemptNamesItsSession(t, session, state, attempts[k]);
          LinkIsOwn(t, session, links, k);
          links := links[id := session];
        }
      }
      AllAttemptsReconciled(t, session, state);
      ok := true;
    }

    /** `assertEventReconciled` accepts exactly the reconciled tables. */
    method AssertEventReconciled() returns (ok: bool)
      requires Distinct(store.database.rows)
      ensures ok <==> Reconciled(store.database.Contents())
    {
      hide IndexesTerminals, FindReservation, SessionReconciled, ReservationsProject, TerminalsReconciled, IndexesReservations, PaysFor, Find, StateOf;
      ghost var t := store.database.Contents();
      RowsInTwoPasses(t.rows);
      var byId: map<string, Row>, terminals: map<string, Row>, sessions: set<string>;
      ok, byId, sessions := CollectReservations();
      if !ok {
        return;
      }
      ok, terminals := CollectTerminals(byId);
      if !ok {
        return;
      }
      sessions := CollectPaidSessions(sessions);
      assert sessions == Universe(t);
      var pending, linked: map<string, string> := sessions, map[];
      while pending != {}
        invariant pending <= sessions
        invariant forall s :: s in sessions - pending ==> SessionReconciled(t, s)
        invariant LinksAreOwn(t, linked)
        invariant forall id :: id in linked ==> linked[id] in sessions - pending
        invariant forall s, id :: s in sessions - pending && PaysFor(t, s, id) ==> id in linked
      {
        var session :| session in pending;
        ok, linked := ReconcileSession(session, byId, terminals, linked);
        if !ok {
          return;
        }
        pending := pending - {session};
      }
      ok := EveryReservationLinked(sessions, linked);
    }

    method EveryReservationLinked(sessions: set<string>, linked: map<string, string>) returns (ok: bool)
      requires Distinct(store.database.rows) && LinksAreOwn(store.database.Contents(), linked)
      requires forall r :: r in store.database.rows && r.ReservationRow? ==> r.sessionId in sessions
      requires forall s, id :: s in sessions && PaysFor(store.database.Contents(), s, id) ==> id in linked
      ensures ok <==> ReservationsPaidFor(store.database.Contents())
    {
      hide PaysFor, Find, FindReservation;
      var rows := store.database.rows;
      ghost var t := store.database.Contents();
      for i := 0 to |rows|
        invariant forall k :: 0 <= k < i && rows[k].ReservationRow? ==> PaysFor(t, rows[k].sessionId, rows[k].id)
      {
        if rows[i].ReservationRow? {
          assert rows[i] in rows;
          if rows[i].id !in linked {
            return false;
          }
          LinkIsOfRow(t, linked, rows[i]);
        }
      }
      ok := true;
    }
  }

  // ----- What the passes of the gate establish

  ghost predicate ReservationsProject(rows: seq<Row>) {
    forall i :: 0 <= i < |rows| && rows[i].ReservationRow? ==> ProjectionHolds(rows[i])
  }

  ghost predicate IndexesReservations(rows: seq<Row>, byId: map<string, Row>) {
    && (forall id :: id in byId <==> FindReservation(rows, id).Some?)
    && (forall id :: id in byId ==> FindReservation(rows, id) == Some(byId[id]))
  }

  ghost predicate ReservationsPaidFor(t: Tables) {
    forall i :: 0 <= i < |t.rows| && t.rows[i].ReservationRow? ==> PaysFor(t, t.rows[i].sessionId, t.rows[i].id)
  }

  ghost predicate IndexesTerminals(rows: seq<Row>, terminals: map<string, Row>) {
    && (forall id :: id in terminals <==> FindTerminal(rows, id).Some?)
    && (forall id :: id in terminals ==> FindTerminal(rows, id) == Some(terminals[id]))
  }

  ghost predicate TerminalPrefix(rows: seq<Row>, n: nat)
    requires n <= |rows|
  {
    && (forall i :: 0 <= i < n && rows[i].TerminalRow? ==>
          FindReservation(rows, rows[i].reservationId).Some?
          && FindReservation(rows, rows[i].reservationId).value.scope == rows[i].scope)
    && (forall i, j :: 0 <= i < j < n && rows[i].TerminalRow? && rows[j].TerminalRow? ==>
          rows[i].reservationId != rows[j].reservationId)
  }

  ghost predicate TerminalsReconciled(rows: seq<Row>) {
    TerminalPrefix(rows, |rows|)
  }

  lemma MatchedDecisionIsBilled(d: Decision, r: Row)
    requires r.ReservationRow? && DecisionMatches(d, r)
    ensures d.billing.Some?
  {
  }

  lemma RowsInTwoPasses(rows: seq<Row>)
    ensures RowsReconciled(rows) <==> ReservationsProject(rows) && TerminalsReconciled(rows)
  {
    hide Find, ProjectionHolds;
  }

  lemma IndexIsComplete(rows: seq<Row>, byId: map<string, Row>)
    requires Distinct(rows)
    requires forall id :: id in byId <==> exists k :: 0 <= k < |rows| && rows[k].ReservationRow? && rows[k].id == id
    requires forall id :: id in byId ==> byId[id] in rows && byId[id].ReservationRow? && byId[id].id == id
    ensures IndexesReservations(rows, byId)
  {
    hide Find;
    forall id | id in byId ensures FindReservation(rows, id) == Some(byId[id]) {
      FindOfMember(rows, byId[id]);
    }
    forall id | FindReservation(rows, id).Some? ensures id in byId {
      var k :| 0 <= k < |rows| && rows[k] == FindReservation(rows, id).value;
    }
  }

  lemma TerminalIndexIsComplete(rows: seq<Row>, terminals: map<string, Row>)
    requires TerminalsReconciled(rows)
    requires forall id :: id in terminals <==> exists k :: 0 <= k < |rows| && rows[k].TerminalRow? && rows[k].reservationId == id
    requires forall id :: id in terminals ==> terminals[id] in rows && terminals[id].TerminalRow? && terminals[id].reservationId == id
    ensures IndexesTerminals(rows, terminals)
  {
    hide Find;
    forall id ensures id in terminals <==> FindTerminal(rows, id).Some? {
    }
    forall id | id in terminals ensures FindTerminal(rows, id) == Some(terminals[id]) {
      var i :| 0 <= i < |rows| && rows[i] == terminals[id];
      var j :| 0 <= j < |rows| && rows[j] == FindTerminal(rows, id).value;
      assert i == j;
    }
  }

  /** Every reservation met so far belongs to the session that pays for it. */
  ghost predicate LinksAreOwn(t: Tables, linked: map<string, string>) {
    forall id :: id in linked ==>
      && FindReservation(t.rows, id).Some? && FindReservation(t.rows, id).value.sessionId == linked[id]
      && PaysFor(t, linked[id], id)
  }

  ghost predicate AttemptsReconciled(rows: seq<Row>, state: SessionState, n: nat)
    requires n <= |state.attempts|
  {
    && (forall k :: 0 <= k < n && state.attempts[k].start.reservationId.Some? ==> AttemptReconciled(rows, state, state.attempts[k]))
    && (forall j, k :: 0 <= j < k < n && state.attempts[k].start.reservationId.Some? ==>
          state.attempts[j].start.reservationId != state.attempts[k].start.reservationId)
  }

  lemma {:induction false} StateIsOfSession(t: Tables, session: string)
    requires StateOf(t, session).Some?
    ensures StateOf(t, session).value.id == session
  {
    var events := EventsOf(t.log, session);
    EventsAreOfSession(t.log, session);
    ReplayNumbers(events);
  }

  lemma AttemptNamesItsSession(t: Tables, session: string, state: SessionState, a: Attempt)
    requires StateOf(t, session) == Some(state)
    requires a.start.reservationId.Some? && AttemptReconciled(t.rows, state, a)
    ensures var found := FindReservation(t.rows, a.start.reservationId.value); found.Some? && found.value.sessionId == session
  {
    hide StateOf, Find, DecisionMatches, CampaignMatches, AdmissionMatches, TerminalMatches;
    StateIsOfSession(t, session);
  }

  /** A reservation met before is another session's, or the same session's twice: either way the session is not reconciled. */
  lemma LinkedTwice(t: Tables, session: string, state: SessionState, linked: map<string, string>, k: nat)
    requires StateOf(t, session) == Some(state) && k < |state.attempts| && state.attempts[k].start.reservationId.Some?
    requires LinksAreOwn(t, linked) && forall id :: id in linked ==> linked[id] != session
    requires var id := state.attempts[k].start.reservationId;
             id.value in linked || exists j :: 0 <= j < k && state.attempts[j].start.reservationId == id
    ensures !SessionReconciled(t, session)
  {
    hide StateOf, AttemptReconciled, Find;
    if SessionReconciled(t, session) {
      AttemptNamesItsSession(t, session, state, state.attempts[k]);
      assert false;
    }
  }

  lemma UnreplayableIsNotReconciled(t: Tables, session: string)
    requires StateOf(t, session).None?
    ensures !SessionReconciled(t, session)
  {
  }

  lemma MismatchIsNotReconciled(t: Tables, session: string, state: SessionState, k: nat)
    requires StateOf(t, session) == Some(state) && k < |state.attempts| && state.attempts[k].start.reservationId.Some?
    requires !AttemptReconciled(t.rows, state, state.attempts[k])
    ensures !SessionReconciled(t, session)
  {
    hide StateOf, AttemptReconciled;
  }

  lemma LinkIsOwn(t: Tables, session: string, linked: map<string, string>, k: nat)
    requires StateOf(t, session).Some? && k < |StateOf(t, session).value.attempts| && LinksAreOwn(t, linked)
    requires var id := StateOf(t, session).value.attempts[k].start.reservationId;
             id.Some? && FindReservation(t.rows, id.value).Some? && FindReservation(t.rows, id.value).value.sessionId == session
    ensures LinksAreOwn(t, linked[StateOf(t, session).value.attempts[k].start.reservationId.value := session])
  {
    hide StateOf, Find;
    assert PaysFor(t, session, StateOf(t, session).value.attempts[k].start.reservationId.value);
    hide PaysFor;
  }

  lemma AllAttemptsReconciled(t: Tables, session: string, state: SessionState)
    requires StateOf(t, session) == Some(state)
    ensures AttemptsReconciled(t.rows, state, |state.attempts|) <==> SessionReconciled(t, session)
    ensures forall id :: PaysFor(t, session, id)
                         <==> exists j :: 0 <= j < |state.attempts| && state.attempts[j].start.reservationId == Some(id)
  {
    hide StateOf, AttemptReconciled;
  }

  lemma LinkIsOfRow(t: Tables, linked: map<string, string>, row: Row)
    requires Distinct(t.rows) && LinksAreOwn(t, linked) && row in t.rows && row.ReservationRow? && row.id in linked
    ensures PaysFor(t, row.sessionId, row.id)
  {
    hide Find, PaysFor;
    FindOfMember(t.rows, row);
  }

  lemma OverrunSoFar(entries: seq<Row>, i: nat)
    requires i < |entries|
    ensures HasOverrun(entries[..i + 1])
            <==> HasOverrun(entries[..i]) || (entries[i].TerminalRow? && entries[i].kind.Overrun?)
  {
    var longer, shorter := entries[..i + 1], entries[..i];
    assert longer == shorter + [entries[i]];
    assert longer[i] == entries[i] && forall k :: 0 <= k < i ==> longer[k] == shorter[k];
  }
}
