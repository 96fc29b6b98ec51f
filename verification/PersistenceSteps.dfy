/** Every operation on ledger and event log keeps the persistence invariant. */
module PersistenceSteps {
  import opened Wrappers
  import opened Pricing
  import opened Ledger
  import opened LedgerTheorems
  import opened Sessions
  import opened SessionTheorems
  import opened EventStores
  import opened StoreTheorems
  import opened Reconciliation
  import opened AttemptUnits
  import opened PersistenceInvariant

  // ----- What one append does to the session states

  /** Only `session` changes, from `before` by folding its new events. */
  ghost predicate Advances(t: Tables, next: Tables, session: string, events: seq<StoredEvent>) {
    && StoreSound(next) && next.rows == t.rows && session in t.sessions && StateOf(t, session).Some?
    && StateOf(next, session) == FoldFrom(StateOf(t, session).value, events) && StateOf(next, session).Some?
    && next.sessions.Keys == t.sessions.Keys
    && (forall other :: other != session ==> StateOf(next, other) == StateOf(t, other))
  }

  lemma AppendAdvances(t: Tables, session: string, pending: seq<Pending>, expected: Option<nat>, fault: Option<nat>)
    requires StoreSound(t) && session in t.sessions && pending != [] && Append(t, session, pending, expected, fault).Success?
    ensures Advances(t, Append(t, session, pending, expected, fault).value, session,
                     StoredBatch(session, |EventsOf(t.log, session)|, pending))
  {
    hide EventsOf, Append, FoldFrom, Replay;
    AppendKeepsStoreSound(t, session, pending, expected, fault);
    var next := Append(t, session, pending, expected, fault).value;
    ReplayThenFold(EventsOf(t.log, session), StoredBatch(session, |EventsOf(t.log, session)|, pending));
    SameKeys(t, next, session);
  }

  lemma SameKeys(t: Tables, next: Tables, session: string)
    requires StoreSound(t) && StoreSound(next) && session in t.sessions && session in next.sessions
    requires forall other :: other != session ==> EventsOf(next.log, other) == EventsOf(t.log, other)
    ensures next.sessions.Keys == t.sessions.Keys
  {
    hide EventsOf, Replay;
  }

  /** The stored events of a preallocated batch. */
  function StoredOf(t: Tables, session: string, events: seq<EventData>, ids: seq<string>, createdAt: Time): (stored: seq<StoredEvent>)
    requires |ids| == |events|
    ensures |stored| == |events|
    ensures forall k :: 0 <= k < |events| ==> stored[k].data == events[k] && stored[k].createdAt == createdAt
  {
    StoredBatch(session, |EventsOf(t.log, session)|, Batch(events, ids, createdAt))
  }

  lemma BatchAdvances(t: Tables, session: string, events: seq<EventData>, ids: seq<string>, createdAt: Time, expected: nat, fault: Fault)
    requires StoreSound(t) && AppendBatch(t, session, events, ids, createdAt, expected, fault).Success?
    requires !events[0].SessionCreated?
    ensures events != [] && |ids| == |events|
    ensures Advances(t, AppendBatch(t, session, events, ids, createdAt, expected, fault).value, session,
                     StoredOf(t, session, events, ids, createdAt))
  {
    hide EventsOf, AppendAll, CurrentState, Advances;
    AppendAdvances(t, session, Batch(events, ids, createdAt), Some(expected), EventFault(fault));
  }

  lemma StateHasItsId(t: Tables, session: string)
    requires StateOf(t, session).Some?
    ensures StateOf(t, session).value.id == session
  {
    hide Replay;
    EventsAreOfSession(t.log, session);
    ReplayNumbers(EventsOf(t.log, session));
  }

  lemma StateIsSound(t: Tables, session: string)
    requires StateOf(t, session).Some?
    ensures SessionSound(StateOf(t, session).value)
  {
    hide EventsOf, Replay;
    ReplayIsSound(EventsOf(t.log, session));
  }

  // ----- What an operation leaves alone

  /** The ledger is unchanged, or gained one row; a terminal row ends a reservation of `session`. */
  ghost predicate Touches(rows: seq<Row>, rows': seq<Row>, session: string) {
    rows' == rows
    || (&& |rows'| == |rows| + 1 && rows' == rows + [rows'[|rows|]]
        && var row := rows'[|rows|];
           && !HasId(rows, row.id)
           && (row.TerminalRow? ==>
                 FindReservation(rows, row.reservationId).Some? && FindReservation(rows, row.reservationId).value.sessionId == session))
  }

  lemma LedgerStays(rows: seq<Row>, rows': seq<Row>, session: string, s: SessionState, a: Attempt)
    requires Touches(rows, rows', session) && a.start.reservationId.Some? && AttemptReconciled(rows, s, a)
    requires s.id != session || (|rows'| > |rows| ==> !rows'[|rows|].TerminalRow? || a.start.reservationId != Some(rows'[|rows|].reservationId))
    ensures SameLedgerFor(rows, rows', a.start.reservationId.value)
  {
    hide Find, FindTerminal, AttemptReconciled;
    ReservationNamesAttempt(rows, s, a);
    if rows' != rows {
      SameLedgerAfterInsert(rows, rows'[|rows|], a.start.reservationId.value);
    }
  }

  /** Every other session's paid attempts stay reconciled. */
  lemma OthersStay(t: Tables, rows': seq<Row>, session: string, other: string)
    requires Inv(t) && other in t.sessions && other != session && Touches(t.rows, rows', session)
    ensures StateOf(t, other).Some? && PaidReconciled(rows', StateOf(t, other).value)
  {
    hide Linked, AllBounded, ReservationsHeld, AttemptReconciled, EventsOf, Replay, Touches, SameLedgerFor;
    var s := StateOf(t, other).value;
    StateHasItsId(t, other);
    StateIsSound(t, other);
    assert PaidReconciled(t.rows, s);
    SelfEvolves(s);
    forall k | 0 <= k < |s.attempts| && s.attempts[k].start.reservationId.Some?
      ensures AttemptReconciled(rows', s, s.attempts[k])
    {
      LedgerStays(t.rows, rows', session, s, s.attempts[k]);
      AttemptStays(t.rows, rows', s, s, s.attempts[k]);
    }
  }

  lemma SelfEvolves(s: SessionState)
    ensures Evolves(s, s)
  {
  }

  /** The invariant after an operation, from what it did to its own session and to the reservations. */
  lemma InvAfter(t: Tables, rows': seq<Row>, next: Tables, session: string)
    requires Inv(t) && Touches(t.rows, rows', session) && next.rows == rows' && Linked(rows') && AllBounded(rows') && StoreSound(next)
    requires session in next.sessions && next.sessions.Keys <= t.sessions.Keys + {session}
    requires forall other :: other != session ==> StateOf(next, other) == StateOf(t, other)
    requires StateOf(next, session).Some? && PaidReconciled(rows', StateOf(next, session).value)
    requires ReservationsHeld(next)
    ensures Inv(next)
  {
    hide Linked, AllBounded, ReservationsHeld, AttemptReconciled, PaidReconciled, EventsOf, Replay, StoreSound, Touches;
    forall s | s in next.sessions && StateOf(next, s).Some? ensures PaidReconciled(rows', StateOf(next, s).value) {
      if s != session {
        assert s in next.sessions.Keys;
        OthersStay(t, rows', session, s);
      }
    }
  }

  /** Reservations stay paid for: attempts keep their starts. */
  lemma HeldStays(t: Tables, next: Tables, session: string)
    requires ReservationsHeld(t) && t.sessions.Keys <= next.sessions.Keys
    requires StateOf(t, session).Some? ==> StateOf(next, session).Some? && Evolves(StateOf(t, session).value, StateOf(next, session).value)
    requires forall other :: other != session ==> StateOf(next, other) == StateOf(t, other)
    ensures forall r :: r in t.rows && r.ReservationRow? ==>
              ProjectionHolds(r) && r.sessionId in next.sessions && PaysFor(next, r.sessionId, r.id)
  {
    hide ProjectionHolds, StateOf;
    forall r | r in t.rows && r.ReservationRow? ensures PaysFor(next, r.sessionId, r.id) && r.sessionId in next.sessions {
      assert PaysFor(t, r.sessionId, r.id) && r.sessionId in t.sessions.Keys;
      if r.sessionId == session {
        var k :| 0 <= k < |StateOf(t, session).value.attempts|
                 && StateOf(t, session).value.attempts[k].start.reservationId == Some(r.id);
        assert StateOf(next, session).value.attempts[k].start.reservationId == Some(r.id);
      }
    }
  }

  // ----- Sessions that gain no paid attempt

  /** An unchanged paid attempt of the evolving session stays reconciled. */
  lemma OwnAttemptStays(t: Tables, rows': seq<Row>, session: string, s': SessionState, a: Attempt)
    requires Inv(t) && session in t.sessions && StateOf(t, session).Some? && Touches(t.rows, rows', session)
    requires var s := StateOf(t, session).value;
             Evolves(s, s') && SessionSound(s') && a in s.attempts && a in s'.attempts && a.start.reservationId.Some?
    requires |rows'| > |t.rows| ==> !rows'[|t.rows|].TerminalRow? || a.start.reservationId != Some(rows'[|t.rows|].reservationId)
    ensures AttemptReconciled(rows', s', a)
  {
    hide Linked, AllBounded, ReservationsHeld, AttemptReconciled, EventsOf, Replay, Touches, SameLedgerFor, Evolves, DecisionsGrounded;
    var s := StateOf(t, session).value;
    assert PaidReconciled(t.rows, s);
    var k :| 0 <= k < |s.attempts| && s.attempts[k] == a;
    LedgerStays(t.rows, rows', session, s, a);
    AttemptStays(t.rows, rows', s, s', a);
  }

  /** An append that adds at most unpaid attempts keeps the invariant. */
  lemma UnpaidAdvanceKeepsInv(t: Tables, next: Tables, session: string, events: seq<StoredEvent>)
    requires Inv(t) && Advances(t, next, session, events)
    requires var s, s' := StateOf(t, session).value, StateOf(next, session).value;
             s.attempts <= s'.attempts
             && forall k :: |s.attempts| <= k < |s'.attempts| ==> s'.attempts[k].start.reservationId.None?
    ensures Inv(next)
  {
    hide Linked, AllBounded, AttemptReconciled, EventsOf, Replay, FoldFrom, Evolves, StoreSound, SessionSound;
    var s, s' := StateOf(t, session).value, StateOf(next, session).value;
    FoldEvolves(s, events);
    StateIsSound(next, session);
    forall k | 0 <= k < |s'.attempts| && s'.attempts[k].start.reservationId.Some?
      ensures AttemptReconciled(t.rows, s', s'.attempts[k])
    {
      assert s'.attempts[k] == s.attempts[k];
      OwnAttemptStays(t, t.rows, session, s', s'.attempts[k]);
    }
    HeldStays(t, next, session);
    assert session in next.sessions.Keys;
    InvAfter(t, t.rows, next, session);
  }

  // ----- Plain appends

  lemma AppendKeepsInv(t: Tables, session: string, pending: seq<Pending>, expected: Option<nat>, fault: Option<nat>)
    requires Inv(t) && Append(t, session, pending, expected, fault).Success?
    requires forall i :: 0 <= i < |pending| ==> !Metered(pending[i].data)
    ensures Inv(Append(t, session, pending, expected, fault).value)
  {
    hide Inv, EventsOf, AppendAll, FoldFrom, Replay, Metered, StoreSound;
    InvIsStoreSound(t);
    if pending != [] {
      var next := Append(t, session, pending, expected, fault).value;
      var stored := StoredBatch(session, |EventsOf(t.log, session)|, pending);
      if session in t.sessions {
        AppendAdvances(t, session, pending, expected, fault);
        UnmeteredFoldKeepsAttempts(StateOf(t, session).value, stored);
        UnpaidAdvanceKeepsInv(t, next, session, stored);
      } else {
        NewSessionKeepsInv(t, session, pending, expected, fault);
      }
    }
  }

  lemma InvIsStoreSound(t: Tables)
    requires Inv(t)
    ensures StoreSound(t)
  {
  }

  /** A new session starts without attempts. */
  lemma NewSessionKeepsInv(t: Tables, session: string, pending: seq<Pending>, expected: Option<nat>, fault: Option<nat>)
    requires Inv(t) && session !in t.sessions && pending != [] && Append(t, session, pending, expected, fault).Success?
    requires forall i :: 0 <= i < |pending| ==> !Metered(pending[i].data)
    ensures Inv(Append(t, session, pending, expected, fault).value)
  {
    hide Linked, AllBounded, EventsOf, Append, Replay, Metered, AttemptReconciled;
    AppendKeepsStoreSound(t, session, pending, expected, fault);
    var next := Append(t, session, pending, expected, fault).value;
    var stored := StoredBatch(session, |EventsOf(t.log, session)|, pending);
    assert EventsOf(t.log, session) == [];
    assert EventsOf(next.log, session) == stored;
    UnmeteredReplayHasNoAttempts(stored);
    NoStateWithoutSession(t, session);
    KeysGrow(t, next, session);
    HeldStays(t, next, session);
    InvAfter(t, t.rows, next, session);
  }

  lemma NoStateWithoutSession(t: Tables, session: string)
    requires StoreSound(t) && session !in t.sessions
    ensures StateOf(t, session).None?
  {
    hide EventsOf;
  }

  lemma KeysGrow(t: Tables, next: Tables, session: string)
    requires StoreSound(t) && StoreSound(next) && EventsOf(next.log, session) != []
    requires forall other :: other != session ==> EventsOf(next.log, other) == EventsOf(t.log, other)
    ensures next.sessions.Keys == t.sessions.Keys + {session}
  {
    hide EventsOf, Replay;
    forall s ensures s in next.sessions.Keys <==> s in t.sessions.Keys + {session} {
      assert s in next.sessions <==> EventsOf(next.log, s) != [];
    }
  }

  // ----- Local starts

  lemma LocalStartKeepsInv(t: Tables, input: LocalInput, fault: Fault)
    requires Inv(t) && LocalStart(t, input, fault).Success?
    ensures Inv(LocalStart(t, input, fault).value)
  {
    hide Inv, EventsOf, AppendBatch, FoldFrom, Advances, StoreSound, AttemptAccepted;
    InvIsStoreSound(t);
    LocalPatternIsUnmetered(input.events);
    BatchAdvances(t, input.sessionId, input.events, input.ids, input.createdAt, input.expected, fault);
    var next := LocalStart(t, input, fault).value;
    var stored := StoredOf(t, input.sessionId, input.events, input.ids, input.createdAt);
    LocalAdvance(t, next, input.sessionId, stored);
  }

  lemma LocalPatternIsUnmetered(events: seq<EventData>)
    requires LocalPattern(events)
    ensures !events[0].SessionCreated? && forall i :: 0 <= i < |events| - 1 ==> !Metered(events[i])
  {
  }

  lemma LocalAdvance(t: Tables, next: Tables, session: string, stored: seq<StoredEvent>)
    requires Inv(t) && Advances(t, next, session, stored) && stored != []
    requires stored[|stored| - 1].data.AttemptStarted? && stored[|stored| - 1].data.start.reservationId.None?
    requires forall i :: 0 <= i < |stored| - 1 ==> !Metered(stored[i].data)
    ensures Inv(next)
  {
    hide Inv, FoldFrom, StoreSound, AttemptAccepted, StateOf, Metered;
    StartFold(StateOf(t, session).value, stored);
    UnpaidAdvanceKeepsInv(t, next, session, stored);
  }
}
