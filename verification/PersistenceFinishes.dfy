/** Finishes keep the persistence invariant, and with them whole runs do. */
module PersistenceFinishes {
  import opened Wrappers
  import opened Pricing
  import opened Ledger
  import opened LedgerTheorems
  import opened Sessions
  import opened SessionTheorems
  import opened EventStores
  import opened StoreTheorems
  import opened Reconciliation
  import opened AttemptUnits
  import opened PersistenceInvariant
  import opened PersistenceSteps
  import opened PersistenceCommits

  // ----- What a finish batch does to its session

  lemma FinishStep(s: SessionState, e: StoredEvent)
    requires Reduce(s, e).Some? && e.data.AttemptFinished?
    ensures FinishIsValid(e.data.finish) && FinishAccepted(s, e.data.finish) && OpenIndex(s.attempts).Some?
    ensures Reduce(s, e).value.attempts == Finished(s.attempts, e.data.finish, e.createdAt)
  {
    hide FollowsGrammar, FinishIsValid;
  }

  lemma FailureStep(s: SessionState, e: StoredEvent)
    requires Reduce(s, e).Some? && e.data.SessionFailed?
    ensures Reduce(s, e).value.status.Failed? && Reduce(s, e).value.error == Some(e.data.error)
  {
    hide FollowsGrammar;
  }

  /** The finish at index `k` is the one thing that touches attempts. */
  lemma FinishFold(s: SessionState, events: seq<StoredEvent>, k: nat)
    requires k < |events| <= k + 2 && FoldFrom(s, events).Some? && events[k].data.AttemptFinished?
    requires forall i :: 0 <= i < |events| && i != k ==> !Metered(events[i].data)
    ensures var f := events[k].data.finish;
            && OpenIndex(s.attempts).Some? && FinishIsValid(f)
            && FoldFrom(s, events).value.attempts == Finished(s.attempts, f, events[k].createdAt)
            && FoldFrom(s, events[..k]).Some? && FinishAccepted(FoldFrom(s, events[..k]).value, f)
            && FoldFrom(s, events[..k]).value.attempts == s.attempts
            && FoldFrom(s, events[..k]).value.policy == s.policy
  {
    hide Reduce, FinishIsValid, FinishAccepted, FoldFrom, OpenIndex, Metered;
    assert events[..|events|] == events && (|events| == k + 2 ==> events[..k + 1] == events[..|events| - 1]);
    if |events| == k + 2 {
      FoldStep(s, events, k + 1);
      UnmeteredKeepsAttempts(FoldFrom(s, events[..k + 1]).value, events[k + 1]);
    }
    FoldStep(s, events, k);
    UnmeteredFoldKeepsAttempts(s, events[..k]);
    FoldEvolves(s, events[..k]);
    FinishStep(FoldFrom(s, events[..k]).value, events[k]);
  }

  /** A batch that ends in a session failure leaves the session failed with its error. */
  lemma FailureFold(s: SessionState, events: seq<StoredEvent>)
    requires events != [] && FoldFrom(s, events).Some? && events[|events| - 1].data.SessionFailed?
    ensures FoldFrom(s, events).value.status.Failed? && FoldFrom(s, events).value.error == Some(events[|events| - 1].data.error)
  {
    hide Reduce;
    FailureStep(FoldFrom(s, events[..|events| - 1]).value, events[|events| - 1]);
  }

  lemma {:induction false} FindAttemptUnique(attempts: seq<Attempt>, k: nat)
    requires k < |attempts|
    requires forall i, j :: 0 <= i < j < |attempts| ==> attempts[i].start.attemptId != attempts[j].start.attemptId
    ensures FindAttempt(attempts, attempts[k].start.attemptId) == Some(attempts[k])
  {
    if k > 0 {
      FindAttemptUnique(attempts[1..], k - 1);
    }
  }

  // ----- A finish and its session

  /** The commit of a finish, taken apart. */
  lemma FinishAdvances(t: Tables, input: FinishInput, fault: Fault)
    requires Inv(t) && AttemptFinish(t, input, fault).Success?
    ensures StateOf(t, input.sessionId).Some? && FinishBatchFits(input.events)
    ensures var s, f := StateOf(t, input.sessionId).value, input.events[FinishIndex(input.events)].finish;
            var attempt := FindAttempt(s.attempts, f.attemptId);
            && attempt.Some? && attempt.value.finished.None?
            && FinishBudget(t.rows, input, attempt.value, f).Success?
            && |input.ids| == |input.events|
            && Advances(t.(rows := FinishBudget(t.rows, input, attempt.value, f).value), AttemptFinish(t, input, fault).value,
                        input.sessionId, StoredOf(t, input.sessionId, input.events, input.ids, input.createdAt))
  {
    hide EventsOf, Replay, Linked, AllBounded, AllPaidReconciled, ReservationsHeld, AppendBatch, StoreSound, Advances,
         FinishBudget, FindAttempt;
    var s, f := StateOf(t, input.sessionId).value, input.events[FinishIndex(input.events)].finish;
    var rows' := FinishBudget(t.rows, input, FindAttempt(s.attempts, f.attemptId).value, f).value;
    LogDecidesSound(t, t.(rows := rows'));
    BatchAdvances(t.(rows := rows'), input.sessionId, input.events, input.ids, input.createdAt, input.expected, fault);
  }

  lemma FinishIsLone(events: seq<EventData>)
    requires FinishBatchFits(events)
    ensures var k := FinishIndex(events);
            k < |events| <= k + 2 && events[k].AttemptFinished? && forall i :: 0 <= i < |events| && i != k ==> !Metered(events[i])
  {
  }

  /** The finished attempt is the session's open one. */
  lemma FinishedIsOpen(t: Tables, input: FinishInput, fault: Fault, s: SessionState, s': SessionState, f: Finish)
    requires Inv(t) && AttemptFinish(t, input, fault).Success? && StateOf(t, input.sessionId) == Some(s)
    requires StateOf(AttemptFinish(t, input, fault).value, input.sessionId) == Some(s')
    requires FinishBatchFits(input.events) && f == input.events[FinishIndex(input.events)].finish
    ensures FinishIsValid(f) && s.attempts != []
    ensures var k := |s.attempts| - 1;
            && FindAttempt(s.attempts, f.attemptId) == Some(s.attempts[k]) && s.attempts[k].finished.None?
            && s'.attempts == s.attempts[k := s.attempts[k].(finished := Some(FinishRecord(f, input.createdAt)))]
            && Effective(f.cost.scope) == Effective(s.attempts[k].start.scope)
            && f.cost.reservationId == s.attempts[k].start.reservationId
    ensures EndsByOverrun(input.events) ==> FailedByOverrun(s')
    ensures Evolves(s, s') && SessionSound(s')
  {
    hide EventsOf, Replay, FoldFrom, Inv, AttemptFinish, FinishIsValid, FindAttempt, MentionsOverrun, StoreSound,
         DecisionsGrounded, FindDecision, FinishBudget;
    FinishAdvances(t, input, fault);
    FinishIsLone(input.events);
    var stored := StoredOf(t, input.sessionId, input.events, input.ids, input.createdAt);
    FinishFold(s, stored, FinishIndex(input.events));
    FoldEvolves(s, stored);
    StateIsSound(t, input.sessionId);
    StateIsSound(AttemptFinish(t, input, fault).value, input.sessionId);
    OpenIsLast(s);
    FindAttemptUnique(s.attempts, |s.attempts| - 1);
    if EndsByOverrun(input.events) {
      FailureFold(s, stored);
    }
  }

  // ----- Unreserved attempts

  lemma UnreservedFinishKeepsInv(t: Tables, input: FinishInput, fault: Fault, s: SessionState, s': SessionState)
    requires Inv(t) && AttemptFinish(t, input, fault).Success? && StateOf(t, input.sessionId) == Some(s)
    requires StateOf(AttemptFinish(t, input, fault).value, input.sessionId) == Some(s')
    requires s.attempts != [] && s.attempts[|s.attempts| - 1].start.reservationId.None?
    ensures Inv(AttemptFinish(t, input, fault).value)
  {
    hide EventsOf, Replay, FoldFrom, AttemptFinish, FinishIsValid, FindAttempt, StoreSound, Linked, AllBounded, AttemptReconciled,
         ReservationsHeld, SessionSound, Evolves, FailedByOverrun, FinishBatchFits, Touches, AllPaidReconciled, EndsByOverrun;
    FinishAdvances(t, input, fault);
    FinishIsLone(input.events);
    var f := input.events[FinishIndex(input.events)].finish;
    FinishedIsOpen(t, input, fault, s, s', f);
    var next := AttemptFinish(t, input, fault).value;
    assert t.(rows := t.rows) == t;
    SameRowsTouch(t.rows, input.sessionId);
    forall k | 0 <= k < |s'.attempts| && s'.attempts[k].start.reservationId.Some?
      ensures AttemptReconciled(t.rows, s', s'.attempts[k])
    {
      assert s'.attempts[k] == s.attempts[k];
      OwnAttemptStays(t, t.rows, input.sessionId, s', s'.attempts[k]);
    }
    HeldAfterSameRows(t, next, input.sessionId);
    KeysSameInv(t, t.rows, next, input.sessionId);
  }

  lemma SameRowsTouch(rows: seq<Row>, session: string)
    ensures Touches(rows, rows, session)
  {
  }

  lemma HeldAfterSameRows(t: Tables, next: Tables, session: string)
    requires ReservationsHeld(t) && next.rows == t.rows && next.sessions.Keys == t.sessions.Keys
    requires StateOf(t, session).Some? && StateOf(next, session).Some? && Evolves(StateOf(t, session).value, StateOf(next, session).value)
    requires forall other :: other != session ==> StateOf(next, other) == StateOf(t, other)
    ensures ReservationsHeld(next)
  {
    hide ProjectionHolds, EventsOf, Replay, Evolves;
    HeldStays(t, next, session);
  }

  // ----- Reserved attempts

  /** The terminal row of a reserved finish repeats that finish. */
  lemma ResolutionMatchesFinish(rows: seq<Row>, input: FinishInput, a: Attempt, f: Finish, s': SessionState)
    requires a.start.reservationId.Some? && ResolutionFor(rows, input, a, f).Success? && FinishIsValid(f)
    requires FindReservation(rows, a.start.reservationId.value).Some?
    requires Effective(f.cost.scope) == FindReservation(rows, a.start.reservationId.value).value.scope
    requires EndsByOverrun(input.events) ==> FailedByOverrun(s')
    ensures var r := FindReservation(rows, a.start.reservationId.value).value;
            var given := ResolutionFor(rows, input, a, f).value;
            given.reservationId == a.start.reservationId.value
            && FinishMatches(s', FinishRecord(f, input.createdAt), r, TerminalFor(given, r))
  {
    hide Find, LedgerHostPrice, UnitHostPrice, MentionsOverrun, FailedByOverrun, EndsByOverrun;
    HostPricesAgree(FindReservation(rows, a.start.reservationId.value).value.rates, f.usage);
  }

  lemma TerminalTouches(rows: seq<Row>, row: Row, session: string)
    requires row.TerminalRow? && !HasId(rows, row.id)
    requires FindReservation(rows, row.reservationId).Some? && FindReservation(rows, row.reservationId).value.sessionId == session
    ensures Touches(rows, rows + [row], session)
  {
  }

  lemma ReservedFinishKeepsInv(t: Tables, input: FinishInput, fault: Fault, s: SessionState, s': SessionState)
    requires Inv(t) && AttemptFinish(t, input, fault).Success? && StateOf(t, input.sessionId) == Some(s)
    requires StateOf(AttemptFinish(t, input, fault).value, input.sessionId) == Some(s')
    requires s.attempts != [] && s.attempts[|s.attempts| - 1].start.reservationId.Some?
    ensures Inv(AttemptFinish(t, input, fault).value)
  {
    hide EventsOf, Replay, FoldFrom, AttemptFinish, FinishIsValid, FindAttempt, StoreSound, Linked, AllBounded, AttemptReconciled,
         ReservationsHeld, SessionSound, Evolves, FailedByOverrun, FinishBatchFits, Touches, Find, ResolutionFor, Resolve,
         Insertable, FinishMatches, EndsByOverrun;
    FinishAdvances(t, input, fault);
    FinishIsLone(input.events);
    var f := input.events[FinishIndex(input.events)].finish;
    FinishedIsOpen(t, input, fault, s, s', f);
    var k := |s.attempts| - 1;
    var a := s.attempts[k];
    var given := ResolutionFor(t.rows, input, a, f).value;
    var rows' := Resolve(t.rows, given).value;
    assert PaidReconciled(t.rows, s);
    ReservedAttemptFacts(t.rows, s, a);
    ResolutionMatchesFinish(t.rows, input, a, f, s');
    ResolveKeepsBounds(t.rows, given);
    ResolvedRow(t.rows, given);
    var row := TerminalFor(given, FindReservation(t.rows, given.reservationId).value);
    InsertableIsNew(t.rows, row);
    StateHasItsId(t, input.sessionId);
    TerminalTouches(t.rows, row, input.sessionId);
    FinishedAttemptReconciled(t.rows, given, s, s', a, FinishRecord(f, input.createdAt));
    RestStays(t, rows', input.sessionId, s, s', row);
    HeldAfterTerminal(t, AttemptFinish(t, input, fault).value, input.sessionId, row);
    KeysSameInv(t, rows', AttemptFinish(t, input, fault).value, input.sessionId);
  }

  lemma ReservedAttemptFacts(rows: seq<Row>, s: SessionState, a: Attempt)
    requires a.start.reservationId.Some? && AttemptReconciled(rows, s, a)
    ensures FindReservation(rows, a.start.reservationId.value).Some?
    ensures var r := FindReservation(rows, a.start.reservationId.value).value;
            r.scope == Effective(a.start.scope) && r.sessionId == s.id && r.attemptId == a.start.attemptId
  {
    hide Find, DecisionMatches, CampaignMatches, AdmissionMatches, TerminalMatches;
  }

  /** The finished session's other paid attempts stay reconciled. */
  lemma RestStays(t: Tables, rows': seq<Row>, session: string, s: SessionState, s': SessionState, row: Row)
    requires Inv(t) && session in t.sessions && StateOf(t, session) == Some(s) && rows' == t.rows + [row] && row.TerminalRow?
    requires Touches(t.rows, rows', session) && Evolves(s, s') && SessionSound(s')
    requires s.attempts != [] && s.attempts[|s.attempts| - 1].start.reservationId == Some(row.reservationId)
    requires |s'.attempts| == |s.attempts| && s'.attempts[..|s.attempts| - 1] == s.attempts[..|s.attempts| - 1]
    requires s'.attempts[|s.attempts| - 1].start.reservationId.Some? && AttemptReconciled(rows', s', s'.attempts[|s.attempts| - 1])
    ensures PaidReconciled(rows', s')
  {
    hide Linked, AllBounded, ReservationsHeld, AttemptReconciled, EventsOf, Replay, Evolves, StoreSound, Touches, DecisionsGrounded,
         FindReservation, Find;
    var last := |s.attempts| - 1;
    assert PaidReconciled(t.rows, s);
    StateIsSound(t, session);
    forall k | 0 <= k < |s'.attempts| && s'.attempts[k].start.reservationId.Some?
      ensures AttemptReconciled(rows', s', s'.attempts[k])
    {
      if k < last {
        assert s'.attempts[k] == s'.attempts[..last][k] == s.attempts[..last][k] == s.attempts[k];
        if s.attempts[k].start.reservationId == s.attempts[last].start.reservationId {
          ReservationNamesAttempt(t.rows, s, s.attempts[k]);
          ReservationNamesAttempt(t.rows, s, s.attempts[last]);
        }
        OwnAttemptStays(t, rows', session, s', s'.attempts[k]);
      }
    }
  }

  lemma HeldAfterTerminal(t: Tables, next: Tables, session: string, row: Row)
    requires ReservationsHeld(t) && next.rows == t.rows + [row] && row.TerminalRow? && next.sessions.Keys == t.sessions.Keys
    requires StateOf(t, session).Some? && StateOf(next, session).Some? && Evolves(StateOf(t, session).value, StateOf(next, session).value)
    requires forall other :: other != session ==> StateOf(next, other) == StateOf(t, other)
    ensures ReservationsHeld(next)
  {
    hide ProjectionHolds, EventsOf, Replay, Evolves;
    HeldStays(t, next, session);
  }

  lemma FinishKeepsInv(t: Tables, input: FinishInput, fault: Fault)
    requires Inv(t) && AttemptFinish(t, input, fault).Success?
    ensures Inv(AttemptFinish(t, input, fault).value)
  {
    hide Inv, AttemptFinish, StateOf, FinishBudget, FinishIsValid, FindAttempt, Evolves, SessionSound, FailedByOverrun, EndsByOverrun;
    FinishAdvances(t, input, fault);
    var s := StateOf(t, input.sessionId).value;
    var s' := StateOf(AttemptFinish(t, input, fault).value, input.sessionId).value;
    FinishedIsOpen(t, input, fault, s, s', input.events[FinishIndex(input.events)].finish);
    if s.attempts[|s.attempts| - 1].start.reservationId.Some? {
      ReservedFinishKeepsInv(t, input, fault, s, s');
    } else {
      UnreservedFinishKeepsInv(t, input, fault, s, s');
    }
  }
}
