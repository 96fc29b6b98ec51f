/** The event table, the session projections and the one transaction that appends to both. */
module EventStores {
  import opened Wrappers
  import opened Ledger
  import opened Sessions

  /** A row of the sessions table: the projected state with the sequence its update is guarded by. */
  datatype SessionRow = SessionRow(lastSequence: nat, state: SessionState)

  datatype Tables = Tables(rows: seq<Row>, log: seq<StoredEvent>, sessions: map<string, SessionRow>)

  datatype StoreError =
    | SequenceConflict(expected: nat, actual: nat) | SessionAlreadyExists | SessionNotFound | ProjectionWithoutHistory
    | EventRejected | EventIdReused | Injected | UnreplayableSession

  datatype Pending = Pending(id: string, createdAt: Time, data: EventData)

  // ----- Reading

  /** The events of one session, in table order. */
  function EventsOf(log: seq<StoredEvent>, session: string): seq<StoredEvent> {
    if log == [] then []
    else
      var last := log[|log| - 1];
      EventsOf(log[..|log| - 1], session) + if last.sessionId == session then [last] else []
  }

  predicate IdUsed(log: seq<StoredEvent>, id: string) {
    exists i :: 0 <= i < |log| && log[i].id == id
  }

  function StateOf(t: Tables, session: string): Option<SessionState> {
    Replay(EventsOf(t.log, session))
  }

  // ----- Appending

  function Stored(session: string, sequence: nat, p: Pending): StoredEvent {
    StoredEvent(p.id, session, sequence, p.createdAt, p.data)
  }

  /** A fault point once `done` events have been persisted. */
  function Remaining(fault: Option<nat>, done: nat): Option<nat> {
    if fault.Some? && done <= fault.value then Some(fault.value - done) else fault
  }

  /** The log and state after appending `pending`; `fault` throws after that many further events. */
  function AppendAll(log: seq<StoredEvent>, state: Option<SessionState>, session: string, sequence: nat,
                     pending: seq<Pending>, fault: Option<nat>)
    : Result<(seq<StoredEvent>, Option<SessionState>), StoreError>
    decreases |pending|
  {
    if pending == [] then Success((log, state))
    else
      var event := Stored(session, sequence + 1, pending[0]);
      var next := Reduced(state, event);
      :- Need(next.Some?, EventRejected);
      :- Need(!IdUsed(log, event.id), EventIdReused);
      :- Need(fault != Some(0), Injected);
      AppendAll(log + [event], next, session, sequence + 1, pending[1..], Remaining(fault, 1))
  }

  lemma AppendNothing(log: seq<StoredEvent>, state: Option<SessionState>, session: string, sequence: nat, fault: Option<nat>)
    ensures AppendAll(log, state, session, sequence, [], fault) == Success((log, state))
  {
  }

  /** One event of a batch in `AppendAll`, counted from the front of the whole batch. */
  lemma AppendAllNext(log: seq<StoredEvent>, state: Option<SessionState>, session: string, sequence: nat,
                      pending: seq<Pending>, i: nat, fault: Option<nat>)
    requires i < |pending| && (fault.Some? ==> i <= fault.value)
    ensures var event := Stored(session, sequence + 1, pending[i]);
            var next := Reduced(state, event);
            AppendAll(log, state, session, sequence, pending[i..], Remaining(fault, i))
            == if next.None? then Failure(EventRejected)
               else if IdUsed(log, event.id) then Failure(EventIdReused)
               else if fault == Some(i) then Failure(Injected)
               else AppendAll(log + [event], next, session, sequence + 1, pending[i + 1..], Remaining(fault, i + 1))
  {
    hide IdUsed, Reduced, Stored;
    assert pending[i..][1..] == pending[i + 1..];
  }

  /** The state an append starts from. */
  function CurrentState(t: Tables, session: string): Result<Option<SessionState>, StoreError> {
    if session !in t.sessions then Success(None)
    else
      :- Need(EventsOf(t.log, session) != [], ProjectionWithoutHistory);
      :- Need(StateOf(t, session).Some?, UnreplayableSession);
      Success(StateOf(t, session))
  }

  function Append(t: Tables, session: string, pending: seq<Pending>, expected: Option<nat>, fault: Option<nat>)
    : Result<Tables, StoreError>
  {
    if pending == [] then Success(t)
    else
      var state :- CurrentState(t, session);
      var actual := if state.Some? then state.value.lastSequence else 0;
      :- Need(expected.Some? ==> expected.value == actual, SequenceConflict(expected.GetOr(0), actual));
      :- Need(session in t.sessions ==> !pending[0].data.SessionCreated?, SessionAlreadyExists);
      :- Need(session !in t.sessions ==> pending[0].data.SessionCreated?, SessionNotFound);
      var (log, next) :- AppendAll(t.log, state, session, actual, pending, fault);
      Success(t.(log := log,
                 sessions := if next.Some? then t.sessions[session := SessionRow(next.value.lastSequence, next.value)] else t.sessions))
  }

  // ----- The mutable store

  class SoarDatabase {
    var rows: seq<Row>
    var log: seq<StoredEvent>
    var sessions: map<string, SessionRow>

    constructor ()
      ensures Contents() == Tables([], [], map[])
    {
      rows := [];
      log := [];
      sessions := map[];
    }

    ghost function Contents(): Tables
      reads this
    {
      Tables(rows, log, sessions)
    }

    /** What a transaction keeps to restore when it does not commit. */
    method Begin() returns (before: Tables)
      ensures before == Contents()
    {
      before := Tables(rows, log, sessions);
    }

    method Rollback(before: Tables)
      modifies this
      ensures Contents() == before
    {
      rows := before.rows;
      log := before.log;
      sessions := before.sessions;
    }
  }

  class EventStore {
    const database: SoarDatabase

    constructor (database: SoarDatabase)
      ensures this.database == database
    {
      this.database := database;
    }

    method GetEvents(session: string) returns (events: seq<StoredEvent>)
      ensures events == EventsOf(database.log, session)
    {
      events := [];
      for i := 0 to |database.log|
        invariant events == EventsOf(database.log[..i], session)
      {
        assert database.log[..i + 1][..i] == database.log[..i];
        if database.log[i].sessionId == session {
          events := events + [database.log[i]];
        }
      }
      assert database.log[..|database.log|] == database.log;
    }

    method ReplaySession(session: string) returns (state: Option<SessionState>)
      ensures state == StateOf(database.Contents(), session)
    {
      var events := GetEvents(session);
      if events == [] {
        return None;
      }
      state := Sessions.Begin(events[0]);
      assert events[..1] == [events[0]];
      hide Reduce, Sessions.Begin, EventsOf;
      for i := 1 to |events|
        invariant state == Replay(events[..i])
      {
        assert events[..i + 1][..i] == events[..i];
        if state.Some? {
          state := Reduce(state.value, events[i]);
        }
      }
      assert events[..|events|] == events;
    }

    /** The state, and so the sequence, an append starts from. */
    method LoadState(session: string) returns (result: Result<Option<SessionState>, StoreError>)
      ensures result == CurrentState(database.Contents(), session)
    {
      if session !in database.sessions {
        return Success(None);
      }
      var events := GetEvents(session);
      if events == [] {
        return Failure(ProjectionWithoutHistory);
      }
      var state := ReplaySession(session);
      result := if state.None? then Failure(UnreplayableSession) else Success(state);
    }

    method UpdateSessionProjection(session: string, state: SessionState, previousSequence: nat) returns (changes: nat)
      requires session in database.sessions
      modifies database`sessions
      ensures changes == if old(database.sessions)[session].lastSequence == previousSequence then 1 else 0
      ensures database.sessions
              == if changes == 1 then old(database.sessions)[session := SessionRow(state.lastSequence, state)]
                 else old(database.sessions)
    {
      if database.sessions[session].lastSequence == previousSequence {
        database.sessions := database.sessions[session := SessionRow(state.lastSequence, state)];
        return 1;
      }
      return 0;
    }

    /** Persists the batch event by event; it may leave a partial append behind when it throws. */
    method PersistAll(session: string, start: Option<SessionState>, actual: nat, pending: seq<Pending>, fault: Option<nat>)
      returns (result: Result<SessionState, StoreError>, stored: seq<StoredEvent>)
      requires pending != []
      modifies database`log, database`sessions
      ensures var all := AppendAll(old(database.log), start, session, actual, pending, fault);
              && (result.Success? <==> all.Success?)
              && (result.Failure? ==> result.error == all.error)
              && (result.Success? ==> all.value == (database.log, Some(result.value)))
      ensures result.Success? ==> database.log == old(database.log) + stored
      ensures result.Success? && session in old(database.sessions) ==> database.sessions == old(database.sessions)
      ensures result.Success? && session !in old(database.sessions) ==>
                session in database.sessions && database.sessions[session].lastSequence == 0
                && database.sessions == old(database.sessions)[session := database.sessions[session]]
    {
      hide IdUsed, EventsOf, Stored, Reduced, AppendAll;
      var state := start;
      assert pending[0..] == pending;
      stored := [];
      var sequence := actual;
      for i := 0 to |pending|
        invariant fault.Some? ==> i <= fault.value
        invariant AppendAll(old(database.log), start, session, actual, pending, fault)
                  == AppendAll(database.log, state, session, sequence, pending[i..], Remaining(fault, i))
        invariant database.log == old(database.log) + stored
        invariant i > 0 ==> state.Some? && session in database.sessions
        invariant session in old(database.sessions) ==> database.sessions == old(database.sessions)
        invariant i == 0 ==> database.sessions == old(database.sessions)
        invariant i > 0 && session !in old(database.sessions) ==>
                    database.sessions[session].lastSequence == 0
                    && database.sessions == old(database.sessions)[session := database.sessions[session]]
      {
        AppendAllNext(database.log, state, session, sequence, pending, i, fault);
        sequence := sequence + 1;
        var candidate := Stored(session, sequence, pending[i]);
        state := Reduced(state, candidate);
        if state.None? {
          return Failure(EventRejected), stored;
        }
        if session !in database.sessions {
          database.sessions := database.sessions[session := SessionRow(0, state.value)];
        }
        if IdUsed(database.log, candidate.id) {
          return Failure(EventIdReused), stored;
        }
        database.log := database.log + [candidate];
        stored := stored + [candidate];
        if fault.Some? && fault.value == i {
          return Failure(Injected), stored;
        }
      }
      AppendNothing(database.log, state, session, sequence, Remaining(fault, |pending|));
      assert pending[|pending|..] == [];
      result := Success(state.value);
    }

    /** The body of the append transaction; it may leave a partial append behind when it throws. */
    method AppendRows(session: string, pending: seq<Pending>, expected: Option<nat>, fault: Option<nat>)
      returns (result: Result<seq<StoredEvent>, StoreError>)
      requires pending != []
      modifies database
      ensures var appended := Append(old(database.Contents()), session, pending, expected, fault);
              && (result.Success? <==> appended.Success?)
              && (result.Success? ==> database.Contents() == appended.value)
              && (result.Failure? ==> result.error == appended.error)
      ensures result.Success? ==> database.log == old(database.log) + result.value
    {
      hide AppendAll, StateOf, EventsOf;
      var existed := session in database.sessions;
      var projectionSequence := if existed then database.sessions[session].lastSequence else 0;
      var state :- LoadState(session);
      var actual := if state.Some? then state.value.lastSequence else 0;
      if expected.Some? && expected.value != actual {
        return Failure(SequenceConflict(expected.value, actual));
      }
      if existed && pending[0].data.SessionCreated? {
        return Failure(SessionAlreadyExists);
      }
      if !existed && !pending[0].data.SessionCreated? {
        return Failure(SessionNotFound);
      }
      var final, stored := PersistAll(session, state, actual, pending, fault);
      if final.Failure? {
        return Failure(final.error);
      }
      var changes := UpdateSessionProjection(session, final.value, projectionSequence);
      assert changes == 1;
      result := Success(stored);
    }

    /** `appendInternal`: every event of the batch and the projection commit together, or nothing does. */
    method AppendInternal(session: string, pending: seq<Pending>, expected: Option<nat>, fault: Option<nat>)
      returns (result: Result<seq<StoredEvent>, StoreError>)
      modifies database
      ensures var appended := Append(old(database.Contents()), session, pending, expected, fault);
              && (result.Success? <==> appended.Success?)
              && (result.Failure? ==> result.error == appended.error)
              && database.Contents() == if appended.Success? then appended.value else old(database.Contents())
      ensures result.Success? ==> database.log == old(database.log) + result.value
    {
      if pending == [] {
        return Success([]);
      }
      var before := database.Begin();
      result := AppendRows(session, pending, expected, fault);
      if result.Failure? {
        database.Rollback(before);
      }
    }
  }
}
