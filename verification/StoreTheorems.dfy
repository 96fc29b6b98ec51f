/** What every append keeps: gapless numbering, unique event ids and projections that are the fold of their events. */
module StoreTheorems {
  import opened Wrappers
  import opened Ledger
  import opened Sessions
  import opened EventStores

  ghost predicate Numbered(events: seq<StoredEvent>) {
    forall k :: 0 <= k < |events| ==> events[k].sequence == k + 1
  }

  ghost predicate IdsUnique(log: seq<StoredEvent>) {
    forall i, j :: 0 <= i < j < |log| ==> log[i].id != log[j].id
  }

  /** Every session with events has a projection, which is the left fold of the reducer over them. */
  ghost predicate StoreSound(t: Tables) {
    && IdsUnique(t.log)
    && (forall s :: s in t.sessions <==> EventsOf(t.log, s) != [])
    && (forall s :: s in t.sessions ==>
          StateOf(t, s).Some? && t.sessions[s] == SessionRow(StateOf(t, s).value.lastSequence, StateOf(t, s).value))
  }

  lemma {:induction false} EventsAreOfSession(log: seq<StoredEvent>, session: string)
    ensures forall e :: e in EventsOf(log, session) ==> e.sessionId == session && e in log
  {
    if log != [] {
      EventsAreOfSession(log[..|log| - 1], session);
    }
  }

  lemma EventsExtend(log: seq<StoredEvent>, event: StoredEvent, session: string)
    ensures EventsOf(log + [event], session) == EventsOf(log, session) + (if event.sessionId == session then [event] else [])
  {
    assert (log + [event])[..|log|] == log;
  }

  /** What replays is numbered from one without gaps, and ends in the sequence of its last event. */
  lemma {:induction false} ReplayNumbers(events: seq<StoredEvent>)
    requires Replay(events).Some?
    ensures Numbered(events) && Replay(events).value.lastSequence == |events| && events != []
    ensures Replay(events).value.id == events[0].sessionId
  {
    hide FollowsGrammar, DecisionAccepted, AdmissionAccepted, AttemptAccepted, FinishAccepted, EventIsValid;
    if |events| > 1 {
      ReplayNumbers(events[..|events| - 1]);
    }
  }

  lemma ReplayExtends(events: seq<StoredEvent>, event: StoredEvent)
    requires events != [] ==> Replay(events).Some?
    ensures Replay(events + [event]) == Reduced(if events == [] then None else Replay(events), event)
  {
    hide Reduce, Begin;
    assert (events + [event])[..|events|] == events;
  }

  /** A log in which `state` is the replay of the session's events. */
  ghost predicate Folded(log: seq<StoredEvent>, state: Option<SessionState>, session: string, sequence: nat) {
    var events := EventsOf(log, session);
    if events == [] then state.None? && sequence == 0
    else state.Some? && state == Replay(events) && sequence == |events|
  }

  lemma AppendOneFolds(log: seq<StoredEvent>, state: Option<SessionState>, session: string, sequence: nat, event: StoredEvent)
    requires Folded(log, state, session, sequence) && event.sessionId == session && Reduced(state, event).Some?
    ensures Folded(log + [event], Reduced(state, event), session, sequence + 1)
  {
    hide Reduce, Begin, EventsOf;
    EventsExtend(log, event, session);
    ReplayExtends(EventsOf(log, session), event);
  }

  function StoredBatch(session: string, sequence: nat, pending: seq<Pending>): (stored: seq<StoredEvent>)
    ensures |stored| == |pending|
    ensures forall k :: 0 <= k < |pending| ==> stored[k] == Stored(session, sequence + k + 1, pending[k])
    decreases |pending|
  {
    if pending == [] then [] else [Stored(session, sequence + 1, pending[0])] + StoredBatch(session, sequence + 1, pending[1..])
  }

  lemma BatchStep(log: seq<StoredEvent>, session: string, sequence: nat, pending: seq<Pending>)
    requires pending != []
    ensures log + StoredBatch(session, sequence, pending)
            == (log + [Stored(session, sequence + 1, pending[0])]) + StoredBatch(session, sequence + 1, pending[1..])
  {
  }

  lemma AppendAllStep(log: seq<StoredEvent>, state: Option<SessionState>, session: string, sequence: nat,
                      pending: seq<Pending>, fault: Option<nat>)
    requires pending != [] && AppendAll(log, state, session, sequence, pending, fault).Success?
    ensures var event := Stored(session, sequence + 1, pending[0]);
            && Reduced(state, event).Some? && !IdUsed(log, event.id)
            && AppendAll(log + [event], Reduced(state, event), session, sequence + 1, pending[1..], Remaining(fault, 1))
               == AppendAll(log, state, session, sequence, pending, fault)
  {
    hide Reduced, IdUsed;
  }

  /** What an append does to the log: the batch is added in order, other sessions are untouched, and the state stays a fold. */
  lemma {:induction false} AppendAllFolds(log: seq<StoredEvent>, state: Option<SessionState>, session: string, sequence: nat,
                                          pending: seq<Pending>, fault: Option<nat>)
    requires Folded(log, state, session, sequence) && IdsUnique(log)
    requires AppendAll(log, state, session, sequence, pending, fault).Success?
    ensures var (next, final) := AppendAll(log, state, session, sequence, pending, fault).value;
            && next == log + StoredBatch(session, sequence, pending)
            && Folded(next, final, session, sequence + |pending|) && IdsUnique(next)
    decreases |pending|
  {
    hide Reduced, EventsOf, IdUsed, IdsUnique, Folded;
    if pending == [] {
      assert log + [] == log;
    } else {
      AppendAllStep(log, state, session, sequence, pending, fault);
      BatchStep(log, session, sequence, pending);
      hide AppendAll, Stored, StoredBatch;
      var event := Stored(session, sequence + 1, pending[0]);
      AppendOneFolds(log, state, session, sequence, event);
      IdStaysUnique(log, event);
      AppendAllFolds(log + [event], Reduced(state, event), session, sequence + 1, pending[1..], Remaining(fault, 1));
    }
  }

  /** Appending one session's events shows in that session alone. */
  lemma {:induction false} BatchShowsInItsSession(log: seq<StoredEvent>, batch: seq<StoredEvent>, session: string, other: string)
    requires forall k :: 0 <= k < |batch| ==> batch[k].sessionId == session
    ensures EventsOf(log + batch, other) == EventsOf(log, other) + if other == session then batch else []
  {
    hide EventsOf;
    if batch == [] {
      assert log + batch == log;
    } else {
      var shorter, last := batch[..|batch| - 1], batch[|batch| - 1];
      BatchShowsInItsSession(log, shorter, session, other);
      EventsExtend(log + shorter, last, other);
      assert log + batch == (log + shorter) + [last];
    }
  }

  lemma IdStaysUnique(log: seq<StoredEvent>, event: StoredEvent)
    requires IdsUnique(log) && !IdUsed(log, event.id)
    ensures IdsUnique(log + [event])
  {
    forall i | 0 <= i < |log| ensures log[i].id != event.id {
    }
  }

  lemma CurrentIsFolded(t: Tables, session: string)
    requires StoreSound(t)
    ensures CurrentState(t, session) == Success(if session in t.sessions then StateOf(t, session) else None)
    ensures var state := CurrentState(t, session).value;
            Folded(t.log, state, session, if state.Some? then state.value.lastSequence else 0)
  {
    hide Replay;
    if session in t.sessions {
      ReplayNumbers(EventsOf(t.log, session));
    }
  }

  lemma AppendKeepsStoreSound(t: Tables, session: string, pending: seq<Pending>, expected: Option<nat>, fault: Option<nat>)
    requires StoreSound(t) && Append(t, session, pending, expected, fault).Success?
    ensures var next := Append(t, session, pending, expected, fault).value;
            && StoreSound(next) && next.rows == t.rows
            && |EventsOf(next.log, session)| == |EventsOf(t.log, session)| + |pending|
            && EventsOf(next.log, session)
               == EventsOf(t.log, session) + StoredBatch(session, |EventsOf(t.log, session)|, pending)
            && (forall other :: other != session ==> EventsOf(next.log, other) == EventsOf(t.log, other))
  {
    hide EventsOf, Replay, AppendAll, IdsUnique, StoredBatch, CurrentState;
    if pending != [] {
      CurrentIsFolded(t, session);
      var state := CurrentState(t, session).value;
      var actual := if state.Some? then state.value.lastSequence else 0;
      AppendAllFolds(t.log, state, session, actual, pending, fault);
      var next := Append(t, session, pending, expected, fault).value;
      forall other | other != session ensures EventsOf(next.log, other) == EventsOf(t.log, other) {
        BatchShowsInItsSession(t.log, StoredBatch(session, actual, pending), session, other);
      }
      BatchShowsInItsSession(t.log, StoredBatch(session, actual, pending), session, session);
      var final := AppendAll(t.log, state, session, actual, pending, fault).value.1;
      assert final == StateOf(next, session);
    }
  }

  /** A session's sequence is the number of its events. */
  lemma SequenceIsCount(t: Tables, session: string)
    requires StoreSound(t) && session in t.sessions
    ensures t.sessions[session].lastSequence == |EventsOf(t.log, session)| && Numbered(EventsOf(t.log, session))
  {
    hide Replay, EventsOf;
    ReplayNumbers(EventsOf(t.log, session));
  }

  /** An append that expects a sequence commits only where the session has exactly that many events. */
  lemma ExpectationIsCount(t: Tables, session: string, pending: seq<Pending>, expected: nat, fault: Option<nat>)
    requires StoreSound(t) && pending != [] && Append(t, session, pending, Some(expected), fault).Success?
    ensures |EventsOf(t.log, session)| == expected
  {
    hide Replay, EventsOf, AppendAll;
    CurrentIsFolded(t, session);
    if session in t.sessions {
      SequenceIsCount(t, session);
    }
  }
}
