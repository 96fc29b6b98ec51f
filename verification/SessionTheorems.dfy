/** What the reducer keeps of a session's decisions, admissions and attempts, event by event. */
module SessionTheorems {
  import opened Wrappers
  import opened Pricing
  import opened Ledger
  import opened Sessions

  // ----- Folding further events

  /** The fold of the reducer over further events of a session. */
  function FoldFrom(s: SessionState, events: seq<StoredEvent>): Option<SessionState>
    decreases |events|
  {
    if events == [] then Some(s)
    else
      var before := FoldFrom(s, events[..|events| - 1]);
      if before.None? then None else Reduce(before.value, events[|events| - 1])
  }

  lemma {:induction false} ReplayThenFold(events: seq<StoredEvent>, further: seq<StoredEvent>)
    requires events != [] && Replay(events).Some?
    ensures Replay(events + further) == FoldFrom(Replay(events).value, further)
    decreases |further|
  {
    hide Reduce, Begin;
    if further == [] {
      assert events + further == events;
    } else {
      var shorter := further[..|further| - 1];
      ReplayThenFold(events, shorter);
      assert (events + further)[..|events + further| - 1] == events + shorter;
    }
  }

  lemma {:induction false} ReplayPrefixes(events: seq<StoredEvent>, n: nat)
    requires Replay(events).Some? && 1 <= n <= |events|
    ensures Replay(events[..n]).Some?
    decreases |events|
  {
    hide Reduce, Begin;
    if n == |events| {
      assert events[..n] == events;
    } else {
      ReplayPrefixes(events[..|events| - 1], n);
      assert events[..|events| - 1][..n] == events[..n];
    }
  }

  // ----- The session invariant

  /** An admitted cloud decision of a simulation rests on a passed admission it repeats. */
  ghost predicate Grounded(admissions: seq<Admission>, d: Decision) {
    && d.admissionId.Some?
    && var found := FindAdmission(admissions, d.admissionId.value);
       && found.Some? && found.value.passed && d.messages == Some(found.value.messages)
       && d.provenance == Some(found.value.provenance) && d.checkpointId == Some(found.value.checkpointId)
  }

  ghost predicate DecisionsGrounded(s: SessionState) {
    forall i :: 0 <= i < |s.decisions| ==>
      && (s.decisions[i].reservationId.Some? ==> s.decisions[i].reason.CloudAdmitted?)
      && (s.decisions[i].reason.CloudAdmitted? && s.decisions[i].scope == Some(Simulation) ==>
            Grounded(s.admissions, s.decisions[i]))
  }

  ghost predicate AttemptsOrdered(s: SessionState) {
    && (forall i, j :: 0 <= i < j < |s.attempts| ==> s.attempts[i].start.attemptId != s.attempts[j].start.attemptId)
    && (forall i :: 0 <= i < |s.attempts| - 1 ==> s.attempts[i].finished.Some?)
    && (HasOpenAttempt(s) ==> s.status.Running?)
    && (s.attempts != [] ==> s.policy.Some?)
  }

  ghost predicate SessionSound(s: SessionState) {
    DecisionsGrounded(s) && AttemptsOrdered(s)
  }

  lemma {:induction false} FindAdmissionStays(admissions: seq<Admission>, a: Admission, id: string)
    ensures FindAdmission(admissions, id).Some? ==> FindAdmission(admissions + [a], id) == FindAdmission(admissions, id)
    ensures FindAdmission(admissions, id).None? ==>
              FindAdmission(admissions + [a], id) == if a.admissionId == id then Some(a) else None
  {
    if admissions == [] {
      assert [a][1..] == [];
    } else {
      assert (admissions + [a])[1..] == admissions[1..] + [a];
      FindAdmissionStays(admissions[1..], a, id);
    }
  }

  lemma {:induction false} FindDecisionStays(decisions: seq<Decision>, d: Decision, id: string)
    ensures FindDecision(decisions, id).Some? ==> FindDecision(decisions + [d], id) == FindDecision(decisions, id)
    ensures FindDecision(decisions, id).None? ==>
              FindDecision(decisions + [d], id) == if d.decisionId == id then Some(d) else None
  {
    if decisions == [] {
      assert [d][1..] == [];
    } else {
      assert (decisions + [d])[1..] == decisions[1..] + [d];
      FindDecisionStays(decisions[1..], d, id);
    }
  }

  lemma {:induction false} FindOfAdmission(admissions: seq<Admission>, k: nat)
    requires k < |admissions| && forall i, j :: 0 <= i < j < |admissions| ==> admissions[i].admissionId != admissions[j].admissionId
    ensures FindAdmission(admissions, admissions[k].admissionId) == Some(admissions[k])
  {
    if k > 0 {
      FindOfAdmission(admissions[1..], k - 1);
    }
  }

  ghost predicate AdmissionsDistinct(s: SessionState) {
    forall i, j :: 0 <= i < j < |s.admissions| ==> s.admissions[i].admissionId != s.admissions[j].admissionId
  }

  lemma GroundedStays(admissions: seq<Admission>, a: Admission, d: Decision)
    requires Grounded(admissions, d)
    ensures Grounded(admissions + [a], d)
  {
    FindAdmissionStays(admissions, a, d.admissionId.value);
  }

  lemma EgressKeepsGrounded(s: SessionState, e: StoredEvent)
    requires DecisionsGrounded(s) && AdmissionsDistinct(s) && e.data.EgressRecorded? && Reduce(s, e).Some?
    ensures DecisionsGrounded(Reduce(s, e).value) && AdmissionsDistinct(Reduce(s, e).value)
  {
    hide FollowsGrammar, FindAdmission, Grounded;
    var next := Reduce(s, e).value;
    forall i | 0 <= i < |s.decisions| && s.decisions[i].reason.CloudAdmitted? && s.decisions[i].scope == Some(Simulation)
      ensures Grounded(next.admissions, s.decisions[i])
    {
      GroundedStays(s.admissions, e.data.admission, s.decisions[i]);
    }
  }

  /** A simulation's admitted decision is grounded in the admission recorded just before it. */
  lemma DecisionIsGrounded(s: SessionState, d: Decision)
    requires AdmissionsDistinct(s) && DecisionIsValid(d) && DecisionAccepted(s, d)
    requires d.reason.CloudAdmitted? && d.scope == Some(Simulation)
    ensures Grounded(s.admissions, d)
  {
    FindOfAdmission(s.admissions, |s.admissions| - 1);
  }

  lemma DecisionKeepsGrounded(s: SessionState, e: StoredEvent)
    requires DecisionsGrounded(s) && AdmissionsDistinct(s) && e.data.DecisionRecorded? && Reduce(s, e).Some?
    ensures DecisionsGrounded(Reduce(s, e).value)
  {
    hide FollowsGrammar, FindAdmission, Grounded, DecisionAccepted;
    var d := e.data.decision;
    if d.reason.CloudAdmitted? && d.scope == Some(Simulation) {
      DecisionIsGrounded(s, d);
    }
  }

  lemma OpenIsLast(s: SessionState)
    requires AttemptsOrdered(s) && OpenIndex(s.attempts).Some?
    ensures OpenIndex(s.attempts).value == |s.attempts| - 1
  {
  }

  lemma ReduceKeepsOrder(s: SessionState, e: StoredEvent)
    requires AttemptsOrdered(s) && Reduce(s, e).Some?
    ensures AttemptsOrdered(Reduce(s, e).value)
  {
    hide FollowsGrammar, DecisionAccepted, AdmissionAccepted, FindDecision, FindAdmission, EventIsValid;
    if e.data.AttemptFinished? {
      OpenIsLast(s);
    }
  }

  lemma ReduceKeepsSound(s: SessionState, e: StoredEvent)
    requires SessionSound(s) && AdmissionsDistinct(s) && Reduce(s, e).Some?
    ensures SessionSound(Reduce(s, e).value) && AdmissionsDistinct(Reduce(s, e).value)
  {
    hide FollowsGrammar, DecisionAccepted, AttemptAccepted, FinishAccepted, AdmissionAccepted, Grounded, AttemptsOrdered, EventIsValid;
    ReduceKeepsOrder(s, e);
    if e.data.EgressRecorded? {
      EgressKeepsGrounded(s, e);
    } else if e.data.DecisionRecorded? {
      DecisionKeepsGrounded(s, e);
    }
  }

  /** Every replayed session is sound. */
  lemma {:induction false} ReplayIsSound(events: seq<StoredEvent>)
    requires Replay(events).Some?
    ensures SessionSound(Replay(events).value) && AdmissionsDistinct(Replay(events).value)
    decreases |events|
  {
    hide Reduce, SessionSound, AdmissionsDistinct;
    if |events| > 1 {
      ReplayIsSound(events[..|events| - 1]);
      ReduceKeepsSound(Replay(events[..|events| - 1]).value, events[|events| - 1]);
    } else {
      BeginIsSound(events[0]);
    }
  }

  lemma BeginIsSound(e: StoredEvent)
    requires Begin(e).Some?
    ensures SessionSound(Begin(e).value) && AdmissionsDistinct(Begin(e).value)
  {
  }

  // ----- How a session evolves

  /** Decisions, admissions and attempts only grow, and a terminal session stays as it is. */
  ghost predicate Evolves(s: SessionState, s': SessionState) {
    && |s.attempts| <= |s'.attempts|
    && (forall k :: 0 <= k < |s.attempts| ==>
          s'.attempts[k].start == s.attempts[k].start && s'.attempts[k].createdAt == s.attempts[k].createdAt)
    && s'.id == s.id && s'.policy == s.policy && s.decisions <= s'.decisions && s.admissions <= s'.admissions
    && (IsTerminal(s.status) ==> s' == s)
  }

  lemma ReduceEvolves(s: SessionState, e: StoredEvent)
    requires Reduce(s, e).Some?
    ensures Evolves(s, Reduce(s, e).value)
  {
    hide FollowsGrammar, DecisionAccepted, AttemptAccepted, FinishAccepted, AdmissionAccepted, EventIsValid, TerminalReady;
    var next := Reduce(s, e).value;
    assert !IsTerminal(s.status) && next.id == s.id && next.policy == s.policy;
    assert s.decisions <= next.decisions && s.admissions <= next.admissions;
    if e.data.AttemptFinished? {
      AcceptedFinishIsOpen(s, e.data.finish);
      FinishedKeepsStarts(s.attempts, e.data.finish, e.createdAt);
    } else if e.data.AttemptStarted? {
      assert next.attempts[..|s.attempts|] == s.attempts;
    } else {
      assert next.attempts == s.attempts;
    }
  }

  lemma AcceptedFinishIsOpen(s: SessionState, f: Finish)
    requires FinishAccepted(s, f)
    ensures OpenIndex(s.attempts).Some?
  {
  }

  lemma FinishedKeepsStarts(attempts: seq<Attempt>, f: Finish, at: Time)
    requires OpenIndex(attempts).Some?
    ensures var next := Finished(attempts, f, at);
            |next| == |attempts| && forall k :: 0 <= k < |attempts| ==>
              next[k].start == attempts[k].start && next[k].createdAt == attempts[k].createdAt
  {
  }

  lemma EvolvesTransitively(a: SessionState, b: SessionState, c: SessionState)
    requires Evolves(a, b) && Evolves(b, c)
    ensures Evolves(a, c)
  {
  }

  lemma {:induction false} FoldEvolves(s: SessionState, events: seq<StoredEvent>)
    requires FoldFrom(s, events).Some?
    ensures Evolves(s, FoldFrom(s, events).value)
    decreases |events|
  {
    hide Reduce, Evolves;
    if events == [] {
      EvolvesTrivially(s);
    } else {
      var before := FoldFrom(s, events[..|events| - 1]).value;
      FoldEvolves(s, events[..|events| - 1]);
      ReduceEvolves(before, events[|events| - 1]);
      EvolvesTransitively(s, before, FoldFrom(s, events).value);
    }
  }

  lemma EvolvesTrivially(s: SessionState)
    ensures Evolves(s, s)
  {
  }

  lemma {:induction false} LookupsStay(s: SessionState, s': SessionState, decisionId: string, admissionId: string)
    requires Evolves(s, s')
    ensures FindDecision(s.decisions, decisionId).Some? ==> FindDecision(s'.decisions, decisionId) == FindDecision(s.decisions, decisionId)
    ensures FindAdmission(s.admissions, admissionId).Some? ==>
              FindAdmission(s'.admissions, admissionId) == FindAdmission(s.admissions, admissionId)
  {
    DecisionInPrefix(s.decisions, s'.decisions, decisionId);
    AdmissionInPrefix(s.admissions, s'.admissions, admissionId);
  }

  lemma {:induction false} DecisionInPrefix(short: seq<Decision>, long: seq<Decision>, id: string)
    requires short <= long
    ensures FindDecision(short, id).Some? ==> FindDecision(long, id) == FindDecision(short, id)
  {
    if short != [] && short[0].decisionId != id {
      DecisionInPrefix(short[1..], long[1..], id);
    }
  }

  lemma {:induction false} AdmissionInPrefix(short: seq<Admission>, long: seq<Admission>, id: string)
    requires short <= long
    ensures FindAdmission(short, id).Some? ==> FindAdmission(long, id) == FindAdmission(short, id)
  {
    if short != [] && short[0].admissionId != id {
      AdmissionInPrefix(short[1..], long[1..], id);
    }
  }

  // ----- What batches do to attempts

  predicate Metered(data: EventData) {
    data.AttemptStarted? || data.AttemptFinished?
  }

  lemma UnmeteredKeepsAttempts(s: SessionState, e: StoredEvent)
    requires Reduce(s, e).Some? && !Metered(e.data)
    ensures Reduce(s, e).value.attempts == s.attempts
  {
    hide FollowsGrammar, DecisionAccepted, AdmissionAccepted, EventIsValid;
  }

  lemma {:induction false} UnmeteredFoldKeepsAttempts(s: SessionState, events: seq<StoredEvent>)
    requires FoldFrom(s, events).Some? && forall i :: 0 <= i < |events| ==> !Metered(events[i].data)
    ensures FoldFrom(s, events).value.attempts == s.attempts
    decreases |events|
  {
    hide Reduce;
    if events != [] {
      UnmeteredFoldKeepsAttempts(s, events[..|events| - 1]);
      UnmeteredKeepsAttempts(FoldFrom(s, events[..|events| - 1]).value, events[|events| - 1]);
    }
  }

  lemma {:induction false} UnmeteredReplayHasNoAttempts(events: seq<StoredEvent>)
    requires Replay(events).Some? && forall i :: 0 <= i < |events| ==> !Metered(events[i].data)
    ensures Replay(events).value.attempts == []
    decreases |events|
  {
    hide Reduce;
    if |events| > 1 {
      UnmeteredReplayHasNoAttempts(events[..|events| - 1]);
      UnmeteredKeepsAttempts(Replay(events[..|events| - 1]).value, events[|events| - 1]);
    }
  }

  lemma FoldSplits(s: SessionState, events: seq<StoredEvent>)
    requires events != [] && FoldFrom(s, events).Some?
    ensures FoldFrom(s, events[..|events| - 1]).Some?
    ensures Reduce(FoldFrom(s, events[..|events| - 1]).value, events[|events| - 1]) == FoldFrom(s, events)
  {
  }

  /** A start batch ends in its one attempt. */
  lemma StartFold(s: SessionState, events: seq<StoredEvent>)
    requires events != [] && FoldFrom(s, events).Some? && events[|events| - 1].data.AttemptStarted?
    requires forall i :: 0 <= i < |events| - 1 ==> !Metered(events[i].data)
    ensures var s', e := FoldFrom(s, events).value, events[|events| - 1];
            && s'.attempts == s.attempts + [Attempt(e.data.start, e.createdAt, None)]
            && s'.decisions == FoldFrom(s, events[..|events| - 1]).value.decisions
            && AttemptAccepted(FoldFrom(s, events[..|events| - 1]).value, e.data.start)
  {
    hide FollowsGrammar, AttemptAccepted, FoldFrom, EventIsValid;
    FoldSplits(s, events);
    UnmeteredFoldKeepsAttempts(s, events[..|events| - 1]);
  }
}
