/** What a replayable session says of its decisions, attempts and events, told from the session and its events alone. */
module SessionAudit {
  import opened Wrappers
  import opened Pricing
  import opened Ledger
  import opened Sessions
  import opened SessionTheorems

  // ----- Decisions

  /** A decision for the cloud is complete, a denial names what it denied, and any other decision has nothing to do with money. */
  predicate DecisionReads(d: Decision) {
    && (d.scope.Some? ==> d.scope.value != Legacy)
    && match d.reason
       case CloudAdmitted =>
         && d.boundary.EvidenceComplete? && d.assignsLease && d.egressPassed && d.billing.Some? && d.reservationId.Some?
         && d.campaignId.Some? && d.pricingId.Some? && d.credentialId.Some? && d.checkpointId.Some? && d.messages.Some?
         && d.proposedProvider.None? && d.proposalCheckpointId.None? && d.proposalMessages.None?
       case BudgetDenial => DenialReads(d) && d.billing.Some?
       case EgressDenial => DenialReads(d)
       case OtherDenial => DenialReads(d)
       case _ =>
         && d.billing.None? && d.reservationId.None? && d.campaignId.None? && d.pricingId.None? && d.credentialId.None?
         && d.checkpointId.None? && d.messages.None? && d.proposedProvider.None? && d.proposalCheckpointId.None?
         && d.proposalMessages.None?
  }

  predicate DenialReads(d: Decision) {
    && d.boundary.EvidenceComplete? && !d.assignsLease && d.reservationId.None? && d.checkpointId.None? && d.messages.None?
    && d.proposedProvider.Some? && d.proposedProvider.value != d.selectedProvider
  }

  /** Decisions are taken once per boundary, under their own ids and reservations, and within the episode's cap. */
  ghost predicate DecisionsHold(s: SessionState) {
    && (s.decisions != [] ==> s.policy.Some?)
    && (forall d :: d in s.decisions ==>
          DecisionReads(d) && (d.reason.CloudAdmitted? ==> d.billing.value.projected <= s.policy.value.cap))
    && (forall i, j :: 0 <= i < j < |s.decisions| ==>
          && s.decisions[i].decisionId != s.decisions[j].decisionId && s.decisions[i].boundary != s.decisions[j].boundary
          && (s.decisions[j].reservationId.Some? ==> s.decisions[i].reservationId != s.decisions[j].reservationId))
  }

  /** The admission a simulated cloud proposal was decided on: it repeats it, and is an egress denial exactly if it failed. */
  predicate RestsOn(d: Decision, a: Admission) {
    && d.admissionId == Some(a.admissionId) && d.provenance == Some(a.provenance) && d.egressPassed == a.passed
    && (d.reason.EgressDenial? <==> !a.passed)
    && (if d.checkpointId.Some? then d.checkpointId == Some(a.checkpointId) else d.proposalCheckpointId == Some(a.checkpointId))
    && (if d.messages.Some? then d.messages == Some(a.messages) else d.proposalMessages == Some(a.messages))
  }

  /** A simulated proposal for the cloud, taken once the evidence was complete. */
  predicate IsProposal(s: SessionState, d: Decision) {
    s.policy.Some? && s.policy.value.simulation && d.boundary.EvidenceComplete? && !d.reason.LowRiskLocalReview?
  }

  ghost predicate AdmissionsHold(s: SessionState) {
    && (s.admissions != [] ==> s.policy.Some? && s.policy.value.simulation)
    && (forall i, j :: 0 <= i < j < |s.admissions| ==>
          s.admissions[i].admissionId != s.admissions[j].admissionId && s.admissions[i].checkpointId != s.admissions[j].checkpointId)
    && (forall d :: d in s.decisions && IsProposal(s, d) ==> exists a :: a in s.admissions && RestsOn(d, a))
    && (forall d :: d in s.decisions && s.policy.Some? ==>
          if s.policy.value.simulation then d.scope == Some(Simulation) else d.scope != Some(Simulation) && d.admissionId.None?)
  }

  // ----- Attempts

  /** An attempt does what its decision decided. */
  predicate Follows(a: AttemptStart, d: Decision) {
    && d.decisionId == a.decisionId && d.selectedProvider == a.providerId && d.reservationId == a.reservationId
    && d.admissionId == a.admissionId
    && (if a.scope.Some? then a.scope.value else Legacy) == (if d.scope.Some? then d.scope.value else Legacy)
    && (d.reason.CloudAdmitted? && d.billing.Some? ==> d.billing.value.projection.outputTokens == a.maxOutput)
  }


  /** A finish repeats its start, and costs nothing where nothing was reserved or nothing was sent. */
  predicate FinishReads(a: AttemptStart, f: Finish) {
    && f.attemptId == a.attemptId && f.cost.reservationId == a.reservationId
    && (if f.cost.scope.Some? then f.cost.scope.value else Legacy) == (if a.scope.Some? then a.scope.value else Legacy)
    && (if a.reservationId.None? then f.cost.amount == 0 && f.cost.provenance.LocalZeroCost? else !f.cost.provenance.LocalZeroCost?)
    && (if f.outcome.Succeeded? then f.disposition.Sent? && f.errorCode.None? else f.errorCode.Some?)
    && (f.disposition.NotSent? ==> f.cost.amount == 0 && f.usage.input == 0 && f.usage.output == 0 && f.usage.reasoning == 0)
  }

  ghost predicate AttemptsHold(s: SessionState) {
    && (s.attempts != [] ==> s.policy.Some? && PaidAttempts(s.attempts) <= s.policy.value.maxPaidAttempts)
    && (forall a :: a in s.attempts ==> exists d :: d in s.decisions && Follows(a.start, d))
    && (forall a :: a in s.attempts && a.finished.Some? ==>
          && FinishReads(a.start, a.finished.value.finish)
          && (a.finished.value.finish.cost.provenance.ReservedUnknown? ==>
                exists d :: d in s.decisions && d.decisionId == a.start.decisionId && d.reason.CloudAdmitted? && d.billing.Some?
                            && d.billing.value.projected == a.finished.value.finish.cost.amount))
  }

  // ----- The end

  /** A session with a policy ends with every attempt finished, and completes only on a success. */
  ghost predicate EndHolds(s: SessionState) {
    && (s.policy.Some? && IsTerminal(s.status) ==> forall a :: a in s.attempts ==> a.finished.Some?)
    && (s.policy.Some? && s.status.Completed? ==>
          && s.attempts != [] && s.attempts[|s.attempts| - 1].finished.Some?
          && s.attempts[|s.attempts| - 1].finished.value.finish.outcome.Succeeded?)
    && (s.status.Failed? <==> s.error.Some?)
    && (s.last.AttemptStarted? ==> s.attempts != [] && s.attempts[|s.attempts| - 1].finished.None?)
  }

  ghost predicate Holds(s: SessionState) {
    DecisionsHold(s) && AdmissionsHold(s) && AttemptsHold(s) && EndHolds(s)
  }

  // ----- One more event

  lemma ValidDecisionReads(d: Decision)
    requires DecisionIsValid(d)
    ensures DecisionReads(d)
  {
  }

  lemma DecisionsStay(s: SessionState, e: StoredEvent)
    requires DecisionsHold(s) && Reduce(s, e).Some?
    ensures DecisionsHold(Reduce(s, e).value)
  {
    hide FollowsGrammar, AttemptAccepted, FinishAccepted, AdmissionAccepted, DecisionReads, DecisionIsValid, TerminalReady, OpenIndex;
    if e.data.DecisionRecorded? {
      ValidDecisionReads(e.data.decision);
      var next := Reduce(s, e).value;
      NewDecision(s, e.data.decision);
      assert next.decisions == s.decisions + [e.data.decision];
    }
  }

  lemma NewDecision(s: SessionState, d: Decision)
    requires DecisionAccepted(s, d)
    ensures s.policy.Some? && (d.reason.CloudAdmitted? ==> d.billing.Some? && d.billing.value.projected <= s.policy.value.cap)
    ensures forall i :: 0 <= i < |s.decisions| ==>
              && s.decisions[i].decisionId != d.decisionId && s.decisions[i].boundary != d.boundary
              && (d.reservationId.Some? ==> s.decisions[i].reservationId != d.reservationId)
  {
    hide MatchesAdmission, FindAdmission;
  }

  lemma NewProposal(s: SessionState, d: Decision)
    requires DecisionAccepted(s, d)
    ensures s.policy.Some?
    ensures if s.policy.value.simulation then d.scope == Some(Simulation) else d.scope != Some(Simulation) && d.admissionId.None?
    ensures IsProposal(s, d) ==> exists a :: a in s.admissions && RestsOn(d, a)
  {
    if IsProposal(s, d) {
      assert RestsOn(d, s.admissions[|s.admissions| - 1]);
    }
  }

  lemma AdmissionsStay(s: SessionState, e: StoredEvent)
    requires AdmissionsHold(s) && Reduce(s, e).Some?
    ensures AdmissionsHold(Reduce(s, e).value)
  {
    hide FollowsGrammar, AttemptAccepted, FinishAccepted, DecisionAccepted, RestsOn, DecisionIsValid, TerminalReady, OpenIndex;
    if e.data.DecisionRecorded? {
      NewProposal(s, e.data.decision);
    }
    var next := Reduce(s, e).value;
    forall d | d in next.decisions && IsProposal(s, d)
      ensures exists a :: a in next.admissions && RestsOn(d, a)
    {
      var a :| a in s.admissions && RestsOn(d, a);
      assert a in next.admissions;
    }
  }

  lemma NewAttempt(s: SessionState, a: AttemptStart)
    requires AttemptAccepted(s, a)
    ensures s.policy.Some? && exists d :: d in s.decisions && Follows(a, d)
    ensures a.reservationId.Some? ==> PaidAttempts(s.attempts) < s.policy.value.maxPaidAttempts
  {
    assert Follows(a, FindDecision(s.decisions, a.decisionId).value);
  }

  lemma NewFinish(s: SessionState, f: Finish)
    requires FinishAccepted(s, f) && FinishIsValid(f)
    ensures s.policy.Some? && OpenIndex(s.attempts).Some?
    ensures var a := s.attempts[OpenIndex(s.attempts).value].start;
            && FinishReads(a, f)
            && (f.cost.provenance.ReservedUnknown? ==>
                  exists d :: d in s.decisions && d.decisionId == a.decisionId && d.reason.CloudAdmitted? && d.billing.Some?
                              && d.billing.value.projected == f.cost.amount)
  {
  }

  lemma {:induction false} PaidStays(attempts: seq<Attempt>, next: seq<Attempt>)
    requires |attempts| == |next| && forall i :: 0 <= i < |attempts| ==> next[i].start == attempts[i].start
    ensures PaidAttempts(next) == PaidAttempts(attempts)
  {
    if attempts != [] {
      PaidStays(attempts[..|attempts| - 1], next[..|next| - 1]);
    }
  }

  lemma PaidOfOneMore(attempts: seq<Attempt>, a: Attempt)
    ensures PaidAttempts(attempts + [a]) == PaidAttempts(attempts) + if a.start.reservationId.Some? then 1 else 0
    ensures attempts == [] ==> PaidAttempts(attempts) == 0
  {
    var longer := attempts + [a];
    assert longer[..|longer| - 1] == attempts;
  }

  lemma StartStays(s: SessionState, e: StoredEvent)
    requires AttemptsHold(s) && e.data.AttemptStarted? && Reduce(s, e).Some?
    ensures AttemptsHold(Reduce(s, e).value)
  {
    StartAdds(s, e);
    NewAttempt(s, e.data.start);
    hide Reduce, AttemptAccepted, Follows, FinishReads, PaidAttempts;
    var next := Reduce(s, e).value;
    PaidOfOneMore(s.attempts, Attempt(e.data.start, e.createdAt, None));
    forall a | a in next.attempts
      ensures exists d :: d in s.decisions && Follows(a.start, d)
      ensures a.finished.Some? ==> a in s.attempts
    {
      assert a in s.attempts || a == Attempt(e.data.start, e.createdAt, None);
    }
  }

  lemma StartAdds(s: SessionState, e: StoredEvent)
    requires e.data.AttemptStarted? && Reduce(s, e).Some?
    ensures var next := Reduce(s, e).value;
            && next.attempts == s.attempts + [Attempt(e.data.start, e.createdAt, None)] && next.decisions == s.decisions
            && next.policy == s.policy && AttemptAccepted(s, e.data.start)
  {
    hide FollowsGrammar, AttemptAccepted, EventIsValid;
  }

  lemma FinishStaysAudited(s: SessionState, e: StoredEvent)
    requires AttemptsHold(s) && e.data.AttemptFinished? && Reduce(s, e).Some?
    ensures AttemptsHold(Reduce(s, e).value)
  {
    hide FollowsGrammar, FinishAccepted, Follows, FinishReads, FinishIsValid, OpenIndex;
    var next := Reduce(s, e).value;
    var f := e.data.finish;
    NewFinish(s, f);
    var k := OpenIndex(s.attempts).value;
    assert next.attempts == s.attempts[k := s.attempts[k].(finished := Some(FinishRecord(f, e.createdAt)))];
    PaidStays(s.attempts, next.attempts);
    forall a | a in next.attempts
      ensures exists d :: d in s.decisions && Follows(a.start, d)
      ensures a.finished.Some? ==>
                && FinishReads(a.start, a.finished.value.finish)
                && (a.finished.value.finish.cost.provenance.ReservedUnknown? ==>
                      exists d :: d in s.decisions && d.decisionId == a.start.decisionId && d.reason.CloudAdmitted? && d.billing.Some?
                                  && d.billing.value.projected == a.finished.value.finish.cost.amount)
    {
      var i :| 0 <= i < |next.attempts| && next.attempts[i] == a;
      assert s.attempts[i] in s.attempts && a.start == s.attempts[i].start;
    }
  }

  lemma AttemptsStay(s: SessionState, e: StoredEvent)
    requires AttemptsHold(s) && Reduce(s, e).Some?
    ensures AttemptsHold(Reduce(s, e).value)
  {
    hide FollowsGrammar, AttemptAccepted, FinishAccepted, DecisionAccepted, AdmissionAccepted, Follows, FinishReads, EventIsValid,
         TerminalReady, OpenIndex, PaidAttempts;
    if e.data.AttemptStarted? {
      StartStays(s, e);
    } else if e.data.AttemptFinished? {
      FinishStaysAudited(s, e);
    } else {
      var next := Reduce(s, e).value;
      assert next.attempts == s.attempts && next.policy == s.policy && s.decisions <= next.decisions;
      forall d | d in s.decisions ensures d in next.decisions {
      }
    }
  }

  lemma EndStays(s: SessionState, e: StoredEvent)
    requires EndHolds(s) && Reduce(s, e).Some?
    ensures EndHolds(Reduce(s, e).value)
  {
    hide FollowsGrammar, AttemptAccepted, FinishAccepted, DecisionAccepted, AdmissionAccepted, EventIsValid, OpenIndex;
    if EndsSession(e.data) && s.policy.Some? {
      forall a | a in s.attempts ensures a.finished.Some? {
        var i :| 0 <= i < |s.attempts| && s.attempts[i] == a;
      }
    }
  }

  lemma ReduceHolds(s: SessionState, e: StoredEvent)
    requires Holds(s) && Reduce(s, e).Some?
    ensures Holds(Reduce(s, e).value)
  {
    hide Reduce, DecisionsHold, AdmissionsHold, AttemptsHold, EndHolds;
    DecisionsStay(s, e);
    AdmissionsStay(s, e);
    AttemptsStay(s, e);
    EndStays(s, e);
  }

  /** Whatever a session's events are, a session that replays holds in every respect. */
  lemma {:induction false} ReplaysHold(events: seq<StoredEvent>)
    requires Replay(events).Some?
    ensures Holds(Replay(events).value)
    decreases |events|
  {
    if |events| > 1 {
      hide Reduce, Holds;
      ReplaysHold(events[..|events| - 1]);
      ReduceHolds(Replay(events[..|events| - 1]).value, events[|events| - 1]);
    }
  }

  // ----- The order of events

  /** What may come right after an event of a session with a policy. */
  predicate MayFollow(a: EventData, b: EventData) {
    match a
    case EgressRecorded(_) => b.DecisionRecorded?
    case DecisionRecorded(d) => if d.assignsLease then b.RouteAssigned? else b.AssistantStarted?
    case RouteAssigned => b.AssistantStarted?
    case AssistantStarted => b.ContextCompiled?
    case ContextCompiled(_) => b.AttemptStarted?
    case AttemptStarted(_) => b.AssistantDelta? || b.AssistantCompleted? || b.AttemptFinished?
    case AssistantCompleted(_) => b.AttemptFinished?
    case AttemptFinished(f) =>
      (f.outcome.AttemptCancelled? ==> b.SessionCancelled?) && (f.outcome.AttemptInterrupted? ==> b.SessionInterrupted?)
    case ToolRequested => b.ToolCompleted?
    case SessionCompleted => false
    case SessionFailed(_) => false
    case SessionCancelled => false
    case SessionInterrupted => false
    case _ => true
  }

  /** Events of one session, numbered from 1, in the order of time, and each one that may follow the one before. */
  ghost predicate WellOrdered(events: seq<StoredEvent>) {
    && (forall i :: 0 <= i < |events| ==> events[i].sequence == i + 1 && events[i].sessionId == events[0].sessionId)
    && (forall i, j :: 0 <= i && j == i + 1 && j < |events| ==>
          MayFollow(events[i].data, events[j].data) && events[i].createdAt <= events[j].createdAt)
    && (forall i :: 0 < i < |events| ==> !events[i].data.SessionCreated?)
    && (forall i :: 0 <= i < |events| && events[i].data.EgressRecorded? ==>
          events[i].data.admission.evaluatedAt == events[i].createdAt)
  }

  /** The state shows its last event. */
  ghost predicate ShowsLast(s: SessionState, e: StoredEvent) {
    && s.last == e.data && s.updatedAt == e.createdAt && s.lastSequence == e.sequence && s.id == e.sessionId
    && (EndsSession(e.data) ==> IsTerminal(s.status))
  }

  lemma NextMayFollow(s: SessionState, e: StoredEvent)
    requires EndHolds(s) && s.policy.Some? && Reduce(s, e).Some? && (EndsSession(s.last) ==> IsTerminal(s.status))
    ensures MayFollow(s.last, e.data) && s.updatedAt <= e.createdAt && e.sequence == s.lastSequence + 1 && e.sessionId == s.id
    ensures !e.data.SessionCreated? && (e.data.EgressRecorded? ==> e.data.admission.evaluatedAt == e.createdAt)
    ensures ShowsLast(Reduce(s, e).value, e) && Reduce(s, e).value.policy == s.policy
  {
    hide AttemptAccepted, FinishAccepted, DecisionAccepted, EventIsValid, OpenIndex, TerminalReady;
  }

  lemma OrderedExtends(events: seq<StoredEvent>, last: StoredEvent)
    requires events != [] && WellOrdered(events)
    requires var before := events[|events| - 1];
             && MayFollow(before.data, last.data) && before.createdAt <= last.createdAt
             && last.sequence == before.sequence + 1 && last.sessionId == before.sessionId && !last.data.SessionCreated?
             && (last.data.EgressRecorded? ==> last.data.admission.evaluatedAt == last.createdAt)
    ensures WellOrdered(events + [last])
  {
    hide MayFollow;
    var longer := events + [last];
    assert forall i :: 0 <= i < |events| ==> longer[i] == events[i];
  }

  /** The events of a session with a policy that replays are in order. */
  lemma {:induction false} ReplaysAreOrdered(events: seq<StoredEvent>)
    requires Replay(events).Some? && Replay(events).value.policy.Some?
    ensures WellOrdered(events) && ShowsLast(Replay(events).value, events[|events| - 1])
    decreases |events|
  {
    if |events| == 1 {
      FirstIsOrdered(events);
    } else {
      var shorter, last := events[..|events| - 1], events[|events| - 1];
      assert events == shorter + [last];
      PolicyStays(Replay(shorter).value, last);
      ReplaysHold(shorter);
      hide Reduce, Begin, MayFollow, WellOrdered, DecisionsHold, AdmissionsHold, AttemptsHold, EndHolds;
      ReplaysAreOrdered(shorter);
      NextMayFollow(Replay(shorter).value, last);
      OrderedExtends(shorter, last);
    }
  }

  lemma FirstIsOrdered(events: seq<StoredEvent>)
    requires |events| == 1 && Replay(events).Some?
    ensures WellOrdered(events) && ShowsLast(Replay(events).value, events[0])
  {
  }

  lemma PolicyStays(s: SessionState, e: StoredEvent)
    requires Reduce(s, e).Some?
    ensures Reduce(s, e).value.policy == s.policy
  {
    hide AttemptAccepted, FinishAccepted, DecisionAccepted, EventIsValid, OpenIndex, TerminalReady, FollowsGrammar, AdmissionAccepted;
  }
}
