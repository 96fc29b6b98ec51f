/** The session events that carry routing, egress, attempts and termination, and the reducer that folds them. */
module Sessions {
  import opened Wrappers
  import opened Pricing
  import opened Ledger

  datatype Policy = Policy(cap: nat, maxPaidAttempts: nat, simulation: bool)
  datatype Status = Created | Running | Completed | Failed | Cancelled | Interrupted
  datatype Boundary = SessionStart | EvidenceComplete | ProviderFailure
  datatype RoutingReason = CloudAdmitted | BudgetDenial | EgressDenial | OtherDenial | LowRiskLocalReview | LocalFallback | OtherLocal
  datatype Outcome = Succeeded | ProviderError | ProtocolError | AttemptCancelled | TimedOut | AttemptInterrupted

  datatype Admission = Admission(
    admissionId: string, checkpointId: string, messages: string, provenance: string, passed: bool, evaluatedAt: Time)

  datatype Decision = Decision(
    decisionId: string, boundary: Boundary, reason: RoutingReason, assignsLease: bool, egressPassed: bool,
    selectedProvider: string, proposedProvider: Option<string>, scope: Option<Scope>, admissionId: Option<string>,
    checkpointId: Option<string>, messages: Option<string>, proposalCheckpointId: Option<string>,
    proposalMessages: Option<string>, provenance: Option<string>, reservationId: Option<string>, campaignId: Option<string>,
    pricingId: Option<string>, credentialId: Option<string>, billing: Option<Billing>, denial: Option<DenialReason>,
    asOf: Option<Time>)

  datatype AttemptStart = AttemptStart(
    attemptId: string, decisionId: string, providerId: string, maxOutput: nat, scope: Option<Scope>,
    admissionId: Option<string>, reservationId: Option<string>)

  datatype Cost = Cost(amount: nat, provenance: Provenance, reservationId: Option<string>, scope: Option<Scope>)

  datatype Finish = Finish(
    attemptId: string, outcome: Outcome, disposition: Disposition, usage: Usage, cost: Cost, errorCode: Option<string>)

  datatype EventData =
    | SessionCreated(policy: Option<Policy>)
    | SessionStarted
    | EgressRecorded(admission: Admission)
    | DecisionRecorded(decision: Decision)
    | RouteAssigned
    | AssistantStarted
    | AssistantDelta
    | AssistantCompleted(attemptId: string)
    | ContextCompiled(billableTokens: nat)
    | AttemptStarted(start: AttemptStart)
    | AttemptFinished(finish: Finish)
    | ToolRequested
    | ToolCompleted
    | OtherRunningEvent
    | UserMessage
    | SessionCompleted
    | SessionFailed(error: string)
    | SessionCancelled
    | SessionInterrupted

  datatype StoredEvent = StoredEvent(id: string, sessionId: string, sequence: nat, createdAt: Time, data: EventData)

  datatype FinishRecord = FinishRecord(finish: Finish, createdAt: Time)
  datatype Attempt = Attempt(start: AttemptStart, createdAt: Time, finished: Option<FinishRecord>)

  datatype SessionState = SessionState(
    id: string, policy: Option<Policy>, status: Status, error: Option<string>, lastSequence: nat, updatedAt: Time,
    last: EventData, admissions: seq<Admission>, decisions: seq<Decision>, attempts: seq<Attempt>)

  predicate IsTerminal(status: Status) {
    status.Completed? || status.Failed? || status.Cancelled? || status.Interrupted?
  }

  predicate EndsSession(data: EventData) {
    data.SessionCompleted? || data.SessionFailed? || data.SessionCancelled? || data.SessionInterrupted?
  }

  predicate RunningOnly(data: EventData) {
    !data.SessionCreated? && !data.SessionStarted? && !data.UserMessage? && !EndsSession(data)
  }

  predicate IsDenial(reason: RoutingReason) {
    reason.BudgetDenial? || reason.EgressDenial? || reason.OtherDenial?
  }

  // ----- What the event schema accepts

  predicate FinishIsValid(f: Finish) {
    && (if f.outcome.Succeeded? then f.disposition.Sent? && f.errorCode.None? else f.errorCode.Some?)
    && (f.disposition.NotSent? ==>
          f.usage.input == 0 && f.usage.output == 0 && f.usage.reasoning == 0 && f.usage.cacheRead.GetOr(0) == 0
          && f.cost.amount == 0)
    && (f.cost.provenance.LocalZeroCost? ==> f.cost.amount == 0)
    && (f.cost.provenance.ReservedUnknown? ==> f.cost.reservationId.Some? && !f.disposition.NotSent?)
    && Safe(f.cost.amount)
  }

  predicate DecisionIsValid(d: Decision) {
    && (d.reason.CloudAdmitted? ==>
          && d.assignsLease && d.boundary.EvidenceComplete? && d.egressPassed
          && d.pricingId.Some? && d.campaignId.Some? && d.reservationId.Some? && d.credentialId.Some? && d.billing.Some?
          && d.checkpointId.Some? && d.messages.Some? && d.proposedProvider.None? && d.proposalCheckpointId.None?
          && d.proposalMessages.None?)
    && (IsDenial(d.reason) ==>
          && d.boundary.EvidenceComplete? && !d.assignsLease && d.proposedProvider.Some?
          && d.proposedProvider != Some(d.selectedProvider) && d.reservationId.None? && d.checkpointId.None? && d.messages.None?)
    && (d.reason.BudgetDenial? ==> d.billing.Some?)
    && (!d.reason.CloudAdmitted? && !IsDenial(d.reason) ==>
          && d.pricingId.None? && d.campaignId.None? && d.reservationId.None? && d.credentialId.None? && d.billing.None?
          && d.checkpointId.None? && d.messages.None? && d.proposedProvider.None? && d.proposalCheckpointId.None?
          && d.proposalMessages.None?)
    && (d.scope.Some? ==> !d.scope.value.Legacy?)
  }

  predicate EventIsValid(data: EventData) {
    match data
    case DecisionRecorded(d) => DecisionIsValid(d)
    case AttemptStarted(a) => a.scope.Some? ==> !a.scope.value.Legacy?
    case AttemptFinished(f) => FinishIsValid(f) && (f.cost.scope.Some? ==> !f.cost.scope.value.Legacy?)
    case _ => true
  }

  // ----- Lookups in a session state

  function FindDecision(decisions: seq<Decision>, id: string): (found: Option<Decision>)
    ensures found.Some? ==> found.value in decisions && found.value.decisionId == id
  {
    if decisions == [] then None
    else if decisions[0].decisionId == id then Some(decisions[0])
    else FindDecision(decisions[1..], id)
  }

  function FindAdmission(admissions: seq<Admission>, id: string): (found: Option<Admission>)
    ensures found.Some? ==> found.value in admissions && found.value.admissionId == id
  {
    if admissions == [] then None
    else if admissions[0].admissionId == id then Some(admissions[0])
    else FindAdmission(admissions[1..], id)
  }

  predicate HasAttempt(attempts: seq<Attempt>, id: string) {
    exists i :: 0 <= i < |attempts| && attempts[i].start.attemptId == id
  }

  predicate HasOpenAttempt(s: SessionState) {
    exists i :: 0 <= i < |s.attempts| && s.attempts[i].finished.None?
  }

  /** An event without a cost scope counts as legacy. */
  function Effective(scope: Option<Scope>): Scope {
    scope.GetOr(Legacy)
  }

  function PaidAttempts(attempts: seq<Attempt>): nat {
    if attempts == [] then 0
    else PaidAttempts(attempts[..|attempts| - 1]) + if attempts[|attempts| - 1].start.reservationId.Some? then 1 else 0
  }

  // ----- What the reducer accepts

  /** The event order a session with an execution policy keeps to. */
  predicate FollowsGrammar(s: SessionState, data: EventData) {
    && (HasOpenAttempt(s) ==> data.AssistantDelta? || data.AssistantCompleted? || data.AttemptFinished?)
    && (s.last.EgressRecorded? ==> data.DecisionRecorded?)
    && (s.last.DecisionRecorded? ==> if s.last.decision.assignsLease then data.RouteAssigned? else data.AssistantStarted?)
    && (s.last.RouteAssigned? ==> data.AssistantStarted?)
    && (s.last.AssistantStarted? ==> data.ContextCompiled?)
    && (s.last.ToolRequested? ==> data.ToolCompleted?)
    && (s.last.AttemptFinished? ==>
          && (s.last.finish.outcome.AttemptCancelled? ==> data.SessionCancelled?)
          && (s.last.finish.outcome.AttemptInterrupted? ==> data.SessionInterrupted?))
    && (s.last.ContextCompiled? ==> data.AttemptStarted?)
    && (s.last.AssistantCompleted? ==> data.AttemptFinished?)
  }

  predicate AdmissionAccepted(s: SessionState, a: Admission, at: Time) {
    && s.policy.Some? && s.policy.value.simulation && a.evaluatedAt == at
    && (forall i :: 0 <= i < |s.admissions| ==>
          s.admissions[i].admissionId != a.admissionId && s.admissions[i].checkpointId != a.checkpointId)
    && (forall i :: 0 <= i < |s.decisions| ==> !s.decisions[i].boundary.EvidenceComplete?)
  }

  /** A cloud proposal decision repeats its immediately preceding egress admission. */
  predicate MatchesAdmission(s: SessionState, d: Decision) {
    && s.last.EgressRecorded? && s.admissions != []
    && var a := s.admissions[|s.admissions| - 1];
       && d.admissionId == Some(a.admissionId)
       && (if d.checkpointId.Some? then d.checkpointId else d.proposalCheckpointId) == Some(a.checkpointId)
       && (if d.messages.Some? then d.messages else d.proposalMessages) == Some(a.messages)
       && d.provenance == Some(a.provenance) && d.egressPassed == a.passed && (!a.passed == d.reason.EgressDenial?)
  }

  predicate DecisionAccepted(s: SessionState, d: Decision) {
    && s.policy.Some?
    && (if s.policy.value.simulation then
          && d.scope == Some(Simulation)
          && (match d.boundary
              case SessionStart => d.admissionId.None?
              case EvidenceComplete =>
                if d.reason.LowRiskLocalReview? then d.admissionId.None? && !s.last.EgressRecorded?
                else MatchesAdmission(s, d)
              case ProviderFailure =>
                && s.attempts != [] && d.admissionId.Some?
                && d.admissionId == s.attempts[|s.attempts| - 1].start.admissionId
                && d.provenance.Some? && FindAdmission(s.admissions, d.admissionId.value).Some?
                && d.provenance == Some(FindAdmission(s.admissions, d.admissionId.value).value.provenance))
        else d.scope != Some(Simulation) && d.admissionId.None?)
    && (forall i :: 0 <= i < |s.decisions| ==>
          && s.decisions[i].decisionId != d.decisionId && s.decisions[i].boundary != d.boundary
          && (d.reservationId.Some? ==> s.decisions[i].reservationId != d.reservationId))
    && (d.reason.CloudAdmitted? ==> d.billing.Some? && d.billing.value.projected <= s.policy.value.cap)
    && !HasOpenAttempt(s)
  }

  predicate AttemptAccepted(s: SessionState, a: AttemptStart) {
    && s.policy.Some? && !HasOpenAttempt(s) && !HasAttempt(s.attempts, a.attemptId)
    && var found := FindDecision(s.decisions, a.decisionId);
       && found.Some?
       && var d := found.value;
          && d.selectedProvider == a.providerId && Effective(a.scope) == Effective(d.scope) && a.admissionId == d.admissionId
          && (s.policy.value.simulation ==> a.scope == Some(Simulation))
          && (d.reason.CloudAdmitted? && d.billing.Some? ==> d.billing.value.projection.outputTokens == a.maxOutput)
          && (a.reservationId.Some? ==> PaidAttempts(s.attempts) < s.policy.value.maxPaidAttempts)
          && d.reservationId == a.reservationId
  }

  /** The open attempt a finish belongs to, as an index. */
  function OpenIndex(attempts: seq<Attempt>): (open: Option<nat>)
    ensures open.Some? ==> open.value < |attempts| && attempts[open.value].finished.None?
    ensures open.None? ==> forall i :: 0 <= i < |attempts| ==> attempts[i].finished.Some?
  {
    if attempts == [] then None
    else if attempts[|attempts| - 1].finished.None? then Some(|attempts| - 1)
    else OpenIndex(attempts[..|attempts| - 1])
  }

  predicate FinishAccepted(s: SessionState, f: Finish) {
    && s.policy.Some?
    && var open := OpenIndex(s.attempts);
       && open.Some?
       && var a := s.attempts[open.value].start;
          && a.attemptId == f.attemptId && f.cost.reservationId == a.reservationId
          && Effective(f.cost.scope) == Effective(a.scope)
          && (s.policy.value.simulation ==> f.cost.scope == Some(Simulation))
          && (if a.reservationId.None? then f.cost.amount == 0 && f.cost.provenance.LocalZeroCost?
              else !f.cost.provenance.LocalZeroCost?)
          && (f.cost.provenance.ReservedUnknown? ==>
                var found := FindDecision(s.decisions, a.decisionId);
                && found.Some? && found.value.reason.CloudAdmitted? && found.value.billing.Some?
                && found.value.reservationId.Some? && f.cost.reservationId == found.value.reservationId
                && f.cost.amount == found.value.billing.value.projected)
  }

  /** A session with a policy ends only once every attempt has finished, and completes only after a success. */
  predicate TerminalReady(s: SessionState, data: EventData) {
    s.policy.Some? ==>
      && !HasOpenAttempt(s)
      && (data.SessionCompleted? ==>
            && s.attempts != [] && s.attempts[|s.attempts| - 1].finished.Some?
            && s.attempts[|s.attempts| - 1].finished.value.finish.outcome.Succeeded?)
  }

  function Finished(attempts: seq<Attempt>, f: Finish, at: Time): (next: seq<Attempt>)
    requires OpenIndex(attempts).Some?
  {
    var k := OpenIndex(attempts).value;
    attempts[k := attempts[k].(finished := Some(FinishRecord(f, at)))]
  }

  /** `reduceSessionEvent` of a later event; None where the reducer or the schema throws. */
  function Reduce(s: SessionState, e: StoredEvent): Option<SessionState> {
    if e.sessionId != s.id || e.sequence != s.lastSequence + 1 || !EventIsValid(e.data) then None
    else if s.policy.Some? && e.createdAt < s.updatedAt then None
    else if IsTerminal(s.status) || (RunningOnly(e.data) && !s.status.Running?) then None
    else if s.policy.Some? && !FollowsGrammar(s, e.data) then None
    else
      var next := s.(lastSequence := e.sequence, updatedAt := e.createdAt, last := e.data);
      match e.data
      case SessionCreated(_) => None
      case SessionStarted => if s.status.Created? then Some(next.(status := Running)) else None
      case EgressRecorded(a) =>
        if AdmissionAccepted(s, a, e.createdAt) then Some(next.(admissions := s.admissions + [a])) else None
      case DecisionRecorded(d) => if DecisionAccepted(s, d) then Some(next.(decisions := s.decisions + [d])) else None
      case AttemptStarted(a) =>
        if AttemptAccepted(s, a) then Some(next.(attempts := s.attempts + [Attempt(a, e.createdAt, None)])) else None
      case AttemptFinished(f) =>
        if FinishAccepted(s, f) then Some(next.(attempts := Finished(s.attempts, f, e.createdAt))) else None
      case SessionCompleted => if TerminalReady(s, e.data) then Some(next.(status := Completed)) else None
      case SessionFailed(error) =>
        if TerminalReady(s, e.data) then Some(next.(status := Failed, error := Some(error))) else None
      case SessionCancelled => if TerminalReady(s, e.data) then Some(next.(status := Cancelled)) else None
      case SessionInterrupted => if TerminalReady(s, e.data) then Some(next.(status := Interrupted)) else None
      case _ => Some(next)
  }

  function Begin(e: StoredEvent): Option<SessionState> {
    if e.sequence == 1 && e.data.SessionCreated? then
      Some(SessionState(e.sessionId, e.data.policy, Created, None, 1, e.createdAt, e.data, [], [], []))
    else None
  }

  /** `reduceSessionEvent`, from no state or from one. */
  function Reduced(state: Option<SessionState>, e: StoredEvent): Option<SessionState> {
    if state.None? then Begin(e) else Reduce(state.value, e)
  }

  /** `replaySession`: the left fold of the reducer over a session's events. */
  function Replay(events: seq<StoredEvent>): Option<SessionState>
    decreases |events|
  {
    if events == [] then None
    else if |events| == 1 then Begin(events[0])
    else
      var before := Replay(events[..|events| - 1]);
      if before.None? then None else Reduce(before.value, events[|events| - 1])
  }
}
