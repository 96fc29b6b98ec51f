/**
 * The checkpoint policy as a function of one episode's state. `CodingRouter.dfy` proves that the mutable router
 * computes exactly these functions; `RouterInvariants.dfy` and `RouterTheorems.dfy` prove what they promise.
 */
module RouterSpec {
  import opened Wrappers
  import opened RouterTypes

  /** One call of the router's public interface, apart from its event id. */
  datatype Call =
    | CallBeginHostCheck
    | CallBeforeLocalRequest(budget: Option<TimeBudget>)
    | CallObserveCommand(command: string, output: string, returncode: int, source: string)
    | CallObserveVisibleCheck(command: string, output: string, returncode: int, before: string, after: string,
                              completed: bool, timedOut: bool, host: bool, planner: Option<PlannerCheck>)
    | CallRequestHelp(message: string)
    | CallSubmit(source: string)
    | CallMarkCriticStarted(requestId: string, source: string, patch: string, bundle: string, body: string)
    | CallMarkCriticComplete(requestId: string, source: string, receipt: string,
                             verdict: CriticVerdict, settled: bool, cancelled: bool)
    | CallMarkCloudPlanComplete(settled: bool, cancelled: bool, plannerChecks: Option<string>)
    | CallConfirmHandoff(settled: bool, cancelled: bool, times: TimeBudget)
    | CallStop(reason: Reason)

  datatype Config = Config(policy: Policy, limit: int, schedule: Schedule, tree: string, command: string)

  function Min(a: int, b: int): int {
    if a <= b then a else b
  }

  /** The finishing allowance of a request made with `remaining` calls left. */
  function ActionsFor(schedule: Schedule, remaining: int, checked: bool, failedChecks: int): (actions: seq<Action>)
    ensures RunCommand in actions
            <==> remaining > FINISH_RESERVE && !(schedule.RepairWindow? && remaining == 4 && !checked && failedChecks == 0)
    ensures RunVisibleChecks in actions <==> remaining >= FINISH_RESERVE
    ensures SubmitTask in actions <==> checked && remaining > 0
    ensures RequestHelp in actions <==> remaining > 0
  {
    if remaining <= 0 then []
    else if schedule.RepairWindow? && remaining == 4 && !checked && failedChecks == 0 then [RunVisibleChecks, RequestHelp]
    else
      (if remaining > FINISH_RESERVE then [RunCommand] else [])
      + (if remaining >= FINISH_RESERVE then [RunVisibleChecks] else [])
      + (if checked then [SubmitTask] else [])
      + [RequestHelp]
  }

  /** Why a completed check did not pass. */
  function FailureReason(fact: Fact): Reason
    requires fact.CheckFact?
  {
    if fact.before != fact.after then VisibleCheckTreeChanged
    else if fact.returncode == 0 then PlannerCheckFailed
    else VisibleCheckFailed
  }

  datatype Episode = Episode(
    policy: Policy,
    limit: int,
    schedule: Schedule,
    visibleCommand: string,
    state: State,
    localCalls: int,
    failedChecks: int,
    duplicates: int,
    lastSignature: Option<Signature>,
    source: string,
    checkSource: Option<string>,
    handoffUsed: bool,
    pendingRequest: Option<string>,
    pendingAllowed: seq<Action>,
    hostCheckUsed: bool,
    pendingHostCheck: bool,
    plannerChecks: Option<string>,
    phase: Phase,
    repairStart: Option<int>,
    criticUsed: bool,
    criticRequestId: Option<string>,
    criticSource: Option<string>,
    criticReceipt: Option<string>)
  {
    // ----- Read-only properties

    function PhaseLimit(): int {
      if policy.LocalCriticRepair? then (if phase.Repair? then 4 else 8) else limit
    }

    function PhaseCalls(): int {
      localCalls - repairStart.GetOr(0)
    }

    function Remaining(): int {
      if policy.LocalCriticRepair? then PhaseLimit() - PhaseCalls() else limit - localCalls
    }

    predicate Fresh() {
      checkSource == Some(source)
    }

    /** The actions open to a model request made now, with no request pending. */
    function IdleActions(): seq<Action> {
      ActionsFor(schedule, Remaining(), Fresh(), failedChecks)
    }

    function AllowedActions(): seq<Action> {
      if !state.Local? || pendingHostCheck then []
      else if pendingRequest.Some? then pendingAllowed
      else IdleActions()
    }

    /** The number of local calls after which the single host check falls due. */
    function HostCheckBoundary(): int {
      Min(4, limit - 4)
    }

    predicate HostCheckDue() {
      schedule.HostRepairWindow? && state.Local? && pendingRequest.None? && !pendingHostCheck && !hostCheckUsed
      && localCalls == HostCheckBoundary() && !Fresh() && failedChecks == 0
    }

    /** Whether a checkpoint may still escalate to the cloud. */
    predicate HandoffCandidate() {
      state.Checkpoint? && !policy.LocalOnly? && !policy.LocalCriticRepair? && !handoffUsed
    }

    predicate CriticDraft() {
      policy.LocalCriticRepair? && phase.Draft?
    }

    // ----- State changes shared by several calls

    function PendingCleared(): Episode {
      this.(pendingRequest := None, pendingAllowed := [], pendingHostCheck := false)
    }

    function WithSource(tree: string): Episode {
      this.(source := tree, checkSource := if tree != source then None else checkSource)
    }

    function Unchecked(tree: string): Episode {
      PendingCleared().WithSource(tree).(checkSource := None)
    }

    function Checkpoint(reason: Reason, fact: Fact): Move {
      Move(PendingCleared().(state := State.Checkpoint), Checkpointed, reason, fact)
    }

    function ContinueOrCheckpoint(reason: Reason, fact: Fact): Move {
      if failedChecks >= FAILED_CHECK_LIMIT then Checkpoint(VisibleChecksFailed, fact)
      else if duplicates >= DUPLICATE_LIMIT then Checkpoint(RepeatedObservation, fact)
      else if Remaining() == 0 then Checkpoint(LocalCallLimit, fact)
      else if Remaining() < FINISH_RESERVE && !Fresh() then Checkpoint(FinishReserveExhausted, fact)
      else Move(this, Continue, if Remaining() <= FINISH_RESERVE && !Fresh() then FinishRequired else reason, fact)
    }

    /** A stop never keeps a passing check that a planner artifact or a critic still had to confirm. */
    function RetainedCheck(): Option<string> {
      if plannerChecks.Some? || policy.LocalCriticRepair? then None else checkSource
    }

    function Halt(reason: Reason, fact: Fact): Move {
      Move(PendingCleared().(checkSource := RetainedCheck(), state := Stopped), Verdict.Stop, reason, fact)
    }

    /** Whether `action` may be executed for the pending request. */
    function Authorize(action: Action): Outcome<RouterError> {
      if !state.Local? then Fail(NotLocal)
      else if pendingHostCheck then Fail(HostCheckPending)
      else if pendingRequest.None? then Fail(NoPendingRequest)
      else if action !in pendingAllowed then Fail(ActionNotAllowed)
      else Pass
    }

    // ----- Public calls

    function BeginHostCheck(): Result<Move, RouterError> {
      var guard := Need(state.Local?, NotLocal);
      :- guard;
      :- Need(pendingRequest.None?, RequestPending);
      :- Need(!pendingHostCheck, HostCheckPending);
      :- Need(HostCheckDue(), HostCheckNotDue);
      Success(Move(this.(hostCheckUsed := true, pendingHostCheck := true),
                   Continue, HostCheckStarted, HostCheckFact(TextDigest(visibleCommand))))
    }

    /** The reserve a request must leave when a second model phase is still owed; None when none is owed. */
    function ReviewReserve(budget: Option<TimeBudget>): Result<Option<Reserve>, RouterError> {
      if !policy.CloudPlanLocalReview? && !CriticDraft() then Success(None)
      else
        :- Need(budget.Some?, BadTimeBudget);
        var b := budget.value;
        var remainingMs :- Milliseconds(b.remainingSeconds, false);
        var requestMs :- Milliseconds(b.requestTimeoutSeconds, true);
        var checkMs :- Milliseconds(b.checkReserveSeconds, true);
        :- Need(0 <= b.remainingModelCalls <= 40, BadInteger);
        :- Need(2 * (requestMs + checkMs) <= MAX_SAFE_INTEGER, BadTimeBudget);
        Success(Some(Reserve(remainingMs, requestMs, checkMs, 2 * (requestMs + checkMs), b.remainingModelCalls)))
    }

    /** The request itself, once its reserve (if one is owed) has been computed. */
    function OpenRequest(requestId: string, reserve: Option<Reserve>): Move {
      if reserve.Some? && reserve.value.remainingModelCalls < 2 then
        Checkpoint(InsufficientModelCalls, ReserveFact(reserve.value))
      else if reserve.Some? && reserve.value.remainingMs <= reserve.value.requiredMs then
        Checkpoint(if CriticDraft() then CriticTimeReserve else ReviewTimeReserve, ReserveFact(reserve.value))
      else if Remaining() == 0 then Checkpoint(LocalCallLimit, NoFact)
      else if Remaining() < FINISH_RESERVE && !Fresh() then Checkpoint(FinishReserveExhausted, NoFact)
      else
        Move(this.(pendingAllowed := AllowedActions(), pendingRequest := Some(requestId), localCalls := localCalls + 1),
             Continue, LocalRequestStarted, RequestFact(requestId))
    }

    function BeforeLocalRequest(requestId: string, budget: Option<TimeBudget>): Result<Move, RouterError> {
      var guard := Need(state.Local?, NotLocal);
      :- guard;
      :- Need(!pendingHostCheck, HostCheckPending);
      :- Need(pendingRequest.None?, RequestPending);
      :- Need(!HostCheckDue(), HostCheckRequired);
      var reserve :- ReviewReserve(budget);
      Success(OpenRequest(requestId, reserve))
    }

    /** The duplicate counter and the tree after one command observation. */
    function Observed(signature: Signature): Episode {
      var changed := signature.source != source;
      this.(
        duplicates := if changed then 0
                      else if Some(signature) == lastSignature then Min(DUPLICATE_LIMIT, duplicates + 1)
                      else 1,
        lastSignature := Some(signature)).WithSource(signature.source)
    }

    function ObserveCommand(command: string, output: string, returncode: int, tree: string): Result<Move, RouterError> {
      var guard := Authorize(RunCommand);
      :- guard;
      :- Need(IsText(command, 32768, true), BadText);
      :- Need(IsText(output, 65536, false), BadText);
      :- Need(IsReturncode(returncode), BadInteger);
      :- Need(IsHash(tree), BadSourceHash);
      var signature := Signature(TextDigest(command), TextDigest(output), returncode, tree);
      Success(Observed(signature).PendingCleared()
              .ContinueOrCheckpoint(CommandObserved, CommandFact(signature, tree != source)))
    }

    /** The bound planner check of this observation, or None when no planner artifact is bound. */
    function ValidatePlannerCheck(planner: Option<PlannerCheck>, before: string): Result<Option<PlannerCheck>, RouterError> {
      if plannerChecks.None? then
        if planner.Some? then Failure(PlannerCheckUnexpected) else Success(None)
      else
        :- Need(planner.Some?, PlannerCheckRequired);
        var p := planner.value;
        :- Need(IsHash(p.artifact) && IsHash(p.source) && IsHash(p.sourceAfter), BadSourceHash);
        :- Need(p.artifact == plannerChecks.value, PlannerCheckArtifactMismatch);
        :- Need(p.source == before && before == source, PlannerCheckSourceMismatch);
        :- Need(p.passed ==> p.completed && !p.timedOut && p.source == p.sourceAfter, PlannerCheckPassInvalid);
        Success(planner)
    }

    /** A check that ran to an exit status: it passes on the tree it left unchanged, or counts one more failure. */
    function CheckCompleted(fact: Fact): Move
      requires fact.CheckFact?
    {
      var visiblePassed := fact.returncode == 0 && fact.before == fact.after;
      if visiblePassed && (fact.planner.None? || fact.planner.value.passed) then
        this.(checkSource := Some(fact.after)).ContinueOrCheckpoint(VisibleCheckPassed, fact)
      else
        this.(failedChecks := Min(FAILED_CHECK_LIMIT, failedChecks + 1)).ContinueOrCheckpoint(FailureReason(fact), fact)
    }

    /** What a check observation does once it has been validated. */
    function CheckObserved(fact: Fact): Move
      requires fact.CheckFact?
    {
      var cleared := Unchecked(fact.after);
      if fact.timedOut || !fact.completed then
        cleared.Halt(if fact.timedOut then CheckTimeout else UnknownOutcome, fact)
      else if fact.planner.Some? && (fact.planner.value.timedOut || !fact.planner.value.completed) then
        cleared.Halt(if fact.planner.value.timedOut then CheckTimeout else PlannerCheckInvalid, fact)
      else
        cleared.(lastSignature := None, duplicates := 0).CheckCompleted(fact)
    }

    function ObserveVisibleCheck(command: string, output: string, returncode: int, before: string, after: string,
                                 completed: bool, timedOut: bool, host: bool, planner: Option<PlannerCheck>)
      : Result<Move, RouterError>
    {
      var guard := if host then (if !state.Local? then Fail(NotLocal) else Need(pendingHostCheck, NoPendingHostCheck))
                   else Authorize(RunVisibleChecks);
      :- guard;
      :- Need(IsText(command, 32768, true) && IsText(output, 65536, false), BadText);
      :- Need(IsReturncode(returncode), BadInteger);
      :- Need(IsHash(before) && IsHash(after), BadSourceHash);
      :- Need(command == visibleCommand, VisibleCommandMismatch);
      :- Need(host ==> before == source, HostCheckSourceMismatch);
      :- Need(plannerChecks.Some? ==> before == source, PlannerCheckSourceMismatch);
      var bound :- if plannerChecks.Some? && (timedOut || !completed)
                   then (if planner.Some? then Failure(PlannerCheckUnexpected) else Success(None))
                   else ValidatePlannerCheck(planner, before);
      Success(CheckObserved(
        CheckFact(TextDigest(command), TextDigest(output), returncode, before, after, completed, timedOut, bound)))
    }

    function AskHelp(message: string): Result<Move, RouterError> {
      var guard := Authorize(RequestHelp);
      :- guard;
      :- Need(IsText(message, MAX_HELP_BYTES, true), BadText);
      Success(Checkpoint(ExplicitHelp, HelpFact(message)))
    }

    function SubmitSource(tree: string): Result<Move, RouterError> {
      var guard := Authorize(SubmitTask);
      :- guard;
      :- Need(IsHash(tree), BadSourceHash);
      :- Need(tree == source && checkSource == Some(tree), SubmissionRequiresFreshCheck);
      if policy.CloudPlanLocalReview? then Success(Checkpoint(ReviewRequired, SubmissionFact(tree)))
      else if CriticDraft() then
        :- Need(!criticUsed, CriticReused);
        Success(Move(PendingCleared().(state := Critic, criticSource := Some(tree)),
                     Checkpointed, CriticRequired, SubmissionFact(tree)))
      else
        Success(Move(PendingCleared().(state := Submitted), Verdict.Submit, FreshVisibleCheck, SubmissionFact(tree)))
    }

    function MarkCriticStarted(requestId: string, tree: string, patch: string, bundle: string, body: string)
      : Result<Move, RouterError>
    {
      var guard := Need(policy.LocalCriticRepair? && state.Critic? && !criticUsed, CriticNotAvailable);
      :- guard;
      :- Need(IsHash(tree), BadSourceHash);
      :- Need(IsText(requestId, 256, true), BadText);
      :- Need(IsHash(patch) && IsHash(bundle) && IsHash(body), BadSourceHash);
      :- Need(tree == source && criticSource == Some(tree) && checkSource == Some(tree), CriticSourceMismatch);
      Success(Move(this.(criticUsed := true, criticRequestId := Some(requestId)),
                   Continue, CriticRequestStarted, CriticStartFact(requestId, tree, patch, bundle, body)))
    }

    function MarkCriticComplete(requestId: string, tree: string, receipt: string,
                                verdict: CriticVerdict, settled: bool, cancelled: bool)
      : Result<Move, RouterError>
    {
      var guard := Need(policy.LocalCriticRepair? && state.Critic? && criticUsed && criticReceipt.None?, CriticNotPending);
      :- guard;
      :- Need(IsText(requestId, 256, true), BadText);
      :- Need(criticRequestId == Some(requestId), CriticRequestMismatch);
      :- Need(IsHash(tree) && IsHash(receipt), BadSourceHash);
      :- Need(tree == source && criticSource == Some(tree) && checkSource == Some(tree), CriticSourceMismatch);
      :- Need(!verdict.Unrecognized?, BadCriticVerdict);
      var fact := CriticCompleteFact(requestId, settled, cancelled, receipt, verdict, tree);
      if cancelled || !settled then Success(Halt(if cancelled then Cancelled else UnknownOutcome, fact))
      else
        Success(this.(criticReceipt := Some(receipt)).VerdictReceived(verdict, fact))
    }

    /** What a settled verdict does: it stops the episode, submits the draft or opens the repair phase. */
    function VerdictReceived(verdict: CriticVerdict, fact: Fact): Move {
      match verdict
      case InsufficientContext => Halt(CriticInsufficientContext, fact)
      case Acceptable => Move(this.(state := Submitted), Verdict.Submit, CriticAcceptable, fact)
      case _ => Move(RepairBegun(), Continue, CriticRepairRequired, fact)
    }

    function RepairBegun(): Episode {
      this.(phase := Repair, repairStart := Some(localCalls), checkSource := None, duplicates := 0,
            lastSignature := None, state := Local)
    }

    function MarkCloudPlanComplete(settled: bool, cancelled: bool, checks: Option<string>): Result<Move, RouterError> {
      var guard := Need(state.Planner?, NotPlanner);
      :- guard;
      :- Need(checks.Some? ==> schedule.HostRepairWindow?, PlannerCheckPolicy);
      :- Need(checks.Some? ==> IsHash(checks.value), BadSourceHash);
      var fact := PlanFact(settled, cancelled);
      if cancelled || !settled then Success(Halt(if cancelled then Cancelled else UnknownOutcome, fact))
      else Success(Move(this.(plannerChecks := checks, state := Local), Continue, CloudPlanCompleted, fact))
    }

    function ConfirmHandoff(settled: bool, cancelled: bool, times: TimeBudget, checkpoint: Option<EvidenceId>)
      : Result<Move, RouterError>
    {
      var guard := Need(!policy.LocalCriticRepair?, CriticCloudHandoffDenied);
      :- guard;
      :- Need(state.Checkpoint? && !handoffUsed, NoHandoffCheckpoint);
      :- Need(0 <= times.remainingModelCalls <= 40, BadInteger);
      var remainingMs :- Milliseconds(times.remainingSeconds, false);
      var requestMs :- Milliseconds(times.requestTimeoutSeconds, true);
      var checkMs :- Milliseconds(times.checkReserveSeconds, true);
      :- Need(requestMs >= 1 && checkMs >= 1, BadTimeBudget);
      var fact :=
        HandoffFact(settled, cancelled, times.remainingModelCalls, remainingMs, requestMs, checkMs, checkpoint);
      Success(HandedOff(fact))
    }

    /** What a hand-off does once it has been validated. */
    function HandedOff(fact: Fact): Move
      requires fact.HandoffFact?
    {
      if fact.cancelled then Halt(Cancelled, fact)
      else if !fact.settled then Halt(UnknownOutcome, fact)
      else if policy.LocalOnly? then Halt(LocalOnlyCheckpoint, fact)
      else if fact.remainingModelCalls < 1 then Halt(InsufficientModelCalls, fact)
      else if fact.remainingMs < fact.requestMs + fact.checkMs then Halt(InsufficientHandoffTime, fact)
      else Move(this.(handoffUsed := true, state := Cloud), Escalate, HandoffConfirmed, fact)
    }

    function StopWith(reason: Reason): Result<Move, RouterError> {
      var guard := Need(!state.Stopped? && !state.Submitted?, Terminal);
      :- guard;
      :- Need(IsStopReason(reason), BadStopReason);
      Success(Halt(reason, NoFact))
    }

    /** The move a call makes; `eventId` names the request and `latest` the decision it follows. */
    function Apply(call: Call, eventId: string, latest: Option<EvidenceId>): Result<Move, RouterError> {
      match call
      case CallBeginHostCheck => BeginHostCheck()
      case CallBeforeLocalRequest(budget) => BeforeLocalRequest(eventId, budget)
      case CallObserveCommand(command, output, code, tree) => ObserveCommand(command, output, code, tree)
      case CallObserveVisibleCheck(command, output, code, before, after, completed, timedOut, host, planner) =>
        ObserveVisibleCheck(command, output, code, before, after, completed, timedOut, host, planner)
      case CallRequestHelp(message) => AskHelp(message)
      case CallSubmit(tree) => SubmitSource(tree)
      case CallMarkCriticStarted(request, tree, patch, bundle, body) => MarkCriticStarted(request, tree, patch, bundle, body)
      case CallMarkCriticComplete(request, tree, receipt, verdict, settled, cancelled) =>
        MarkCriticComplete(request, tree, receipt, verdict, settled, cancelled)
      case CallMarkCloudPlanComplete(settled, cancelled, checks) => MarkCloudPlanComplete(settled, cancelled, checks)
      case CallConfirmHandoff(settled, cancelled, times) => ConfirmHandoff(settled, cancelled, times, latest)
      case CallStop(reason) => StopWith(reason)
    }

    function EvidenceFor(fact: Fact): Evidence {
      Evidence(
        fact, schedule,
        if schedule.HostRepairWindow? then Some(hostCheckUsed) else None,
        plannerChecks,
        if policy.LocalCriticRepair?
        then Some(CriticEvidence(phase, PhaseCalls(), PhaseLimit(), criticUsed, repairStart, criticReceipt))
        else None)
    }
  }

  /** An episode's next state and the decision that leads to it. */
  datatype Move = Move(next: Episode, verdict: Verdict, reason: Reason, fact: Fact)

  /** An event id is a short text that names no earlier decision of the episode. */
  function EventOutcome(used: set<string>, eventId: string): Outcome<RouterError> {
    if !IsText(eventId, 256, true) then Fail(BadText)
    else if eventId in used then Fail(EventReused)
    else Pass
  }

  /** An episode with its used event ids and its decision log. */
  datatype Router = Router(episode: Episode, eventIds: set<string>, decisions: seq<Decision>) {

    function LatestEvidenceId(): Option<EvidenceId> {
      if decisions == [] then None else Some(decisions[|decisions| - 1].evidenceId)
    }

    function CheckEvent(eventId: string): Outcome<RouterError> {
      EventOutcome(eventIds, eventId)
    }

    /** The wire record of a move: the state it leads to, linked to the decision before it. */
    function RecordFor(eventId: string, move: Move): Record {
      var e := move.next;
      Record(
        |decisions| + 1, eventId, LatestEvidenceId(), move.verdict, move.reason, e.policy, e.state, e.localCalls,
        e.Remaining(), e.source, e.checkSource, e.failedChecks, e.duplicates, e.handoffUsed,
        e.HandoffCandidate(),
        e.AllowedActions(), e.EvidenceFor(move.fact))
    }

    function Recorded(eventId: string, move: Move): Router {
      var record := RecordFor(eventId, move);
      Router(move.next, eventIds + {eventId}, decisions + [Decision(record, EvidenceId(record))])
    }

    /** Every call first checks its event id, then raises its own error or records its move. */
    function Decide(eventId: string, outcome: Result<Move, RouterError>): Result<Router, RouterError> {
      var guard := CheckEvent(eventId);
      :- guard;
      var move :- outcome;
      Success(Recorded(eventId, move))
    }

    function Apply(eventId: string, call: Call): Result<Router, RouterError> {
      Decide(eventId, episode.Apply(call, eventId, LatestEvidenceId()))
    }
  }

  function Start(config: Config): Result<Router, RouterError> {
    var guard := Need(FINISH_RESERVE <= config.limit <= LOCAL_CALL_LIMIT, BadInteger);
    :- guard;
    :- Need(config.policy.LocalCriticRepair? ==> config.limit == 12 && config.schedule.FinalOnly?, BadCriticProfile);
    :- Need(config.limit != LOCAL_CALL_LIMIT ==> config.policy.LocalOnly? || config.policy.LocalCriticRepair?,
            BadLocalCallLimitPolicy);
    :- Need(config.schedule.RepairWindow? ==> config.policy.LocalOnly? && config.limit >= 5,
            BadCheckScheduleBudgetOrPolicy);
    :- Need(config.schedule.HostRepairWindow? ==> config.limit >= 5, BadCheckScheduleBudgetOrPolicy);
    :- Need(IsHash(config.tree), BadSourceHash);
    :- Need(IsText(config.command, 32768, true), BadText);
    var planned := config.policy.CloudPlanLocal? || config.policy.CloudPlanLocalReview?;
    var blank := Episode(
      config.policy, config.limit, config.schedule, config.command, if planned then Planner else Local,
      0, 0, 0, None, config.tree, None, false, None, [], false, false, None, Draft, None, false, None, None, None);
    Success(Router(blank, {}, []).Recorded(
      "initial", Move(blank, Continue, if planned then CloudPlanRequired else Initialized,
                      InitialFact(TextDigest(config.command), config.limit))))
  }

  /** A call with the event id it was made under. */
  datatype Event = Event(id: string, call: Call)

  /** One call: a rejected call raises RouterError and changes nothing. */
  function Step(r: Router, event: Event): Router {
    var result := r.Apply(event.id, event.call);
    if result.Success? then result.value else r
  }

  /** A whole run, rejected calls included. */
  function Run(r: Router, events: seq<Event>): Router {
    if events == [] then r
    else Step(Run(r, events[..|events| - 1]), events[|events| - 1])
  }
}
