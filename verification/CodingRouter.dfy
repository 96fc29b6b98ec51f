/**
 * The mutable checkpoint router of one coding episode. Every public method validates before it mutates; it is proved to
 * compute exactly the call of `RouterSpec`, so that the theorems about runs hold of the object.
 */
module CodingRouterObject {
  import opened Wrappers
  import opened RouterTypes
  import opened RouterSpec
  import opened RouterTheorems
  import opened RouterSafety

  /** A call that leads `before` to `expected`, or raises its error and leaves the object alone. */
  ghost predicate Computes(
      before: Router, after: Router, expected: Result<Router, RouterError>, result: Result<Decision, RouterError>)
  {
    match expected
    case Success(next) =>
      after == next && next.decisions != [] && result == Success(next.decisions[|next.decisions| - 1])
    case Failure(error) => after == before && result == Failure(error)
  }

  /** The log with `move` recorded under `eventId`. */
  ghost function Appended(before: Router, eventId: string, move: Move): Router {
    Router(move.next, before.eventIds, before.decisions).Recorded(eventId, move)
  }

  /** Recording `move` under an event id that was checked, or raising the error of that check. */
  ghost predicate Records(before: Router, after: Router, eventId: string, move: Move, result: Result<Decision, RouterError>) {
    EventOutcome(before.eventIds, eventId).Pass? ==> Computes(before, after, Success(Appended(before, eventId, move)), result)
  }

  class CodingRouter {
    const policy: Policy
    const localCallLimit: int
    const checkSchedule: Schedule
    const visibleCommand: string
    var state: State
    var localCalls: int
    var failedChecks: int
    var duplicates: int
    var lastSignature: Option<Signature>
    var source: string
    var checkSource: Option<string>
    var handoffUsed: bool
    var pendingRequest: Option<string>
    var pendingAllowed: seq<Action>
    var hostCheckUsed: bool
    var pendingHostCheck: bool
    var plannerChecks: Option<string>
    var localPhase: Phase
    var repairStartLocalCalls: Option<int>
    var criticUsed: bool
    var criticRequestId: Option<string>
    var criticSource: Option<string>
    var criticReceipt: Option<string>
    var eventIds: set<string>
    var decisions: seq<Decision>

    ghost function Current(): Episode
      reads this
    {
      Episode(policy, localCallLimit, checkSchedule, visibleCommand, state, localCalls, failedChecks, duplicates, lastSignature,
              source, checkSource, handoffUsed, pendingRequest, pendingAllowed, hostCheckUsed, pendingHostCheck, plannerChecks,
              localPhase, repairStartLocalCalls, criticUsed, criticRequestId, criticSource, criticReceipt)
    }

    ghost function Snapshot(): Router
      reads this
    {
      Router(Current(), eventIds, decisions)
    }

    /** A router for a configuration that passed the constructor's checks, with its initial decision recorded. */
    constructor (config: Config)
      requires Start(config).Success?
      ensures Snapshot() == Start(config).value
    {
      policy := config.policy;
      localCallLimit := config.limit;
      checkSchedule := config.schedule;
      source := config.tree;
      visibleCommand := config.command;
      state := if config.policy.CloudPlanLocal? || config.policy.CloudPlanLocalReview? then Planner else Local;
      localCalls := 0;
      failedChecks := 0;
      duplicates := 0;
      lastSignature := None;
      checkSource := None;
      handoffUsed := false;
      pendingRequest := None;
      pendingAllowed := [];
      hostCheckUsed := false;
      pendingHostCheck := false;
      plannerChecks := None;
      localPhase := Draft;
      repairStartLocalCalls := None;
      criticUsed := false;
      criticRequestId := None;
      criticSource := None;
      criticReceipt := None;
      eventIds := {};
      decisions := [];
      new;
      hide IsText, IsHash;
      InitialEventIsText();
      var _ := Record("initial", Continue, if state.Planner? then CloudPlanRequired else Initialized,
                      InitialFact(TextDigest(visibleCommand), localCallLimit));
    }

    /** `__init__`: the configuration is refused with the error of the first check that fails, and no object is made. */
    static method Create(config: Config) returns (result: Result<CodingRouter, RouterError>)
      ensures Start(config).Failure? ==> result == Failure(Start(config).error)
      ensures Start(config).Success? ==> result.Success? && fresh(result.value) && result.value.Snapshot() == Start(config).value
    {
      if config.limit < FINISH_RESERVE || config.limit > LOCAL_CALL_LIMIT {
        return Failure(BadInteger);
      }
      if config.policy.LocalCriticRepair? && (config.limit != 12 || !config.schedule.FinalOnly?) {
        return Failure(BadCriticProfile);
      }
      if config.limit != LOCAL_CALL_LIMIT && !config.policy.LocalOnly? && !config.policy.LocalCriticRepair? {
        return Failure(BadLocalCallLimitPolicy);
      }
      if config.schedule.RepairWindow? && (!config.policy.LocalOnly? || config.limit < 5) {
        return Failure(BadCheckScheduleBudgetOrPolicy);
      }
      if config.schedule.HostRepairWindow? && config.limit < 5 {
        return Failure(BadCheckScheduleBudgetOrPolicy);
      }
      if !IsHash(config.tree) {
        return Failure(BadSourceHash);
      }
      if !IsText(config.command, 32768, true) {
        return Failure(BadText);
      }
      var router := new CodingRouter(config);
      result := Success(router);
    }

    // ----- Read-only properties

    function PhaseLocalLimit(): (limit: int)
      ensures limit == Current().PhaseLimit()
      reads this
    {
      if policy.LocalCriticRepair? then (if localPhase.Repair? then 4 else 8) else localCallLimit
    }

    function PhaseLocalCalls(): (calls: int)
      ensures calls == Current().PhaseCalls()
      reads this
    {
      localCalls - repairStartLocalCalls.GetOr(0)
    }

    function RemainingLocalCalls(): (remaining: int)
      ensures remaining == Current().Remaining()
      reads this
    {
      if policy.LocalCriticRepair? then PhaseLocalLimit() - PhaseLocalCalls() else localCallLimit - localCalls
    }

    predicate CheckIsFresh()
      ensures CheckIsFresh() == Current().Fresh()
      reads this
    {
      checkSource == Some(source)
    }

    function RetainedCheck(): (retained: Option<string>)
      ensures retained == Current().RetainedCheck()
      reads this
    {
      if plannerChecks.Some? || policy.LocalCriticRepair? then None else checkSource
    }

    method AllowedActions() returns (actions: seq<Action>)
      ensures actions == Current().AllowedActions()
    {
      if !state.Local? || pendingHostCheck {
        return [];
      }
      if pendingRequest.Some? {
        return pendingAllowed;
      }
      var remaining := RemainingLocalCalls();
      if remaining <= 0 {
        return [];
      }
      if checkSchedule.RepairWindow? && remaining == 4 && !CheckIsFresh() && failedChecks == 0 {
        return [RunVisibleChecks, RequestHelp];
      }
      actions := [];
      if remaining > FINISH_RESERVE {
        actions := actions + [RunCommand];
      }
      if remaining >= FINISH_RESERVE {
        actions := actions + [RunVisibleChecks];
      }
      if CheckIsFresh() {
        actions := actions + [SubmitTask];
      }
      actions := actions + [RequestHelp];
    }

    method ShouldRunHostCheck() returns (due: bool)
      ensures due == Current().HostCheckDue()
    {
      due := checkSchedule.HostRepairWindow? && state.Local? && pendingRequest.None? && !pendingHostCheck && !hostCheckUsed
             && localCalls == Min(4, localCallLimit - 4) && !CheckIsFresh() && failedChecks == 0;
    }

    method AuthorizeAction(action: Action) returns (outcome: Outcome<RouterError>)
      ensures outcome == Current().Authorize(action)
    {
      if !state.Local? {
        return Fail(NotLocal);
      }
      if pendingHostCheck {
        return Fail(HostCheckPending);
      }
      if pendingRequest.None? {
        return Fail(NoPendingRequest);
      }
      if action !in pendingAllowed {
        return Fail(ActionNotAllowed);
      }
      outcome := Pass;
    }

    // ----- Steps shared by several calls

    method CheckEvent(eventId: string) returns (outcome: Outcome<RouterError>)
      ensures outcome == Snapshot().CheckEvent(eventId)
    {
      if !IsText(eventId, 256, true) {
        return Fail(BadText);
      }
      if eventId in eventIds {
        return Fail(EventReused);
      }
      outcome := Pass;
    }

    method EvidenceFor(fact: Fact) returns (evidence: Evidence)
      ensures evidence == Current().EvidenceFor(fact)
    {
      evidence := Evidence(fact, checkSchedule, None, plannerChecks, None);
      if checkSchedule.HostRepairWindow? {
        evidence := evidence.(hostCheckUsed := Some(hostCheckUsed));
      }
      if policy.LocalCriticRepair? {
        evidence := evidence.(critic := Some(CriticEvidence(
          localPhase, PhaseLocalCalls(), PhaseLocalLimit(), criticUsed, repairStartLocalCalls, criticReceipt)));
      }
    }

    method Record(eventId: string, verdict: Verdict, reason: Reason, fact: Fact) returns (result: Result<Decision, RouterError>)
      modifies this`eventIds, this`decisions
      ensures Records(old(Snapshot()), Snapshot(), eventId, Move(Current(), verdict, reason, fact), result)
      ensures Current() == old(Current())
    {
      hide EventOutcome, ActionsFor, Episode.AllowedActions, Episode.EvidenceFor;
      :- CheckEvent(eventId);
      var previous := if decisions == [] then None else Some(decisions[|decisions| - 1].evidenceId);
      var actions := AllowedActions();
      var evidence := EvidenceFor(fact);
      var candidate := state.Checkpoint? && !policy.LocalOnly? && !policy.LocalCriticRepair? && !handoffUsed;
      var record := RouterTypes.Record(
        |decisions| + 1, eventId, previous, verdict, reason, policy, state, localCalls, RemainingLocalCalls(), source,
        checkSource, failedChecks, duplicates, handoffUsed, candidate, actions, evidence);
      var decision := Decision(record, EvidenceId(record));
      decisions := decisions + [decision];
      eventIds := eventIds + {eventId};
      result := Success(decision);
    }

    method ClearPending()
      modifies this`pendingRequest, this`pendingAllowed, this`pendingHostCheck
      ensures pendingRequest.None? && pendingAllowed == [] && !pendingHostCheck
      ensures Current() == old(Current()).PendingCleared()
    {
      pendingRequest := None;
      pendingAllowed := [];
      pendingHostCheck := false;
    }

    method SetSource(tree: string)
      modifies this`source, this`checkSource
      ensures Current() == old(Current()).WithSource(tree)
    {
      if tree != source {
        checkSource := None;
      }
      source := tree;
    }

    method Checkpoint(eventId: string, reason: Reason, fact: Fact) returns (result: Result<Decision, RouterError>)
      modifies this
      ensures Records(old(Snapshot()), Snapshot(), eventId, old(Current()).Checkpoint(reason, fact), result)
    {
      hide Router.Recorded, EventOutcome, IsText, ActionsFor;
      ClearPending();
      state := State.Checkpoint;
      result := Record(eventId, Checkpointed, reason, fact);
    }

    method ContinueOrCheckpoint(eventId: string, reason: Reason, fact: Fact) returns (result: Result<Decision, RouterError>)
      modifies this
      ensures Records(old(Snapshot()), Snapshot(), eventId, old(Current()).ContinueOrCheckpoint(reason, fact), result)
    {
      hide Router.Recorded, EventOutcome, IsText, ActionsFor;
      if failedChecks >= FAILED_CHECK_LIMIT {
        result := Checkpoint(eventId, VisibleChecksFailed, fact);
        return;
      }
      if duplicates >= DUPLICATE_LIMIT {
        result := Checkpoint(eventId, RepeatedObservation, fact);
        return;
      }
      if RemainingLocalCalls() == 0 {
        result := Checkpoint(eventId, LocalCallLimit, fact);
        return;
      }
      if RemainingLocalCalls() < FINISH_RESERVE && !CheckIsFresh() {
        result := Checkpoint(eventId, FinishReserveExhausted, fact);
        return;
      }
      var why := reason;
      if RemainingLocalCalls() <= FINISH_RESERVE && !CheckIsFresh() {
        why := FinishRequired;
      }
      result := Record(eventId, Continue, why, fact);
    }

    method Halt(eventId: string, reason: Reason, fact: Fact) returns (result: Result<Decision, RouterError>)
      modifies this
      ensures Records(old(Snapshot()), Snapshot(), eventId, old(Current()).Halt(reason, fact), result)
    {
      hide Router.Recorded, EventOutcome, IsText, ActionsFor, Episode.RetainedCheck;
      var retained := RetainedCheck();
      ClearPending();
      checkSource := retained;
      state := Stopped;
      result := Record(eventId, Verdict.Stop, reason, fact);
    }

    /** A check has run, and left `tree`: nothing is pending and no check stands until it is found to have passed. */
    method DropCheck(tree: string)
      modifies this`pendingRequest, this`pendingAllowed, this`pendingHostCheck, this`source, this`checkSource
      ensures Current() == old(Current()).Unchecked(tree)
    {
      ClearPending();
      SetSource(tree);
      checkSource := None;
    }

    method Observation(command: string, output: string, returncode: int, tree: string) returns (fact: Fact)
      modifies this`duplicates, this`lastSignature, this`source, this`checkSource
      ensures fact == CommandFact(Signature(TextDigest(command), TextDigest(output), returncode, tree), tree != old(source))
      ensures Current() == old(Current()).Observed(fact.signature)
    {
      var changed := tree != source;
      var signature := Signature(TextDigest(command), TextDigest(output), returncode, tree);
      if !changed && Some(signature) == lastSignature {
        duplicates := Min(DUPLICATE_LIMIT, duplicates + 1);
      } else {
        duplicates := if changed then 0 else 1;
      }
      lastSignature := Some(signature);
      SetSource(tree);
      fact := CommandFact(signature, changed);
    }

    method ValidatePlannerCheck(planner: Option<PlannerCheck>, before: string)
      returns (result: Result<Option<PlannerCheck>, RouterError>)
      ensures result == Current().ValidatePlannerCheck(planner, before)
    {
      if plannerChecks.None? {
        return if planner.Some? then Failure(PlannerCheckUnexpected) else Success(None);
      }
      :- Need(planner.Some?, PlannerCheckRequired);
      var p := planner.value;
      :- Need(IsHash(p.artifact) && IsHash(p.source) && IsHash(p.sourceAfter), BadSourceHash);
      :- Need(p.artifact == plannerChecks.value, PlannerCheckArtifactMismatch);
      :- Need(p.source == before && before == source, PlannerCheckSourceMismatch);
      :- Need(p.passed ==> p.completed && !p.timedOut && p.source == p.sourceAfter, PlannerCheckPassInvalid);
      result := Success(planner);
    }

    // ----- Public calls

    method BeginHostCheck(eventId: string) returns (result: Result<Decision, RouterError>)
      modifies this
      ensures Computes(old(Snapshot()), Snapshot(), old(Snapshot()).Decide(eventId, old(Current()).BeginHostCheck()), result)
    {
      hide Router.Recorded, IsText, IsHash, ActionsFor, Milliseconds, EventOutcome, IsStopReason,
           Episode.Halt, Episode.Checkpoint, Episode.ContinueOrCheckpoint, Episode.VerdictReceived, Episode.Observed,
           Episode.OpenRequest, Episode.ReviewReserve;
      RecordingIgnoresState(Snapshot());
      :- CheckEvent(eventId);
      :- Need(state.Local?, NotLocal);
      :- Need(pendingRequest.None?, RequestPending);
      :- Need(!pendingHostCheck, HostCheckPending);
      var due := ShouldRunHostCheck();
      :- Need(due, HostCheckNotDue);
      hostCheckUsed := true;
      pendingHostCheck := true;
      result := Record(eventId, Continue, HostCheckStarted, HostCheckFact(TextDigest(visibleCommand)));
    }

    method BeforeLocalRequest(requestId: string, budget: Option<TimeBudget>) returns (result: Result<Decision, RouterError>)
      modifies this
      ensures Computes(old(Snapshot()), Snapshot(), old(Snapshot()).Decide(requestId, old(Current()).BeforeLocalRequest(requestId, budget)), result)
    {
      hide Router.Recorded, IsText, IsHash, ActionsFor, Milliseconds, EventOutcome, IsStopReason,
           Episode.Halt, Episode.Checkpoint, Episode.ContinueOrCheckpoint, Episode.VerdictReceived, Episode.Observed,
           Episode.OpenRequest, Episode.ReviewReserve;
      RecordingIgnoresState(Snapshot());
      :- CheckEvent(requestId);
      :- Need(state.Local?, NotLocal);
      :- Need(!pendingHostCheck, HostCheckPending);
      :- Need(pendingRequest.None?, RequestPending);
      var due := ShouldRunHostCheck();
      :- Need(!due, HostCheckRequired);
      var reserve :- ReviewReserve(budget);
      result := OpenRequest(requestId, reserve);
    }

    /** The reserve a request must show while a second model phase is owed. */
    method ReviewReserve(budget: Option<TimeBudget>) returns (result: Result<Option<Reserve>, RouterError>)
      ensures result == Current().ReviewReserve(budget)
    {
      hide Milliseconds;
      var criticDraft := policy.LocalCriticRepair? && localPhase.Draft?;
      if !policy.CloudPlanLocalReview? && !criticDraft {
        return Success(None);
      }
      :- Need(budget.Some?, BadTimeBudget);
      var remainingMs :- Milliseconds(budget.value.remainingSeconds, false);
      var requestMs :- Milliseconds(budget.value.requestTimeoutSeconds, true);
      var checkMs :- Milliseconds(budget.value.checkReserveSeconds, true);
      var remainingCalls := budget.value.remainingModelCalls;
      :- Need(0 <= remainingCalls <= 40, BadInteger);
      var requiredMs := 2 * (requestMs + checkMs);
      :- Need(requiredMs <= MAX_SAFE_INTEGER, BadTimeBudget);
      result := Success(Some(Reserve(remainingMs, requestMs, checkMs, requiredMs, remainingCalls)));
    }

    /** One more counted request, pending with the actions allowed to it. */
    method StartRequest(requestId: string) returns (result: Result<Decision, RouterError>)
      modifies this
      ensures Records(old(Snapshot()), Snapshot(), requestId,
                      Move(old(Current()).(pendingAllowed := old(Current()).AllowedActions(), pendingRequest := Some(requestId),
                                           localCalls := old(localCalls) + 1),
                           Continue, LocalRequestStarted, RequestFact(requestId)),
                      result)
    {
      hide Router.Recorded, EventOutcome, IsText, ActionsFor, Episode.AllowedActions;
      pendingAllowed := AllowedActions();
      pendingRequest := Some(requestId);
      localCalls := localCalls + 1;
      result := Record(requestId, Continue, LocalRequestStarted, RequestFact(requestId));
    }

    /** The second half of `before_local_request`: a checkpoint for want of reserve, or one counted pending request. */
    method OpenRequest(requestId: string, reserve: Option<Reserve>) returns (result: Result<Decision, RouterError>)
      modifies this
      ensures Records(old(Snapshot()), Snapshot(), requestId, old(Current()).OpenRequest(requestId, reserve), result)
    {
      hide Router.Recorded, EventOutcome, IsText, ActionsFor, Episode.Checkpoint, Episode.AllowedActions;
      if reserve.Some? {
        var criticDraft := policy.LocalCriticRepair? && localPhase.Draft?;
        if reserve.value.remainingModelCalls < 2 {
          result := Checkpoint(requestId, InsufficientModelCalls, ReserveFact(reserve.value));
          return;
        }
        if reserve.value.remainingMs <= reserve.value.requiredMs {
          result := Checkpoint(requestId, if criticDraft then CriticTimeReserve else ReviewTimeReserve, ReserveFact(reserve.value));
          return;
        }
      }
      if RemainingLocalCalls() == 0 {
        result := Checkpoint(requestId, LocalCallLimit, NoFact);
        return;
      }
      if RemainingLocalCalls() < FINISH_RESERVE && !CheckIsFresh() {
        result := Checkpoint(requestId, FinishReserveExhausted, NoFact);
        return;
      }
      result := StartRequest(requestId);
    }

    method ObserveCommand(eventId: string, command: string, output: string, returncode: int, tree: string)
      returns (result: Result<Decision, RouterError>)
      modifies this
      ensures Computes(old(Snapshot()), Snapshot(),
                       old(Snapshot()).Decide(eventId, old(Current()).ObserveCommand(command, output, returncode, tree)), result)
    {
      hide Router.Recorded, IsText, IsHash, ActionsFor, Milliseconds, EventOutcome, IsStopReason,
           Episode.Halt, Episode.Checkpoint, Episode.ContinueOrCheckpoint, Episode.VerdictReceived, Episode.Observed,
           Episode.OpenRequest, Episode.ReviewReserve;
      RecordingIgnoresState(Snapshot());
      :- CheckEvent(eventId);
      :- AuthorizeAction(RunCommand);
      :- Need(IsText(command, 32768, true), BadText);
      :- Need(IsText(output, 65536, false), BadText);
      :- Need(IsReturncode(returncode), BadInteger);
      :- Need(IsHash(tree), BadSourceHash);
      result := AcceptCommand(eventId, command, output, returncode, tree);
    }

    /** The second half of `observe_command`: everything after its validation. */
    method AcceptCommand(eventId: string, command: string, output: string, returncode: int, tree: string)
      returns (result: Result<Decision, RouterError>)
      modifies this
      ensures var signature := Signature(TextDigest(command), TextDigest(output), returncode, tree);
              Records(old(Snapshot()), Snapshot(), eventId,
                      old(Current()).Observed(signature).PendingCleared()
                        .ContinueOrCheckpoint(CommandObserved, CommandFact(signature, tree != old(source))),
                      result)
    {
      hide Router.Recorded, EventOutcome, IsText, ActionsFor, Episode.Observed, Episode.ContinueOrCheckpoint,
           Episode.PendingCleared, Current;
      var fact := Observation(command, output, returncode, tree);
      ClearPending();
      result := ContinueOrCheckpoint(eventId, CommandObserved, fact);
    }

    method ObserveVisibleCheck(eventId: string, command: string, output: string, returncode: int, before: string, after: string,
                               completed: bool, timedOut: bool, host: bool, plannerCheck: Option<PlannerCheck>)
      returns (result: Result<Decision, RouterError>)
      modifies this
      ensures Computes(old(Snapshot()), Snapshot(),
                       old(Snapshot()).Decide(eventId, old(Current()).ObserveVisibleCheck(command, output, returncode, before, after, completed, timedOut, host, plannerCheck)), result)
    {
      hide Router.Recorded, IsText, IsHash, ActionsFor, Milliseconds, EventOutcome, IsStopReason,
           Episode.Halt, Episode.Checkpoint, Episode.ContinueOrCheckpoint, Episode.VerdictReceived, Episode.Observed,
           Episode.OpenRequest, Episode.ReviewReserve;
      RecordingIgnoresState(Snapshot());
      :- CheckEvent(eventId);
      if host {
        :- Need(state.Local?, NotLocal);
        :- Need(pendingHostCheck, NoPendingHostCheck);
      } else {
        :- AuthorizeAction(RunVisibleChecks);
      }
      :- Need(IsText(command, 32768, true), BadText);
      :- Need(IsText(output, 65536, false), BadText);
      :- Need(IsReturncode(returncode), BadInteger);
      :- Need(IsHash(before) && IsHash(after), BadSourceHash);
      :- Need(command == visibleCommand, VisibleCommandMismatch);
      :- Need(host ==> before == source, HostCheckSourceMismatch);
      :- Need(plannerChecks.Some? ==> before == source, PlannerCheckSourceMismatch);
      var planner := None;
      if plannerChecks.Some? && (timedOut || !completed) {
        :- Need(plannerCheck.None?, PlannerCheckUnexpected);
      } else {
        planner :- ValidatePlannerCheck(plannerCheck, before);
      }
      result := AcceptCheck(eventId, CheckFact(TextDigest(command), TextDigest(output), returncode, before, after,
                                               completed, timedOut, planner));
    }

    /** The second half of `observe_visible_check`: everything after its validation. */
    method AcceptCheck(eventId: string, fact: Fact) returns (result: Result<Decision, RouterError>)
      requires fact.CheckFact?
      modifies this
      ensures Records(old(Snapshot()), Snapshot(), eventId, old(Current()).CheckObserved(fact), result)
    {
      hide Router.Recorded, EventOutcome, IsText, ActionsFor, Episode.Halt, Episode.CheckCompleted, Episode.Unchecked;
      var planner := fact.planner;
      DropCheck(fact.after);
      if fact.timedOut || !fact.completed {
        result := Halt(eventId, if fact.timedOut then CheckTimeout else UnknownOutcome, fact);
        return;
      }
      if planner.Some? && (planner.value.timedOut || !planner.value.completed) {
        result := Halt(eventId, if planner.value.timedOut then CheckTimeout else PlannerCheckInvalid, fact);
        return;
      }
      lastSignature := None;
      duplicates := 0;
      result := AcceptCompletedCheck(eventId, fact);
    }

    /** A check that ran to an exit status passes on its unchanged tree, or counts one more failure. */
    method AcceptCompletedCheck(eventId: string, fact: Fact) returns (result: Result<Decision, RouterError>)
      requires fact.CheckFact?
      modifies this
      ensures Records(old(Snapshot()), Snapshot(), eventId, old(Current()).CheckCompleted(fact), result)
    {
      hide Router.Recorded, EventOutcome, IsText, ActionsFor, Min, FailureReason, Episode.ContinueOrCheckpoint;
      var visiblePassed := fact.returncode == 0 && fact.before == fact.after;
      if visiblePassed && (fact.planner.None? || fact.planner.value.passed) {
        checkSource := Some(fact.after);
        result := ContinueOrCheckpoint(eventId, VisibleCheckPassed, fact);
      } else {
        failedChecks := Min(FAILED_CHECK_LIMIT, failedChecks + 1);
        result := ContinueOrCheckpoint(eventId, FailureReason(fact), fact);
      }
    }

    method AskForHelp(eventId: string, message: string) returns (result: Result<Decision, RouterError>)
      modifies this
      ensures Computes(old(Snapshot()), Snapshot(), old(Snapshot()).Decide(eventId, old(Current()).AskHelp(message)), result)
    {
      hide Router.Recorded, IsText, IsHash, ActionsFor, Milliseconds, EventOutcome, IsStopReason,
           Episode.Halt, Episode.Checkpoint, Episode.ContinueOrCheckpoint, Episode.VerdictReceived, Episode.Observed,
           Episode.OpenRequest, Episode.ReviewReserve;
      RecordingIgnoresState(Snapshot());
      :- CheckEvent(eventId);
      :- AuthorizeAction(RequestHelp);
      :- Need(IsText(message, MAX_HELP_BYTES, true), BadText);
      result := Checkpoint(eventId, ExplicitHelp, HelpFact(message));
    }

    method Submit(eventId: string, tree: string) returns (result: Result<Decision, RouterError>)
      modifies this
      ensures Computes(old(Snapshot()), Snapshot(), old(Snapshot()).Decide(eventId, old(Current()).SubmitSource(tree)), result)
    {
      hide Router.Recorded, IsText, IsHash, ActionsFor, Milliseconds, EventOutcome, IsStopReason,
           Episode.Halt, Episode.Checkpoint, Episode.ContinueOrCheckpoint, Episode.VerdictReceived, Episode.Observed,
           Episode.OpenRequest, Episode.ReviewReserve;
      RecordingIgnoresState(Snapshot());
      :- CheckEvent(eventId);
      :- AuthorizeAction(SubmitTask);
      :- Need(IsHash(tree), BadSourceHash);
      :- Need(tree == source && checkSource == Some(tree), SubmissionRequiresFreshCheck);
      if policy.CloudPlanLocalReview? {
        result := Checkpoint(eventId, ReviewRequired, SubmissionFact(tree));
        return;
      }
      if policy.LocalCriticRepair? && localPhase.Draft? {
        :- Need(!criticUsed, CriticReused);
        result := HandToCritic(eventId, tree);
        return;
      }
      result := AcceptSubmission(eventId, tree);
    }

    method AcceptSubmission(eventId: string, tree: string) returns (result: Result<Decision, RouterError>)
      modifies this
      ensures Records(old(Snapshot()), Snapshot(), eventId,
                      Move(old(Current()).PendingCleared().(state := Submitted), Verdict.Submit, FreshVisibleCheck,
                           SubmissionFact(tree)),
                      result)
    {
      hide Router.Recorded, EventOutcome, IsText, ActionsFor;
      ClearPending();
      state := Submitted;
      result := Record(eventId, Verdict.Submit, FreshVisibleCheck, SubmissionFact(tree));
    }

    /** A submitted draft waits for its one critique. */
    method HandToCritic(eventId: string, tree: string) returns (result: Result<Decision, RouterError>)
      modifies this
      ensures Records(old(Snapshot()), Snapshot(), eventId,
                      Move(old(Current()).PendingCleared().(state := Critic, criticSource := Some(tree)),
                           Checkpointed, CriticRequired, SubmissionFact(tree)),
                      result)
    {
      hide Router.Recorded, EventOutcome, IsText, ActionsFor;
      ClearPending();
      state := Critic;
      criticSource := Some(tree);
      result := Record(eventId, Checkpointed, CriticRequired, SubmissionFact(tree));
    }

    method MarkCriticStarted(eventId: string, requestId: string, tree: string, patch: string, bundle: string, body: string)
      returns (result: Result<Decision, RouterError>)
      modifies this
      ensures Computes(old(Snapshot()), Snapshot(),
                       old(Snapshot()).Decide(eventId, old(Current()).MarkCriticStarted(requestId, tree, patch, bundle, body)), result)
    {
      hide Router.Recorded, IsText, IsHash, ActionsFor, Milliseconds, EventOutcome, IsStopReason,
           Episode.Halt, Episode.Checkpoint, Episode.ContinueOrCheckpoint, Episode.VerdictReceived, Episode.Observed,
           Episode.OpenRequest, Episode.ReviewReserve;
      RecordingIgnoresState(Snapshot());
      :- CheckEvent(eventId);
      :- Need(policy.LocalCriticRepair? && state.Critic? && !criticUsed, CriticNotAvailable);
      :- Need(IsHash(tree), BadSourceHash);
      :- Need(IsText(requestId, 256, true), BadText);
      :- Need(IsHash(patch) && IsHash(bundle) && IsHash(body), BadSourceHash);
      :- Need(tree == source && criticSource == Some(tree) && checkSource == Some(tree), CriticSourceMismatch);
      criticUsed := true;
      criticRequestId := Some(requestId);
      result := Record(eventId, Continue, CriticRequestStarted, CriticStartFact(requestId, tree, patch, bundle, body));
    }

    method MarkCriticComplete(eventId: string, requestId: string, tree: string, receipt: string, verdict: CriticVerdict,
                              settled: bool, cancelled: bool)
      returns (result: Result<Decision, RouterError>)
      modifies this
      ensures Computes(old(Snapshot()), Snapshot(),
                       old(Snapshot()).Decide(eventId, old(Current()).MarkCriticComplete(requestId, tree, receipt, verdict, settled, cancelled)), result)
    {
      hide Router.Recorded, IsText, IsHash, ActionsFor, Milliseconds, EventOutcome, IsStopReason,
           Episode.Halt, Episode.Checkpoint, Episode.ContinueOrCheckpoint, Episode.VerdictReceived, Episode.Observed,
           Episode.OpenRequest, Episode.ReviewReserve;
      RecordingIgnoresState(Snapshot());
      :- CheckEvent(eventId);
      :- Need(policy.LocalCriticRepair? && state.Critic? && criticUsed && criticReceipt.None?, CriticNotPending);
      :- Need(IsText(requestId, 256, true), BadText);
      :- Need(criticRequestId == Some(requestId), CriticRequestMismatch);
      :- Need(IsHash(tree) && IsHash(receipt), BadSourceHash);
      :- Need(tree == source && criticSource == Some(tree) && checkSource == Some(tree), CriticSourceMismatch);
      :- Need(!verdict.Unrecognized?, BadCriticVerdict);
      var fact := CriticCompleteFact(requestId, settled, cancelled, receipt, verdict, tree);
      if cancelled || !settled {
        result := Halt(eventId, if cancelled then Cancelled else UnknownOutcome, fact);
        return;
      }
      criticReceipt := Some(receipt);
      result := ReceiveVerdict(eventId, verdict, fact);
    }

    /** The settled end of `mark_critic_complete`. */
    method ReceiveVerdict(eventId: string, verdict: CriticVerdict, fact: Fact) returns (result: Result<Decision, RouterError>)
      modifies this
      ensures Records(old(Snapshot()), Snapshot(), eventId, old(Current()).VerdictReceived(verdict, fact), result)
    {
      hide Router.Recorded, EventOutcome, IsText, ActionsFor, Episode.Halt, Episode.RepairBegun;
      if verdict.InsufficientContext? {
        result := Halt(eventId, CriticInsufficientContext, fact);
        return;
      }
      if verdict.Acceptable? {
        state := Submitted;
        result := Record(eventId, Verdict.Submit, CriticAcceptable, fact);
        return;
      }
      result := BeginRepair(eventId, fact);
    }

    method BeginRepair(eventId: string, fact: Fact) returns (result: Result<Decision, RouterError>)
      modifies this
      ensures Records(old(Snapshot()), Snapshot(), eventId,
                      Move(old(Current()).RepairBegun(), Continue, CriticRepairRequired, fact), result)
    {
      hide Router.Recorded, EventOutcome, IsText, ActionsFor;
      EnterRepair();
      result := Record(eventId, Continue, CriticRepairRequired, fact);
    }

    method EnterRepair()
      modifies this`localPhase, this`repairStartLocalCalls, this`checkSource, this`duplicates, this`lastSignature, this`state
      ensures localPhase.Repair? && repairStartLocalCalls == Some(localCalls) && checkSource.None?
      ensures duplicates == 0 && lastSignature.None? && state.Local?
    {
      localPhase := Repair;
      repairStartLocalCalls := Some(localCalls);
      checkSource := None;
      duplicates := 0;
      lastSignature := None;
      state := Local;
    }

    method MarkCloudPlanComplete(eventId: string, settled: bool, cancelled: bool, checks: Option<string>)
      returns (result: Result<Decision, RouterError>)
      modifies this
      ensures Computes(old(Snapshot()), Snapshot(),
                       old(Snapshot()).Decide(eventId, old(Current()).MarkCloudPlanComplete(settled, cancelled, checks)), result)
    {
      hide Router.Recorded, IsText, IsHash, ActionsFor, Milliseconds, EventOutcome, IsStopReason,
           Episode.Halt, Episode.Checkpoint, Episode.ContinueOrCheckpoint, Episode.VerdictReceived, Episode.Observed,
           Episode.OpenRequest, Episode.ReviewReserve;
      RecordingIgnoresState(Snapshot());
      :- CheckEvent(eventId);
      :- Need(state.Planner?, NotPlanner);
      if checks.Some? {
        :- Need(checkSchedule.HostRepairWindow?, PlannerCheckPolicy);
        :- Need(IsHash(checks.value), BadSourceHash);
      }
      var fact := PlanFact(settled, cancelled);
      if cancelled || !settled {
        result := Halt(eventId, if cancelled then Cancelled else UnknownOutcome, fact);
        return;
      }
      plannerChecks := checks;
      state := Local;
      result := Record(eventId, Continue, CloudPlanCompleted, fact);
    }

    method ConfirmHandoff(eventId: string, settled: bool, cancelled: bool, times: TimeBudget)
      returns (result: Result<Decision, RouterError>)
      modifies this
      ensures Computes(old(Snapshot()), Snapshot(),
                       old(Snapshot()).Decide(eventId, old(Current()).ConfirmHandoff(settled, cancelled, times, old(Snapshot()).LatestEvidenceId())), result)
    {
      hide Router.Recorded, IsText, IsHash, ActionsFor, Milliseconds, EventOutcome, IsStopReason,
           Episode.Halt, Episode.Checkpoint, Episode.ContinueOrCheckpoint, Episode.VerdictReceived, Episode.Observed,
           Episode.OpenRequest, Episode.ReviewReserve;
      RecordingIgnoresState(Snapshot());
      :- CheckEvent(eventId);
      :- Need(!policy.LocalCriticRepair?, CriticCloudHandoffDenied);
      :- Need(state.Checkpoint? && !handoffUsed, NoHandoffCheckpoint);
      var remainingCalls := times.remainingModelCalls;
      :- Need(0 <= remainingCalls <= 40, BadInteger);
      var remainingMs :- Milliseconds(times.remainingSeconds, false);
      var requestMs :- Milliseconds(times.requestTimeoutSeconds, true);
      var checkMs :- Milliseconds(times.checkReserveSeconds, true);
      :- Need(requestMs >= 1 && checkMs >= 1, BadTimeBudget);
      var checkpoint := if decisions == [] then None else Some(decisions[|decisions| - 1].evidenceId);
      var fact := HandoffFact(settled, cancelled, remainingCalls, remainingMs, requestMs, checkMs, checkpoint);
      if cancelled {
        result := Halt(eventId, Cancelled, fact);
        return;
      }
      if !settled {
        result := Halt(eventId, UnknownOutcome, fact);
        return;
      }
      if policy.LocalOnly? {
        result := Halt(eventId, LocalOnlyCheckpoint, fact);
        return;
      }
      if remainingCalls < 1 {
        result := Halt(eventId, InsufficientModelCalls, fact);
        return;
      }
      if remainingMs < requestMs + checkMs {
        result := Halt(eventId, InsufficientHandoffTime, fact);
        return;
      }
      handoffUsed := true;
      state := Cloud;
      result := Record(eventId, Escalate, HandoffConfirmed, fact);
    }

    method Stop(eventId: string, reason: Reason) returns (result: Result<Decision, RouterError>)
      modifies this
      ensures Computes(old(Snapshot()), Snapshot(), old(Snapshot()).Decide(eventId, old(Current()).StopWith(reason)), result)
    {
      hide Router.Recorded, IsText, IsHash, ActionsFor, Milliseconds, EventOutcome, IsStopReason,
           Episode.Halt, Episode.Checkpoint, Episode.ContinueOrCheckpoint, Episode.VerdictReceived, Episode.Observed,
           Episode.OpenRequest, Episode.ReviewReserve;
      RecordingIgnoresState(Snapshot());
      :- CheckEvent(eventId);
      :- Need(!state.Stopped? && !state.Submitted?, Terminal);
      :- Need(IsStopReason(reason), BadStopReason);
      result := Halt(eventId, reason, NoFact);
    }

    /** One call of the public interface, by name. */
    method Perform(event: Event)
      modifies this
      ensures Snapshot() == Step(old(Snapshot()), event)
    {
      hide Router.Decide, Episode.BeginHostCheck, Episode.BeforeLocalRequest, Episode.ObserveCommand,
           Episode.ObserveVisibleCheck, Episode.AskHelp, Episode.SubmitSource, Episode.MarkCriticStarted,
           Episode.MarkCriticComplete, Episode.MarkCloudPlanComplete, Episode.ConfirmHandoff, Episode.StopWith;
      var id := event.id;
      match event.call
      case CallBeginHostCheck => var _ := BeginHostCheck(id);
      case CallBeforeLocalRequest(budget) => var _ := BeforeLocalRequest(id, budget);
      case CallObserveCommand(command, output, code, tree) => var _ := ObserveCommand(id, command, output, code, tree);
      case CallObserveVisibleCheck(command, output, code, before, after, completed, timedOut, host, planner) =>
        var _ := ObserveVisibleCheck(id, command, output, code, before, after, completed, timedOut, host, planner);
      case CallRequestHelp(message) => var _ := AskForHelp(id, message);
      case CallSubmit(tree) => var _ := Submit(id, tree);
      case CallMarkCriticStarted(request, tree, patch, bundle, body) =>
        var _ := MarkCriticStarted(id, request, tree, patch, bundle, body);
      case CallMarkCriticComplete(request, tree, receipt, verdict, settled, cancelled) =>
        var _ := MarkCriticComplete(id, request, tree, receipt, verdict, settled, cancelled);
      case CallMarkCloudPlanComplete(settled, cancelled, checks) =>
        var _ := MarkCloudPlanComplete(id, settled, cancelled, checks);
      case CallConfirmHandoff(settled, cancelled, times) => var _ := ConfirmHandoff(id, settled, cancelled, times);
      case CallStop(reason) => var _ := Stop(id, reason);
    }
  }

  /**
   * A host's whole conversation with one router, rejected calls included: the object ends in the state of the run, so
   * that a submission it reaches carries a check that stands, and its log stays within its bound.
   */
  method Converse(config: Config, events: seq<Event>) returns (result: Result<CodingRouter, RouterError>)
    ensures Start(config).Failure? ==> result == Failure(Start(config).error)
    ensures Start(config).Success? ==>
              && result.Success? && fresh(result.value)
              && result.value.Snapshot() == RunOf(config, events)
              && |result.value.decisions| <= 2 * config.limit + 7
              && (result.value.state.Submitted? ==> exists i: nat :: i < |events| && CheckStands(config, events, i))
  {
    hide Start, Step, Run, CheckStands;
    var router :- CodingRouter.Create(config);
    assert events[..0] == [];
    RunOfNone(Start(config).value);
    for k := 0 to |events|
      invariant router.Snapshot() == RunOf(config, events[..k])
      invariant fresh(router)
    {
      router.Perform(events[k]);
      RunOfNext(Start(config).value, events, k);
    }
    assert events[..|events|] == events;
    RunsAreFinite(config, events);
    if router.state.Submitted? {
      SubmissionsAreChecked(config, events);
    }
    result := Success(router);
  }

  lemma RunOfNone(r: Router)
    ensures Run(r, []) == r
  {
  }

  lemma RunOfNext(r: Router, events: seq<Event>, k: nat)
    requires k < |events|
    ensures Run(r, events[..k + 1]) == Step(Run(r, events[..k]), events[k])
  {
    hide Step;
    assert events[..k + 1][..k] == events[..k];
  }

  /** What a decision records depends on the state after it and the log before it, not on the state before it. */
  lemma RecordingIgnoresState(r: Router)
    ensures forall eventId, move :: r.Recorded(eventId, move) == Appended(r, eventId, move)
  {
  }

  lemma InitialEventIsText()
    ensures IsText("initial", 256, true)
  {
    assert Utf8Size("initial") <= 28 by {
      ShortText("initial");
    }
    assert !IsSpace("initial"[0]);
  }

  /** A text of `n` characters takes at most `4 * n` bytes. */
  lemma {:induction false} ShortText(text: string)
    ensures Utf8Size(text) <= 4 * |text|
  {
    if text != "" {
      ShortText(text[1..]);
    }
  }
}
