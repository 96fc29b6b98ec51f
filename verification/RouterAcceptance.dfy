/** When the router accepts a configuration and a call, and what a record shows of the state it leads to. */
module RouterAcceptance {
  import opened Wrappers
  import opened RouterTypes
  import opened RouterSpec
  import opened RouterInvariants
  import opened RouterHistory
  import opened RouterTheorems
  import opened RouterAudit

  // ----- Configurations

  /** The limits and schedules each policy may have. */
  predicate ConfigFits(config: Config) {
    && 2 <= config.limit <= 24
    && (config.policy.LocalCriticRepair? ==> config.limit == 12 && config.schedule.FinalOnly?)
    && (!config.policy.LocalOnly? && !config.policy.LocalCriticRepair? ==> config.limit == 24)
    && (config.schedule.RepairWindow? ==> config.policy.LocalOnly? && config.limit >= 5)
    && (config.schedule.HostRepairWindow? ==> config.limit >= 5)
    && IsHash(config.tree) && IsText(config.command, 32768, true)
  }

  /** Nothing done and nothing pending yet. */
  predicate IsBlank(e: Episode) {
    && e.localCalls == 0 && e.failedChecks == 0 && e.duplicates == 0 && e.lastSignature.None? && e.checkSource.None?
    && !e.handoffUsed && e.pendingRequest.None? && e.pendingAllowed == [] && !e.hostCheckUsed && !e.pendingHostCheck
    && e.plannerChecks.None? && e.phase.Draft? && e.repairStart.None? && !e.criticUsed && e.criticRequestId.None?
    && e.criticSource.None? && e.criticReceipt.None?
  }

  /** A router can be made exactly of such a configuration, and starts blank: in the planner's hands if there is one. */
  lemma ConfigsAccepted(config: Config)
    ensures Start(config).Success? <==> ConfigFits(config)
    ensures Start(config).Success? ==>
              var e := Start(config).value.episode;
              && IsBlank(e) && e.source == config.tree && e.visibleCommand == config.command && e.limit == config.limit
              && e.policy == config.policy && e.schedule == config.schedule
              && e.state == (if config.policy.CloudPlanLocal? || config.policy.CloudPlanLocalReview? then Planner else Local)
  {
    hide IsText, IsHash, Router.Recorded;
    RecordingKeepsEpisode();
  }

  lemma RecordingKeepsEpisode()
    ensures forall r: Router, id, move :: r.Recorded(id, move).episode == move.next
  {
    hide Router.RecordFor;
  }

  // ----- Calls

  /** The pending request allows the action. */
  predicate MayDo(e: Episode, action: Action) {
    e.state.Local? && !e.pendingHostCheck && e.pendingRequest.Some? && action in e.pendingAllowed
  }

  predicate IsFreshNow(e: Episode) {
    e.checkSource == Some(e.source)
  }

  /** The host owes its one check: after four local calls, or earlier where fewer than eight are allowed. */
  predicate OwesHostCheck(e: Episode) {
    && e.schedule.HostRepairWindow? && !e.hostCheckUsed && e.localCalls == (if e.limit < 8 then e.limit - 4 else 4)
    && !IsFreshNow(e) && e.failedChecks == 0
  }

  predicate IsIdle(e: Episode) {
    e.state.Local? && e.pendingRequest.None? && !e.pendingHostCheck
  }

  predicate IsTime(seconds: real, positive: bool) {
    0.0 <= seconds <= MAX_SAFE_INTEGER as real / 1000.0 && (positive ==> seconds > 0.0)
  }

  predicate IsBudget(times: TimeBudget) {
    && IsTime(times.remainingSeconds, false) && IsTime(times.requestTimeoutSeconds, true)
    && IsTime(times.checkReserveSeconds, true) && 0 <= times.remainingModelCalls <= 40
  }

  /** A second phase is still owed after this request. */
  predicate OwesPhase(e: Episode) {
    e.policy.CloudPlanLocalReview? || (e.policy.LocalCriticRepair? && e.phase.Draft?)
  }

  /** The planner check that belongs to this check of the tree `before`, if one does. */
  predicate PlannerCheckFits(e: Episode, planner: Option<PlannerCheck>, before: string, ran: bool) {
    if e.plannerChecks.None? || !ran then planner.None?
    else
      && planner.Some?
      && var p := planner.value;
         && IsHash(p.artifact) && IsHash(p.source) && IsHash(p.sourceAfter) && p.artifact == e.plannerChecks.value
         && p.source == before && before == e.source
         && (p.passed ==> p.completed && !p.timedOut && p.source == p.sourceAfter)
  }

  /** What a call needs of the state and of its arguments. */
  ghost predicate Welcomes(e: Episode, call: Call) {
    match call
    case CallBeginHostCheck => IsIdle(e) && OwesHostCheck(e)
    case CallBeforeLocalRequest(budget) =>
      && IsIdle(e) && !OwesHostCheck(e)
      && (OwesPhase(e) ==>
            && budget.Some? && IsBudget(budget.value)
            && forall request: int, check: int ::
                 RoundsUp(request, budget.value.requestTimeoutSeconds) && RoundsUp(check, budget.value.checkReserveSeconds) ==>
                   2 * (request + check) <= MAX_SAFE_INTEGER)
    case CallObserveCommand(command, output, code, tree) =>
      && MayDo(e, RunCommand) && IsText(command, 32768, true) && IsText(output, 65536, false)
      && -0x8000_0000 <= code <= 0x7FFF_FFFF && IsHash(tree)
    case CallObserveVisibleCheck(command, output, code, before, after, completed, timedOut, host, planner) =>
      && (if host then e.state.Local? && e.pendingHostCheck else MayDo(e, RunVisibleChecks))
      && IsText(command, 32768, true) && IsText(output, 65536, false) && -0x8000_0000 <= code <= 0x7FFF_FFFF
      && IsHash(before) && IsHash(after) && command == e.visibleCommand
      && (host || e.plannerChecks.Some? ==> before == e.source)
      && PlannerCheckFits(e, planner, before, completed && !timedOut)
    case CallRequestHelp(message) => MayDo(e, RequestHelp) && IsText(message, 1024, true)
    case CallSubmit(tree) =>
      && MayDo(e, SubmitTask) && IsHash(tree) && tree == e.source && IsFreshNow(e)
      && (e.policy.LocalCriticRepair? && e.phase.Draft? ==> !e.criticUsed)
    case CallMarkCriticStarted(request, tree, patch, bundle, body) =>
      && e.policy.LocalCriticRepair? && e.state.Critic? && !e.criticUsed && IsText(request, 256, true)
      && IsHash(tree) && IsHash(patch) && IsHash(bundle) && IsHash(body)
      && tree == e.source && e.criticSource == Some(tree) && IsFreshNow(e)
    case CallMarkCriticComplete(request, tree, receipt, verdict, _, _) =>
      && e.policy.LocalCriticRepair? && e.state.Critic? && e.criticUsed && e.criticReceipt.None?
      && IsText(request, 256, true) && e.criticRequestId == Some(request) && IsHash(tree) && IsHash(receipt)
      && tree == e.source && e.criticSource == Some(tree) && IsFreshNow(e) && !verdict.Unrecognized?
    case CallMarkCloudPlanComplete(_, _, checks) =>
      e.state.Planner? && (checks.Some? ==> e.schedule.HostRepairWindow? && IsHash(checks.value))
    case CallConfirmHandoff(_, _, times) =>
      !e.policy.LocalCriticRepair? && e.state.Checkpoint? && !e.handoffUsed && IsBudget(times)
    case CallStop(reason) => !e.state.Stopped? && !e.state.Submitted? && IsStopReason(reason)
  }

  lemma MillisecondsFit(seconds: real)
    ensures Milliseconds(seconds, false).Success? <==> IsTime(seconds, false)
    ensures Milliseconds(seconds, true).Success? <==> IsTime(seconds, true)
    ensures Milliseconds(seconds, true).Success? ==> Milliseconds(seconds, true).value >= 1
  {
    if IsTime(seconds, false) {
      assert seconds * 1000.0 <= MAX_SAFE_INTEGER as real;
      assert (seconds * 1000.0).Floor <= MAX_SAFE_INTEGER && Ceiling(seconds * 1000.0) <= MAX_SAFE_INTEGER;
    }
  }

  lemma RoundedUpOnce(ms: int, other: int, seconds: real)
    requires RoundsUp(ms, seconds) && RoundsUp(other, seconds)
    ensures ms == other
  {
  }

  lemma ReserveAccepted(e: Episode, budget: Option<TimeBudget>)
    ensures e.ReviewReserve(budget).Success?
            <==> (OwesPhase(e) ==>
                    && budget.Some? && IsBudget(budget.value)
                    && forall request: int, check: int ::
                         RoundsUp(request, budget.value.requestTimeoutSeconds) && RoundsUp(check, budget.value.checkReserveSeconds) ==>
                           2 * (request + check) <= MAX_SAFE_INTEGER)
  {
    hide Milliseconds, IsTime, RoundsUp;
    if budget.Some? {
      var b := budget.value;
      MillisecondsFit(b.remainingSeconds);
      MillisecondsFit(b.requestTimeoutSeconds);
      MillisecondsFit(b.checkReserveSeconds);
      BudgetRounds(b);
      if IsBudget(b) {
        var request, check := Milliseconds(b.requestTimeoutSeconds, true).value, Milliseconds(b.checkReserveSeconds, true).value;
        forall x: int, y: int | RoundsUp(x, b.requestTimeoutSeconds) && RoundsUp(y, b.checkReserveSeconds)
          ensures x == request && y == check
        {
          RoundedUpOnce(x, request, b.requestTimeoutSeconds);
          RoundedUpOnce(y, check, b.checkReserveSeconds);
        }
      }
    }
  }

  lemma RequestAccepted(e: Episode, id: string, budget: Option<TimeBudget>)
    ensures e.BeforeLocalRequest(id, budget).Success? <==> Welcomes(e, CallBeforeLocalRequest(budget))
  {
    ReserveAccepted(e, budget);
    hide Episode.ReviewReserve, Episode.OpenRequest, IsBudget, OwesPhase, RoundsUp;
  }

  lemma HandoffAccepted(e: Episode, settled: bool, cancelled: bool, times: TimeBudget, latest: Option<EvidenceId>)
    ensures e.ConfirmHandoff(settled, cancelled, times, latest).Success? <==> Welcomes(e, CallConfirmHandoff(settled, cancelled, times))
  {
    MillisecondsFit(times.remainingSeconds);
    MillisecondsFit(times.requestTimeoutSeconds);
    MillisecondsFit(times.checkReserveSeconds);
    hide Milliseconds, IsTime, Episode.HandedOff;
  }

  lemma ObservationAccepted(e: Episode, call: Call, id: string, latest: Option<EvidenceId>)
    requires Observes(call)
    ensures e.Apply(call, id, latest).Success? <==> Welcomes(e, call)
  {
    hide IsText, IsHash, Episode.CheckObserved, Episode.Observed, Episode.PendingCleared, Episode.ContinueOrCheckpoint;
  }

  lemma OtherAccepted(e: Episode, call: Call, id: string, latest: Option<EvidenceId>)
    requires !Observes(call) && !call.CallBeforeLocalRequest? && !call.CallConfirmHandoff?
    ensures e.Apply(call, id, latest).Success? <==> Welcomes(e, call)
  {
    hide IsText, IsHash, IsStopReason, Episode.Halt, Episode.Checkpoint, Episode.VerdictReceived, Episode.PendingCleared;
  }

  /** A call is accepted in a state exactly if the state and its arguments are what it needs. */
  lemma CallsAccepted(e: Episode, call: Call, id: string, latest: Option<EvidenceId>)
    ensures e.Apply(call, id, latest).Success? <==> Welcomes(e, call)
  {
    hide Welcomes, Episode.BeforeLocalRequest, Episode.ConfirmHandoff, Episode.ObserveCommand, Episode.ObserveVisibleCheck,
         Episode.SubmitSource, Episode.MarkCriticStarted, Episode.MarkCriticComplete;
    if Observes(call) {
      ObservationAccepted(e, call, id, latest);
    } else if call.CallBeforeLocalRequest? {
      RequestAccepted(e, id, call.budget);
    } else if call.CallConfirmHandoff? {
      HandoffAccepted(e, call.settled, call.cancelled, call.times, latest);
    } else {
      OtherAccepted(e, call, id, latest);
    }
  }

  /**
   * In every run, a call changes the router exactly if its event id is a new short text and the state and its arguments
   * are what the call needs; any other call leaves everything as it was.
   */
  lemma EventsAccepted(config: Config, events: seq<Event>, event: Event)
    requires Start(config).Success?
    ensures var r := RunOf(config, events);
            var welcome := IsText(event.id, 256, true) && event.id !in r.eventIds && Welcomes(r.episode, event.call);
            && (welcome <==> |Step(r, event).decisions| > |r.decisions|)
            && (!welcome ==> Step(r, event) == r)
  {
    hide Start, Run, IsText, Episode.Apply, Welcomes, Router.RecordFor;
    var r := RunOf(config, events);
    CallsAccepted(r.episode, event.call, event.id, r.LatestEvidenceId());
  }

  // ----- What the last record shows

  predicate CanEscalate(policy: Policy) {
    policy.LocalFirst? || policy.CloudPlanLocal? || policy.CloudPlanLocalReview?
  }

  /** The evidence shows the schedule, the host's check, the planner's artifact and the critic's phase and receipt. */
  predicate EvidenceShows(evidence: Evidence, e: Episode) {
    && evidence.schedule == e.schedule && evidence.plannerChecks == e.plannerChecks
    && evidence.hostCheckUsed == (if e.schedule.HostRepairWindow? then Some(e.hostCheckUsed) else None)
    && (evidence.critic.Some? <==> e.policy.LocalCriticRepair?)
    && (evidence.critic.Some? ==>
          && var c := evidence.critic.value;
             && c.phase == e.phase && c.criticUsed == e.criticUsed && c.repairStart == e.repairStart && c.receipt == e.criticReceipt
             && c.phaseLocalLimit == (if e.phase.Repair? then 4 else 8)
             && c.phaseLocalCalls == (if e.repairStart.Some? then e.localCalls - e.repairStart.value else e.localCalls))
  }

  /** The calls left: of the phase under the critic policy, of the whole episode under any other. */
  function CallsLeft(e: Episode): int {
    if !e.policy.LocalCriticRepair? then e.limit - e.localCalls
    else if e.repairStart.Some? then 4 - (e.localCalls - e.repairStart.value)
    else 8 - e.localCalls
  }

  /** After every run the last record shows the live state, and the actions open in it. */
  lemma LastRecordShowsState(config: Config, events: seq<Event>)
    requires Start(config).Success?
    ensures var e, log := RunOf(config, events).episode, RunOf(config, events).decisions;
            && log != []
            && var rec := log[|log| - 1].record;
               && rec.policy == config.policy && rec.state == e.state && rec.localCalls == e.localCalls
               && rec.remainingLocalCalls == CallsLeft(e) && rec.source == e.source && rec.checkSource == e.checkSource
               && rec.failedChecks == e.failedChecks && rec.duplicates == e.duplicates && rec.handoffUsed == e.handoffUsed
               && (rec.handoffCandidate <==> e.state.Checkpoint? && CanEscalate(e.policy) && !e.handoffUsed)
               && EvidenceShows(rec.evidence, e)
               && (rec.allowedActions != [] ==> e.state.Local? && !e.pendingHostCheck)
               && (IsIdle(e) ==>
                     forall action :: action in rec.allowedActions <==>
                                        IsOpen(action, e.schedule, CallsLeft(e), IsFreshNow(e), e.failedChecks))
  {
    RunsAreChained(config, events);
    RunsKeepConfig(config, events);
    RepairHasAStart(config, events);
    hide Start, Run, Linked;
    ShowsState(RunOf(config, events));
  }

  lemma RepairHasAStart(config: Config, events: seq<Event>)
    requires Start(config).Success?
    ensures var e := RunOf(config, events).episode; e.phase.Repair? <==> e.repairStart.Some?
  {
    RunsAreSound(config, events);
    hide Start, Run, Chained, OneShot, Windowed, DuplicatesCounted, Measure;
  }

  /** The finishing allowance: commands above the reserve, a check while one fits, a submission on a fresh check, help always. */
  predicate IsOpen(action: Action, schedule: Schedule, left: int, checked: bool, failedChecks: int) {
    match action
    case RunCommand => left > 2 && !(schedule.RepairWindow? && left == 4 && !checked && failedChecks == 0)
    case RunVisibleChecks => left >= 2
    case SubmitTask => checked && left > 0
    case RequestHelp => left > 0
  }

  lemma ShowsState(r: Router)
    requires Chained(r) && (r.episode.phase.Repair? <==> r.episode.repairStart.Some?)
    ensures var e, rec := r.episode, r.decisions[|r.decisions| - 1].record;
            && rec.policy == e.policy && rec.state == e.state && rec.localCalls == e.localCalls
            && rec.remainingLocalCalls == CallsLeft(e) && rec.source == e.source && rec.checkSource == e.checkSource
            && rec.failedChecks == e.failedChecks && rec.duplicates == e.duplicates && rec.handoffUsed == e.handoffUsed
            && (rec.handoffCandidate <==> e.state.Checkpoint? && CanEscalate(e.policy) && !e.handoffUsed)
            && EvidenceShows(rec.evidence, e)
            && (rec.allowedActions != [] ==> e.state.Local? && !e.pendingHostCheck)
            && (IsIdle(e) ==>
                  forall action :: action in rec.allowedActions <==>
                                     IsOpen(action, e.schedule, CallsLeft(e), IsFreshNow(e), e.failedChecks))
  {
    hide Linked, ActionsFor;
  }

  // ----- What a stop keeps

  /**
   * A stop keeps a passing check unless a planner artifact or a critic still had to confirm it; it keeps source, counters
   * and phase, and drops whatever was pending.
   */
  lemma StopsKeepConfirmedChecks(config: Config, events: seq<Event>, event: Event)
    requires Start(config).Success? && event.call.CallStop? && RunOf(config, events).Apply(event.id, event.call).Success?
    ensures var e, next := RunOf(config, events).episode, Step(RunOf(config, events), event).episode;
            && next.state.Stopped? && next.pendingRequest.None? && !next.pendingHostCheck
            && next.source == e.source && next.localCalls == e.localCalls && next.failedChecks == e.failedChecks && next.phase == e.phase
            && next.checkSource
               == (if e.plannerChecks.Some? || config.policy.LocalCriticRepair? then None else e.checkSource)
  {
    RunsKeepConfig(config, events);
    hide Start, Run, IsText, IsStopReason, Episode.Apply, Router.RecordFor;
    StopShows(RunOf(config, events).episode, event.call, event.id, RunOf(config, events).LatestEvidenceId());
  }

  lemma StopShows(e: Episode, call: Call, id: string, latest: Option<EvidenceId>)
    requires call.CallStop? && e.Apply(call, id, latest).Success?
    ensures var next := e.Apply(call, id, latest).value.next;
            && next.state.Stopped? && next.pendingRequest.None? && !next.pendingHostCheck
            && next.source == e.source && next.localCalls == e.localCalls && next.failedChecks == e.failedChecks && next.phase == e.phase
            && next.checkSource == (if e.plannerChecks.Some? || e.policy.LocalCriticRepair? then None else e.checkSource)
  {
    hide IsStopReason;
  }
}
