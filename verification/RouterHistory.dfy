/** What the decision log of a run shows: its hash chain, its length, its one-shot phases, its checks and its duplicates. */
module RouterHistory {
  import opened Wrappers
  import opened RouterTypes
  import opened RouterSpec
  import opened RouterInvariants

  // ----- The evidence chain

  ghost predicate Linked(log: seq<Decision>) {
    && (forall i :: 0 <= i < |log| ==> log[i].record.sequence == i + 1 && log[i].evidenceId == EvidenceId(log[i].record))
    && (log != [] ==> log[0].record.previous == None)
    && (forall i, j :: 0 <= i < |log| - 1 && j == i + 1 ==> log[j].record.previous == Some(log[i].evidenceId))
    && (forall i, j :: 0 <= i < j < |log| ==> log[i].record.eventId != log[j].record.eventId)
  }

  /** A decision record agrees with a state, field by field. */
  ghost predicate Describes(record: Record, e: Episode) {
    && record.policy == e.policy && record.state == e.state && record.localCalls == e.localCalls
    && record.remainingLocalCalls == e.Remaining() && record.source == e.source && record.checkSource == e.checkSource
    && record.failedChecks == e.failedChecks && record.duplicates == e.duplicates && record.handoffUsed == e.handoffUsed
    && record.handoffCandidate == e.HandoffCandidate()
    && record.allowedActions == e.AllowedActions() && record.evidence == e.EvidenceFor(record.evidence.fact)
  }

  ghost predicate Chained(r: Router) {
    && r.decisions != [] && Linked(r.decisions)
    && r.eventIds == (set d | d in r.decisions :: d.record.eventId)
    && Describes(r.decisions[|r.decisions| - 1].record, r.episode)
  }

  lemma RecordedKeepsChain(r: Router, id: string, move: Move)
    requires r.decisions != [] ==> Linked(r.decisions)
    requires r.eventIds == (set d | d in r.decisions :: d.record.eventId)
    requires id !in r.eventIds
    ensures Chained(r.Recorded(id, move))
  {
    var next := r.Recorded(id, move);
    var last := next.decisions[|r.decisions|];
    forall i | 0 <= i < |r.decisions| ensures r.decisions[i].record.eventId != id {
      assert r.decisions[i] in r.decisions;
    }
    assert next.decisions == r.decisions + [last];
  }

  lemma LinkedPrefix(log: seq<Decision>)
    requires log != [] && Linked(log)
    ensures Linked(log[..|log| - 1])
  {
  }

  /** Two linked logs that end in the same evidence id are the same log. */
  lemma {:induction false} EqualTipsMeanEqualLogs(a: seq<Decision>, b: seq<Decision>)
    requires a != [] && b != [] && Linked(a) && Linked(b)
    requires a[|a| - 1].evidenceId == b[|b| - 1].evidenceId
    ensures a == b
  {
    var x, y := a[|a| - 1], b[|b| - 1];
    assert x == y && |a| == |b|;
    if |a| > 1 {
      assert x.record.previous == Some(a[|a| - 2].evidenceId) && y.record.previous == Some(b[|b| - 2].evidenceId);
      LinkedPrefix(a);
      LinkedPrefix(b);
      EqualTipsMeanEqualLogs(a[..|a| - 1], b[..|b| - 1]);
    }
    assert a == a[..|a| - 1] + [x] && b == b[..|b| - 1] + [y];
  }

  // ----- How many decisions are still to come

  function HostWork(e: Episode): nat {
    if !e.schedule.HostRepairWindow? then 0 else if !e.hostCheckUsed then 2 else if e.pendingHostCheck then 1 else 0
  }

  /** A measure over phase rank, remaining calls and pending work. */
  function Measure(e: Episode): int {
    match e.state
    case Planner => 2 * e.limit + HostWork(e) + 4
    case Local =>
      2 * e.Remaining() + (if e.pendingRequest.Some? then 1 else 0) + (if e.CriticDraft() then 13 else HostWork(e) + 3)
    case Critic => if e.criticUsed then 12 else 13
    case Checkpoint => 2
    case Cloud => 1
    case Submitted => 0
    case Stopped => 0
  }

  /** The calls that observe an executed action, and those that open or close a request without one. */
  predicate Observes(call: Call) {
    call.CallObserveCommand? || call.CallObserveVisibleCheck?
  }

  predicate Requests(call: Call) {
    call.CallBeforeLocalRequest? || call.CallBeginHostCheck? || call.CallSubmit? || call.CallRequestHelp?
  }

  /** The reasons of the phases a run enters at most once. */
  predicate IsOneShot(reason: Reason) {
    reason.HostCheckStarted? || reason.CriticRequestStarted? || reason.CriticRepairRequired? || reason.HandoffConfirmed?
  }

  /** Only the state and the pending work differ. */
  predicate SameProgress(e: Episode, next: Episode) {
    next == e.(state := next.state, pendingRequest := next.pendingRequest, pendingAllowed := next.pendingAllowed,
               pendingHostCheck := next.pendingHostCheck)
  }

  /** An episode continues as it is, or checkpoints for one of the limits. */
  lemma ContinueForms(e: Episode, reason: Reason, fact: Fact)
    ensures var move := e.ContinueOrCheckpoint(reason, fact);
            || (exists limit :: move == e.Checkpoint(limit, fact) && !IsOneShot(limit))
            || (move == Move(e, Continue, move.reason, fact) && (move.reason == reason || !IsOneShot(move.reason)))
  {
    hide Episode.Remaining, Episode.Fresh, Episode.Checkpoint;
  }

  lemma CheckpointShape(e: Episode, reason: Reason, fact: Fact)
    requires e.state.Local?
    ensures var move := e.Checkpoint(reason, fact);
            && SameProgress(e, move.next) && move.next.pendingRequest.None? && !move.next.pendingHostCheck
            && move.fact == fact && move.verdict.Checkpointed? && move.reason == reason && move.next.state.Checkpoint?
  {
  }

  /** Continuing or checkpointing after an observation changes no counter, and never takes a one-shot step. */
  lemma ContinueShape(e: Episode, reason: Reason, fact: Fact)
    requires e.state.Local? && e.pendingRequest.None? && !e.pendingHostCheck
    ensures var move := e.ContinueOrCheckpoint(reason, fact);
            && SameProgress(e, move.next) && move.next.pendingRequest.None? && !move.next.pendingHostCheck && move.fact == fact && !move.verdict.Stop?
            && (IsOneShot(move.reason) ==> move.reason == reason)
            && (move.verdict.Continue? ==> move.next == e)
            && (move.next.state.Local? || move.next.state.Checkpoint?)
  {
    hide Episode.Checkpoint, Episode.ContinueOrCheckpoint;
    ContinueForms(e, reason, fact);
    var move := e.ContinueOrCheckpoint(reason, fact);
    if limit :| move == e.Checkpoint(limit, fact) && !IsOneShot(limit) {
      CheckpointShape(e, limit, fact);
    }
  }

  /** A completed check passes or counts one more failure. */
  lemma CompletedShape(e: Episode, fact: Fact)
    requires fact.CheckFact? && e.state.Local? && e.checkSource.None? && e.pendingRequest.None? && !e.pendingHostCheck
    ensures var move := e.CheckCompleted(fact);
            && move.next.pendingRequest.None? && !move.next.pendingHostCheck
            && SameProgress(e.(checkSource := move.next.checkSource, failedChecks := move.next.failedChecks), move.next)
            && !IsOneShot(move.reason) && move.fact == fact && !move.verdict.Stop?
            && (move.next.state.Local? || move.next.state.Checkpoint?)
            && (move.next.checkSource.Some? ==>
                  fact.returncode == 0 && fact.before == fact.after && (fact.planner.None? || fact.planner.value.passed)
                  && move.next.checkSource == Some(fact.after))
  {
    hide Episode.ContinueOrCheckpoint;
    var visiblePassed := fact.returncode == 0 && fact.before == fact.after;
    if visiblePassed && (fact.planner.None? || fact.planner.value.passed) {
      ContinueShape(e.(checkSource := Some(fact.after)), VisibleCheckPassed, fact);
    } else {
      ContinueShape(e.(failedChecks := Min(FAILED_CHECK_LIMIT, e.failedChecks + 1)), FailureReason(fact), fact);
    }
  }

  /** A check observation halts, passes, or counts one more failure; the tree afterwards is the one it reports. */
  lemma CheckShape(e: Episode, fact: Fact)
    requires fact.CheckFact? && e.state.Local?
    ensures var move := e.CheckObserved(fact);
            && move.fact == fact && move.next.source == fact.after && !IsOneShot(move.reason)
            && move.next == e.(state := move.next.state, source := fact.after, checkSource := move.next.checkSource,
                               failedChecks := move.next.failedChecks, duplicates := move.next.duplicates,
                               lastSignature := move.next.lastSignature, pendingRequest := None,
                               pendingAllowed := move.next.pendingAllowed, pendingHostCheck := false)
            && (if move.verdict.Stop? then
                  move.next.state.Stopped? && move.next.duplicates == e.duplicates
                  && move.next.lastSignature == e.lastSignature && move.next.failedChecks == e.failedChecks
                  && move.next.checkSource.None?
                else
                  (move.next.state.Local? || move.next.state.Checkpoint?) && IsCompletedCheck(fact)
                  && move.next.duplicates == 0 && move.next.lastSignature.None?)
            && (move.next.checkSource.Some? ==> PassingCheck(fact) && move.next.checkSource == Some(fact.after))
  {
    hide Episode.CheckCompleted;
    CompletedShape(e.PendingCleared().WithSource(fact.after).(checkSource := None, lastSignature := None, duplicates := 0), fact);
  }

  /** An accepted command observation changes only the source, its freshness, the duplicates and the pending work. */
  lemma CommandApplied(e: Episode, call: Call, id: string, latest: Option<EvidenceId>)
    requires call.CallObserveCommand? && e.Apply(call, id, latest).Success?
    ensures var signature := Signature(TextDigest(call.command), TextDigest(call.output), call.returncode, call.source);
            var move := e.Apply(call, id, latest).value;
            && e.state.Local? && e.pendingRequest.Some? && RunCommand in e.pendingAllowed
            && SameProgress(e.Observed(signature), move.next)
            && move.next.pendingRequest.None? && !move.next.pendingHostCheck
            && move.fact == CommandFact(signature, call.source != e.source) && !move.verdict.Stop?
            && !IsOneShot(move.reason)
            && (move.next.state.Local? || move.next.state.Checkpoint?)
  {
    hide IsText, IsHash, ActionsFor, Episode.ContinueOrCheckpoint;
    var signature := Signature(TextDigest(call.command), TextDigest(call.output), call.returncode, call.source);
    ContinueShape(e.Observed(signature).PendingCleared(), CommandObserved, CommandFact(signature, call.source != e.source));
  }

  /** An accepted check observation is `CheckObserved` of the fact it reports. */
  lemma CheckApplied(e: Episode, call: Call, id: string, latest: Option<EvidenceId>)
    requires call.CallObserveVisibleCheck? && e.Apply(call, id, latest).Success?
    ensures var move := e.Apply(call, id, latest).value;
            && e.state.Local? && move.fact.CheckFact? && move == e.CheckObserved(move.fact)
            && call.command == e.visibleCommand && move.fact.returncode == call.returncode
            && move.fact.before == call.before && move.fact.after == call.after
            && move.fact.completed == call.completed && move.fact.timedOut == call.timedOut
            && (!call.timedOut && call.completed ==>
                  move.fact.planner == call.planner && call.planner.Some? == e.plannerChecks.Some?)
            && (e.plannerChecks.Some? && call.planner.Some? ==> call.planner.value.artifact == e.plannerChecks.value)
  {
    hide IsText, IsHash;
  }

  predicate IsCompletedCheck(fact: Fact) {
    fact.CheckFact? && fact.completed && !fact.timedOut
  }

  /** The visible check ran to exit code 0 on an unchanged tree, and the planner check bound to it (if any) passed. */
  predicate PassingCheck(fact: Fact) {
    && IsCompletedCheck(fact) && fact.returncode == 0 && fact.before == fact.after
    && (fact.planner.Some? ==> fact.planner.value.passed && fact.planner.value.completed && !fact.planner.value.timedOut)
  }

  lemma ObservationMeasure(e: Episode, call: Call, id: string, latest: Option<EvidenceId>)
    requires Observes(call) && Inv(e) && e.Apply(call, id, latest).Success?
    ensures Measure(e.Apply(call, id, latest).value.next) < Measure(e)
  {
    hide IsText, IsHash, ActionsFor, Episode.ContinueOrCheckpoint, Episode.CheckObserved;
    var move := e.Apply(call, id, latest).value;
    if call.CallObserveCommand? {
      CommandApplied(e, call, id, latest);
    } else {
      CheckApplied(e, call, id, latest);
      CheckShape(e, move.fact);
    }
  }

  lemma RequestMeasure(e: Episode, call: Call, id: string, latest: Option<EvidenceId>)
    requires Requests(call)
    requires Inv(e) && e.Apply(call, id, latest).Success?
    ensures Measure(e.Apply(call, id, latest).value.next) < Measure(e)
  {
    hide IsText, IsHash, Milliseconds, ActionsFor;
  }

  lemma PhaseMeasure(e: Episode, call: Call, id: string, latest: Option<EvidenceId>)
    requires !Observes(call) && !Requests(call)
    requires Inv(e) && e.Apply(call, id, latest).Success?
    ensures Measure(e.Apply(call, id, latest).value.next) < Measure(e)
  {
    hide IsText, IsHash, Milliseconds, ActionsFor, Inv, Measure;
    if call.CallMarkCriticStarted? || call.CallMarkCriticComplete? {
      CriticMeasure(e, call, id, latest);
    } else {
      HandoffMeasure(e, call, id, latest);
    }
  }

  lemma CriticMeasure(e: Episode, call: Call, id: string, latest: Option<EvidenceId>)
    requires call.CallMarkCriticStarted? || call.CallMarkCriticComplete?
    requires Inv(e) && e.Apply(call, id, latest).Success?
    ensures Measure(e.Apply(call, id, latest).value.next) < Measure(e)
  {
    hide IsText, IsHash, ActionsFor;
  }

  lemma HandoffMeasure(e: Episode, call: Call, id: string, latest: Option<EvidenceId>)
    requires call.CallMarkCloudPlanComplete? || call.CallConfirmHandoff? || call.CallStop?
    requires Inv(e) && e.Apply(call, id, latest).Success?
    ensures Measure(e.Apply(call, id, latest).value.next) < Measure(e)
  {
    hide IsText, IsHash, Milliseconds, ActionsFor;
  }

  lemma MeasureDecreases(e: Episode, call: Call, id: string, latest: Option<EvidenceId>)
    requires Inv(e) && e.Apply(call, id, latest).Success?
    ensures Inv(e.Apply(call, id, latest).value.next)
    ensures 0 <= Measure(e.Apply(call, id, latest).value.next) < Measure(e)
  {
    MoveKeepsInv(e, call, id, latest);
    if Observes(call) {
      ObservationMeasure(e, call, id, latest);
    } else if Requests(call) {
      RequestMeasure(e, call, id, latest);
    } else {
      PhaseMeasure(e, call, id, latest);
    }
  }

  // ----- One-shot phases

  function CountReason(log: seq<Decision>, reason: Reason): nat {
    if log == [] then 0
    else CountReason(log[..|log| - 1], reason) + if log[|log| - 1].record.reason == reason then 1 else 0
  }

  /** The log holds the one-shot `reason` exactly when its flag is set, and then once. */
  ghost predicate Flagged(log: seq<Decision>, reason: Reason, flag: bool) {
    CountReason(log, reason) == if flag then 1 else 0
  }

  ghost predicate OneShot(r: Router) {
    && Flagged(r.decisions, HostCheckStarted, r.episode.hostCheckUsed)
    && Flagged(r.decisions, CriticRequestStarted, r.episode.criticUsed)
    && Flagged(r.decisions, CriticRepairRequired, r.episode.phase.Repair?)
    && Flagged(r.decisions, HandoffConfirmed, r.episode.handoffUsed)
  }

  lemma FlagExtends(log: seq<Decision>, last: Decision, reason: Reason, before: bool, after: bool)
    requires Flagged(log, reason, before) && (before ==> after)
    requires before != after <==> last.record.reason == reason
    ensures Flagged(log + [last], reason, after)
  {
    assert (log + [last])[..|log|] == log;
  }

  /** The configuration is fixed; a one-shot flag is set exactly by the decision that names it, and never cleared. */
  ghost predicate SetsOnce(e: Episode, move: Move) {
    && move.next.policy == e.policy && move.next.limit == e.limit && move.next.schedule == e.schedule
    && move.next.visibleCommand == e.visibleCommand
    && (!e.state.Planner? ==> move.next.plannerChecks == e.plannerChecks)
    && (move.next.hostCheckUsed != e.hostCheckUsed <==> move.reason == HostCheckStarted)
    && (move.next.criticUsed != e.criticUsed <==> move.reason == CriticRequestStarted)
    && (move.next.phase != e.phase <==> move.reason == CriticRepairRequired)
    && (move.next.handoffUsed != e.handoffUsed <==> move.reason == HandoffConfirmed)
    && (e.hostCheckUsed ==> move.next.hostCheckUsed) && (e.criticUsed ==> move.next.criticUsed)
    && (e.phase.Repair? ==> move.next.phase.Repair?) && (e.handoffUsed ==> move.next.handoffUsed)
  }

  lemma CheckSetsOnce(e: Episode, fact: Fact)
    requires fact.CheckFact? && Inv(e) && e.state.Local?
    ensures SetsOnce(e, e.CheckObserved(fact))
  {
    hide Episode.ContinueOrCheckpoint;
    CheckShape(e, fact);
  }

  /** What the critic, the plan, the hand-off and a stop leave alone. */
  ghost predicate PhaseStep(e: Episode, move: Move) {
    && SetsOnce(e, move) && !move.fact.CheckFact? && !move.fact.CommandFact?
    && move.next.limit == e.limit && move.next.schedule == e.schedule && move.next.localCalls == e.localCalls
    && move.next.failedChecks == e.failedChecks && move.next.hostCheckUsed == e.hostCheckUsed && move.next.source == e.source
    && (move.next.checkSource.Some? ==> move.next.checkSource == e.checkSource && move.next.phase == e.phase)
    && (move.next.state.Local? ==> !move.next.schedule.RepairWindow? && !move.next.hostCheckUsed)
    && (if move.reason.CriticRepairRequired? then move.next.duplicates == 0 && move.next.lastSignature.None?
        else move.next.duplicates == e.duplicates && move.next.lastSignature == e.lastSignature)
  }

  lemma CriticApplied(e: Episode, call: Call, id: string, latest: Option<EvidenceId>)
    requires call.CallMarkCriticStarted? || call.CallMarkCriticComplete?
    requires Inv(e) && e.Apply(call, id, latest).Success?
    ensures PhaseStep(e, e.Apply(call, id, latest).value)
  {
    hide IsText, IsHash, ActionsFor;
  }

  lemma HaltApplied(e: Episode, reason: Reason, fact: Fact)
    requires Inv(e) && !IsOneShot(reason) && !fact.CheckFact? && !fact.CommandFact?
    ensures PhaseStep(e, e.Halt(reason, fact))
  {
  }

  lemma ConfirmationApplied(e: Episode, settled: bool, cancelled: bool, times: TimeBudget, latest: Option<EvidenceId>)
    requires Inv(e) && e.ConfirmHandoff(settled, cancelled, times, latest).Success?
    ensures PhaseStep(e, e.ConfirmHandoff(settled, cancelled, times, latest).value)
  {
    hide Milliseconds, PhaseStep;
    var move := e.ConfirmHandoff(settled, cancelled, times, latest).value;
    if move.verdict.Stop? {
      HaltApplied(e, move.reason, move.fact);
    } else {
      EscalationApplied(e, move.fact);
    }
  }

  lemma EscalationApplied(e: Episode, fact: Fact)
    requires Inv(e) && e.state.Checkpoint? && !e.handoffUsed && fact.HandoffFact?
    ensures PhaseStep(e, Move(e.(handoffUsed := true, state := Cloud), Escalate, HandoffConfirmed, fact))
  {
  }

  lemma HandoffApplied(e: Episode, call: Call, id: string, latest: Option<EvidenceId>)
    requires call.CallMarkCloudPlanComplete? || call.CallConfirmHandoff? || call.CallStop?
    requires Inv(e) && e.Apply(call, id, latest).Success?
    ensures PhaseStep(e, e.Apply(call, id, latest).value)
  {
    hide IsText, IsHash, Episode.Halt, Episode.ConfirmHandoff;
    match call
    case CallMarkCloudPlanComplete(settled, cancelled, _) =>
      HaltApplied(e, Cancelled, PlanFact(settled, cancelled));
      HaltApplied(e, UnknownOutcome, PlanFact(settled, cancelled));
    case CallConfirmHandoff(settled, cancelled, times) => ConfirmationApplied(e, settled, cancelled, times, latest);
    case CallStop(reason) => HaltApplied(e, reason, NoFact);
  }

  lemma PhaseApplied(e: Episode, call: Call, id: string, latest: Option<EvidenceId>)
    requires !Observes(call) && !Requests(call) && Inv(e) && e.Apply(call, id, latest).Success?
    ensures PhaseStep(e, e.Apply(call, id, latest).value)
  {
    hide Episode.Apply, Inv, PhaseStep;
    if call.CallMarkCriticStarted? || call.CallMarkCriticComplete? {
      CriticApplied(e, call, id, latest);
    } else {
      HandoffApplied(e, call, id, latest);
    }
  }

  /** Opening or closing a request changes the call count and the pending work, never what has been observed. */
  ghost predicate RequestStep(e: Episode, move: Move) {
    && SetsOnce(e, move) && !move.fact.CheckFact? && !move.fact.CommandFact? && !move.reason.CriticRepairRequired?
    && move.next == e.(state := move.next.state, localCalls := move.next.localCalls, pendingRequest := move.next.pendingRequest,
                       pendingAllowed := move.next.pendingAllowed, pendingHostCheck := move.next.pendingHostCheck,
                       hostCheckUsed := move.next.hostCheckUsed, criticSource := move.next.criticSource)
  }

  /** A request opens as one counted pending call, or the episode checkpoints for one of the limits. */
  lemma OpenForms(e: Episode, id: string, reserve: Option<Reserve>)
    ensures var move := e.OpenRequest(id, reserve);
            || (exists limit, fact ::
                  move == e.Checkpoint(limit, fact) && !IsOneShot(limit) && !fact.CheckFact? && !fact.CommandFact?)
            || move == Move(e.(pendingAllowed := e.AllowedActions(), pendingRequest := Some(id), localCalls := e.localCalls + 1),
                            Continue, LocalRequestStarted, RequestFact(id))
  {
    hide ActionsFor, Episode.AllowedActions, Episode.Checkpoint, Episode.Remaining, Episode.Fresh, Episode.CriticDraft;
  }

  lemma OpenApplied(e: Episode, id: string, reserve: Option<Reserve>)
    requires e.state.Local?
    ensures RequestStep(e, e.OpenRequest(id, reserve))
  {
    hide ActionsFor, Episode.AllowedActions, Episode.Checkpoint, Episode.OpenRequest;
    OpenForms(e, id, reserve);
    var move := e.OpenRequest(id, reserve);
    if limit, fact :|
      move == e.Checkpoint(limit, fact) && !IsOneShot(limit) && !fact.CheckFact? && !fact.CommandFact?
    {
      CheckpointShape(e, limit, fact);
    }
  }

  lemma RequestApplied(e: Episode, call: Call, id: string, latest: Option<EvidenceId>)
    requires Requests(call) && Inv(e) && e.Apply(call, id, latest).Success?
    ensures RequestStep(e, e.Apply(call, id, latest).value)
  {
    hide IsText, IsHash, Milliseconds, ActionsFor, Episode.OpenRequest, Episode.ReviewReserve;
    if call.CallBeforeLocalRequest? {
      hide RequestStep;
      OpenApplied(e, id, e.ReviewReserve(call.budget).value);
    }
  }

  lemma MoveSetsOnce(e: Episode, call: Call, id: string, latest: Option<EvidenceId>)
    requires Inv(e) && e.Apply(call, id, latest).Success?
    ensures SetsOnce(e, e.Apply(call, id, latest).value)
  {
    hide Inv, Episode.Apply;
    if call.CallObserveCommand? {
      CommandApplied(e, call, id, latest);
    } else if call.CallObserveVisibleCheck? {
      CheckApplied(e, call, id, latest);
      CheckSetsOnce(e, e.Apply(call, id, latest).value.fact);
    } else if Requests(call) {
      RequestApplied(e, call, id, latest);
    } else {
      PhaseApplied(e, call, id, latest);
    }
  }

  // ----- Completed visible checks

  ghost predicate HasCompletedCheck(log: seq<Decision>) {
    exists i :: 0 <= i < |log| && IsCompletedCheck(log[i].record.evidence.fact)
  }

  /** The state shows that a visible check has completed. */
  predicate ShowsCheck(e: Episode) {
    e.failedChecks > 0 || e.checkSource.Some? || (e.state.Local? && e.hostCheckUsed && !e.pendingHostCheck)
  }

  /** The fourth call from the end under `repair_window`, restricted to a check or a help request. */
  predicate ForcedCheckPending(e: Episode) {
    e.pendingRequest.Some? && e.Remaining() == 3 && e.pendingAllowed == [RunVisibleChecks, RequestHelp]
  }

  /** The check windows, where `seen` says whether the log holds a completed visible check. */
  ghost predicate Windowed(e: Episode, seen: bool) {
    && (ShowsCheck(e) ==> seen)
    && (e.schedule.HostRepairWindow? && e.localCalls > e.HostCheckBoundary() ==> seen)
    && (e.schedule.RepairWindow? && e.state.Local? && e.Remaining() <= 3 ==> seen || ForcedCheckPending(e))
  }

  lemma ObservationWindow(e: Episode, call: Call, id: string, latest: Option<EvidenceId>, seen: bool)
    requires Observes(call) && Inv(e) && e.Apply(call, id, latest).Success? && Windowed(e, seen)
    ensures var move := e.Apply(call, id, latest).value; Windowed(move.next, seen || IsCompletedCheck(move.fact))
  {
    hide IsText, IsHash, ActionsFor, Episode.ContinueOrCheckpoint, Episode.CheckObserved;
    if call.CallObserveCommand? {
      CommandApplied(e, call, id, latest);
    } else {
      CheckApplied(e, call, id, latest);
      CheckShape(e, e.Apply(call, id, latest).value.fact);
    }
  }

  lemma RequestWindow(e: Episode, call: Call, id: string, latest: Option<EvidenceId>, seen: bool)
    requires Requests(call) && Inv(e) && e.Apply(call, id, latest).Success? && Windowed(e, seen)
    ensures Windowed(e.Apply(call, id, latest).value.next, seen)
  {
    hide IsText, IsHash, Milliseconds;
  }

  lemma PhaseWindow(e: Episode, call: Call, id: string, latest: Option<EvidenceId>, seen: bool)
    requires !Observes(call) && !Requests(call) && Inv(e) && e.Apply(call, id, latest).Success? && Windowed(e, seen)
    ensures Windowed(e.Apply(call, id, latest).value.next, seen)
  {
    hide Episode.Apply;
    PhaseApplied(e, call, id, latest);
  }

  // ----- Failed checks

  /** Every executed part of the check, the bound planner check included, ran to its end. */
  predicate IsSettledCheck(fact: Fact) {
    IsCompletedCheck(fact) && (fact.planner.Some? ==> fact.planner.value.completed && !fact.planner.value.timedOut)
  }

  /** The check ran to its end and did not pass. */
  predicate IsFailedCheck(fact: Fact) {
    IsSettledCheck(fact) && !PassingCheck(fact)
  }

  /** The failed checks of a log, over all phases. */
  function FailureCount(log: seq<Decision>): nat {
    if log == [] then 0
    else FailureCount(log[..|log| - 1]) + if IsFailedCheck(log[|log| - 1].record.evidence.fact) then 1 else 0
  }

  lemma CompletedFailures(e: Episode, fact: Fact)
    requires fact.CheckFact? && e.state.Local? && e.pendingRequest.None? && !e.pendingHostCheck
    ensures var passed := fact.returncode == 0 && fact.before == fact.after && (fact.planner.None? || fact.planner.value.passed);
            e.CheckCompleted(fact).next.failedChecks
            == if passed then e.failedChecks else Min(FAILED_CHECK_LIMIT, e.failedChecks + 1)
  {
    ContinueShape(e.(checkSource := Some(fact.after)), VisibleCheckPassed, fact);
    ContinueShape(e.(failedChecks := Min(FAILED_CHECK_LIMIT, e.failedChecks + 1)), FailureReason(fact), fact);
    hide Episode.ContinueOrCheckpoint;
  }

  /** A check observation counts a failure exactly if it is a failed check. */
  lemma CheckFailures(e: Episode, fact: Fact)
    requires fact.CheckFact? && e.state.Local? && e.failedChecks <= FAILED_CHECK_LIMIT
    ensures e.CheckObserved(fact).next.failedChecks
            == Min(FAILED_CHECK_LIMIT, e.failedChecks + if IsFailedCheck(fact) then 1 else 0)
  {
    CompletedFailures(e.PendingCleared().WithSource(fact.after).(checkSource := None, lastSignature := None, duplicates := 0), fact);
    hide Episode.CheckCompleted;
  }

  /** Nothing but a failed check changes the counter. */
  lemma MoveCountsFailures(e: Episode, call: Call, id: string, latest: Option<EvidenceId>)
    requires Inv(e) && e.failedChecks <= FAILED_CHECK_LIMIT && e.Apply(call, id, latest).Success?
    ensures var move := e.Apply(call, id, latest).value;
            move.next.failedChecks == Min(FAILED_CHECK_LIMIT, e.failedChecks + if IsFailedCheck(move.fact) then 1 else 0)
  {
    hide Inv, Episode.Apply, Episode.CheckObserved, SetsOnce;
    if call.CallObserveCommand? {
      CommandApplied(e, call, id, latest);
    } else if call.CallObserveVisibleCheck? {
      CheckApplied(e, call, id, latest);
      CheckFailures(e, e.Apply(call, id, latest).value.fact);
    } else if Requests(call) {
      RequestApplied(e, call, id, latest);
    } else {
      PhaseApplied(e, call, id, latest);
    }
  }

  // ----- Duplicate observations

  /** The remembered observations after one decision: a completed check and the start of a repair forget them. */
  function Remember(seen: seq<Fact>, verdict: Verdict, reason: Reason, fact: Fact): seq<Fact> {
    if (fact.CheckFact? && !verdict.Stop?) || reason == CriticRepairRequired then []
    else if fact.CommandFact? then seen + [fact]
    else seen
  }

  /** The command observations since the log last forgot them, oldest first. */
  function Observations(log: seq<Decision>): seq<Fact> {
    if log == [] then []
    else
      var last := log[|log| - 1].record;
      Remember(Observations(log[..|log| - 1]), last.verdict, last.reason, last.evidence.fact)
  }

  /** The last `k` observations left the source unchanged and agree on command, output, return code and tree. */
  ghost predicate Agree(observations: seq<Fact>, k: nat) {
    && k <= |observations|
    && forall i :: |observations| - k <= i < |observations| ==>
         observations[i].CommandFact? && !observations[i].sourceChanged && observations[|observations| - 1].CommandFact?
         && observations[i].signature == observations[|observations| - 1].signature
  }

  /** The length of the longest agreeing suffix. */
  function Streak(observations: seq<Fact>): nat {
    var n := |observations|;
    if n == 0 || !observations[n - 1].CommandFact? || observations[n - 1].sourceChanged then 0
    else if n >= 2 && observations[n - 2].CommandFact? && observations[n - 2].signature == observations[n - 1].signature
    then 1 + Streak(observations[..n - 1])
    else 1
  }

  lemma {:induction false} StreakIsLongestAgreement(observations: seq<Fact>)
    ensures Agree(observations, Streak(observations))
    ensures forall k: nat :: Agree(observations, k) ==> k <= Streak(observations)
  {
    var n := |observations|;
    var shorter := if n > 0 then observations[..n - 1] else [];
    if n >= 2 {
      StreakIsLongestAgreement(shorter);
    }
    forall k: nat | Agree(observations, k) ensures k <= Streak(observations) {
      if k >= 2 {
        assert observations[n - 1].CommandFact? && observations[n - 2].CommandFact?;
        assert Agree(shorter, k - 1);
      } else if k == 1 {
        assert observations[n - 1].CommandFact?;
      }
    }
  }

  ghost predicate DuplicatesCounted(e: Episode, seen: seq<Fact>) {
    && (forall i :: 0 <= i < |seen| ==> seen[i].CommandFact?)
    && e.duplicates == Min(DUPLICATE_LIMIT, Streak(seen))
    && e.lastSignature == if seen == [] then None else Some(seen[|seen| - 1].signature)
  }

  lemma CommandDuplicates(e: Episode, call: Call, id: string, latest: Option<EvidenceId>, seen: seq<Fact>)
    requires call.CallObserveCommand? && e.Apply(call, id, latest).Success? && DuplicatesCounted(e, seen)
    ensures var move := e.Apply(call, id, latest).value;
            DuplicatesCounted(move.next, Remember(seen, move.verdict, move.reason, move.fact))
  {
    hide Episode.Apply;
    CommandApplied(e, call, id, latest);
    assert (seen + [e.Apply(call, id, latest).value.fact])[..|seen|] == seen;
  }

  lemma CheckDuplicates(e: Episode, fact: Fact, seen: seq<Fact>)
    requires fact.CheckFact? && e.state.Local? && DuplicatesCounted(e, seen)
    ensures var move := e.CheckObserved(fact);
            DuplicatesCounted(move.next, Remember(seen, move.verdict, move.reason, move.fact))
  {
    hide Episode.ContinueOrCheckpoint, Episode.CheckObserved;
    CheckShape(e, fact);
  }

  lemma RequestDuplicates(e: Episode, call: Call, id: string, latest: Option<EvidenceId>, seen: seq<Fact>)
    requires Requests(call) && Inv(e) && e.Apply(call, id, latest).Success? && DuplicatesCounted(e, seen)
    ensures var move := e.Apply(call, id, latest).value;
            DuplicatesCounted(move.next, Remember(seen, move.verdict, move.reason, move.fact))
  {
    hide Episode.Apply;
    RequestApplied(e, call, id, latest);
  }

  lemma PhaseDuplicates(e: Episode, call: Call, id: string, latest: Option<EvidenceId>, seen: seq<Fact>)
    requires !Observes(call) && !Requests(call) && Inv(e) && e.Apply(call, id, latest).Success?
    requires DuplicatesCounted(e, seen)
    ensures var move := e.Apply(call, id, latest).value;
            DuplicatesCounted(move.next, Remember(seen, move.verdict, move.reason, move.fact))
  {
    hide Episode.Apply;
    PhaseApplied(e, call, id, latest);
  }
}
