/** What every call keeps: the state invariant of an episode and the shape of its decision log. */
module RouterInvariants {
  import opened Wrappers
  import opened RouterTypes
  import opened RouterSpec

  // ----- The state invariant

  ghost predicate Configured(e: Episode) {
    && FINISH_RESERVE <= e.limit <= LOCAL_CALL_LIMIT
    && (e.policy.LocalCriticRepair? ==> e.limit == 12 && e.schedule.FinalOnly?)
    && (e.schedule.RepairWindow? ==> e.policy.LocalOnly? && e.limit >= 5)
    && (e.schedule.HostRepairWindow? ==> e.limit >= 5)
    && (e.state.Planner? ==> e.policy.CloudPlanLocal? || e.policy.CloudPlanLocalReview?)
  }

  /** The calls made fit the phase's limit; a repair starts after at most eight draft calls. */
  ghost predicate CallsCounted(e: Episode) {
    && 0 <= e.localCalls && 0 <= e.Remaining()
    && (e.phase.Repair? <==> e.repairStart.Some?)
    && (e.phase.Repair? ==> e.policy.LocalCriticRepair? && e.criticUsed && 0 <= e.repairStart.value <= 8)
    && 0 <= e.PhaseCalls()
    && (e.state.Planner? ==> e.localCalls == 0 && e.failedChecks == 0 && e.duplicates == 0 && e.checkSource.None? && !e.hostCheckUsed)
  }

  /** Enough calls are left to check (unless the check is fresh) and to submit. */
  ghost predicate ReserveKept(e: Episode) {
    e.Remaining() >= 1 && (e.Remaining() >= FINISH_RESERVE || e.Fresh())
  }

  ghost predicate PendingConsistent(e: Episode) {
    && (!e.state.Local? ==> e.pendingRequest.None? && !e.pendingHostCheck)
    && (e.pendingRequest.None? ==> e.pendingAllowed == [])
    && (e.pendingRequest.Some? ==>
          && e.PhaseCalls() >= 1 && !e.pendingHostCheck
          && (e.Remaining() + 1 >= FINISH_RESERVE || e.Fresh())
          && e.pendingAllowed == ActionsFor(e.schedule, e.Remaining() + 1, e.Fresh(), e.failedChecks))
    && (e.state.Local? && e.pendingRequest.None? ==> ReserveKept(e))
    && (e.state.Local? || e.state.Critic? ==> e.failedChecks < FAILED_CHECK_LIMIT && e.duplicates < DUPLICATE_LIMIT)
    && 0 <= e.failedChecks <= FAILED_CHECK_LIMIT && 0 <= e.duplicates <= DUPLICATE_LIMIT
    && (e.hostCheckUsed ==> e.schedule.HostRepairWindow?)
    && (e.pendingHostCheck ==>
          e.hostCheckUsed && e.localCalls == e.HostCheckBoundary() && !e.Fresh() && e.failedChecks == 0)
  }

  ghost predicate PhasesOrdered(e: Episode) {
    && (e.criticUsed ==> e.policy.LocalCriticRepair?)
    && (e.criticReceipt.Some? ==> e.criticUsed)
    && (e.state.Critic? ==> e.CriticDraft() && e.Fresh() && e.criticSource == Some(e.source) && e.criticReceipt.None?)
    && (e.state.Local? && e.phase.Draft? ==> !e.criticUsed)
    && (e.handoffUsed ==> e.state.Cloud? || e.state.Stopped?)
    && (e.handoffUsed ==> !e.policy.LocalOnly? && !e.policy.LocalCriticRepair?)
    && (e.state.Cloud? ==> e.handoffUsed)
    && (e.state.Submitted? ==> e.Fresh() && !e.policy.CloudPlanLocalReview?)
    && (e.checkSource.Some? ==> e.Fresh())
    && (e.plannerChecks.Some? ==> e.schedule.HostRepairWindow? && !e.state.Planner?)
  }

  ghost predicate Inv(e: Episode) {
    Configured(e) && CallsCounted(e) && PendingConsistent(e) && PhasesOrdered(e)
  }

  lemma StartEstablishesInv(config: Config)
    requires Start(config).Success?
    ensures Inv(Start(config).value.episode)
  {
  }

  /** What holds in the middle of a call, before the decision whether the episode stays local. */
  ghost predicate Observing(e: Episode) {
    && Configured(e) && CallsCounted(e) && PhasesOrdered(e)
    && e.state.Local? && e.pendingRequest.None? && e.pendingAllowed == [] && !e.pendingHostCheck
    && 0 <= e.failedChecks <= FAILED_CHECK_LIMIT && 0 <= e.duplicates <= DUPLICATE_LIMIT
    && (e.hostCheckUsed ==> e.schedule.HostRepairWindow?)
  }

  lemma CheckpointKeepsInv(e: Episode, reason: Reason, fact: Fact)
    requires Observing(e.PendingCleared())
    ensures Inv(e.Checkpoint(reason, fact).next)
  {
  }

  lemma HaltKeepsInv(e: Episode, reason: Reason, fact: Fact)
    requires Inv(e) || Observing(e.PendingCleared())
    ensures Inv(e.Halt(reason, fact).next)
  {
  }

  lemma ContinueKeepsInv(e: Episode, reason: Reason, fact: Fact)
    requires Observing(e)
    ensures Inv(e.ContinueOrCheckpoint(reason, fact).next)
  {
    hide ActionsFor;
    var move := e.ContinueOrCheckpoint(reason, fact);
    if move.verdict.Checkpointed? {
      CheckpointKeepsInv(e, move.reason, fact);
    } else {
      assert move.next == e && ReserveKept(e);
    }
  }

  lemma RequestKeepsInv(e: Episode, id: string, reserve: Option<Reserve>)
    requires Inv(e) && e.state.Local? && e.pendingRequest.None? && !e.pendingHostCheck
    ensures Inv(e.OpenRequest(id, reserve).next)
  {
    var move := e.OpenRequest(id, reserve);
    if move.verdict.Checkpointed? {
      CheckpointKeepsInv(e, move.reason, move.fact);
    } else {
      OpenedKeepsInv(e, id);
    }
  }

  lemma OpenedKeepsInv(e: Episode, id: string)
    requires Inv(e) && e.state.Local? && e.pendingRequest.None? && !e.pendingHostCheck
    ensures Inv(e.(pendingAllowed := e.IdleActions(), pendingRequest := Some(id), localCalls := e.localCalls + 1))
  {
    assert ReserveKept(e);
  }

  lemma CommandKeepsInv(e: Episode, signature: Signature)
    requires Inv(e) && e.state.Local?
    ensures Inv(e.Observed(signature).PendingCleared().ContinueOrCheckpoint(CommandObserved, CommandFact(signature, signature.source != e.source)).next)
  {
    ContinueKeepsInv(e.Observed(signature).PendingCleared(), CommandObserved, CommandFact(signature, signature.source != e.source));
  }

  lemma CompletedKeepsInv(e: Episode, fact: Fact)
    requires Observing(e) && fact.CheckFact? && e.source == fact.after
    ensures Inv(e.CheckCompleted(fact).next)
  {
    hide Inv, Episode.ContinueOrCheckpoint;
    ContinueKeepsInv(e.(checkSource := Some(fact.after)), VisibleCheckPassed, fact);
    var failed := e.(failedChecks := Min(FAILED_CHECK_LIMIT, e.failedChecks + 1));
    ContinueKeepsInv(failed, FailureReason(fact), fact);
  }

  lemma CheckKeepsInv(e: Episode, fact: Fact)
    requires Inv(e) && e.state.Local? && fact.CheckFact?
    ensures Inv(e.CheckObserved(fact).next)
  {
    hide Episode.CheckCompleted, ActionsFor;
    var cleared := e.PendingCleared().WithSource(fact.after).(checkSource := None);
    assert Observing(cleared);
    var move := e.CheckObserved(fact);
    CompletedKeepsInv(cleared.(lastSignature := None, duplicates := 0), fact);
    HaltKeepsInv(cleared, CheckTimeout, fact);
    HaltKeepsInv(cleared, UnknownOutcome, fact);
    HaltKeepsInv(cleared, PlannerCheckInvalid, fact);
  }

  lemma SubmitKeepsInv(e: Episode, tree: string)
    requires Inv(e) && e.SubmitSource(tree).Success?
    ensures Inv(e.SubmitSource(tree).value.next)
  {
    if e.policy.CloudPlanLocalReview? {
      CheckpointKeepsInv(e, ReviewRequired, SubmissionFact(tree));
    }
  }

  lemma VerdictKeepsInv(e: Episode, receipt: string, verdict: CriticVerdict, fact: Fact)
    requires Inv(e) && e.state.Critic? && e.criticUsed
    ensures Inv(e.(criticReceipt := Some(receipt)).VerdictReceived(verdict, fact).next)
  {
    hide ActionsFor;
  }

  lemma CriticKeepsInv(e: Episode, call: Call, id: string, latest: Option<EvidenceId>)
    requires call.CallMarkCriticStarted? || call.CallMarkCriticComplete?
    requires Inv(e) && e.Apply(call, id, latest).Success?
    ensures Inv(e.Apply(call, id, latest).value.next)
  {
    hide IsText, IsHash, ActionsFor, Episode.VerdictReceived, Episode.Halt;
    if call.CallMarkCriticComplete? {
      hide Inv;
      var fact := CriticCompleteFact(call.requestId, call.settled, call.cancelled, call.receipt, call.verdict, call.source);
      if call.cancelled || !call.settled {
        HaltKeepsInv(e, if call.cancelled then Cancelled else UnknownOutcome, fact);
      } else {
        VerdictKeepsInv(e, call.receipt, call.verdict, fact);
      }
    }
  }

  lemma HelpKeepsInv(e: Episode, message: string)
    requires Inv(e) && e.AskHelp(message).Success?
    ensures Inv(e.AskHelp(message).value.next)
  {
    CheckpointKeepsInv(e, ExplicitHelp, HelpFact(message));
  }

  lemma HostCheckKeepsInv(e: Episode)
    requires Inv(e) && e.BeginHostCheck().Success?
    ensures Inv(e.BeginHostCheck().value.next)
  {
  }

  lemma PlanKeepsInv(e: Episode, settled: bool, cancelled: bool, checks: Option<string>)
    requires Inv(e) && e.MarkCloudPlanComplete(settled, cancelled, checks).Success?
    ensures Inv(e.MarkCloudPlanComplete(settled, cancelled, checks).value.next)
  {
  }

  lemma HandoffKeepsInv(e: Episode, settled: bool, cancelled: bool, times: TimeBudget, latest: Option<EvidenceId>)
    requires Inv(e) && e.ConfirmHandoff(settled, cancelled, times, latest).Success?
    ensures Inv(e.ConfirmHandoff(settled, cancelled, times, latest).value.next)
  {
    hide Milliseconds;
    var move := e.ConfirmHandoff(settled, cancelled, times, latest).value;
    if move.verdict.Stop? {
      HaltKeepsInv(e, move.reason, move.fact);
    }
  }

  lemma VisibleCheckKeepsInv(e: Episode, call: Call, id: string, latest: Option<EvidenceId>)
    requires call.CallObserveVisibleCheck?
    requires Inv(e) && e.Apply(call, id, latest).Success?
    ensures Inv(e.Apply(call, id, latest).value.next)
  {
    hide Inv, IsText, ActionsFor;
    CheckKeepsInv(e, e.Apply(call, id, latest).value.fact);
  }

  lemma MoveKeepsInv(e: Episode, call: Call, id: string, latest: Option<EvidenceId>)
    requires Inv(e) && e.Apply(call, id, latest).Success?
    ensures Inv(e.Apply(call, id, latest).value.next)
  {
    hide Inv, Episode.AskHelp, Episode.SubmitSource, Episode.MarkCriticStarted, Episode.MarkCriticComplete,
         Episode.MarkCloudPlanComplete, Episode.ConfirmHandoff, Episode.BeginHostCheck, Episode.OpenRequest,
         Episode.ObserveVisibleCheck, Episode.Observed, Episode.ContinueOrCheckpoint, IsText, Milliseconds;
    match call
    case CallBeginHostCheck => HostCheckKeepsInv(e);
    case CallBeforeLocalRequest(budget) => RequestKeepsInv(e, id, e.ReviewReserve(budget).value);
    case CallObserveCommand(command, output, code, tree) =>
      CommandKeepsInv(e, Signature(TextDigest(command), TextDigest(output), code, tree));
    case CallObserveVisibleCheck(_, _, _, _, _, _, _, _, _) => VisibleCheckKeepsInv(e, call, id, latest);
    case CallRequestHelp(message) => HelpKeepsInv(e, message);
    case CallSubmit(tree) => SubmitKeepsInv(e, tree);
    case CallMarkCriticStarted(_, _, _, _, _) => CriticKeepsInv(e, call, id, latest);
    case CallMarkCriticComplete(_, _, _, _, _, _) => CriticKeepsInv(e, call, id, latest);
    case CallMarkCloudPlanComplete(settled, cancelled, checks) => PlanKeepsInv(e, settled, cancelled, checks);
    case CallConfirmHandoff(settled, cancelled, times) => HandoffKeepsInv(e, settled, cancelled, times, latest);
    case CallStop(reason) => HaltKeepsInv(e, reason, NoFact);
  }
}
