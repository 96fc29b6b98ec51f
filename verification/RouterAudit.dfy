/** What every record of a decision log must be able to answer for: its verdict, told from the facts and figures it shows. */
module RouterAudit {
  import opened Wrappers
  import opened RouterTypes
  import opened RouterSpec
  import opened RouterInvariants
  import opened RouterHistory
  import opened RouterTheorems

  // ----- The answer each record owes

  predicate StopsFor(rec: Record, reason: Reason) {
    rec.state.Stopped? && rec.verdict.Stop? && rec.reason == reason
  }

  predicate ChecksIn(rec: Record, reason: Reason) {
    rec.state.Checkpoint? && rec.verdict.Checkpointed? && rec.reason == reason
  }

  predicate Continues(rec: Record, state: State, reason: Reason) {
    rec.state == state && rec.verdict.Continue? && rec.reason == reason
  }

  predicate Submits(rec: Record, reason: Reason) {
    rec.state.Submitted? && rec.verdict.Submit? && rec.reason == reason
  }

  predicate IsFresh(rec: Record) {
    rec.checkSource == Some(rec.source)
  }

  /** The phase, of the one policy that has two. */
  predicate InPhase(rec: Record, phase: Phase) {
    rec.policy.LocalCriticRepair? && rec.evidence.critic.Some? && rec.evidence.critic.value.phase == phase
  }

  /** After an observation: a checkpoint for the first limit met, or the local phase goes on. */
  predicate GoesOn(rec: Record, reason: Reason) {
    if rec.failedChecks == 2 then ChecksIn(rec, VisibleChecksFailed)
    else if rec.duplicates == 3 then ChecksIn(rec, RepeatedObservation)
    else if rec.remainingLocalCalls == 0 then ChecksIn(rec, LocalCallLimit)
    else if rec.remainingLocalCalls == 1 && !IsFresh(rec) then ChecksIn(rec, FinishReserveExhausted)
    else Continues(rec, Local, if rec.remainingLocalCalls <= 2 && !IsFresh(rec) then FinishRequired else reason)
  }

  predicate CheckAnswers(rec: Record, fact: Fact)
    requires fact.CheckFact?
  {
    var passed := fact.returncode == 0 && fact.before == fact.after;
    && rec.source == fact.after
    && if fact.timedOut then StopsFor(rec, CheckTimeout) && rec.checkSource.None?
       else if !fact.completed then StopsFor(rec, UnknownOutcome) && rec.checkSource.None?
       else if fact.planner.Some? && fact.planner.value.timedOut then StopsFor(rec, CheckTimeout) && rec.checkSource.None?
       else if fact.planner.Some? && !fact.planner.value.completed
       then StopsFor(rec, PlannerCheckInvalid) && rec.checkSource.None?
       else if passed && (fact.planner.Some? ==> fact.planner.value.passed)
       then IsFresh(rec) && rec.duplicates == 0 && GoesOn(rec, VisibleCheckPassed)
       else
         && rec.checkSource.None? && rec.duplicates == 0 && rec.failedChecks >= 1
         && GoesOn(rec, if fact.before != fact.after then VisibleCheckTreeChanged
                        else if fact.returncode != 0 then VisibleCheckFailed else PlannerCheckFailed)
  }

  /** What a critic's verdict does to the draft it was given. */
  predicate VerdictAnswers(rec: Record, fact: Fact)
    requires fact.CriticCompleteFact?
  {
    && rec.policy.LocalCriticRepair? && rec.source == fact.source
    && if fact.cancelled then StopsFor(rec, Cancelled)
       else if !fact.settled then StopsFor(rec, UnknownOutcome)
       else
         match fact.verdict
         case Acceptable => Submits(rec, CriticAcceptable) && InPhase(rec, Draft) && IsFresh(rec)
         case RepairRequired => Continues(rec, Local, CriticRepairRequired) && InPhase(rec, Repair) && rec.checkSource.None?
         case InsufficientContext => StopsFor(rec, CriticInsufficientContext)
         case Unrecognized => false
  }

  /** A submission goes to the cloud review, to the critic, or out. */
  predicate SubmissionAnswers(rec: Record, tree: string) {
    && rec.source == tree && IsFresh(rec)
    && if rec.policy.CloudPlanLocalReview? then ChecksIn(rec, ReviewRequired)
       else if InPhase(rec, Draft)
       then rec.state.Critic? && rec.verdict.Checkpointed? && rec.reason == CriticRequired
       else Submits(rec, FreshVisibleCheck)
  }

  /** A hand-off escalates exactly if it is settled, the policy has a cloud, and one call and both reserves are left. */
  predicate HandoffAnswers(rec: Record, fact: Fact)
    requires fact.HandoffFact?
  {
    && !rec.policy.LocalCriticRepair?
    && if fact.cancelled then StopsFor(rec, Cancelled)
       else if !fact.settled then StopsFor(rec, UnknownOutcome)
       else if rec.policy.LocalOnly? then StopsFor(rec, LocalOnlyCheckpoint)
       else if fact.remainingModelCalls < 1 then StopsFor(rec, InsufficientModelCalls)
       else if fact.remainingMs < fact.requestMs + fact.checkMs then StopsFor(rec, InsufficientHandoffTime)
       else rec.state.Cloud? && rec.verdict.Escalate? && rec.reason == HandoffConfirmed && rec.handoffUsed
  }

  /** A request held back for want of a second phase's calls or time. */
  predicate ReserveAnswers(rec: Record, reserve: Reserve) {
    && reserve.requiredMs == 2 * (reserve.requestMs + reserve.checkMs)
    && (rec.policy.CloudPlanLocalReview? || InPhase(rec, Draft))
    && if reserve.remainingModelCalls < 2 then ChecksIn(rec, InsufficientModelCalls)
       else
         && reserve.remainingMs <= reserve.requiredMs
         && ChecksIn(rec, if rec.policy.CloudPlanLocalReview? then ReviewTimeReserve else CriticTimeReserve)
  }

  predicate Answers(rec: Record) {
    match rec.evidence.fact
    case NoFact =>
      || (exists reason :: IsStopReason(reason) && StopsFor(rec, reason))
      || (ChecksIn(rec, LocalCallLimit) && rec.remainingLocalCalls == 0)
      || (ChecksIn(rec, FinishReserveExhausted) && rec.remainingLocalCalls == 1 && !IsFresh(rec))
    case InitialFact(_, _) =>
      && rec.sequence == 1
      && if rec.policy.CloudPlanLocal? || rec.policy.CloudPlanLocalReview? then Continues(rec, Planner, CloudPlanRequired)
         else Continues(rec, Local, Initialized)
    case HostCheckFact(_) =>
      Continues(rec, Local, HostCheckStarted) && rec.evidence.hostCheckUsed == Some(true) && rec.failedChecks == 0 && !IsFresh(rec)
    case ReserveFact(reserve) => ReserveAnswers(rec, reserve)
    case RequestFact(requestId) => Continues(rec, Local, LocalRequestStarted) && requestId == rec.eventId
    case CommandFact(signature, _) => rec.source == signature.source && GoesOn(rec, CommandObserved)
    case CheckFact(_, _, _, _, _, _, _, _) => CheckAnswers(rec, rec.evidence.fact)
    case HelpFact(_) => ChecksIn(rec, ExplicitHelp)
    case SubmissionFact(tree) => SubmissionAnswers(rec, tree)
    case CriticStartFact(_, source, _, _, _) =>
      Continues(rec, Critic, CriticRequestStarted) && InPhase(rec, Draft) && rec.source == source && IsFresh(rec)
    case CriticCompleteFact(_, _, _, _, _, _) => VerdictAnswers(rec, rec.evidence.fact)
    case PlanFact(settled, cancelled) =>
      if cancelled then StopsFor(rec, Cancelled)
      else if !settled then StopsFor(rec, UnknownOutcome)
      else Continues(rec, Local, CloudPlanCompleted)
    case HandoffFact(_, _, _, _, _, _, _) => HandoffAnswers(rec, rec.evidence.fact)
  }

  // ----- Every move answers

  /** The figures a record shows are those of the episode it leads to. */
  lemma RecordShows(r: Router, id: string, move: Move)
    ensures var rec, e := r.RecordFor(id, move), move.next;
            && rec.eventId == id && rec.verdict == move.verdict && rec.reason == move.reason && rec.state == e.state
            && rec.policy == e.policy && rec.remainingLocalCalls == e.Remaining() && rec.source == e.source
            && rec.checkSource == e.checkSource && rec.failedChecks == e.failedChecks && rec.duplicates == e.duplicates
            && rec.evidence.fact == move.fact && (InPhase(rec, e.phase) <==> e.policy.LocalCriticRepair?)
            && (forall phase :: InPhase(rec, phase) ==> phase == e.phase)
  {
    hide Episode.AllowedActions, Episode.HandoffCandidate, Episode.Remaining, Episode.PhaseCalls, Episode.PhaseLimit;
  }

  lemma CheckpointShows(r: Router, id: string, e: Episode, reason: Reason, fact: Fact)
    ensures var move := e.Checkpoint(reason, fact);
            var rec := r.RecordFor(id, move);
            && ChecksIn(rec, reason) && rec.remainingLocalCalls == e.Remaining() && rec.policy == e.policy
            && move.next.source == rec.source == e.source && move.next.checkSource == rec.checkSource == e.checkSource
            && move.next.failedChecks == rec.failedChecks == e.failedChecks
            && move.next.duplicates == rec.duplicates == e.duplicates
            && move.fact == rec.evidence.fact == fact && (InPhase(rec, e.phase) <==> e.policy.LocalCriticRepair?)
  {
    RecordShows(r, id, e.Checkpoint(reason, fact));
    SameRemaining(e, e.Checkpoint(reason, fact).next);
    hide Router.RecordFor, Episode.Remaining, InPhase;
  }

  lemma GoingOnAnswers(r: Router, id: string, e: Episode, reason: Reason, fact: Fact)
    requires e.state.Local? && e.failedChecks <= 2 && e.duplicates <= 3 && 0 <= e.Remaining()
    ensures var move := e.ContinueOrCheckpoint(reason, fact);
            && GoesOn(r.RecordFor(id, move), reason) && move.fact == fact
            && move.next.source == e.source && move.next.checkSource == e.checkSource
            && move.next.failedChecks == e.failedChecks && move.next.duplicates == e.duplicates
  {
    CheckpointShows(r, id, e, VisibleChecksFailed, fact);
    CheckpointShows(r, id, e, RepeatedObservation, fact);
    CheckpointShows(r, id, e, LocalCallLimit, fact);
    CheckpointShows(r, id, e, FinishReserveExhausted, fact);
    RecordShows(r, id, Move(e, Continue, reason, fact));
    RecordShows(r, id, Move(e, Continue, FinishRequired, fact));
    hide Router.RecordFor, Episode.Remaining, Episode.Checkpoint, InPhase;
  }

  lemma ObservedBounds(e: Episode, signature: Signature)
    requires Inv(e) && e.state.Local?
    ensures var observed := e.Observed(signature).PendingCleared();
            && observed.state.Local? && observed.failedChecks <= 2 && observed.duplicates <= 3 && 0 <= observed.Remaining()
            && observed.source == signature.source
  {
    hide ActionsFor;
  }

  lemma CommandForm(e: Episode, call: Call, id: string, latest: Option<EvidenceId>)
    requires call.CallObserveCommand? && e.Apply(call, id, latest).Success?
    ensures var signature := Signature(TextDigest(call.command), TextDigest(call.output), call.returncode, call.source);
            && e.state.Local?
            && e.Apply(call, id, latest).value
               == e.Observed(signature).PendingCleared().ContinueOrCheckpoint(CommandObserved, CommandFact(signature, call.source != e.source))
  {
    hide IsText, IsHash, ActionsFor, Episode.ContinueOrCheckpoint, Episode.Observed, Episode.PendingCleared;
  }

  lemma CommandAnswers(r: Router, call: Call, id: string, latest: Option<EvidenceId>)
    requires call.CallObserveCommand? && Inv(r.episode) && r.episode.Apply(call, id, latest).Success?
    ensures Answers(r.RecordFor(id, r.episode.Apply(call, id, latest).value))
  {
    hide Inv, Episode.Apply, Episode.Observed, Episode.PendingCleared, Episode.ContinueOrCheckpoint, Episode.Remaining, GoesOn, Router.RecordFor,
         Answers;
    var e := r.episode;
    var signature := Signature(TextDigest(call.command), TextDigest(call.output), call.returncode, call.source);
    CommandForm(e, call, id, latest);
    ObservedBounds(e, signature);
    GoingOnAnswers(r, id, e.Observed(signature).PendingCleared(), CommandObserved, CommandFact(signature, call.source != e.source));
    ObservedRecord(r, id, e.Apply(call, id, latest).value, signature, call.source != e.source);
  }

  lemma ObservedRecord(r: Router, id: string, move: Move, signature: Signature, changed: bool)
    requires move.fact == CommandFact(signature, changed) && move.next.source == signature.source
    requires GoesOn(r.RecordFor(id, move), CommandObserved)
    ensures Answers(r.RecordFor(id, move))
  {
    hide GoesOn, Episode.AllowedActions, Episode.HandoffCandidate, Episode.Remaining;
  }

  /** A check that ran to an exit status. */
  lemma CompletedAnswers(r: Router, id: string, e: Episode, fact: Fact)
    requires fact.CheckFact? && e.state.Local? && e.checkSource.None? && e.source == fact.after && e.duplicates == 0
    requires 0 <= e.failedChecks <= 2 && 0 <= e.Remaining()
    ensures var move := e.CheckCompleted(fact);
            var rec := r.RecordFor(id, move);
            && move.fact == fact && rec.source == fact.after && rec.duplicates == 0
            && if fact.returncode == 0 && fact.before == fact.after && (fact.planner.Some? ==> fact.planner.value.passed)
               then IsFresh(rec) && GoesOn(rec, VisibleCheckPassed)
               else rec.checkSource.None? && rec.failedChecks >= 1
                    && GoesOn(rec, if fact.before != fact.after then VisibleCheckTreeChanged
                                   else if fact.returncode != 0 then VisibleCheckFailed else PlannerCheckFailed)
  {
    hide Episode.AllowedActions, Episode.EvidenceFor, Episode.HandoffCandidate, Episode.ContinueOrCheckpoint, Episode.Remaining, GoesOn;
    var passing := e.(checkSource := Some(fact.after));
    var failing := e.(failedChecks := Min(FAILED_CHECK_LIMIT, e.failedChecks + 1));
    SameRemaining(e, passing);
    SameRemaining(e, failing);
    GoingOnAnswers(r, id, passing, VisibleCheckPassed, fact);
    GoingOnAnswers(r, id, failing, FailureReason(fact), fact);
  }

  lemma SameRemaining(e: Episode, f: Episode)
    requires f.policy == e.policy && f.limit == e.limit && f.localCalls == e.localCalls && f.phase == e.phase && f.repairStart == e.repairStart
    ensures f.Remaining() == e.Remaining()
  {
  }

  /** A check that did not run to its end stops the episode, with no check left standing. */
  lemma HaltedCheckAnswers(r: Router, id: string, e: Episode, reason: Reason, fact: Fact)
    requires e.checkSource.None?
    ensures var rec := r.RecordFor(id, e.Halt(reason, fact));
            StopsFor(rec, reason) && rec.source == e.source && rec.checkSource.None? && e.Halt(reason, fact).fact == fact
  {
    RecordShows(r, id, e.Halt(reason, fact));
    hide Router.RecordFor, InPhase, Episode.Remaining;
  }

  /** Check and planner check ran to their end. */
  predicate RanThrough(fact: Fact)
    requires fact.CheckFact?
  {
    fact.completed && !fact.timedOut && (fact.planner.Some? ==> fact.planner.value.completed && !fact.planner.value.timedOut)
  }

  lemma BrokenOffAnswers(r: Router, id: string, fact: Fact)
    requires fact.CheckFact? && !RanThrough(fact)
    ensures r.episode.CheckObserved(fact).fact == fact
    ensures CheckAnswers(r.RecordFor(id, r.episode.CheckObserved(fact)), fact)
  {
    var cleared := r.episode.Unchecked(fact.after);
    hide Router.RecordFor, Episode.CheckCompleted, Episode.Halt, Episode.Remaining, GoesOn, StopsFor;
    HaltedCheckAnswers(r, id, cleared, CheckTimeout, fact);
    HaltedCheckAnswers(r, id, cleared, UnknownOutcome, fact);
    HaltedCheckAnswers(r, id, cleared, PlannerCheckInvalid, fact);
  }

  lemma RanThroughAnswers(r: Router, id: string, fact: Fact)
    requires fact.CheckFact? && RanThrough(fact) && Inv(r.episode) && r.episode.state.Local?
    ensures r.episode.CheckObserved(fact).fact == fact
    ensures CheckAnswers(r.RecordFor(id, r.episode.CheckObserved(fact)), fact)
  {
    var ready := r.episode.Unchecked(fact.after).(lastSignature := None, duplicates := 0);
    FiguresFit(r.episode);
    SameRemaining(r.episode, ready);
    hide Router.RecordFor, Episode.CheckCompleted, Episode.Halt, Episode.Remaining, GoesOn, StopsFor, Inv;
    CompletedAnswers(r, id, ready, fact);
  }

  lemma CheckedAnswers(r: Router, id: string, fact: Fact)
    requires fact.CheckFact? && Inv(r.episode) && r.episode.state.Local?
    ensures r.episode.CheckObserved(fact).fact == fact
    ensures CheckAnswers(r.RecordFor(id, r.episode.CheckObserved(fact)), fact)
  {
    hide Router.RecordFor, Episode.CheckObserved, CheckAnswers, Inv;
    if RanThrough(fact) {
      RanThroughAnswers(r, id, fact);
    } else {
      BrokenOffAnswers(r, id, fact);
    }
  }

  lemma FiguresFit(e: Episode)
    requires Inv(e)
    ensures 0 <= e.failedChecks <= 2 && 0 <= e.duplicates <= 3 && 0 <= e.Remaining()
  {
    hide ActionsFor;
  }

  lemma CheckAnswered(r: Router, call: Call, id: string, latest: Option<EvidenceId>)
    requires call.CallObserveVisibleCheck? && Inv(r.episode) && r.episode.Apply(call, id, latest).Success?
    ensures Answers(r.RecordFor(id, r.episode.Apply(call, id, latest).value))
  {
    hide Inv, Episode.Apply, Episode.CheckObserved, CheckAnswers, Episode.Remaining, Episode.AllowedActions;
    var move := r.episode.Apply(call, id, latest).value;
    CheckApplied(r.episode, call, id, latest);
    CheckedAnswers(r, id, move.fact);
  }

  lemma HoldingBackAnswers(r: Router, id: string, reserve: Reserve)
    requires reserve.requiredMs == 2 * (reserve.requestMs + reserve.checkMs)
    requires r.episode.policy.CloudPlanLocalReview? || r.episode.CriticDraft()
    ensures reserve.remainingModelCalls < 2 ==>
              Answers(r.RecordFor(id, r.episode.Checkpoint(InsufficientModelCalls, ReserveFact(reserve))))
    ensures var reason := if r.episode.CriticDraft() then CriticTimeReserve else ReviewTimeReserve;
            reserve.remainingModelCalls >= 2 && reserve.remainingMs <= reserve.requiredMs ==>
              Answers(r.RecordFor(id, r.episode.Checkpoint(reason, ReserveFact(reserve))))
  {
    hide Router.RecordFor, Episode.Remaining, Episode.Checkpoint, InPhase;
    var e := r.episode;
    CheckpointShows(r, id, e, InsufficientModelCalls, ReserveFact(reserve));
    CheckpointShows(r, id, e, if e.CriticDraft() then CriticTimeReserve else ReviewTimeReserve, ReserveFact(reserve));
  }

  lemma LimitAnswers(r: Router, id: string, reason: Reason)
    requires (reason == LocalCallLimit && r.episode.Remaining() == 0)
             || (reason == FinishReserveExhausted && r.episode.Remaining() == 1 && !r.episode.Fresh())
    ensures Answers(r.RecordFor(id, r.episode.Checkpoint(reason, NoFact)))
  {
    hide Router.RecordFor, Episode.Remaining, Episode.Checkpoint, InPhase;
    CheckpointShows(r, id, r.episode, reason, NoFact);
  }

  lemma OpeningAnswers(r: Router, id: string, reserve: Option<Reserve>)
    requires r.episode.state.Local? && 0 <= r.episode.Remaining()
    requires reserve.Some? ==>
               reserve.value.requiredMs == 2 * (reserve.value.requestMs + reserve.value.checkMs)
               && (r.episode.policy.CloudPlanLocalReview? || r.episode.CriticDraft())
    ensures Answers(r.RecordFor(id, r.episode.OpenRequest(id, reserve)))
  {
    hide Router.RecordFor, Episode.Remaining, Episode.Checkpoint, Episode.AllowedActions, Answers, Episode.CriticDraft, InPhase;
    var e := r.episode;
    if reserve.Some? {
      HoldingBackAnswers(r, id, reserve.value);
    }
    if e.Remaining() == 0 {
      LimitAnswers(r, id, LocalCallLimit);
    } else if e.Remaining() == 1 && !e.Fresh() {
      LimitAnswers(r, id, FinishReserveExhausted);
    } else {
      StartedAnswers(r, id);
    }
  }

  lemma StartedAnswers(r: Router, id: string)
    requires r.episode.state.Local?
    ensures var e := r.episode;
            Answers(r.RecordFor(id, Move(e.(pendingAllowed := e.AllowedActions(), pendingRequest := Some(id), localCalls := e.localCalls + 1),
                                         Continue, LocalRequestStarted, RequestFact(id))))
  {
    hide Episode.AllowedActions, Episode.HandoffCandidate, Episode.PhaseCalls, Episode.PhaseLimit, Episode.Remaining;
  }

  lemma ReserveIsTwice(e: Episode, budget: Option<TimeBudget>)
    requires e.ReviewReserve(budget).Success? && e.ReviewReserve(budget).value.Some?
    ensures var reserve := e.ReviewReserve(budget).value.value;
            && reserve.requiredMs == 2 * (reserve.requestMs + reserve.checkMs)
            && (e.policy.CloudPlanLocalReview? || e.CriticDraft())
  {
    hide Milliseconds;
  }

  lemma RequestAnswers(r: Router, call: Call, id: string, latest: Option<EvidenceId>)
    requires call.CallBeforeLocalRequest? && Inv(r.episode) && r.episode.Apply(call, id, latest).Success?
    ensures Answers(r.RecordFor(id, r.episode.Apply(call, id, latest).value))
  {
    var e := r.episode;
    assert 0 <= e.Remaining();
    hide Inv, Episode.OpenRequest, Episode.ReviewReserve, Answers, Router.RecordFor, Episode.Remaining;
    var reserve := e.ReviewReserve(call.budget);
    if reserve.Success? && reserve.value.Some? {
      ReserveIsTwice(e, call.budget);
    }
    OpeningAnswers(r, id, reserve.value);
  }

  lemma ClosingAnswers(r: Router, call: Call, id: string, latest: Option<EvidenceId>)
    requires call.CallBeginHostCheck? || call.CallSubmit? || call.CallRequestHelp?
    requires Inv(r.episode) && r.episode.Apply(call, id, latest).Success?
    ensures Answers(r.RecordFor(id, r.episode.Apply(call, id, latest).value))
  {
    hide IsText, IsHash, ActionsFor, Episode.AllowedActions, Episode.HandoffCandidate, Episode.Remaining, Episode.PhaseCalls,
         Episode.PhaseLimit;
  }

  lemma CriticAnswers(r: Router, call: Call, id: string, latest: Option<EvidenceId>)
    requires call.CallMarkCriticStarted? || call.CallMarkCriticComplete?
    requires Inv(r.episode) && r.episode.Apply(call, id, latest).Success?
    ensures Answers(r.RecordFor(id, r.episode.Apply(call, id, latest).value))
  {
    hide IsText, IsHash, ActionsFor, Episode.AllowedActions, Episode.HandoffCandidate, Episode.Remaining, Episode.PhaseCalls,
         Episode.PhaseLimit;
  }

  lemma HaltShows(r: Router, id: string, e: Episode, reason: Reason, fact: Fact)
    ensures var rec := r.RecordFor(id, e.Halt(reason, fact));
            StopsFor(rec, reason) && rec.evidence.fact == fact && rec.policy == e.policy
  {
    RecordShows(r, id, e.Halt(reason, fact));
    hide Router.RecordFor, Episode.RetainedCheck, InPhase, Episode.Remaining;
  }

  lemma PlanAnswers(r: Router, call: Call, id: string, latest: Option<EvidenceId>)
    requires call.CallMarkCloudPlanComplete? && r.episode.Apply(call, id, latest).Success?
    ensures Answers(r.RecordFor(id, r.episode.Apply(call, id, latest).value))
  {
    hide IsHash, Router.RecordFor, Episode.Halt, InPhase, Episode.Remaining;
    var fact := PlanFact(call.settled, call.cancelled);
    HaltShows(r, id, r.episode, Cancelled, fact);
    HaltShows(r, id, r.episode, UnknownOutcome, fact);
    RecordShows(r, id, r.episode.Apply(call, id, latest).value);
  }

  lemma HandedOffAnswers(r: Router, id: string, fact: Fact)
    requires fact.HandoffFact? && !r.episode.policy.LocalCriticRepair?
    ensures Answers(r.RecordFor(id, r.episode.HandedOff(fact)))
  {
    var e := r.episode;
    var move := e.HandedOff(fact);
    if move.verdict.Escalate? {
      hide Router.RecordFor;
      EscalationShows(r, id, fact);
    } else {
      HaltShows(r, id, e, move.reason, fact);
      hide Router.RecordFor, Episode.RetainedCheck;
    }
  }

  lemma HandoffAnswered(r: Router, call: Call, id: string, latest: Option<EvidenceId>)
    requires call.CallConfirmHandoff? && r.episode.Apply(call, id, latest).Success?
    ensures Answers(r.RecordFor(id, r.episode.Apply(call, id, latest).value))
  {
    hide Milliseconds, Router.RecordFor, Episode.HandedOff, Answers;
    var times := call.times;
    HandedOffAnswers(r, id,
                     HandoffFact(call.settled, call.cancelled, times.remainingModelCalls,
                                 Milliseconds(times.remainingSeconds, false).value,
                                 Milliseconds(times.requestTimeoutSeconds, true).value,
                                 Milliseconds(times.checkReserveSeconds, true).value, latest));
  }

  lemma EscalationShows(r: Router, id: string, fact: Fact)
    ensures var rec := r.RecordFor(id, Move(r.episode.(handoffUsed := true, state := Cloud), Escalate, HandoffConfirmed, fact));
            && rec.state.Cloud? && rec.verdict.Escalate? && rec.reason == HandoffConfirmed && rec.handoffUsed
            && rec.evidence.fact == fact && rec.policy == r.episode.policy
  {
    hide Episode.AllowedActions, Episode.HandoffCandidate, Episode.Remaining;
  }

  lemma StopAnswers(r: Router, call: Call, id: string, latest: Option<EvidenceId>)
    requires call.CallStop? && r.episode.Apply(call, id, latest).Success?
    ensures Answers(r.RecordFor(id, r.episode.Apply(call, id, latest).value))
  {
    hide IsStopReason, Router.RecordFor, Episode.Halt;
    HaltShows(r, id, r.episode, call.reason, NoFact);
  }

  lemma MoveAnswers(r: Router, call: Call, id: string, latest: Option<EvidenceId>)
    requires Inv(r.episode) && r.episode.Apply(call, id, latest).Success?
    ensures Answers(r.RecordFor(id, r.episode.Apply(call, id, latest).value))
  {
    hide Inv, Episode.Apply, Answers, Router.RecordFor;
    match call
    case CallObserveCommand(_, _, _, _) => CommandAnswers(r, call, id, latest);
    case CallObserveVisibleCheck(_, _, _, _, _, _, _, _, _) => CheckAnswered(r, call, id, latest);
    case CallBeforeLocalRequest(_) => RequestAnswers(r, call, id, latest);
    case CallBeginHostCheck => ClosingAnswers(r, call, id, latest);
    case CallSubmit(_) => ClosingAnswers(r, call, id, latest);
    case CallRequestHelp(_) => ClosingAnswers(r, call, id, latest);
    case CallMarkCriticStarted(_, _, _, _, _) => CriticAnswers(r, call, id, latest);
    case CallMarkCriticComplete(_, _, _, _, _, _) => CriticAnswers(r, call, id, latest);
    case CallMarkCloudPlanComplete(_, _, _) => PlanAnswers(r, call, id, latest);
    case CallConfirmHandoff(_, _, _) => HandoffAnswered(r, call, id, latest);
    case CallStop(_) => StopAnswers(r, call, id, latest);
  }

  // ----- Every log answers

  ghost predicate AllAnswer(log: seq<Decision>) {
    forall i :: 0 <= i < |log| ==> Answers(log[i].record)
  }

  lemma StartAnswers(config: Config)
    requires Start(config).Success?
    ensures AllAnswer(Start(config).value.decisions)
  {
    hide IsText, IsHash, ActionsFor;
  }

  lemma StepKeepsAnswers(r: Router, event: Event)
    requires Sound(r) && AllAnswer(r.decisions)
    ensures AllAnswer(Step(r, event).decisions)
  {
    hide Inv, Episode.Apply, IsText, Chained, OneShot, Windowed, DuplicatesCounted, Measure, Answers, Router.RecordFor;
    if r.Apply(event.id, event.call).Success? {
      MoveAnswers(r, event.call, event.id, r.LatestEvidenceId());
    }
  }

  /** Every decision of every run answers for itself: the facts and figures it shows call for exactly its verdict. */
  lemma {:induction false} LogsAnswer(config: Config, events: seq<Event>)
    requires Start(config).Success?
    ensures AllAnswer(RunOf(config, events).decisions)
  {
    if events == [] {
      StartAnswers(config);
    } else {
      LogsAnswer(config, events[..|events| - 1]);
      RunsAreSound(config, events[..|events| - 1]);
      hide Start, Step, Sound, AllAnswer;
      StepKeepsAnswers(RunOf(config, events[..|events| - 1]), events[|events| - 1]);
    }
  }

  // ----- What the log says about a critic's verdict, a submission and a hand-off

  predicate IsVerdict(fact: Fact, verdict: CriticVerdict) {
    fact.CriticCompleteFact? && fact.settled && !fact.cancelled && fact.verdict == verdict
  }

  predicate IsSettledHandoff(fact: Fact) {
    && fact.HandoffFact? && fact.settled && !fact.cancelled && fact.remainingModelCalls >= 1
    && fact.remainingMs >= fact.requestMs + fact.checkMs
  }

  /** Which facts can stand behind a submission, a repair, a waiting critic and an escalation. */
  lemma AnswersExplain(rec: Record)
    requires Answers(rec)
    ensures var fact := rec.evidence.fact;
            && (rec.state.Submitted? ==> IsFresh(rec) && (fact.SubmissionFact? || IsVerdict(fact, Acceptable)))
            && (rec.state.Submitted? && InPhase(rec, Draft) ==> IsVerdict(fact, Acceptable))
            && (rec.reason == CriticRepairRequired <==> IsVerdict(fact, RepairRequired))
            && (IsVerdict(fact, Acceptable) ==> rec.state.Submitted?)
            && (IsVerdict(fact, InsufficientContext) ==> rec.state.Stopped?)
            && !IsVerdict(fact, Unrecognized)
            && (rec.state.Critic? ==> InPhase(rec, Draft) && IsFresh(rec))
            && (rec.state.Cloud? <==> IsSettledHandoff(fact) && !rec.policy.LocalOnly?)
            && (fact.SubmissionFact? && InPhase(rec, Draft) ==> rec.state.Critic?)
            && (fact.PlanFact? ==> (rec.state.Local? <==> fact.settled && !fact.cancelled) && (!rec.state.Local? ==> rec.state.Stopped?))
  {
  }

  lemma {:induction false} RepairIsLogged(log: seq<Decision>)
    requires AllAnswer(log)
    ensures CountReason(log, CriticRepairRequired) >= 1
            <==> exists i :: 0 <= i < |log| && IsVerdict(log[i].record.evidence.fact, RepairRequired)
    decreases |log|
  {
    hide Answers;
    if log != [] {
      var shorter, last := log[..|log| - 1], log[|log| - 1];
      RepairIsLogged(shorter);
      AnswersExplain(last.record);
      assert forall i :: 0 <= i < |shorter| ==> log[i] == shorter[i];
    }
  }

  /**
   * In every run under the critic policy: a submitted draft was found acceptable by the settled critic, in the last
   * decision; the repair phase is open exactly if the log holds a settled verdict that requires one; and a settled
   * verdict of insufficient context, wherever the log has it, is its last decision and a stop.
   */
  lemma VerdictsAreKept(config: Config, events: seq<Event>)
    requires Start(config).Success? && config.policy.LocalCriticRepair?
    ensures var e, log := RunOf(config, events).episode, RunOf(config, events).decisions;
            && log != []
            && (e.state.Submitted? && e.phase.Draft? ==> IsVerdict(log[|log| - 1].record.evidence.fact, Acceptable))
            && (e.phase.Repair? <==> exists i :: 0 <= i < |log| && IsVerdict(log[i].record.evidence.fact, RepairRequired))
            && (forall i :: 0 <= i < |log| && IsVerdict(log[i].record.evidence.fact, Acceptable) ==> log[i].record.state.Submitted?)
            && (forall i :: 0 <= i < |log| && IsVerdict(log[i].record.evidence.fact, InsufficientContext) ==>
                  log[i].record.state.Stopped?)
  {
    RunsAreChained(config, events);
    LogsAnswer(config, events);
    RunsKeepConfig(config, events);
    RepairIsFlagged(config, events);
    var r := RunOf(config, events);
    RepairIsLogged(r.decisions);
    LastIsLive(r);
    hide Start, Run, Chained, Answers, CountReason;
    forall i | 0 <= i < |r.decisions| ensures RecordKeepsVerdict(r.decisions[i].record) {
      AnswersExplain(r.decisions[i].record);
    }
    assert RecordKeepsVerdict(r.decisions[|r.decisions| - 1].record);
  }

  /** A settled verdict, in the state it was awaited in: an acceptable draft goes out, one to be repaired is opened again. */
  lemma CriticCompletes(e: Episode, call: Call, id: string, latest: Option<EvidenceId>)
    requires call.CallMarkCriticComplete? && Inv(e) && e.Apply(call, id, latest).Success?
    ensures var next := e.Apply(call, id, latest).value.next;
            && e.state.Critic? && e.phase.Draft? && next.source == e.source && next.localCalls == e.localCalls
            && (if !call.settled || call.cancelled then next.state.Stopped?
                else
                  match call.verdict
                  case Acceptable => next.state.Submitted? && next.phase.Draft? && next.checkSource == Some(next.source)
                  case RepairRequired => next.state.Local? && next.phase.Repair? && next.checkSource.None? && next.Remaining() == 4
                  case InsufficientContext => next.state.Stopped?
                  case Unrecognized => false)
  {
    hide IsText, IsHash, ActionsFor, CallsCounted, PendingConsistent, Configured;
  }

  predicate RecordKeepsVerdict(rec: Record) {
    && (IsVerdict(rec.evidence.fact, Acceptable) ==> rec.state.Submitted?)
    && (IsVerdict(rec.evidence.fact, InsufficientContext) ==> rec.state.Stopped?)
    && (rec.state.Submitted? && InPhase(rec, Draft) ==> IsVerdict(rec.evidence.fact, Acceptable))
  }

  lemma RepairIsFlagged(config: Config, events: seq<Event>)
    requires Start(config).Success?
    ensures var r := RunOf(config, events); r.episode.phase.Repair? <==> CountReason(r.decisions, CriticRepairRequired) >= 1
  {
    hide Start, Run, Inv, Measure, Windowed, DuplicatesCounted, Chained, CountReason;
    RunsAreSound(config, events);
  }

  lemma LastIsLive(r: Router)
    requires Chained(r)
    ensures r.decisions != []
    ensures var rec := r.decisions[|r.decisions| - 1].record;
            && rec.state == r.episode.state && rec.source == r.episode.source && rec.checkSource == r.episode.checkSource
            && (r.episode.policy.LocalCriticRepair? ==> InPhase(rec, r.episode.phase))
  {
    hide Episode.AllowedActions, Episode.HandoffCandidate, Episode.Remaining;
  }

  predicate RecordEnds(rec: Record) {
    var fact := rec.evidence.fact;
    && (rec.state.Submitted? ==> IsFresh(rec) && (fact == SubmissionFact(rec.source) || IsVerdict(fact, Acceptable)))
    && (rec.state.Cloud? ==> IsSettledHandoff(fact))
    && (fact.SubmissionFact? && InPhase(rec, Draft) ==> rec.state.Critic?)
    && (fact.HandoffFact? && !IsSettledHandoff(fact) ==> rec.state.Stopped?)
    && (fact.PlanFact? && !(fact.settled && !fact.cancelled) ==> rec.state.Stopped?)
  }

  lemma RecordsEnd(rec: Record)
    requires Answers(rec)
    ensures RecordEnds(rec)
  {
  }

  /**
   * In every run a submitted tree is the fresh tree of the last decision's submission, or of a draft found acceptable; a
   * submitted draft under the critic policy went to the critic; an escalation was settled, under a policy with a cloud,
   * with a call and both reserves left, and any other hand-off and any unsettled plan is a stop.
   */
  lemma EndsAreExplained(config: Config, events: seq<Event>)
    requires Start(config).Success?
    ensures var e, log := RunOf(config, events).episode, RunOf(config, events).decisions;
            && log != [] && (forall i :: 0 <= i < |log| ==> RecordEnds(log[i].record))
            && (e.state.Submitted? ==>
                  && e.checkSource == Some(e.source)
                  && (log[|log| - 1].record.evidence.fact == SubmissionFact(e.source)
                      || IsVerdict(log[|log| - 1].record.evidence.fact, Acceptable)))
            && (e.state.Cloud? ==>
                  && IsSettledHandoff(log[|log| - 1].record.evidence.fact)
                  && !config.policy.LocalOnly? && !config.policy.LocalCriticRepair?)
  {
    RunsAreChained(config, events);
    LogsAnswer(config, events);
    var r := RunOf(config, events);
    LastIsLive(r);
    if r.episode.state.Cloud? {
      CloudNeedsPolicy(config, events);
    }
    hide Start, Run, Chained, Answers;
    forall i | 0 <= i < |r.decisions| ensures RecordEnds(r.decisions[i].record) {
      RecordsEnd(r.decisions[i].record);
    }
  }

  lemma CloudNeedsPolicy(config: Config, events: seq<Event>)
    requires Start(config).Success? && RunOf(config, events).episode.state.Cloud?
    ensures !config.policy.LocalOnly? && !config.policy.LocalCriticRepair?
  {
    RunsAreSound(config, events);
    RunsKeepConfig(config, events);
    hide Start, Run, Measure, Windowed, DuplicatesCounted, OneShot, Chained;
  }

  // ----- The planner's artifact

  /** A settled plan binds exactly the artifact it names, and no later call of the run changes or drops it. */
  lemma {:induction false} PlansBindTheirChecks(config: Config, events: seq<Event>, plan: Event, later: seq<Event>)
    requires Start(config).Success? && plan.call.CallMarkCloudPlanComplete? && plan.call.settled && !plan.call.cancelled
    requires RunOf(config, events).Apply(plan.id, plan.call).Success?
    ensures var e := RunOf(config, events + [plan] + later).episode;
            e.plannerChecks == plan.call.plannerChecks && !e.state.Planner?
    decreases |later|
  {
    hide Start, Sound, Step, Router.Apply;
    var all := events + [plan] + later;
    assert all[..|all| - 1] == (if later == [] then events else events + [plan] + later[..|later| - 1]);
    if later == [] {
      assert all[|all| - 1] == plan;
      PlanBinds(RunOf(config, events), plan);
    } else {
      PlansBindTheirChecks(config, events, plan, later[..|later| - 1]);
      var before := RunOf(config, all[..|all| - 1]);
      assert all[|all| - 1] == later[|later| - 1];
      RunsAreSound(config, all[..|all| - 1]);
      StepKeepsPlan(before, later[|later| - 1]);
    }
  }

  lemma PlanBinds(r: Router, plan: Event)
    requires plan.call.CallMarkCloudPlanComplete? && plan.call.settled && !plan.call.cancelled
    requires r.Apply(plan.id, plan.call).Success?
    ensures Step(r, plan).episode == r.episode.(plannerChecks := plan.call.plannerChecks, state := Local)
  {
    hide IsText, IsHash;
  }

  lemma StepKeepsPlan(r: Router, event: Event)
    requires Sound(r) && !r.episode.state.Planner?
    ensures Step(r, event).episode.plannerChecks == r.episode.plannerChecks && !Step(r, event).episode.state.Planner?
  {
    hide Inv, Episode.Apply, IsText, Chained, OneShot, Windowed, DuplicatesCounted, Measure, Router.RecordFor, Answers;
    if r.Apply(event.id, event.call).Success? {
      var latest := r.LatestEvidenceId();
      MoveSetsOnce(r.episode, event.call, event.id, latest);
      MoveAnswers(r, event.call, event.id, latest);
      LogIsNotEmpty(r);
      LaterLeavesPlanner(r, event.id, r.episode.Apply(event.call, event.id, latest).value);
    }
  }

  lemma LogIsNotEmpty(r: Router)
    requires Chained(r)
    ensures r.decisions != []
  {
    hide Episode.AllowedActions, Episode.HandoffCandidate, Episode.Remaining;
  }

  lemma LaterLeavesPlanner(r: Router, id: string, move: Move)
    requires r.decisions != [] && Answers(r.RecordFor(id, move))
    ensures !move.next.state.Planner?
  {
    hide Episode.AllowedActions, Episode.HandoffCandidate, Episode.Remaining;
  }

  // ----- What a call puts on record

  /** Whole milliseconds of an available time: the last one that has fully passed. */
  predicate RoundsDown(ms: int, seconds: real) {
    ms as real <= seconds * 1000.0 < (ms + 1) as real
  }

  /** Whole milliseconds of a required time: the first one that is enough. */
  predicate RoundsUp(ms: int, seconds: real) {
    (ms - 1) as real < seconds * 1000.0 <= ms as real
  }

  /** The fact on record repeats what its call reported about the tree `source`. */
  predicate Repeats(fact: Fact, call: Call, id: string, source: string, visibleCommand: string) {
    match call
    case CallBeginHostCheck => fact == HostCheckFact(TextDigest(visibleCommand))
    case CallBeforeLocalRequest(budget) =>
      || fact == RequestFact(id) || fact.NoFact?
      || (&& fact.ReserveFact? && budget.Some?
          && RoundsDown(fact.reserve.remainingMs, budget.value.remainingSeconds)
          && RoundsUp(fact.reserve.requestMs, budget.value.requestTimeoutSeconds)
          && RoundsUp(fact.reserve.checkMs, budget.value.checkReserveSeconds)
          && fact.reserve.remainingModelCalls == budget.value.remainingModelCalls)
    case CallObserveCommand(command, output, code, tree) =>
      fact == CommandFact(Signature(TextDigest(command), TextDigest(output), code, tree), tree != source)
    case CallObserveVisibleCheck(command, output, code, before, after, completed, timedOut, _, planner) =>
      && fact.CheckFact?
      && fact == CheckFact(TextDigest(command), TextDigest(output), code, before, after, completed, timedOut, fact.planner)
      && command == visibleCommand && (completed && !timedOut ==> fact.planner == planner)
    case CallRequestHelp(message) => fact == HelpFact(message)
    case CallSubmit(tree) => fact == SubmissionFact(tree)
    case CallMarkCriticStarted(request, tree, patch, bundle, body) => fact == CriticStartFact(request, tree, patch, bundle, body)
    case CallMarkCriticComplete(request, tree, receipt, verdict, settled, cancelled) =>
      fact == CriticCompleteFact(request, settled, cancelled, receipt, verdict, tree)
    case CallMarkCloudPlanComplete(settled, cancelled, _) => fact == PlanFact(settled, cancelled)
    case CallConfirmHandoff(settled, cancelled, times) =>
      && fact.HandoffFact? && fact.settled == settled && fact.cancelled == cancelled
      && fact.remainingModelCalls == times.remainingModelCalls && RoundsDown(fact.remainingMs, times.remainingSeconds)
      && RoundsUp(fact.requestMs, times.requestTimeoutSeconds) && RoundsUp(fact.checkMs, times.checkReserveSeconds)
    case CallStop(_) => fact.NoFact?
  }

  lemma MillisecondsRound(seconds: real)
    ensures Milliseconds(seconds, false).Success? ==> RoundsDown(Milliseconds(seconds, false).value, seconds)
    ensures Milliseconds(seconds, true).Success? ==> RoundsUp(Milliseconds(seconds, true).value, seconds)
  {
  }

  lemma BudgetRounds(times: TimeBudget)
    ensures Milliseconds(times.remainingSeconds, false).Success? ==>
              RoundsDown(Milliseconds(times.remainingSeconds, false).value, times.remainingSeconds)
    ensures Milliseconds(times.requestTimeoutSeconds, true).Success? ==>
              RoundsUp(Milliseconds(times.requestTimeoutSeconds, true).value, times.requestTimeoutSeconds)
    ensures Milliseconds(times.checkReserveSeconds, true).Success? ==>
              RoundsUp(Milliseconds(times.checkReserveSeconds, true).value, times.checkReserveSeconds)
  {
    MillisecondsRound(times.remainingSeconds);
    MillisecondsRound(times.requestTimeoutSeconds);
    MillisecondsRound(times.checkReserveSeconds);
  }

  lemma RequestRepeats(e: Episode, id: string, budget: Option<TimeBudget>)
    requires e.BeforeLocalRequest(id, budget).Success?
    ensures Repeats(e.BeforeLocalRequest(id, budget).value.fact, CallBeforeLocalRequest(budget), id, e.source, e.visibleCommand)
  {
    hide Milliseconds, RoundsDown, RoundsUp, ActionsFor, Episode.AllowedActions, Episode.Remaining;
    if budget.Some? {
      BudgetRounds(budget.value);
    }
  }

  lemma HandoffRepeats(e: Episode, settled: bool, cancelled: bool, times: TimeBudget, latest: Option<EvidenceId>,
                       id: string)
    requires e.ConfirmHandoff(settled, cancelled, times, latest).Success?
    ensures Repeats(e.ConfirmHandoff(settled, cancelled, times, latest).value.fact,
                    CallConfirmHandoff(settled, cancelled, times), id, e.source, e.visibleCommand)
  {
    hide Milliseconds, RoundsDown, RoundsUp;
    BudgetRounds(times);
  }

  lemma ObservationRepeats(e: Episode, call: Call, id: string, latest: Option<EvidenceId>)
    requires Observes(call) && e.Apply(call, id, latest).Success?
    ensures Repeats(e.Apply(call, id, latest).value.fact, call, id, e.source, e.visibleCommand)
  {
    hide Episode.Apply, Episode.Observed, Episode.CheckObserved;
    if call.CallObserveCommand? {
      CommandApplied(e, call, id, latest);
    } else {
      CheckApplied(e, call, id, latest);
      CheckRepeats(e, call, id, latest);
    }
  }

  lemma CheckRepeats(e: Episode, call: Call, id: string, latest: Option<EvidenceId>)
    requires call.CallObserveVisibleCheck? && e.Apply(call, id, latest).Success?
    ensures var fact := e.Apply(call, id, latest).value.fact;
            fact.CheckFact? && fact.command == TextDigest(call.command) && fact.output == TextDigest(call.output)
  {
    hide IsText, IsHash, Episode.ValidatePlannerCheck, Episode.CheckCompleted, Episode.Unchecked;
    CompletedFact(e, call);
  }

  lemma CompletedFact(e: Episode, call: Call)
    requires call.CallObserveVisibleCheck?
    ensures forall fact: Fact :: fact.CheckFact? ==> e.CheckObserved(fact).fact == fact
  {
    hide Episode.AllowedActions, Episode.Remaining, Episode.Fresh;
  }

  lemma PhaseRepeats(e: Episode, call: Call, id: string, latest: Option<EvidenceId>)
    requires !Observes(call) && !call.CallBeforeLocalRequest? && !call.CallConfirmHandoff? && e.Apply(call, id, latest).Success?
    ensures Repeats(e.Apply(call, id, latest).value.fact, call, id, e.source, e.visibleCommand)
  {
    hide IsText, IsHash, Episode.Remaining, Episode.Fresh, Episode.PendingCleared, Episode.RetainedCheck, Episode.HostCheckDue;
  }

  lemma MoveRepeats(e: Episode, call: Call, id: string, latest: Option<EvidenceId>)
    requires e.Apply(call, id, latest).Success?
    ensures Repeats(e.Apply(call, id, latest).value.fact, call, id, e.source, e.visibleCommand)
  {
    hide Repeats, Episode.BeforeLocalRequest, Episode.ConfirmHandoff, Episode.ObserveCommand, Episode.ObserveVisibleCheck,
         Episode.MarkCriticComplete, Episode.SubmitSource;
    if Observes(call) {
      ObservationRepeats(e, call, id, latest);
    } else if call.CallBeforeLocalRequest? {
      RequestRepeats(e, id, call.budget);
    } else if call.CallConfirmHandoff? {
      HandoffRepeats(e, call.settled, call.cancelled, call.times, latest, id);
    } else {
      PhaseRepeats(e, call, id, latest);
    }
  }

  /** Every accepted call of every run is repeated by the fact of the decision it appends. */
  lemma CallsAreOnRecord(config: Config, events: seq<Event>, event: Event)
    requires Start(config).Success? && RunOf(config, events).Apply(event.id, event.call).Success?
    ensures var r, next := RunOf(config, events), Step(RunOf(config, events), event);
            && |next.decisions| == |r.decisions| + 1 && next.decisions[|r.decisions|].record.eventId == event.id
            && Repeats(next.decisions[|r.decisions|].record.evidence.fact, event.call, event.id, r.episode.source, config.command)
  {
    hide Start, Run, IsText, Episode.Apply, Repeats, Episode.AllowedActions, Episode.HandoffCandidate, Episode.Remaining;
    RunsKeepConfig(config, events);
    var r := RunOf(config, events);
    MoveRepeats(r.episode, event.call, event.id, r.LatestEvidenceId());
  }
}
