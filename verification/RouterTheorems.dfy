/** The promises of the checkpoint policy, over every run of one episode. */
module RouterTheorems {
  import opened Wrappers
  import opened RouterTypes
  import opened RouterSpec
  import opened RouterInvariants
  import opened RouterHistory

  /** Everything that holds after the start and after every call. */
  ghost predicate Sound(r: Router) {
    && Inv(r.episode) && Chained(r) && OneShot(r)
    && |r.decisions| + Measure(r.episode) <= 2 * r.episode.limit + 7
    && Windowed(r.episode, HasCompletedCheck(r.decisions))
    && DuplicatesCounted(r.episode, Observations(r.decisions))
  }

  lemma StartIsSound(config: Config)
    requires Start(config).Success?
    ensures Sound(Start(config).value)
  {
    hide IsText, IsHash;
    StartEstablishesInv(config);
    StartLog(config);
    var r := Start(config).value;
    OneDecision(r.decisions[0]);
    assert r.decisions == [r.decisions[0]];
  }

  lemma StartLog(config: Config)
    requires Start(config).Success?
    ensures var r := Start(config).value;
            && Chained(r) && |r.decisions| == 1 && !r.decisions[0].record.evidence.fact.CheckFact?
            && !r.decisions[0].record.evidence.fact.CommandFact? && !IsOneShot(r.decisions[0].record.reason)
  {
    hide IsText, IsHash, ActionsFor;
    var e := Start(config).value.episode;
    var planned := config.policy.CloudPlanLocal? || config.policy.CloudPlanLocalReview?;
    RecordedKeepsChain(Router(e, {}, []), "initial",
                       Move(e, Continue, if planned then CloudPlanRequired else Initialized,
                            InitialFact(TextDigest(config.command), config.limit)));
  }

  lemma OneDecision(d: Decision)
    requires !d.record.evidence.fact.CheckFact? && !d.record.evidence.fact.CommandFact? && !IsOneShot(d.record.reason)
    ensures Observations([d]) == [] && !HasCompletedCheck([d])
    ensures forall reason :: IsOneShot(reason) ==> CountReason([d], reason) == 0
  {
    assert [d][..0] == [];
  }

  lemma MoveKeepsWindow(e: Episode, call: Call, id: string, latest: Option<EvidenceId>, seen: bool)
    requires Inv(e) && e.Apply(call, id, latest).Success? && Windowed(e, seen)
    ensures var move := e.Apply(call, id, latest).value; Windowed(move.next, seen || IsCompletedCheck(move.fact))
  {
    hide Inv, Episode.Apply, Windowed;
    if Observes(call) {
      ObservationWindow(e, call, id, latest, seen);
    } else if Requests(call) {
      RequestWindow(e, call, id, latest, seen);
      RequestApplied(e, call, id, latest);
    } else {
      PhaseWindow(e, call, id, latest, seen);
      PhaseApplied(e, call, id, latest);
    }
  }

  lemma MoveKeepsDuplicates(e: Episode, call: Call, id: string, latest: Option<EvidenceId>, seen: seq<Fact>)
    requires Inv(e) && e.Apply(call, id, latest).Success? && DuplicatesCounted(e, seen)
    ensures var move := e.Apply(call, id, latest).value;
            DuplicatesCounted(move.next, Remember(seen, move.verdict, move.reason, move.fact))
  {
    hide Inv, Episode.Apply, DuplicatesCounted;
    if call.CallObserveCommand? {
      CommandDuplicates(e, call, id, latest, seen);
    } else if call.CallObserveVisibleCheck? {
      CheckApplied(e, call, id, latest);
      CheckDuplicates(e, e.Apply(call, id, latest).value.fact, seen);
    } else if Requests(call) {
      RequestDuplicates(e, call, id, latest, seen);
    } else {
      PhaseDuplicates(e, call, id, latest, seen);
    }
  }

  lemma StepKeepsChain(r: Router, event: Event)
    requires Chained(r) && r.Apply(event.id, event.call).Success?
    ensures var next := Step(r, event);
            Chained(next) && |next.decisions| == |r.decisions| + 1 && next.decisions[..|r.decisions|] == r.decisions
  {
    hide Episode.Apply, IsText, Describes, Router.RecordFor;
    var move := r.episode.Apply(event.call, event.id, r.LatestEvidenceId()).value;
    RecordedKeepsChain(r, event.id, move);
  }

  lemma StepKeepsOneShot(r: Router, event: Event)
    requires Inv(r.episode) && OneShot(r) && r.Apply(event.id, event.call).Success?
    ensures OneShot(Step(r, event))
  {
    hide Inv, Episode.Apply, IsText, Flagged, Episode.EvidenceFor, Episode.AllowedActions;
    var e, latest := r.episode, r.LatestEvidenceId();
    var next := e.Apply(event.call, event.id, latest).value.next;
    var last := Step(r, event).decisions[|r.decisions|];
    MoveSetsOnce(e, event.call, event.id, latest);
    FlagExtends(r.decisions, last, HostCheckStarted, e.hostCheckUsed, next.hostCheckUsed);
    FlagExtends(r.decisions, last, CriticRequestStarted, e.criticUsed, next.criticUsed);
    FlagExtends(r.decisions, last, CriticRepairRequired, e.phase.Repair?, next.phase.Repair?);
    FlagExtends(r.decisions, last, HandoffConfirmed, e.handoffUsed, next.handoffUsed);
  }

  lemma StepKeepsHistory(r: Router, event: Event)
    requires Sound(r) && r.Apply(event.id, event.call).Success?
    ensures var next := Step(r, event);
            && Inv(next.episode) && Measure(next.episode) < Measure(r.episode) && next.episode.limit == r.episode.limit
            && Windowed(next.episode, HasCompletedCheck(next.decisions))
            && DuplicatesCounted(next.episode, Observations(next.decisions))
  {
    hide Inv, Episode.Apply, Measure, Windowed, DuplicatesCounted, IsText, Chained, OneShot;
    var e, latest := r.episode, r.LatestEvidenceId();
    var move := e.Apply(event.call, event.id, latest).value;
    var next := r.Recorded(event.id, move);
    var last := next.decisions[|r.decisions|];
    assert next.decisions == r.decisions + [last] && next.decisions[..|r.decisions|] == r.decisions;
    MeasureDecreases(e, event.call, event.id, latest);
    MoveSetsOnce(e, event.call, event.id, latest);
    MoveKeepsWindow(e, event.call, event.id, latest, HasCompletedCheck(r.decisions));
    ExtendedCheckHistory(r.decisions, last);
    MoveKeepsDuplicates(e, event.call, event.id, latest, Observations(r.decisions));
  }

  lemma StepKeepsSound(r: Router, event: Event)
    requires Sound(r)
    ensures Sound(Step(r, event))
    ensures r.decisions <= Step(r, event).decisions
    ensures r.Apply(event.id, event.call).Success? ==> |Step(r, event).decisions| == |r.decisions| + 1
  {
    hide Inv, Router.Apply, Measure, Windowed, DuplicatesCounted, Chained, OneShot, HasCompletedCheck;
    if r.Apply(event.id, event.call).Success? {
      StepKeepsChain(r, event);
      StepKeepsOneShot(r, event);
      StepKeepsHistory(r, event);
    }
  }

  lemma ExtendedCheckHistory(log: seq<Decision>, last: Decision)
    ensures HasCompletedCheck(log + [last]) <==> HasCompletedCheck(log) || IsCompletedCheck(last.record.evidence.fact)
  {
    var longer := log + [last];
    if HasCompletedCheck(log) {
      var i :| 0 <= i < |log| && IsCompletedCheck(log[i].record.evidence.fact);
      assert longer[i] == log[i];
    }
    if IsCompletedCheck(last.record.evidence.fact) {
      assert longer[|log|] == last;
    }
  }

  lemma {:induction false} RunKeepsSound(r: Router, events: seq<Event>)
    requires Sound(r)
    ensures Sound(Run(r, events))
    ensures r.decisions <= Run(r, events).decisions
  {
    hide Sound, Step;
    if events != [] {
      RunKeepsSound(r, events[..|events| - 1]);
      StepKeepsSound(Run(r, events[..|events| - 1]), events[|events| - 1]);
    }
  }

  // ----- The evidence chain over whole runs

  function RunOf(config: Config, events: seq<Event>): Router
    requires Start(config).Success?
  {
    Run(Start(config).value, events)
  }

  /** Every run is sound. */
  lemma RunsAreSound(config: Config, events: seq<Event>)
    requires Start(config).Success?
    ensures Sound(RunOf(config, events))
  {
    StartIsSound(config);
    RunKeepsSound(Start(config).value, events);
  }

  lemma RunsAreChained(config: Config, events: seq<Event>)
    requires Start(config).Success?
    ensures Chained(RunOf(config, events))
  {
    RunsAreSound(config, events);
  }

  /**
   * After any run the log is append-only, numbered without gaps, linked by evidence id and free of repeated event ids,
   * and its last record is the live state, field by field.
   */
  lemma {:induction false} LogIsChained(config: Config, events: seq<Event>, k: nat)
    requires Start(config).Success? && k <= |events|
    ensures RunOf(config, events[..k]).decisions <= RunOf(config, events).decisions
    ensures Chained(RunOf(config, events))
    decreases |events| - k
  {
    hide Step, Start, Sound, Chained;
    RunsAreChained(config, events);
    if k == |events| {
      assert events[..k] == events;
    } else {
      LogIsChained(config, events, k + 1);
      RunsAreSound(config, events[..k]);
      assert events[..k + 1][..k] == events[..k];
      StepKeepsSound(RunOf(config, events[..k]), events[k]);
    }
  }

  /** The first decision records the whole configuration. */
  lemma FirstDecisionIsConfig(config: Config, events: seq<Event>)
    requires Start(config).Success?
    ensures var log := RunOf(config, events).decisions;
            && log != [] && log[0].record.policy == config.policy && log[0].record.source == config.tree
            && log[0].record.evidence.schedule == config.schedule
            && log[0].record.evidence.fact == InitialFact(TextDigest(config.command), config.limit)
  {
    StartIsSound(config);
    RunKeepsSound(Start(config).value, events);
    FirstRecord(config);
    hide Start, Run, Sound;
  }

  lemma FirstRecord(config: Config)
    requires Start(config).Success?
    ensures var log := Start(config).value.decisions;
            && |log| == 1 && log[0].record.policy == config.policy && log[0].record.source == config.tree
            && log[0].record.evidence.schedule == config.schedule
            && log[0].record.evidence.fact == InitialFact(TextDigest(config.command), config.limit)
  {
    hide IsText, IsHash, ActionsFor;
  }

  /** What a chained and counted log tells about the live state. */
  predicate SameLiveState(e: Episode, f: Episode) {
    && e.state == f.state && e.source == f.source && e.checkSource == f.checkSource && e.localCalls == f.localCalls
    && e.Remaining() == f.Remaining() && e.failedChecks == f.failedChecks && e.duplicates == f.duplicates
    && e.lastSignature == f.lastSignature && e.plannerChecks == f.plannerChecks && e.AllowedActions() == f.AllowedActions()
    && e.hostCheckUsed == f.hostCheckUsed && e.criticUsed == f.criticUsed && e.handoffUsed == f.handoffUsed && e.phase == f.phase
    && (e.policy.LocalCriticRepair? ==> e.repairStart == f.repairStart && e.criticReceipt == f.criticReceipt)
  }

  lemma LogDecidesLiveState(r: Router, r': Router)
    requires Sound(r) && Sound(r') && r.decisions == r'.decisions
    ensures r.eventIds == r'.eventIds && SameLiveState(r.episode, r'.episode)
  {
    hide Inv, Measure, Windowed, Observations, CountReason, ActionsFor;
    assert Flagged(r.decisions, HostCheckStarted, r.episode.hostCheckUsed);
  }

  /**
   * Two runs that end in the same evidence id have the same configuration and the same whole history, and their live
   * states agree on everything that a record carries and that the log counts.
   */
  lemma EvidenceIdentifiesHistory(config: Config, events: seq<Event>, config': Config, events': seq<Event>)
    requires Start(config).Success? && Start(config').Success?
    requires RunOf(config, events).LatestEvidenceId() == RunOf(config', events').LatestEvidenceId()
    ensures var r, r' := RunOf(config, events), RunOf(config', events');
            && config == config' && r.decisions == r'.decisions && r.eventIds == r'.eventIds
            && SameLiveState(r.episode, r'.episode)
  {
    RunsAreSound(config, events);
    RunsAreSound(config', events');
    hide Inv, Measure, OneShot, Windowed, DuplicatesCounted, SameLiveState, Start, Run;
    EqualTipsMeanEqualLogs(RunOf(config, events).decisions, RunOf(config', events').decisions);
    FirstDecisionIsConfig(config, events);
    FirstDecisionIsConfig(config', events');
    LogDecidesLiveState(RunOf(config, events), RunOf(config', events'));
  }

  // ----- Finite runs, absorbing states and one-shot phases

  ghost predicate SameConfig(e: Episode, next: Episode) {
    next.policy == e.policy && next.limit == e.limit && next.schedule == e.schedule && next.visibleCommand == e.visibleCommand
  }

  lemma StepKeepsConfig(r: Router, event: Event)
    requires Sound(r)
    ensures SameConfig(r.episode, Step(r, event).episode)
  {
    hide Inv, Episode.Apply, IsText, Chained, Windowed, DuplicatesCounted, OneShot, Measure;
    if r.Apply(event.id, event.call).Success? {
      MoveSetsOnce(r.episode, event.call, event.id, r.LatestEvidenceId());
    }
  }

  lemma {:induction false} RunKeepsConfig(r: Router, events: seq<Event>)
    requires Sound(r)
    ensures SameConfig(r.episode, Run(r, events).episode)
  {
    hide Sound, Step;
    if events != [] {
      RunKeepsConfig(r, events[..|events| - 1]);
      RunKeepsSound(r, events[..|events| - 1]);
      StepKeepsConfig(Run(r, events[..|events| - 1]), events[|events| - 1]);
    }
  }

  lemma StartKeepsConfig(config: Config)
    requires Start(config).Success?
    ensures var e := Start(config).value.episode;
            e.policy == config.policy && e.limit == config.limit && e.schedule == config.schedule
            && e.visibleCommand == config.command
  {
    hide IsText, IsHash;
  }

  lemma RunsKeepConfig(config: Config, events: seq<Event>)
    requires Start(config).Success?
    ensures var e := RunOf(config, events).episode;
            e.policy == config.policy && e.limit == config.limit && e.schedule == config.schedule
            && e.visibleCommand == config.command
  {
    hide Start, Run, Sound;
    StartIsSound(config);
    StartKeepsConfig(config);
    RunKeepsConfig(Start(config).value, events);
  }

  lemma MeasureIsNonnegative(e: Episode)
    requires Inv(e)
    ensures Measure(e) >= 0
  {
  }

  /** However many calls a host makes, it gets at most `2 * limit + 7` decisions: the rest are rejected. */
  lemma RunsAreFinite(config: Config, events: seq<Event>)
    requires Start(config).Success?
    ensures |RunOf(config, events).decisions| <= 2 * config.limit + 7
  {
    hide Start, Run, Inv, Measure, Chained, Windowed, DuplicatesCounted, OneShot;
    RunsAreSound(config, events);
    RunsKeepConfig(config, events);
    MeasureIsNonnegative(RunOf(config, events).episode);
  }

  /** No call is accepted once the episode is submitted or stopped. */
  lemma TerminalIsAbsorbing(config: Config, events: seq<Event>, event: Event)
    requires Start(config).Success?
    requires var state := RunOf(config, events).episode.state; state.Submitted? || state.Stopped?
    ensures Step(RunOf(config, events), event) == RunOf(config, events)
  {
    hide Episode.Apply, Chained, Windowed, DuplicatesCounted, OneShot, IsText, Inv;
    RunsAreSound(config, events);
    var r := RunOf(config, events);
    if r.Apply(event.id, event.call).Success? {
      MeasureDecreases(r.episode, event.call, event.id, r.LatestEvidenceId());
    }
  }

  /** A run starts at most one host check, one critic request, one repair phase and one escalation, within the call limits. */
  lemma PhasesAreOneShot(config: Config, events: seq<Event>)
    requires Start(config).Success?
    ensures var r := RunOf(config, events);
            && CountReason(r.decisions, HostCheckStarted) <= 1 && CountReason(r.decisions, CriticRequestStarted) <= 1
            && CountReason(r.decisions, CriticRepairRequired) <= 1 && CountReason(r.decisions, HandoffConfirmed) <= 1
            && (config.policy.LocalOnly? || config.policy.LocalCriticRepair? ==> CountReason(r.decisions, HandoffConfirmed) == 0)
            && r.episode.localCalls <= config.limit
            && (config.policy.LocalCriticRepair? ==>
                  r.episode.localCalls <= 12 && r.episode.PhaseCalls() <= if r.episode.phase.Repair? then 4 else 8)
  {
    hide Start, Run, Chained, Windowed, DuplicatesCounted, Measure, CountReason;
    RunsAreSound(config, events);
    RunsKeepConfig(config, events);
  }

  // ----- Check windows

  lemma RecordedCountsFailures(r: Router, id: string, move: Move)
    ensures FailureCount(r.Recorded(id, move).decisions)
            == FailureCount(r.decisions) + if IsFailedCheck(move.fact) then 1 else 0
  {
    hide IsFailedCheck;
    var next := r.Recorded(id, move);
    assert next.decisions[..|r.decisions|] == r.decisions;
  }

  lemma StepCountsFailures(r: Router, event: Event)
    requires Inv(r.episode) && r.episode.failedChecks == Min(FAILED_CHECK_LIMIT, FailureCount(r.decisions))
    ensures Step(r, event).episode.failedChecks == Min(FAILED_CHECK_LIMIT, FailureCount(Step(r, event).decisions))
  {
    hide Inv, Episode.Apply, IsText, IsFailedCheck, FailureCount;
    if r.Apply(event.id, event.call).Success? {
      MoveCountsFailures(r.episode, event.call, event.id, r.LatestEvidenceId());
      RecordedCountsFailures(r, event.id, r.episode.Apply(event.call, event.id, r.LatestEvidenceId()).value);
    }
  }

  /**
   * The failed-check counter is cumulative over the whole episode, across the repair phase: it is the number of checks of
   * the log that ran to their end and did not pass, capped at two.
   */
  lemma {:induction false} FailuresAreCounted(config: Config, events: seq<Event>)
    requires Start(config).Success?
    ensures var r := RunOf(config, events); r.episode.failedChecks == Min(2, FailureCount(r.decisions))
    decreases |events|
  {
    if events == [] {
      StartHasNoFailure(config);
    } else {
      FailuresAreCounted(config, events[..|events| - 1]);
      RunsAreSound(config, events[..|events| - 1]);
      assert Inv(RunOf(config, events[..|events| - 1]).episode);
      hide Start, Step, Sound, Inv;
      StepCountsFailures(RunOf(config, events[..|events| - 1]), events[|events| - 1]);
    }
  }

  lemma StartHasNoFailure(config: Config)
    requires Start(config).Success?
    ensures var r := Start(config).value; r.episode.failedChecks == 0 && FailureCount(r.decisions) == 0
  {
    FirstRecord(config);
    var log := Start(config).value.decisions;
    assert log[..0] == [];
    hide IsText, IsHash, ActionsFor;
  }

  /**
   * A completed visible check stands behind every late state of the two windowed schedules, and the failed checks of the
   * whole episode never reach two while it is local.
   */
  lemma WindowsHoldACheck(config: Config, events: seq<Event>)
    requires Start(config).Success?
    ensures var r := RunOf(config, events);
            && (config.schedule.RepairWindow? && r.episode.state.Local? && r.episode.pendingRequest.None? && r.episode.Remaining() <= 3 ==>
                  HasCompletedCheck(r.decisions))
            && (config.schedule.HostRepairWindow? && r.episode.localCalls > Min(4, config.limit - 4) ==>
                  HasCompletedCheck(r.decisions))
            && r.episode.failedChecks == Min(2, FailureCount(r.decisions))
            && (r.episode.state.Local? ==> r.episode.failedChecks < 2)
  {
    hide *;
    FailuresAreCounted(config, events);
    RunsAreSound(config, events);
    RunsKeepConfig(config, events);
    var r := RunOf(config, events);
    SoundIsWindowed(r);
    WindowsOfState(r.episode, HasCompletedCheck(r.decisions));
  }

  lemma SoundIsWindowed(r: Router)
    requires Sound(r)
    ensures Inv(r.episode) && Windowed(r.episode, HasCompletedCheck(r.decisions))
  {
    hide Inv, Chained, OneShot, Measure, Windowed, DuplicatesCounted;
  }

  lemma WindowsOfState(e: Episode, seen: bool)
    requires Inv(e) && Windowed(e, seen)
    ensures e.schedule.RepairWindow? && e.state.Local? && e.pendingRequest.None? && e.Remaining() <= 3 ==> seen
    ensures e.schedule.HostRepairWindow? && e.localCalls > Min(4, e.limit - 4) ==> seen
    ensures e.state.Local? ==> e.failedChecks < 2
  {
    hide ActionsFor;
  }

  // ----- Duplicate observations

  /**
   * The duplicate counter is the length of the longest agreeing suffix of the observations since the last completed
   * check or repair start, capped at three; and a command observation stops the local phase for repetition exactly
   * when that suffix reaches three.
   */
  lemma DuplicatesAreTheLongestAgreement(config: Config, events: seq<Event>)
    requires Start(config).Success?
    ensures var r := RunOf(config, events);
            var seen := Observations(r.decisions);
            && (exists k: nat :: Agree(seen, k) && (forall j: nat :: Agree(seen, j) ==> j <= k) && r.episode.duplicates == Min(3, k))
  {
    hide Chained, Windowed, Measure, OneShot, Inv;
    RunsAreSound(config, events);
    StreakIsLongestAgreement(Observations(RunOf(config, events).decisions));
  }

  lemma RepetitionFiresOnThree(config: Config, events: seq<Event>, event: Event)
    requires Start(config).Success? && event.call.CallObserveCommand?
    requires RunOf(config, events).Apply(event.id, event.call).Success?
    ensures var next := Step(RunOf(config, events), event);
            next.decisions[|next.decisions| - 1].record.reason == RepeatedObservation
            <==> Agree(Observations(next.decisions), 3)
  {
    hide Inv, Episode.Apply, IsText, Chained, Windowed, Measure, OneShot, Streak, Agree;
    var r := RunOf(config, events);
    RunsAreSound(config, events);
    StepKeepsSound(r, event);
    var next := Step(r, event);
    var seen := Observations(next.decisions);
    StreakIsLongestAgreement(seen);
    if Streak(seen) >= 3 {
      AgreementShrinks(seen, Streak(seen), 3);
    }
    RepetitionMove(r.episode, event, r.LatestEvidenceId());
  }

  lemma RepetitionMove(e: Episode, event: Event, latest: Option<EvidenceId>)
    requires Inv(e) && event.call.CallObserveCommand? && e.Apply(event.call, event.id, latest).Success?
    ensures var move := e.Apply(event.call, event.id, latest).value;
            move.reason == RepeatedObservation <==> move.next.duplicates >= 3
  {
    hide IsText, IsHash, ActionsFor;
  }

  lemma AgreementShrinks(observations: seq<Fact>, k: nat, j: nat)
    requires Agree(observations, k) && j <= k
    ensures Agree(observations, j)
  {
  }
}
