/** Submission safety, the finishing reserve and the hand-off reserve, over every run of one episode. */
module RouterSafety {
  import opened Wrappers
  import opened RouterTypes
  import opened RouterSpec
  import opened RouterInvariants
  import opened RouterHistory
  import opened RouterTheorems

  // ----- Submission safety

  /** Event `i` ran the exact configured check, and the planner check bound to the episode, to a pass on `e`'s tree. */
  ghost predicate PassedAt(config: Config, events: seq<Event>, i: nat, e: Episode)
    requires Start(config).Success? && i < |events|
  {
    var call := events[i].call;
    && RunOf(config, events[..i]).Apply(events[i].id, call).Success?
    && call.CallObserveVisibleCheck? && call.command == config.command && call.returncode == 0
    && call.before == e.source && call.after == e.source && call.completed && !call.timedOut
    && (e.plannerChecks.Some? ==>
          call.planner.Some? && call.planner.value.artifact == e.plannerChecks.value && call.planner.value.passed
          && call.planner.value.completed && !call.planner.value.timedOut)
  }

  /** The check at event `i` passed on the current tree, and neither tree nor phase has changed since. */
  ghost predicate CheckStands(config: Config, events: seq<Event>, i: nat)
    requires Start(config).Success? && i < |events|
  {
    var e := RunOf(config, events).episode;
    && PassedAt(config, events, i, e)
    && forall k :: i < k <= |events| ==>
         RunOf(config, events[..k]).episode.source == e.source && RunOf(config, events[..k]).episode.phase == e.phase
  }

  /** Freshness survives a call only unchanged; it is created only by a passing check. */
  lemma FreshnessHasASource(e: Episode, call: Call, id: string, latest: Option<EvidenceId>)
    requires Inv(e) && e.Apply(call, id, latest).Success? && e.Apply(call, id, latest).value.next.Fresh()
    ensures var next := e.Apply(call, id, latest).value.next;
            && next.plannerChecks == e.plannerChecks
            && (!call.CallObserveVisibleCheck? ==> e.Fresh() && next.source == e.source && next.phase == e.phase)
            && (call.CallObserveVisibleCheck? ==>
                  PassingCheck(e.Apply(call, id, latest).value.fact) && next.source == call.after)
  {
    hide Episode.Apply;
    if call.CallObserveCommand? {
      CommandApplied(e, call, id, latest);
    } else if call.CallObserveVisibleCheck? {
      CheckApplied(e, call, id, latest);
      CheckShape(e, e.Apply(call, id, latest).value.fact);
    } else if Requests(call) {
      RequestApplied(e, call, id, latest);
    } else {
      PhaseApplied(e, call, id, latest);
    }
  }

  lemma CheckStandsAtLast(config: Config, events: seq<Event>)
    requires Start(config).Success? && events != [] && RunOf(config, events).episode.Fresh()
    requires var event := events[|events| - 1];
             RunOf(config, events[..|events| - 1]).Apply(event.id, event.call).Success? && event.call.CallObserveVisibleCheck?
    ensures CheckStands(config, events, |events| - 1)
  {
    hide IsText, IsHash, Chained, OneShot, Windowed, DuplicatesCounted, Measure, Episode.Apply, Inv, Episode.CheckObserved;
    var shorter, event := events[..|events| - 1], events[|events| - 1];
    var before := RunOf(config, shorter);
    StartIsSound(config);
    RunsAreSound(config, shorter);
    RunKeepsConfig(Start(config).value, shorter);
    FreshnessHasASource(before.episode, event.call, event.id, before.LatestEvidenceId());
    CheckApplied(before.episode, event.call, event.id, before.LatestEvidenceId());
    assert events[..|events|] == events;
  }

  lemma CheckStandsStill(config: Config, events: seq<Event>, i: nat)
    requires Start(config).Success? && i < |events| - 1 && CheckStands(config, events[..|events| - 1], i)
    requires var e, e' := RunOf(config, events).episode, RunOf(config, events[..|events| - 1]).episode;
             e.source == e'.source && e.phase == e'.phase && e.plannerChecks == e'.plannerChecks
    ensures CheckStands(config, events, i)
  {
    hide Start, Run;
    var shorter := events[..|events| - 1];
    assert shorter[..i] == events[..i];
    assert PassedAt(config, shorter, i, RunOf(config, shorter).episode);
    forall k | i < k <= |events|
      ensures RunOf(config, events[..k]).episode.source == RunOf(config, events).episode.source
      ensures RunOf(config, events[..k]).episode.phase == RunOf(config, events).episode.phase
    {
      if k < |events| {
        assert shorter[..k] == events[..k];
      } else {
        assert events[..k] == events;
      }
    }
  }

  /** Whenever the check is fresh, an earlier call of the run is the check that stands behind it. */
  lemma {:induction false} FreshMeansCheckStands(config: Config, events: seq<Event>)
    requires Start(config).Success? && RunOf(config, events).episode.Fresh()
    ensures exists i: nat :: i < |events| && CheckStands(config, events, i)
  {
    hide Inv, Episode.Apply, IsText, IsHash, Chained, OneShot, Windowed, DuplicatesCounted, Measure, CheckStands;
    if events != [] {
      var shorter, event := events[..|events| - 1], events[|events| - 1];
      var before := RunOf(config, shorter);
      RunsAreSound(config, shorter);
      if before.Apply(event.id, event.call).Success? {
        FreshnessHasASource(before.episode, event.call, event.id, before.LatestEvidenceId());
      }
      if before.Apply(event.id, event.call).Success? && event.call.CallObserveVisibleCheck? {
        CheckStandsAtLast(config, events);
      } else {
        FreshMeansCheckStands(config, shorter);
        var i: nat :| i < |shorter| && CheckStands(config, shorter, i);
        CheckStandsStill(config, events, i);
      }
    }
  }

  /**
   * A submitted episode, and a draft handed to the critic, carries a tree on which the exact configured check
   * completed with code 0 and unchanged source, together with the bound planner check, in the phase that submits it
   * (draft or repair) and with no source change since. Rejected calls are part of the run.
   */
  lemma SubmissionsAreChecked(config: Config, events: seq<Event>)
    requires Start(config).Success?
    requires var state := RunOf(config, events).episode.state; state.Submitted? || state.Critic?
    ensures exists i: nat :: i < |events| && CheckStands(config, events, i)
  {
    hide CheckStands, Chained, OneShot, Windowed, DuplicatesCounted, Measure;
    RunsAreSound(config, events);
    FreshMeansCheckStands(config, events);
  }

  // ----- The finishing reserve

  /** The texts an episode carries were validated when it took them. */
  ghost predicate TextsValid(e: Episode) {
    IsHash(e.source) && IsText(e.visibleCommand, 32768, true) && (e.plannerChecks.Some? ==> IsHash(e.plannerChecks.value))
  }

  lemma MoveKeepsTexts(e: Episode, call: Call, id: string, latest: Option<EvidenceId>)
    requires Inv(e) && TextsValid(e) && e.Apply(call, id, latest).Success?
    ensures TextsValid(e.Apply(call, id, latest).value.next)
  {
    hide IsText, IsHash, Inv, Episode.Apply;
    MoveSetsOnce(e, call, id, latest);
    if call.CallObserveCommand? {
      CommandApplied(e, call, id, latest);
      CommandTexts(e, call, id, latest);
    } else if call.CallObserveVisibleCheck? {
      CheckApplied(e, call, id, latest);
      CheckShape(e, e.Apply(call, id, latest).value.fact);
      CheckTexts(e, call, id, latest);
    } else if Requests(call) {
      RequestApplied(e, call, id, latest);
    } else {
      PhaseApplied(e, call, id, latest);
      if call.CallMarkCloudPlanComplete? {
        PlanTexts(e, call, id, latest);
      } else if e.state.Planner? {
        PhaseKeepsPlan(e, call, id, latest);
      }
    }
  }

  lemma CommandTexts(e: Episode, call: Call, id: string, latest: Option<EvidenceId>)
    requires call.CallObserveCommand? && e.Apply(call, id, latest).Success?
    ensures IsHash(call.source)
  {
    hide IsText, IsHash, Episode.ContinueOrCheckpoint;
  }

  lemma CheckTexts(e: Episode, call: Call, id: string, latest: Option<EvidenceId>)
    requires call.CallObserveVisibleCheck? && e.Apply(call, id, latest).Success?
    ensures IsHash(call.after)
  {
    hide IsText, IsHash, Episode.CheckObserved;
  }

  lemma PhaseKeepsPlan(e: Episode, call: Call, id: string, latest: Option<EvidenceId>)
    requires e.state.Planner? && !Observes(call) && !Requests(call) && !call.CallMarkCloudPlanComplete?
    requires e.Apply(call, id, latest).Success?
    ensures e.Apply(call, id, latest).value.next.plannerChecks == e.plannerChecks
  {
    hide IsText, IsHash, Milliseconds;
  }

  lemma HaltKeepsPlan(e: Episode, reason: Reason, fact: Fact)
    ensures e.Halt(reason, fact).next.plannerChecks == e.plannerChecks
  {
  }

  lemma PlanTexts(e: Episode, call: Call, id: string, latest: Option<EvidenceId>)
    requires call.CallMarkCloudPlanComplete? && e.Apply(call, id, latest).Success?
    requires e.plannerChecks.Some? ==> IsHash(e.plannerChecks.value)
    ensures var checks := e.Apply(call, id, latest).value.next.plannerChecks; checks.Some? ==> IsHash(checks.value)
  {
    hide IsHash, Episode.Halt;
    HaltKeepsPlan(e, Cancelled, PlanFact(call.settled, call.cancelled));
    HaltKeepsPlan(e, UnknownOutcome, PlanFact(call.settled, call.cancelled));
  }

  lemma {:induction false} RunKeepsTexts(config: Config, events: seq<Event>)
    requires Start(config).Success?
    ensures TextsValid(RunOf(config, events).episode)
  {
    hide Inv, Episode.Apply, IsText, IsHash, Chained, OneShot, Windowed, DuplicatesCounted, Measure;
    if events != [] {
      var shorter, event := events[..|events| - 1], events[|events| - 1];
      RunKeepsTexts(config, shorter);
      RunsAreSound(config, shorter);
      var before := RunOf(config, shorter);
      if before.Apply(event.id, event.call).Success? {
        MoveKeepsTexts(before.episode, event.call, event.id, before.LatestEvidenceId());
      }
    }
  }

  /** The time and call reserves a request must show are there. */
  predicate ReservesHold(e: Episode, budget: Option<TimeBudget>) {
    var reserve := e.ReviewReserve(budget);
    reserve.Success?
    && (reserve.value.Some? ==>
          reserve.value.value.remainingModelCalls >= 2 && reserve.value.value.remainingMs > reserve.value.value.requiredMs)
  }

  predicate Idle(e: Episode) {
    e.state.Local? && e.pendingRequest.None? && !e.pendingHostCheck
  }

  function PassingCheckCall(e: Episode, host: bool): Call {
    CallObserveVisibleCheck(
      e.visibleCommand, "", 0, e.source, e.source, true, false, host,
      if e.plannerChecks.Some? then Some(PlannerCheck(e.plannerChecks.value, e.source, e.source, true, true, false)) else None)
  }

  /** A way to finish from an idle local state: a passing check unless one stands, then a submission. */
  function FinishingCalls(e: Episode, budget: Option<TimeBudget>): seq<Call> {
    (if e.Fresh() then []
     else if e.HostCheckDue() then [CallBeginHostCheck, PassingCheckCall(e, true)]
     else [CallBeforeLocalRequest(budget), PassingCheckCall(e, false)])
    + [CallBeforeLocalRequest(budget), CallSubmit(e.source)]
  }

  /** Calls made under the given event ids. */
  function Under(ids: seq<string>, calls: seq<Call>): seq<Event>
    requires |calls| <= |ids|
  {
    seq(|calls|, i requires 0 <= i < |calls| => Event(ids[i], calls[i]))
  }

  ghost predicate Finished(e: Episode) {
    e.state.Submitted? || e.state.Critic? || (e.state.Checkpoint? && e.policy.CloudPlanLocalReview? && e.Fresh())
  }

  lemma RequestOpens(e: Episode, id: string, budget: Option<TimeBudget>)
    requires Inv(e) && Idle(e) && !e.HostCheckDue() && ReservesHold(e, budget)
    ensures e.BeforeLocalRequest(id, budget).Success?
    ensures e.BeforeLocalRequest(id, budget).value.next
            == e.(pendingAllowed := e.IdleActions(), pendingRequest := Some(id), localCalls := e.localCalls + 1)
  {
    hide Episode.ReviewReserve, ActionsFor;
    assert ReserveKept(e);
  }

  lemma PassingCheckIsAccepted(e: Episode, host: bool, id: string, latest: Option<EvidenceId>)
    requires Inv(e) && TextsValid(e) && e.state.Local?
    requires if host then e.pendingHostCheck else e.pendingRequest.Some? && RunVisibleChecks in e.pendingAllowed
    ensures e.Apply(PassingCheckCall(e, host), id, latest).Success?
  {
    hide IsHash, ActionsFor, Episode.CheckObserved;
    var checks := PassingCheckCall(e, host).planner;
    assert IsText("", 65536, false);
    assert e.ValidatePlannerCheck(checks, e.source) == Success(checks);
  }

  /** A passing check on the current tree, with a call left, leaves the episode idle, local and fresh. */
  lemma PassingCheckFreshens(e: Episode, fact: Fact)
    requires Inv(e) && e.state.Local? && e.Remaining() >= 1
    requires PassingCheck(fact) && fact.before == e.source
    ensures var next := e.CheckObserved(fact).next;
            && Idle(next) && next.Fresh() && next.source == e.source && next.localCalls == e.localCalls
            && next.policy == e.policy && next.phase == e.phase
  {
    hide IsHash, ActionsFor;
  }

  lemma CheckPasses(e: Episode, host: bool, id: string, latest: Option<EvidenceId>)
    requires Inv(e) && TextsValid(e) && e.state.Local?
    requires if host then e.pendingHostCheck else e.pendingRequest.Some? && RunVisibleChecks in e.pendingAllowed
    requires e.Remaining() >= 1
    ensures e.Apply(PassingCheckCall(e, host), id, latest).Success?
    ensures var next := e.Apply(PassingCheckCall(e, host), id, latest).value.next;
            && Idle(next) && next.Fresh() && next.source == e.source && next.localCalls == e.localCalls
            && next.policy == e.policy && next.phase == e.phase
  {
    hide Inv, Episode.Apply, Episode.CheckObserved, TextsValid;
    var call := PassingCheckCall(e, host);
    PassingCheckIsAccepted(e, host, id, latest);
    CheckApplied(e, call, id, latest);
    PassingCheckFreshens(e, e.Apply(call, id, latest).value.fact);
  }

  lemma SubmissionCloses(e: Episode, id: string, latest: Option<EvidenceId>)
    requires Inv(e) && TextsValid(e) && e.state.Local? && e.Fresh() && e.pendingRequest.Some? && SubmitTask in e.pendingAllowed
    ensures e.Apply(CallSubmit(e.source), id, latest).Success?
    ensures Finished(e.Apply(CallSubmit(e.source), id, latest).value.next)
  {
    hide IsText, IsHash, ActionsFor;
  }

  /** An event id a host may use next. */
  ghost predicate Usable(r: Router, id: string) {
    IsText(id, 256, true) && id !in r.eventIds
  }

  lemma StepAccepts(r: Router, event: Event)
    requires Sound(r) && TextsValid(r.episode) && Usable(r, event.id)
    requires r.episode.Apply(event.call, event.id, r.LatestEvidenceId()).Success?
    ensures var next := Step(r, event);
            && Sound(next) && TextsValid(next.episode) && |next.decisions| == |r.decisions| + 1
            && next.episode == r.episode.Apply(event.call, event.id, r.LatestEvidenceId()).value.next
            && next.eventIds == r.eventIds + {event.id}
  {
    hide Episode.Apply, IsText, Sound, TextsValid;
    assert r.Apply(event.id, event.call).Success?;
    StepKeepsSound(r, event);
    SoundIsInv(r);
    MoveKeepsTexts(r.episode, event.call, event.id, r.LatestEvidenceId());
  }

  lemma SoundIsInv(r: Router)
    requires Sound(r)
    ensures Inv(r.episode)
  {
  }

  /** With a fresh check, one request and its submission finish the phase. */
  lemma FreshFinishes(r: Router, request: Event, submission: Event)
    requires Sound(r) && TextsValid(r.episode) && Idle(r.episode) && r.episode.Fresh()
    requires Usable(r, request.id) && Usable(r, submission.id) && request.id != submission.id
    requires request.call.CallBeforeLocalRequest? && ReservesHold(r.episode, request.call.budget)
    requires submission.call == CallSubmit(r.episode.source)
    ensures var final := Step(Step(r, request), submission);
            Finished(final.episode) && |final.decisions| == |r.decisions| + 2
  {
    hide IsText, ReservesHold, Sound, Inv, TextsValid;
    SoundIsInv(r);
    RequestOpens(r.episode, request.id, request.call.budget);
    StepAccepts(r, request);
    var during := Step(r, request);
    IdleReserve(r.episode);
    SoundIsInv(during);
    SubmissionCloses(during.episode, submission.id, during.LatestEvidenceId());
    StepAccepts(during, submission);
  }

  lemma IdleReserve(e: Episode)
    requires Inv(e) && Idle(e)
    ensures ReserveKept(e)
  {
  }

  /** Without one, a host or model check can pass first. */
  lemma CheckRefreshes(r: Router, opening: Event, check: Event)
    requires Sound(r) && TextsValid(r.episode) && Idle(r.episode) && !r.episode.Fresh()
    requires Usable(r, opening.id) && Usable(r, check.id) && opening.id != check.id
    requires opening.call.CallBeginHostCheck? == r.episode.HostCheckDue()
    requires !opening.call.CallBeginHostCheck? ==> opening.call.CallBeforeLocalRequest? && ReservesHold(r.episode, opening.call.budget)
    requires check.call == PassingCheckCall(r.episode, opening.call.CallBeginHostCheck?)
    ensures var next := Step(Step(r, opening), check);
            && Sound(next) && TextsValid(next.episode) && Idle(next.episode) && next.episode.Fresh()
            && next.episode.source == r.episode.source && next.episode.policy == r.episode.policy
            && next.episode.phase == r.episode.phase && |next.decisions| == |r.decisions| + 2
            && next.eventIds == r.eventIds + {opening.id, check.id}
  {
    hide IsText, ReservesHold, Sound, Inv, TextsValid;
    SoundIsInv(r);
    IdleReserve(r.episode);
    if opening.call.CallBeforeLocalRequest? {
      RequestOpens(r.episode, opening.id, opening.call.budget);
    }
    StepAccepts(r, opening);
    var during := Step(r, opening);
    SoundIsInv(during);
    CheckPasses(during.episode, opening.call.CallBeginHostCheck?, check.id, during.LatestEvidenceId());
    StepAccepts(during, check);
  }

  lemma RunOfTwo(r: Router, a: Event, b: Event)
    ensures Run(r, [a, b]) == Step(Step(r, a), b)
  {
    hide Step;
    assert [a, b][..1] == [a] && [a][..0] == [];
    assert Run(r, [a]) == Step(Run(r, []), a);
  }

  lemma RunOfFour(r: Router, a: Event, b: Event, c: Event, d: Event)
    ensures Run(r, [a, b, c, d]) == Step(Step(Step(Step(r, a), b), c), d)
  {
    hide Step;
    assert [a, b, c, d][..3] == [a, b, c] && [a, b, c][..2] == [a, b];
    RunOfTwo(r, a, b);
  }

  /**
   * From every reachable idle local state, given the time and call reserves and unused event ids, a passing check (none
   * if one stands) and a submission are all accepted, and reach submission, the critic or the cloud review.
   */
  lemma CanAlwaysFinish(config: Config, events: seq<Event>, ids: seq<string>, budget: Option<TimeBudget>)
    requires Start(config).Success?
    requires Idle(RunOf(config, events).episode) && ReservesHold(RunOf(config, events).episode, budget)
    requires |ids| == 4 && forall i :: 0 <= i < 4 ==> Usable(RunOf(config, events), ids[i])
    requires forall i, j :: 0 <= i < j < 4 ==> ids[i] != ids[j]
    ensures var r := RunOf(config, events);
            var calls := FinishingCalls(r.episode, budget);
            var final := Run(r, Under(ids, calls));
            |calls| <= 4 && |final.decisions| == |r.decisions| + |calls| && Finished(final.episode)
  {
    hide Start, Run, Step, IsText, Sound, Inv, TextsValid;
    var r := RunOf(config, events);
    var e := r.episode;
    RunsAreSound(config, events);
    RunKeepsTexts(config, events);
    var calls := FinishingCalls(e, budget);
    var plan := Under(ids, calls);
    if e.Fresh() {
      assert plan == [plan[0], plan[1]];
      RunOfTwo(r, plan[0], plan[1]);
      FreshFinishes(r, plan[0], plan[1]);
    } else {
      assert plan == [plan[0], plan[1], plan[2], plan[3]];
      RunOfFour(r, plan[0], plan[1], plan[2], plan[3]);
      CheckRefreshes(r, plan[0], plan[1]);
      var checked := Step(Step(r, plan[0]), plan[1]);
      SameReserves(e, checked.episode, budget);
      FreshFinishes(checked, plan[2], plan[3]);
    }
  }

  lemma SameReserves(e: Episode, e': Episode, budget: Option<TimeBudget>)
    requires e.policy == e'.policy && e.phase == e'.phase && ReservesHold(e, budget)
    ensures ReservesHold(e', budget)
  {
  }

  /** Every reachable idle local state keeps one call, and a second unless its check is fresh. */
  lemma ReserveIsKept(config: Config, events: seq<Event>)
    requires Start(config).Success? && Idle(RunOf(config, events).episode)
    ensures var e := RunOf(config, events).episode; e.Remaining() >= 1 && (e.Remaining() >= 2 || e.Fresh())
  {
    hide Chained, OneShot, Windowed, DuplicatesCounted, Measure;
    RunsAreSound(config, events);
  }

  /** No command observation exhausts the call limit or the reserve: it goes on, or stops for repetition alone. */
  lemma CommandsNeverExhaust(config: Config, events: seq<Event>, event: Event)
    requires Start(config).Success? && event.call.CallObserveCommand?
    requires RunOf(config, events).Apply(event.id, event.call).Success?
    ensures var next := Step(RunOf(config, events), event);
            var last := next.decisions[|next.decisions| - 1].record;
            last.state.Local? || (last.state.Checkpoint? && last.reason == RepeatedObservation)
  {
    hide Start, Run, IsText, Sound, Inv, Episode.Apply;
    var r := RunOf(config, events);
    RunsAreSound(config, events);
    SoundIsInv(r);
    CommandKeepsReserve(r.episode, event.call, event.id, r.LatestEvidenceId());
  }

  lemma CommandKeepsReserve(e: Episode, call: Call, id: string, latest: Option<EvidenceId>)
    requires Inv(e) && call.CallObserveCommand? && e.Apply(call, id, latest).Success?
    ensures var move := e.Apply(call, id, latest).value;
            move.next.state.Local? || (move.next.state.Checkpoint? && move.reason == RepeatedObservation)
  {
    hide IsText, IsHash, ActionsFor;
    var signature := Signature(TextDigest(call.command), TextDigest(call.output), call.returncode, call.source);
    assert RunCommand in e.pendingAllowed ==> e.Remaining() >= FINISH_RESERVE;
    var observed := e.Observed(signature).PendingCleared();
    assert observed.Remaining() == e.Remaining() && observed.failedChecks == e.failedChecks;
  }

  // ----- The hand-off reserve

  /** Half of a strictly exceeded reserve survives a request and a check that keep to their limits. */
  lemma ReserveSurvivesOnePhase(before: real, request: real, check: real, after: real)
    requires Milliseconds(before, false).Success?
    requires Milliseconds(request, true).Success? && Milliseconds(check, true).Success?
    requires Milliseconds(before, false).value > 2 * (Milliseconds(request, true).value + Milliseconds(check, true).value)
    requires before - request - check <= after <= before
    ensures Milliseconds(after, false).Success?
    ensures Milliseconds(after, false).value > Milliseconds(request, true).value + Milliseconds(check, true).value
    ensures Milliseconds(request, true).value >= 1 && Milliseconds(check, true).value >= 1
  {
    var req, chk := Milliseconds(request, true).value, Milliseconds(check, true).value;
    var have := Milliseconds(before, false).value;
    assert have as real <= before * 1000.0 && request * 1000.0 <= req as real && check * 1000.0 <= chk as real;
    assert after * 1000.0 >= (have - req - chk) as real;
    assert (after * 1000.0).Floor >= have - req - chk;
  }

  /**
   * Under `cloud_plan_local_review`, once a local request was let through, a hand-off of the settled episode with the
   * same limits cannot stop for time or for calls, provided the request and its visible check took at most their
   * declared limits and at most one model call.
   */
  lemma HandoffCannotStop(config: Config, events: seq<Event>, request: Event, later: seq<Event>, handoff: Event)
    requires Start(config).Success? && config.policy.CloudPlanLocalReview?
    requires request.call.CallBeforeLocalRequest? && request.call.budget.Some?
    requires var r := RunOf(config, events);
             r.Apply(request.id, request.call).Success? && Step(r, request).episode.state.Local?
    requires var r := RunOf(config, events + [request] + later);
             r.episode.state.Checkpoint? && !r.episode.handoffUsed && Usable(r, handoff.id)
    requires handoff.call.CallConfirmHandoff? && handoff.call.settled && !handoff.call.cancelled
    requires var given, left := request.call.budget.value, handoff.call.times;
             && left.requestTimeoutSeconds == given.requestTimeoutSeconds
             && left.checkReserveSeconds == given.checkReserveSeconds
             && given.remainingSeconds - given.requestTimeoutSeconds - given.checkReserveSeconds
                <= left.remainingSeconds <= given.remainingSeconds
             && given.remainingModelCalls - 1 <= left.remainingModelCalls <= given.remainingModelCalls
    ensures Step(RunOf(config, events + [request] + later), handoff).episode.state.Cloud?
  {
    hide IsText, Milliseconds, Sound, Inv, Start, Run;
    RunsKeepConfig(config, events);
    RunsKeepConfig(config, events + [request] + later);
    var given, left := request.call.budget.value, handoff.call.times;
    LetThroughShowsReserve(RunOf(config, events).episode, request.id, request.call.budget);
    ReserveSurvivesOnePhase(given.remainingSeconds, given.requestTimeoutSeconds, given.checkReserveSeconds, left.remainingSeconds);
  }

  lemma LetThroughShowsReserve(e: Episode, id: string, budget: Option<TimeBudget>)
    requires e.policy.CloudPlanLocalReview? && budget.Some?
    requires e.BeforeLocalRequest(id, budget).Success? && e.BeforeLocalRequest(id, budget).value.next.state.Local?
    ensures var b := budget.value;
            && Milliseconds(b.remainingSeconds, false).Success? && Milliseconds(b.requestTimeoutSeconds, true).Success?
            && Milliseconds(b.checkReserveSeconds, true).Success? && 2 <= b.remainingModelCalls <= 40
            && Milliseconds(b.remainingSeconds, false).value
               > 2 * (Milliseconds(b.requestTimeoutSeconds, true).value + Milliseconds(b.checkReserveSeconds, true).value)
  {
    hide Milliseconds, ActionsFor;
  }
}
