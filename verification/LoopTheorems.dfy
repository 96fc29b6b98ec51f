/** The whole life of a loop directory: interrupts, deaths, resumes and an operator who moves unfinished stages aside. */
module LoopTheorems {
  import opened Wrappers
  import opened LoopSpec
  import opened LoopRuns
  import opened LoopHistory
  import opened SelectionLoops

  // ----- What an uninterrupted loop depends on

  /** The two trees hold the same finished stages. */
  ghost predicate SameFinished(d: map<Stage, Directory>, e: map<Stage, Directory>) {
    Typed(d) && Typed(e) && forall s: Stage :: d[s].Done? || e[s].Done? ==> d[s] == e[s]
  }

  lemma SameFinishedSameCandidate(d: map<Stage, Directory>, e: map<Stage, Directory>, settings: Settings, stage: Stage,
                                  lineage: Option<Lineage>, repairOf: Option<Origin>)
    requires SameFinished(d, e) && !stage.Critique?
    ensures Candidate(d, settings, stage, lineage, repairOf) == Candidate(e, settings, stage, lineage, repairOf)
  {
  }

  /** Only finished stages decide what the loop's content is. */
  lemma FinishedStagesDecide(d: map<Stage, Directory>, e: map<Stage, Directory>, settings: Settings, compare: Compare, outcome: CritiqueOutcome)
    requires SameFinished(d, e)
    ensures Uninterrupted(d, settings, compare, outcome) == Uninterrupted(e, settings, compare, outcome)
  {
    hide Candidate, Added, AfterA;
    SameFinishedSameCandidate(d, e, settings, A, None, None);
    var a := Candidate(d, settings, A, None, None);
    if a.Some? {
      CandidateNeedsDone(d, settings, A, None, None);
      var packet := if settings.research then d[A].result.packet else None;
      if !(settings.research && packet.None?) {
        FinishedStagesDecideAfterA(d, e, settings, compare, outcome, a.value, packet,
                                   Added(BLANK, A, a.value).(seededB := settings.research, snapshot := packet));
      }
    }
  }

  lemma FinishedStagesDecideAfterA(d: map<Stage, Directory>, e: map<Stage, Directory>, settings: Settings, compare: Compare,
                                   outcome: CritiqueOutcome, a: Summary, packet: Option<string>, content: Content)
    requires SameFinished(d, e)
    ensures AfterA(d, settings, compare, outcome, a, packet, content) == AfterA(e, settings, compare, outcome, a, packet, content)
  {
    hide Candidate, Added, AfterCritique, LineageFrom;
    SameFinishedSameCandidate(d, e, settings, B, LineageFrom(settings, a, packet), None);
    forall content, chosen, selected
      ensures AfterCritique(d, settings, compare, a, packet, content, chosen, selected)
              == AfterCritique(e, settings, compare, a, packet, content, chosen, selected)
    {
      FinishedStagesDecideRepair(d, e, settings, compare, a, packet, content, chosen, selected);
    }
  }

  lemma FinishedStagesDecideRepair(d: map<Stage, Directory>, e: map<Stage, Directory>, settings: Settings, compare: Compare,
                                   a: Summary, packet: Option<string>, content: Content, chosen: Stage, selected: Summary)
    requires SameFinished(d, e)
    ensures AfterCritique(d, settings, compare, a, packet, content, chosen, selected)
            == AfterCritique(e, settings, compare, a, packet, content, chosen, selected)
  {
    hide Candidate, Added, LineageFrom;
    SameFinishedSameCandidate(d, e, settings, Repair, LineageFrom(settings, a, packet), Some(selected.origin));
  }

  // ----- Totals are conserved

  function CountsOf(candidates: map<Stage, Summary>, stage: Stage): Totals {
    if stage in candidates then candidates[stage].counts else ZERO
  }

  /** What the critique added: one call of the loop's own, if it reached the model. */
  function WithCritiqueCall(totals: Totals, critique: Option<CritiqueEntry>): Totals {
    match critique
    case None => totals
    case Some(CritiqueMade(_, _, fee, reason, usage)) => totals.PlusCritique(usage, fee, reason)
    case Some(CritiqueRefused(_, fee, reason, usage, calls)) => if calls == 1 then totals.PlusCritique(usage, fee, reason) else totals
  }

  /** A loop's totals are the sum of its candidates' counts and its critique call, whatever was reused. */
  lemma TotalsAreSums(d: map<Stage, Directory>, settings: Settings, compare: Compare, outcome: CritiqueOutcome)
    requires Typed(d) && Uninterrupted(d, settings, compare, outcome).Some?
    ensures var c := Uninterrupted(d, settings, compare, outcome).value;
            c.totals == WithCritiqueCall(CountsOf(c.candidates, A).Plus(CountsOf(c.candidates, B)), c.critique)
                        .Plus(CountsOf(c.candidates, Repair))
  {
    hide Candidate, LineageFrom, CritiqueBelongs, Identity, AfterA;
    var a := Candidate(d, settings, A, None, None).value;
    CandidateNeedsDone(d, settings, A, None, None);
    var packet := if settings.research then d[A].result.packet else None;
    PlusCommutesWithZero(a.counts);
    if !(settings.research && packet.None?) {
      TotalsAfterA(d, settings, compare, outcome, a, packet, Added(BLANK, A, a).(seededB := settings.research, snapshot := packet));
    }
  }

  lemma PlusCommutesWithZero(t: Totals)
    ensures ZERO.Plus(t) == t && t.Plus(ZERO) == t
  {
  }

  lemma TotalsAfterA(d: map<Stage, Directory>, settings: Settings, compare: Compare, outcome: CritiqueOutcome, a: Summary,
                     packet: Option<string>, content: Content)
    requires Typed(d) && AfterA(d, settings, compare, outcome, a, packet, content).Some?
    requires content.candidates == map[A := a] && content.totals == a.counts && content.critique.None?
    ensures var c := AfterA(d, settings, compare, outcome, a, packet, content).value;
            c.totals == WithCritiqueCall(CountsOf(c.candidates, A).Plus(CountsOf(c.candidates, B)), c.critique)
                        .Plus(CountsOf(c.candidates, Repair))
  {
    hide Candidate, LineageFrom, AfterB, Totals.Plus;
    var b := Candidate(d, settings, B, LineageFrom(settings, a, packet), None).value;
    TotalsAfterB(d, settings, compare, outcome, a, b, packet, Added(content, B, b));
  }

  lemma TotalsAfterB(d: map<Stage, Directory>, settings: Settings, compare: Compare, outcome: CritiqueOutcome, a: Summary, b: Summary,
                     packet: Option<string>, content: Content)
    requires Typed(d) && AfterB(d, settings, compare, outcome, a, b, packet, content).Some?
    requires content.candidates == map[A := a, B := b] && content.totals == a.counts.Plus(b.counts) && content.critique.None?
    ensures var c := AfterB(d, settings, compare, outcome, a, b, packet, content).value;
            c.totals == WithCritiqueCall(CountsOf(c.candidates, A).Plus(CountsOf(c.candidates, B)), c.critique)
                        .Plus(CountsOf(c.candidates, Repair))
  {
    hide Candidate, LineageFrom, CritiqueBelongs, Identity, Totals.Plus, Totals.PlusCritique;
    forall t: Totals ensures t.Plus(ZERO) == t {
      PlusCommutesWithZero(t);
    }
  }

  // ----- The exit code

  /** `loopExitCode` */
  function ExitCode(content: Content): nat {
    if content.final.Some? && content.final.value.step.Compared? && content.final.value.candidate in content.candidates
       && content.candidates[content.final.value.candidate].submitted
    then 0 else 2
  }

  /** A loop that exits with 0 chose a finished, submitted run of its own task and runtime, with every dispatch settled. */
  lemma SuccessIsASettledRun(d: map<Stage, Directory>, settings: Settings, compare: Compare, outcome: CritiqueOutcome)
    requires Typed(d) && Uninterrupted(d, settings, compare, outcome).Some?
    requires ExitCode(Uninterrupted(d, settings, compare, outcome).value) == 0
    ensures var c := Uninterrupted(d, settings, compare, outcome).value;
            var stage := c.final.value.candidate;
            && !stage.Critique? && d[stage].Done? && c.candidates[stage] == d[stage].result.summary
            && d[stage].result.summary.submitted && Clean(d[stage].result.summary)
            && d[stage].result.summary.taskJob == settings.taskJob && d[stage].result.summary.taskBrief == settings.taskBrief
            && d[stage].result.summary.runtime == settings.runtime
  {
    hide LineageFrom, CritiqueBelongs, Identity, Totals.Plus, Totals.PlusCritique;
  }

  // ----- What a life keeps

  lemma MovedAsideLives(st: LoopState, stage: Stage)
    requires Lived(st) && st.directories[stage].Incomplete?
    ensures Onward(st, st.(directories := st.directories[stage := Absent]))
  {
  }

  lemma MovedAsideAgrees(loop: Loop, st: LoopState, stage: Stage)
    requires Agrees(loop, st) && st.directories[stage].Incomplete?
    ensures Agrees(loop, st.(directories := st.directories[stage := Absent]))
  {
    var next := st.(directories := st.directories[stage := Absent]);
    hide Uninterrupted, SeenIn;
    if HasFinal(st.saved) {
      FinishedStagesDecide(st.directories, next.directories, loop.settings, loop.compare, SeenIn(st.starts, st.saved.value.content));
    }
  }

  lemma HappeningLives(loop: Loop, st: LoopState, happening: Happening)
    requires Lived(st)
    ensures Onward(st, loop.After(st, happening))
  {
    hide Loop.RunTurn, Chronicled, KeepsFinished;
    match happening
    case Invoked(world) => RunLives(loop, world, st);
    case MovedAside(stage) =>
      if st.directories[stage].Incomplete? {
        MovedAsideLives(st, stage);
      } else {
        OnwardIsReflexive(st, st);
      }
  }

  lemma CreatedLives()
    ensures Lived(CREATED)
  {
    EveryStageIsAbsent();
  }

  /** Everything a stage needs is there at each of its starts, and a later moment of a life keeps what has finished. */
  lemma {:induction false} LivesAreChronicled(loop: Loop, happenings: seq<Happening>)
    ensures Lived(loop.LifeOf(happenings))
  {
    hide Lived, Loop.After;
    if happenings == [] {
      CreatedLives();
    } else {
      LivesAreChronicled(loop, happenings[..|happenings| - 1]);
      HappeningLives(loop, loop.LifeOf(happenings[..|happenings| - 1]), happenings[|happenings| - 1]);
    }
  }

  lemma {:induction false} LifeGoesOnward(loop: Loop, before: seq<Happening>, later: seq<Happening>)
    ensures Onward(loop.LifeOf(before), loop.LifeOf(before + later))
  {
    hide Onward, Lived, Loop.After;
    LivesAreChronicled(loop, before);
    if later == [] {
      assert before + later == before;
      OnwardIsReflexive(loop.LifeOf(before), loop.LifeOf(before));
    } else {
      var init, last := later[..|later| - 1], later[|later| - 1];
      assert (before + later)[..|before + later| - 1] == before + init;
      LifeGoesOnward(loop, before, init);
      LivesAreChronicled(loop, before + init);
      HappeningLives(loop, loop.LifeOf(before + init), last);
      OnwardIsTransitive(loop.LifeOf(before), loop.LifeOf(before + init), loop.LifeOf(before + later));
    }
  }

  // ----- No finished stage runs twice

  /**
   * In a whole life a stage starts again only if its earlier start left nothing finished; and what any start left finished
   * is there unchanged at every later start and at the end.
   */
  lemma NoFinishedStageStartsAgain(loop: Loop, happenings: seq<Happening>, i: nat, j: nat)
    requires i < j < |loop.LifeOf(happenings).starts|
    ensures var starts := loop.LifeOf(happenings).starts;
            && (starts[i].stage == starts[j].stage ==> !LeftBy(starts[i].run).Done?)
            && KeepsFinished(LeftAfter(starts[i]), starts[j].directories)
            && KeepsFinished(LeftAfter(starts[j]), loop.LifeOf(happenings).directories)
  {
    LivesAreChronicled(loop, happenings);
    hide Loop.LifeOf;
  }

  /** A stage that has finished at some moment of a life never starts after it, and its result never changes. */
  lemma FinishedIsFinal(loop: Loop, before: seq<Happening>, later: seq<Happening>, stage: Stage)
    requires loop.LifeOf(before).directories[stage].Done?
    ensures var st, next := loop.LifeOf(before), loop.LifeOf(before + later);
            && next.directories[stage] == st.directories[stage] && st.starts <= next.starts
            && forall k :: |st.starts| <= k < |next.starts| ==> next.starts[k].stage != stage
  {
    LifeGoesOnward(loop, before, later);
    hide Loop.LifeOf;
  }

  // ----- When nothing starts any more

  /** Some finished candidate has unknown or failed dispatches. */
  predicate Unsettled(d: map<Stage, Directory>)
    requires Typed(d)
  {
    exists s: Stage :: !s.Critique? && d[s].Done? && !Clean(d[s].result.summary)
  }

  lemma UnsettledBlocks(d: map<Stage, Directory>, start: Start)
    requires Staged(d) && Unsettled(d) && KeepsFinished(d, start.directories)
    ensures !StartAllowed(start)
  {
    var s: Stage :| !s.Critique? && d[s].Done? && !Clean(d[s].result.summary);
    hide RunFits;
  }

  /** Once a candidate with unknown or failed dispatches has finished, no stage starts for the rest of the life. */
  lemma NothingStartsAfterAnUnsettledCandidate(loop: Loop, before: seq<Happening>, later: seq<Happening>)
    requires Unsettled(loop.LifeOf(before).directories)
    ensures loop.LifeOf(before + later).starts == loop.LifeOf(before).starts
  {
    LifeGoesOnward(loop, before, later);
    LivesAreChronicled(loop, before);
    var st, next := loop.LifeOf(before), loop.LifeOf(before + later);
    hide Loop.LifeOf, Unsettled, Staged, StartAllowed, KeepsFinished;
    if |next.starts| > |st.starts| {
      UnsettledBlocks(st.directories, next.starts[|st.starts|]);
    }
    assert next.starts[..|st.starts|] == st.starts;
  }

  lemma ChoiceHappening(loop: Loop, st: LoopState, happening: Happening)
    requires Typed(st.directories) && HasFinal(st.saved)
    ensures loop.After(st, happening).saved == st.saved && loop.After(st, happening).starts == st.starts
  {
    hide Loop.AttemptTurn;
  }

  /** Once a final choice is on record, it stays as it is and no stage starts for the rest of the life. */
  lemma {:induction false} NothingStartsAfterAChoice(loop: Loop, before: seq<Happening>, later: seq<Happening>)
    requires HasFinal(loop.LifeOf(before).saved)
    ensures loop.LifeOf(before + later).saved == loop.LifeOf(before).saved
    ensures loop.LifeOf(before + later).starts == loop.LifeOf(before).starts
  {
    hide Loop.After;
    if later == [] {
      assert before + later == before;
    } else {
      var init, last := later[..|later| - 1], later[|later| - 1];
      assert (before + later)[..|before + later| - 1] == before + init;
      NothingStartsAfterAChoice(loop, before, init);
      ChoiceHappening(loop, loop.LifeOf(before + init), last);
    }
  }

  // ----- A resumed life chooses what one uninterrupted run chooses

  lemma {:induction false} LivesAgree(loop: Loop, happenings: seq<Happening>)
    ensures Agrees(loop, loop.LifeOf(happenings))
  {
    if happenings != [] {
      var before, last := loop.LifeOf(happenings[..|happenings| - 1]), happenings[|happenings| - 1];
      LivesAgree(loop, happenings[..|happenings| - 1]);
      hide Agrees, Loop.RunTurn;
      match last
      case Invoked(world) => RunAgrees(loop, world, before);
      case MovedAside(stage) =>
        if before.directories[stage].Incomplete? {
          MovedAsideAgrees(loop, before, stage);
        }
    }
  }

  /** A refused critique on record carries the error that the last start of the life threw. */
  lemma SeenWasThrown(loop: Loop, happenings: seq<Happening>, content: Content)
    ensures var st := loop.LifeOf(happenings);
            var seen := SeenIn(st.starts, content);
            seen.Refused? ==>
              && st.starts != [] && st.starts[|st.starts| - 1].run.Throws? && st.starts[|st.starts| - 1].run.error == seen.error
              && seen.error.code.Tool?
  {
    LivesAreChronicled(loop, happenings);
    hide Loop.LifeOf;
  }

  /** A new directory in which one invocation is delivered the given results chooses as the uninterrupted loop over them. */
  lemma OneDeliveredRun(loop: Loop, world: World, results: map<Stage, Directory>, outcome: CritiqueOutcome)
    requires Delivers(world, results, outcome) && Uninterrupted(results, loop.settings, loop.compare, outcome).Some?
    ensures var once := loop.LifeOf([Invoked(world)]);
            && HasFinal(once.saved)
            && Some(once.saved.value.content) == Uninterrupted(results, loop.settings, loop.compare, outcome)
  {
    EveryStageIsAbsent();
    assert [Invoked(world)][..0] == [] && loop.LifeOf([]) == CREATED;
    assert CREATED.(record := LoopRecord(BLANK, [], None)) == CREATED;
    AttemptTouches(loop, world, CREATED);
    AttemptDelivers(loop, world, CREATED, results, outcome);
    hide Loop.AttemptTurn, Uninterrupted, Delivers;
    assert loop.LifeOf([Invoked(world)]) == loop.After(CREATED, Invoked(world));
  }

  /**
   * Whatever interrupts, deaths and resumes a loop directory goes through, a final choice on record is the one that an
   * uninterrupted loop makes over the stages that have finished, and the whole content of the record with it: candidates,
   * seeds, critique, totals and both selections. One invocation of a new directory that is delivered the same results,
   * whatever else it meets, saves exactly that content.
   */
  lemma ResumedEqualsUninterrupted(loop: Loop, happenings: seq<Happening>, world: World)
    requires HasFinal(loop.LifeOf(happenings).saved)
    ensures var life := loop.LifeOf(happenings);
            var content := life.saved.value.content;
            var outcome := SeenIn(life.starts, content);
            && Uninterrupted(life.directories, loop.settings, loop.compare, outcome) == Some(content)
            && (Delivers(world, life.directories, outcome) ==>
                  var once := loop.LifeOf([Invoked(world)]); HasFinal(once.saved) && once.saved.value.content == content)
  {
    LivesAgree(loop, happenings);
    var life := loop.LifeOf(happenings);
    var outcome := SeenIn(life.starts, life.saved.value.content);
    if Delivers(world, life.directories, outcome) {
      OneDeliveredRun(loop, world, life.directories, outcome);
    }
    hide Loop.LifeOf, Uninterrupted, Delivers, SeenIn;
  }

  /** Such an invocation exists: a world without interrupts can repeat what the life finished and how its critique ended. */
  lemma SomeWorldRepeatsALife(loop: Loop, happenings: seq<Happening>, content: Content)
    ensures exists world: World ::
              Delivers(world, loop.LifeOf(happenings).directories, SeenIn(loop.LifeOf(happenings).starts, content))
  {
    var life := loop.LifeOf(happenings);
    var seen := SeenIn(life.starts, content);
    SeenWasThrown(loop, happenings, content);
    var d := life.directories;
    var repeating := Encounter(s => Repeated(d, seen, s), (s: Stage) => false, (s: Stage) => false);
    assert forall s: Stage :: RunFits(s, repeating.run(s));
    var world: World := repeating;
    assert Delivers(world, d, seen);
  }

  function Repeated(d: map<Stage, Directory>, seen: CritiqueOutcome, stage: Stage): StageRun {
    if stage.Critique? && seen.Refused? then Throws(seen.error, Incomplete)
    else if stage in d && d[stage].Done? then Finishes(d[stage].result)
    else Dies(Incomplete)
  }

  // ----- The object lives the same life

  /** One happening in the life of a loop directory. */
  method Happen(loop: SelectionLoop, happening: Happening)
    requires Typed(loop.directories)
    modifies loop
    ensures Typed(loop.directories) && loop.State() == loop.Spec().After(old(loop.State()), happening)
  {
    hide Loop.RunTurn;
    match happening
    case Invoked(world) => var _ := loop.Run(world);
    case MovedAside(stage) =>
      if loop.directories[stage].Incomplete? {
        loop.MoveAside(stage);
      }
  }

  /** A whole life, from the creation of the directory: the object ends in the state of the life's function. */
  method Live(settings: Settings, compare: Compare, happenings: seq<Happening>) returns (loop: SelectionLoop)
    ensures fresh(loop) && loop.settings == settings && loop.compare == compare
    ensures loop.State() == Loop(settings, compare).LifeOf(happenings)
  {
    hide Loop.After;
    loop := new SelectionLoop(settings, compare);
    assert happenings[..0] == [];
    for i := 0 to |happenings|
      invariant fresh(loop) && loop.settings == settings && loop.compare == compare && Typed(loop.directories)
      invariant loop.State() == Loop(settings, compare).LifeOf(happenings[..i])
    {
      assert happenings[..i + 1][..i] == happenings[..i];
      Happen(loop, happenings[i]);
    }
    assert happenings[..|happenings|] == happenings;
  }
}
