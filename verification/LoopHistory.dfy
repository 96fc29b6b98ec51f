/** What one invocation does: which stages it may start, what it keeps, and what its choice rests on. */
module LoopHistory {
  import opened Wrappers
  import opened LoopSpec
  import opened LoopRuns

  // ----- What every state keeps

  predicate CleanDone(directory: Directory) {
    directory.Done? && directory.result.Sampled? && Clean(directory.result.summary)
  }

  /** What must have finished, with every dispatch settled, before a stage starts. */
  predicate MayStart(d: map<Stage, Directory>, stage: Stage)
    requires Typed(d)
  {
    && (!stage.A? ==> CleanDone(d[A]))
    && (stage.Critique? || stage.Repair? ==> CleanDone(d[B]))
    && (stage.Repair? ==> d[Critique].Done?)
  }

  /** A stage starts only where it left nothing behind, after clean candidates only, and before any final choice. */
  predicate StartAllowed(start: Start) {
    && Typed(start.directories) && start.directories[start.stage].Absent? && !HasFinal(start.saved)
    && MayStart(start.directories, start.stage) && RunFits(start.stage, start.run)
  }

  /** The stages have been entered in order. */
  predicate Staged(d: map<Stage, Directory>) {
    && Typed(d)
    && (!d[B].Absent? ==> MayStart(d, B)) && (!d[Critique].Absent? ==> MayStart(d, Critique))
    && (!d[Repair].Absent? ==> MayStart(d, Repair))
  }

  /** What has finished stays as it is. */
  predicate KeepsFinished(d: map<Stage, Directory>, e: map<Stage, Directory>) {
    Typed(d) && Typed(e) && forall s: Stage :: d[s].Done? ==> e[s] == d[s]
  }

  /** The directories right after a start's run. */
  function LeftAfter(start: Start): map<Stage, Directory> {
    start.directories[start.stage := LeftBy(start.run)]
  }

  /** Every start was allowed, and what it left finished is still there at every later start and at the end. */
  ghost predicate Chronicled(starts: seq<Start>, d: map<Stage, Directory>) {
    && (forall i :: 0 <= i < |starts| ==> StartAllowed(starts[i]) && KeepsFinished(LeftAfter(starts[i]), d))
    && (forall i, j :: 0 <= i < j < |starts| ==> KeepsFinished(LeftAfter(starts[i]), starts[j].directories))
  }

  ghost predicate Lived(st: LoopState) {
    Staged(st.directories) && Chronicled(st.starts, st.directories)
  }

  /** From one state to a later one: finished stages stay, and every new start saw them. */
  ghost predicate Onward(st: LoopState, next: LoopState) {
    && Lived(next) && KeepsFinished(st.directories, next.directories) && st.starts <= next.starts
    && forall k :: |st.starts| <= k < |next.starts| ==> KeepsFinished(st.directories, next.starts[k].directories)
  }

  lemma OnwardIsReflexive(st: LoopState, next: LoopState)
    requires Lived(st) && next.directories == st.directories && next.starts == st.starts
    ensures Onward(st, next)
  {
  }

  lemma OnwardIsTransitive(a: LoopState, b: LoopState, c: LoopState)
    requires Onward(a, b) && Onward(b, c)
    ensures Onward(a, c)
  {
    forall k | |a.starts| <= k < |c.starts| ensures KeepsFinished(a.directories, c.starts[k].directories) {
      if k < |b.starts| {
        assert c.starts[k] == b.starts[k];
      }
    }
  }

  // ----- One stage

  /** What a stage leaves alone. */
  lemma StageTouches(loop: Loop, world: World, st: LoopState, name: Stage)
    requires Typed(st.directories)
    ensures var next := loop.StageTurn(world, st, name).state;
            && next.saved == st.saved && next.record.content == st.record.content
            && (forall s: Stage :: s != name ==> next.directories[s] == st.directories[s])
            && (!st.directories[name].Absent? ==> next.directories[name] == st.directories[name])
  {
  }

  lemma StageLives(loop: Loop, world: World, st: LoopState, name: Stage)
    requires Lived(st) && !HasFinal(st.saved) && MayStart(st.directories, name)
    ensures Onward(st, loop.StageTurn(world, st, name).state)
  {
    var next := loop.StageTurn(world, st, name).state;
    if next.starts == st.starts {
      OnwardIsReflexive(st, next);
    } else {
      var run := world.run(name);
      assert RunFits(name, run);
      StartLives(st, Start(name, st.directories, st.saved, run), next);
    }
  }

  lemma StartLives(st: LoopState, start: Start, next: LoopState)
    requires Lived(st) && StartAllowed(start) && start.directories == st.directories
    requires next.starts == st.starts + [start] && next.directories == LeftAfter(start)
    ensures Onward(st, next)
  {
    StillStaged(start);
    hide RunFits, MayStart;
    forall i | 0 <= i < |next.starts|
      ensures StartAllowed(next.starts[i]) && KeepsFinished(LeftAfter(next.starts[i]), next.directories)
    {
      assert i < |st.starts| ==> next.starts[i] == st.starts[i];
    }
  }

  lemma StillStaged(start: Start)
    requires Staged(start.directories) && StartAllowed(start)
    ensures Staged(LeftAfter(start)) && KeepsFinished(start.directories, LeftAfter(start))
  {
  }

  // ----- Frames of the longer steps

  lemma SummaryTouches(loop: Loop, st: LoopState, name: Stage, lineage: Option<Lineage>, repairOf: Option<Origin>)
    requires Typed(st.directories) && !name.Critique? && st.directories[name].Done?
    ensures var next := loop.Summarised(st, name, lineage, repairOf).state;
            && next.directories == st.directories && next.starts == st.starts && next.saved == st.saved
            && next.record.content.final == st.record.content.final
  {
    hide Belongs;
  }

  lemma SampleTouches(loop: Loop, world: World, st: LoopState, name: Stage, lineage: Option<Lineage>, repairOf: Option<Origin>)
    requires Typed(st.directories) && !name.Critique?
    ensures var next := loop.SampleTurn(world, st, name, lineage, repairOf).state;
            && next.saved == st.saved && next.record.content.final == st.record.content.final
            && forall s: Stage :: s != name ==> next.directories[s] == st.directories[s]
  {
    StageTouches(loop, world, st, name);
    var ran := loop.StageTurn(world, st, name);
    if ran.result.Success? {
      SummaryTouches(loop, ran.state, name, lineage, repairOf);
    }
    hide Loop.StageTurn, Loop.Summarised;
  }

  /** A successful sample is a candidate that may be carried on from, and is added to the record. */
  lemma SampleIsCandidate(loop: Loop, world: World, st: LoopState, name: Stage, lineage: Option<Lineage>, repairOf: Option<Origin>)
    requires Typed(st.directories) && !name.Critique? && loop.SampleTurn(world, st, name, lineage, repairOf).result.Success?
    ensures var turn := loop.SampleTurn(world, st, name, lineage, repairOf);
            && Candidate(turn.state.directories, loop.settings, name, lineage, repairOf) == Some(turn.result.value)
            && CleanDone(turn.state.directories[name])
            && turn.state.record.content == Added(st.record.content, name, turn.result.value)
  {
    hide Loop.StageTurn, Belongs, Added;
  }

  lemma SampleLives(loop: Loop, world: World, st: LoopState, name: Stage, lineage: Option<Lineage>, repairOf: Option<Origin>)
    requires Lived(st) && !HasFinal(st.saved) && !name.Critique? && MayStart(st.directories, name)
    ensures Onward(st, loop.SampleTurn(world, st, name, lineage, repairOf).state)
  {
    StageLives(loop, world, st, name);
    var ran := loop.StageTurn(world, st, name);
    if ran.result.Success? {
      SummaryTouches(loop, ran.state, name, lineage, repairOf);
    }
    hide Loop.StageTurn, Loop.Summarised;
    var next := loop.SampleTurn(world, st, name, lineage, repairOf).state;
    assert next.directories == ran.state.directories && next.starts == ran.state.starts;
    hide *;
    SameHistory(st, ran.state, next);
  }

  lemma SameHistory(st: LoopState, ran: LoopState, next: LoopState)
    requires Onward(st, ran) && next.directories == ran.directories && next.starts == ran.starts
    ensures Onward(st, next)
  {
  }

  lemma CritiqueLives(loop: Loop, world: World, st: LoopState, selected: Summary, packet: Option<string>)
    requires Lived(st) && !HasFinal(st.saved) && MayStart(st.directories, Critique)
    ensures Onward(st, loop.CritiqueTurn(world, st, selected, packet).state)
  {
    StageLives(loop, world, st, Critique);
    hide Loop.StageTurn;
  }

  lemma CritiqueTouches(loop: Loop, world: World, st: LoopState, selected: Summary, packet: Option<string>)
    requires Typed(st.directories)
    ensures var turn := loop.CritiqueTurn(world, st, selected, packet);
            && turn.state.saved == st.saved && turn.state.record.content == st.record.content
            && (forall s: Stage :: !s.Critique? ==> turn.state.directories[s] == st.directories[s])
            && (turn.result.Success? ==> turn.state.directories[Critique] == Done(Critiqued(turn.result.value))
                                         && CritiqueBelongs(turn.result.value, selected, packet))
  {
    StageTouches(loop, world, st, Critique);
    hide Loop.StageTurn, CritiqueBelongs;
  }

  /** A refusal comes from a critique that this invocation started. */
  lemma RefusalWasThrown(loop: Loop, world: World, st: LoopState, selected: Summary, packet: Option<string>)
    requires Typed(st.directories)
    requires var result := loop.CritiqueTurn(world, st, selected, packet).result; result.Failure? && loop.IsRefusal(result.error)
    ensures var turn := loop.CritiqueTurn(world, st, selected, packet);
            && turn.state.starts != [] && turn.state.starts[|turn.state.starts| - 1].stage == Critique
            && turn.state.starts[|turn.state.starts| - 1].run.Throws?
            && turn.state.starts[|turn.state.starts| - 1].run.error == turn.result.error.error
  {
  }

  lemma RepairTouches(loop: Loop, world: World, st: LoopState, a: Summary, packet: Option<string>, chosen: Stage, selected: Summary)
    requires Typed(st.directories)
    ensures var turn := loop.RepairTurn(world, st, a, packet, chosen, selected);
            && turn.state.saved == st.saved && (forall s: Stage :: s != Repair ==> turn.state.directories[s] == st.directories[s])
            && turn.state.record.content.final == (if turn.result.Success? then Some(turn.result.value) else st.record.content.final)
  {
    SampleTouches(loop, world, st.WithContent(st.record.content.(seededRepair := loop.settings.research)), Repair,
                  LineageFrom(loop.settings, a, packet), Some(selected.origin));
    hide Loop.SampleTurn, LineageFrom;
  }

  lemma RepairLives(loop: Loop, world: World, st: LoopState, a: Summary, packet: Option<string>, chosen: Stage, selected: Summary)
    requires Lived(st) && !HasFinal(st.saved) && MayStart(st.directories, Repair)
    ensures Onward(st, loop.RepairTurn(world, st, a, packet, chosen, selected).state)
  {
    var seeded := st.WithContent(st.record.content.(seededRepair := loop.settings.research));
    SampleLives(loop, world, seeded, Repair, LineageFrom(loop.settings, a, packet), Some(selected.origin));
    hide Loop.SampleTurn, LineageFrom, Staged, Chronicled, KeepsFinished;
  }

  /** A finished repair decides the final selection as an uninterrupted loop would. */
  lemma RepairChooses(loop: Loop, world: World, st: LoopState, a: Summary, packet: Option<string>, chosen: Stage, selected: Summary)
    requires Typed(st.directories) && loop.RepairTurn(world, st, a, packet, chosen, selected).result.Success?
    ensures var turn := loop.RepairTurn(world, st, a, packet, chosen, selected);
            AfterCritique(turn.state.directories, loop.settings, loop.compare, a, packet, st.record.content, chosen, selected)
            == Some(turn.state.record.content)
  {
    var seeded := st.WithContent(st.record.content.(seededRepair := loop.settings.research));
    SampleIsCandidate(loop, world, seeded, Repair, LineageFrom(loop.settings, a, packet), Some(selected.origin));
    hide Loop.SampleTurn, LineageFrom, Candidate, CleanDone;
  }

  // ----- The critique's outcome

  /** How the critique behind a choice ended: with its record, or with the error its start threw. */
  function SeenIn(starts: seq<Start>, content: Content): CritiqueOutcome {
    if content.critique.Some? && content.critique.value.CritiqueRefused? && starts != [] && starts[|starts| - 1].run.Throws?
    then Refused(starts[|starts| - 1].run.error) else FromDirectory
  }

  lemma RefusalChooses(loop: Loop, st: LoopState, error: CritiqueError, d: map<Stage, Directory>, a: Summary,
                       packet: Option<string>, chosen: Stage, selected: Summary)
    requires Typed(d)
    ensures AfterStage1(d, loop.settings, loop.compare, Refused(error), a, packet, st.record.content, chosen, selected)
            == Some(loop.Refusal(st, error, chosen).record.content)
    ensures var next := loop.Refusal(st, error, chosen);
            && next.directories == st.directories && next.starts == st.starts && next.saved == st.saved
            && next.record.content.critique == Some(RefusedEntry(error))
            && next.record.content.final == Some(Choice(chosen, CritiqueFailed))
  {
    hide Totals.PlusCritique, RefusedEntry;
  }

  lemma ImproveTouches(loop: Loop, world: World, st: LoopState, a: Summary, packet: Option<string>, chosen: Stage, selected: Summary)
    requires Typed(st.directories) && !HasFinal(st.saved) && st.record.content.final.None?
    ensures var turn := loop.ImproveTurn(world, st, a, packet, chosen, selected);
            && !HasFinal(turn.state.saved)
            && turn.state.directories[A] == st.directories[A] && turn.state.directories[B] == st.directories[B]
            && turn.state.record.content.final == (if turn.result.Success? then Some(turn.result.value) else None)
  {
    CritiqueTouches(loop, world, st, selected, packet);
    var critiqued := loop.CritiqueTurn(world, st, selected, packet);
    if critiqued.result.Success? {
      var made := critiqued.state.WithContent(WithCritique(critiqued.state.record.content, critiqued.result.value)).Saved();
      RepairTouches(loop, world, made, a, packet, chosen, selected);
    } else if loop.IsRefusal(critiqued.result.error) {
      RefusalChooses(loop, critiqued.state, critiqued.result.error.error, critiqued.state.directories, a, packet, chosen, selected);
    }
    hide Loop.CritiqueTurn, Loop.RepairTurn, Loop.Refusal, AfterStage1, Totals.PlusCritique, CritiqueBelongs;
  }

  lemma ImproveLives(loop: Loop, world: World, st: LoopState, a: Summary, packet: Option<string>, chosen: Stage, selected: Summary)
    requires Lived(st) && !HasFinal(st.saved) && st.record.content.final.None?
    requires CleanDone(st.directories[A]) && CleanDone(st.directories[B])
    ensures Onward(st, loop.ImproveTurn(world, st, a, packet, chosen, selected).state)
  {
    CritiqueTouches(loop, world, st, selected, packet);
    CritiqueLives(loop, world, st, selected, packet);
    var critiqued := loop.CritiqueTurn(world, st, selected, packet);
    var next := loop.ImproveTurn(world, st, a, packet, chosen, selected).state;
    if critiqued.result.Success? {
      var made := critiqued.state.WithContent(WithCritique(critiqued.state.record.content, critiqued.result.value)).Saved();
      RepairLives(loop, world, made, a, packet, chosen, selected);
      hide Loop.CritiqueTurn, Loop.RepairTurn, CritiqueBelongs, Staged, Chronicled, KeepsFinished;
      SameHistory(st, critiqued.state, made);
      OnwardIsTransitive(st, made, next);
    } else {
      hide Loop.CritiqueTurn, Loop.RepairTurn, CritiqueBelongs, Staged, Chronicled, KeepsFinished, Totals.PlusCritique;
      SameHistory(st, critiqued.state, next);
    }
  }

  /** A choice after the first selection is that of an uninterrupted loop, on the critique as it ended. */
  lemma ImproveChooses(loop: Loop, world: World, st: LoopState, a: Summary, packet: Option<string>, chosen: Stage, selected: Summary)
    requires Typed(st.directories) && loop.ImproveTurn(world, st, a, packet, chosen, selected).result.Success?
    ensures var next := loop.ImproveTurn(world, st, a, packet, chosen, selected).state;
            AfterStage1(next.directories, loop.settings, loop.compare, SeenIn(next.starts, next.record.content), a, packet,
                        st.record.content, chosen, selected) == Some(next.record.content)
  {
    CritiqueTouches(loop, world, st, selected, packet);
    var critiqued := loop.CritiqueTurn(world, st, selected, packet);
    var next := loop.ImproveTurn(world, st, a, packet, chosen, selected).state;
    if critiqued.result.Success? {
      var made := critiqued.state.WithContent(WithCritique(critiqued.state.record.content, critiqued.result.value)).Saved();
      RepairTouches(loop, world, made, a, packet, chosen, selected);
      RepairChooses(loop, world, made, a, packet, chosen, selected);
      AfterCritiqueKeepsCritique(next.directories, loop.settings, loop.compare, a, packet, made.record.content, chosen, selected);
      hide Loop.CritiqueTurn, Loop.RepairTurn, CritiqueBelongs, AfterCritique, Totals.PlusCritique;
    } else {
      RefusalWasThrown(loop, world, st, selected, packet);
      var error := critiqued.result.error.error;
      RefusalChooses(loop, critiqued.state, error, next.directories, a, packet, chosen, selected);
      hide Loop.CritiqueTurn, Loop.Refusal, AfterStage1;
    }
  }

  lemma AfterCritiqueKeepsCritique(d: map<Stage, Directory>, settings: Settings, compare: Compare, a: Summary, packet: Option<string>,
                                   content: Content, chosen: Stage, selected: Summary)
    requires Typed(d) && AfterCritique(d, settings, compare, a, packet, content, chosen, selected).Some?
    ensures AfterCritique(d, settings, compare, a, packet, content, chosen, selected).value.critique == content.critique
  {
    hide Candidate, LineageFrom;
  }

  // ----- From the first selection back to the start

  lemma SelectTouches(loop: Loop, world: World, st: LoopState, a: Summary, b: Summary, packet: Option<string>)
    requires Typed(st.directories) && st.record.content.final.None?
    ensures var turn := loop.SelectTurn(world, st, a, b, packet);
            && !HasFinal(turn.state.saved)
            && turn.state.directories[A] == st.directories[A] && turn.state.directories[B] == st.directories[B]
            && turn.state.record.content.final == (if turn.result.Success? then Some(turn.result.value) else None)
  {
    var chosen, selected := if loop.compare(a, b).firstWins then A else B, if loop.compare(a, b).firstWins then a else b;
    ImproveTouches(loop, world, loop.Stage1Recorded(st, a, b), a, packet, chosen, selected);
    hide Loop.ImproveTurn, Identity;
  }

  lemma SelectLives(loop: Loop, world: World, st: LoopState, a: Summary, b: Summary, packet: Option<string>)
    requires Lived(st) && st.record.content.final.None? && CleanDone(st.directories[A]) && CleanDone(st.directories[B])
    ensures Onward(st, loop.SelectTurn(world, st, a, b, packet).state)
  {
    var chosen, selected := if loop.compare(a, b).firstWins then A else B, if loop.compare(a, b).firstWins then a else b;
    var recorded := loop.Stage1Recorded(st, a, b);
    OnwardIsReflexive(st, recorded);
    ImproveLives(loop, world, recorded, a, packet, chosen, selected);
    var next := loop.SelectTurn(world, st, a, b, packet).state;
    hide Loop.ImproveTurn, Identity, Staged, Chronicled, KeepsFinished;
    if selected.artifactsPresent {
      OnwardIsTransitive(st, recorded, next);
    } else {
      SameHistory(st, recorded, next);
    }
  }

  lemma SelectChooses(loop: Loop, world: World, st: LoopState, a: Summary, b: Summary, packet: Option<string>)
    requires Typed(st.directories) && st.record.content.critique.None?
    requires loop.SelectTurn(world, st, a, b, packet).result.Success?
    ensures var next := loop.SelectTurn(world, st, a, b, packet).state;
            AfterB(next.directories, loop.settings, loop.compare, SeenIn(next.starts, next.record.content), a, b, packet, st.record.content)
            == Some(next.record.content)
  {
    var chosen, selected := if loop.compare(a, b).firstWins then A else B, if loop.compare(a, b).firstWins then a else b;
    if selected.artifactsPresent {
      ImproveChooses(loop, world, loop.Stage1Recorded(st, a, b), a, packet, chosen, selected);
    }
    hide Loop.ImproveTurn, Identity, AfterStage1, SeenIn;
  }

  lemma SecondTouches(loop: Loop, world: World, st: LoopState, a: Summary, packet: Option<string>)
    requires Typed(st.directories) && !HasFinal(st.saved) && st.record.content.final.None?
    ensures var turn := loop.SecondTurn(world, st, a, packet);
            && !HasFinal(turn.state.saved) && turn.state.directories[A] == st.directories[A]
            && turn.state.record.content.final == (if turn.result.Success? then Some(turn.result.value) else None)
  {
    var lineage := LineageFrom(loop.settings, a, packet);
    SampleTouches(loop, world, st, B, lineage, None);
    var b := loop.SampleTurn(world, st, B, lineage, None);
    if b.result.Success? {
      SelectTouches(loop, world, b.state, a, b.result.value, packet);
    }
    hide Loop.SampleTurn, Loop.SelectTurn, LineageFrom;
  }

  lemma SecondLives(loop: Loop, world: World, st: LoopState, a: Summary, packet: Option<string>)
    requires Lived(st) && !HasFinal(st.saved) && st.record.content.final.None? && CleanDone(st.directories[A])
    ensures Onward(st, loop.SecondTurn(world, st, a, packet).state)
  {
    var lineage := LineageFrom(loop.settings, a, packet);
    SampleTouches(loop, world, st, B, lineage, None);
    SampleLives(loop, world, st, B, lineage, None);
    var b := loop.SampleTurn(world, st, B, lineage, None);
    var next := loop.SecondTurn(world, st, a, packet).state;
    if b.result.Success? {
      SampleIsCandidate(loop, world, st, B, lineage, None);
      SelectLives(loop, world, b.state, a, b.result.value, packet);
      hide Loop.SampleTurn, Loop.SelectTurn, LineageFrom, Onward;
      OnwardIsTransitive(st, b.state, next);
    }
  }

  lemma SecondChooses(loop: Loop, world: World, st: LoopState, a: Summary, packet: Option<string>)
    requires Typed(st.directories) && st.record.content.critique.None? && st.record.content.final.None?
    requires loop.SecondTurn(world, st, a, packet).result.Success?
    ensures var next := loop.SecondTurn(world, st, a, packet).state;
            AfterA(next.directories, loop.settings, loop.compare, SeenIn(next.starts, next.record.content), a, packet, st.record.content)
            == Some(next.record.content)
  {
    var lineage := LineageFrom(loop.settings, a, packet);
    SampleTouches(loop, world, st, B, lineage, None);
    SampleIsCandidate(loop, world, st, B, lineage, None);
    var b := loop.SampleTurn(world, st, B, lineage, None);
    AddedKeepsCritique(st.record.content, B, b.result.value);
    SelectTouches(loop, world, b.state, a, b.result.value, packet);
    SelectChooses(loop, world, b.state, a, b.result.value, packet);
    var next := loop.SecondTurn(world, st, a, packet).state;
    SameCandidate(b.state.directories, next.directories, loop.settings, B, lineage, None);
    hide Loop.SampleTurn, Loop.SelectTurn, LineageFrom, Candidate, AfterB, SeenIn, Added;
  }

  lemma AddedKeepsCritique(content: Content, stage: Stage, s: Summary)
    ensures Added(content, stage, s).critique == content.critique && Added(content, stage, s).final == content.final
  {
    hide Totals.Plus;
  }

  lemma CandidateNeedsDone(d: map<Stage, Directory>, settings: Settings, stage: Stage, lineage: Option<Lineage>, repairOf: Option<Origin>)
    requires Typed(d) && !stage.Critique?
    ensures Candidate(d, settings, stage, lineage, repairOf).Some? ==> d[stage].Done?
  {
  }

  lemma SameCandidate(d: map<Stage, Directory>, e: map<Stage, Directory>, settings: Settings, stage: Stage,
                      lineage: Option<Lineage>, repairOf: Option<Origin>)
    requires Typed(d) && Typed(e) && !stage.Critique? && d[stage] == e[stage]
    ensures Candidate(d, settings, stage, lineage, repairOf) == Candidate(e, settings, stage, lineage, repairOf)
  {
  }

  /** The state in which sample b is taken, after sample a. */
  function AfterFirst(loop: Loop, first: LoopState, packet: Option<string>): LoopState {
    first.WithContent(first.record.content.(seededB := loop.settings.research, snapshot := packet))
  }

  lemma AttemptTouches(loop: Loop, world: World, st: LoopState)
    requires Typed(st.directories) && !HasFinal(st.saved) && st.record.content == BLANK
    ensures var turn := loop.AttemptTurn(world, st);
            && !HasFinal(turn.state.saved)
            && turn.state.record.content.final == (if turn.result.Success? then Some(turn.result.value) else None)
  {
    SampleTouches(loop, world, st.Saved(), A, None, None);
    var a := loop.SampleTurn(world, st.Saved(), A, None, None);
    if a.result.Success? {
      var packet := if loop.settings.research then a.state.directories[A].result.packet else None;
      SecondTouches(loop, world, AfterFirst(loop, a.state, packet), a.result.value, packet);
    }
    hide Loop.SampleTurn, Loop.SecondTurn;
  }

  lemma AttemptLives(loop: Loop, world: World, st: LoopState)
    requires Lived(st) && st.record.content == BLANK
    ensures Onward(st, loop.AttemptTurn(world, st).state)
  {
    OnwardIsReflexive(st, st.Saved());
    SampleTouches(loop, world, st.Saved(), A, None, None);
    SampleLives(loop, world, st.Saved(), A, None, None);
    var a := loop.SampleTurn(world, st.Saved(), A, None, None);
    var next := loop.AttemptTurn(world, st).state;
    OnwardIsTransitive(st, st.Saved(), a.state);
    if a.result.Success? {
      SampleIsCandidate(loop, world, st.Saved(), A, None, None);
      var packet := if loop.settings.research then a.state.directories[A].result.packet else None;
      hide Loop.SampleTurn, Loop.SecondTurn, Staged, Chronicled, KeepsFinished;
      SameHistory(st, a.state, AfterFirst(loop, a.state, packet));
      if loop.settings.research && packet.None? {
        SameHistory(st, a.state, next);
      } else {
        SecondLives(loop, world, AfterFirst(loop, a.state, packet), a.result.value, packet);
        OnwardIsTransitive(st, AfterFirst(loop, a.state, packet), next);
      }
    }
  }

  /** An invocation that chooses has the content of an uninterrupted loop over the stages that are finished then. */
  lemma AttemptChooses(loop: Loop, world: World, st: LoopState)
    requires Typed(st.directories) && !HasFinal(st.saved) && st.record.content == BLANK
    requires loop.AttemptTurn(world, st).result.Success?
    ensures var next := loop.AttemptTurn(world, st).state;
            Uninterrupted(next.directories, loop.settings, loop.compare, SeenIn(next.starts, next.record.content))
            == Some(next.record.content)
  {
    SampleTouches(loop, world, st.Saved(), A, None, None);
    SampleIsCandidate(loop, world, st.Saved(), A, None, None);
    var a := loop.SampleTurn(world, st.Saved(), A, None, None);
    var next := loop.AttemptTurn(world, st).state;
    AddedKeepsCritique(BLANK, A, a.result.value);
    var packet := if loop.settings.research then a.state.directories[A].result.packet else None;
    if !(loop.settings.research && packet.None?) {
      SecondTouches(loop, world, AfterFirst(loop, a.state, packet), a.result.value, packet);
      SecondChooses(loop, world, AfterFirst(loop, a.state, packet), a.result.value, packet);
    }
    SameCandidate(a.state.directories, next.directories, loop.settings, A, None, None);
    hide Loop.SampleTurn, Loop.SecondTurn, Candidate, AfterA, SeenIn, Added;
  }

  // ----- A whole invocation

  lemma RunLives(loop: Loop, world: World, st: LoopState)
    requires Lived(st)
    ensures Onward(st, loop.RunTurn(world, st).state)
  {
    if HasFinal(st.saved) {
      OnwardIsReflexive(st, st);
    } else {
      var blank := st.(record := LoopRecord(BLANK, [], None));
      OnwardIsReflexive(st, blank);
      AttemptLives(loop, world, blank);
      var chosen := loop.AttemptTurn(world, blank);
      hide Loop.AttemptTurn, Staged, Chronicled, KeepsFinished;
      OnwardIsTransitive(st, blank, chosen.state);
      SameHistory(st, chosen.state, loop.RunTurn(world, st).state);
    }
  }

  /** A choice on record is that of an uninterrupted loop over the finished stages. */
  ghost predicate Agrees(loop: Loop, st: LoopState) {
    && Typed(st.directories)
    && (HasFinal(st.saved) ==>
          Uninterrupted(st.directories, loop.settings, loop.compare, SeenIn(st.starts, st.saved.value.content))
          == Some(st.saved.value.content))
  }

  lemma RunAgrees(loop: Loop, world: World, st: LoopState)
    requires Agrees(loop, st)
    ensures Agrees(loop, loop.RunTurn(world, st).state)
    ensures loop.RunTurn(world, st).result.Success? ==>
              HasFinal(loop.RunTurn(world, st).state.saved)
              && loop.RunTurn(world, st).state.saved == Some(loop.RunTurn(world, st).result.value)
  {
    if !HasFinal(st.saved) {
      var blank := st.(record := LoopRecord(BLANK, [], None));
      AttemptTouches(loop, world, blank);
      if loop.AttemptTurn(world, blank).result.Success? {
        AttemptChooses(loop, world, blank);
      }
      hide Loop.AttemptTurn, Uninterrupted, SeenIn;
    }
  }

  // ----- A world that delivers given results

  /** A world without interrupts whose stages produce given results, or whose critique is refused as given. */
  ghost predicate Delivers(world: World, results: map<Stage, Directory>, outcome: CritiqueOutcome) {
    && Typed(results) && (forall s: Stage :: !world.interruptedBefore(s) && !world.interruptedAfter(s))
    && forall s: Stage ::
         if s.Critique? && outcome.Refused? then world.run(s).Throws? && world.run(s).error == outcome.error
         else results[s].Done? ==> world.run(s) == Finishes(results[s].result)
  }

  lemma StageDelivers(loop: Loop, world: World, st: LoopState, name: Stage, results: map<Stage, Directory>, outcome: CritiqueOutcome)
    requires Typed(st.directories) && st.directories[name].Absent? && Delivers(world, results, outcome)
    requires results[name].Done? && !(name.Critique? && outcome.Refused?)
    ensures var turn := loop.StageTurn(world, st, name);
            turn.result == Success(results[name].result) && turn.state.directories[name] == results[name]
  {
  }

  lemma SampleDelivers(loop: Loop, world: World, st: LoopState, name: Stage, lineage: Option<Lineage>, repairOf: Option<Origin>,
                       results: map<Stage, Directory>, outcome: CritiqueOutcome)
    requires Typed(st.directories) && st.directories[name].Absent? && !name.Critique? && Delivers(world, results, outcome)
    requires Candidate(results, loop.settings, name, lineage, repairOf).Some?
    ensures var turn := loop.SampleTurn(world, st, name, lineage, repairOf);
            && turn.result == Success(Candidate(results, loop.settings, name, lineage, repairOf).value)
            && turn.state.directories[name] == results[name]
            && turn.state.record.content == Added(st.record.content, name, turn.result.value)
  {
    StageDelivers(loop, world, st, name, results, outcome);
    StageTouches(loop, world, st, name);
    hide Loop.StageTurn, Delivers, Added, Belongs;
  }

  lemma RepairDelivers(loop: Loop, world: World, st: LoopState, a: Summary, packet: Option<string>, chosen: Stage, selected: Summary,
                       results: map<Stage, Directory>, outcome: CritiqueOutcome)
    requires Typed(st.directories) && st.directories[Repair].Absent? && Delivers(world, results, outcome)
    requires AfterCritique(results, loop.settings, loop.compare, a, packet, st.record.content, chosen, selected).Some?
    ensures var turn := loop.RepairTurn(world, st, a, packet, chosen, selected);
            && turn.result.Success?
            && AfterCritique(results, loop.settings, loop.compare, a, packet, st.record.content, chosen, selected)
               == Some(turn.state.record.content)
  {
    var seeded := st.WithContent(st.record.content.(seededRepair := loop.settings.research));
    SampleDelivers(loop, world, seeded, Repair, LineageFrom(loop.settings, a, packet), Some(selected.origin), results, outcome);
    hide Loop.SampleTurn, LineageFrom, Candidate, Delivers;
  }

  lemma CritiqueDelivers(loop: Loop, world: World, st: LoopState, selected: Summary, packet: Option<string>,
                         results: map<Stage, Directory>, outcome: CritiqueOutcome)
    requires Typed(st.directories) && st.directories[Critique].Absent? && Delivers(world, results, outcome)
    ensures var turn := loop.CritiqueTurn(world, st, selected, packet);
            match outcome
            case Refused(error) => turn.result == Failure(Threw(error)) && loop.IsRefusal(Threw(error))
            case FromDirectory =>
              results[Critique].Done? && CritiqueBelongs(results[Critique].result.critique, selected, packet) ==>
                turn.result == Success(results[Critique].result.critique)
  {
    assert RunFits(Critique, world.run(Critique));
    hide CritiqueBelongs;
  }

  lemma ImproveDelivers(loop: Loop, world: World, st: LoopState, a: Summary, packet: Option<string>, chosen: Stage, selected: Summary,
                        results: map<Stage, Directory>, outcome: CritiqueOutcome)
    requires Typed(st.directories) && st.directories[Critique].Absent? && st.directories[Repair].Absent?
    requires Delivers(world, results, outcome)
    requires AfterStage1(results, loop.settings, loop.compare, outcome, a, packet, st.record.content, chosen, selected).Some?
    ensures var turn := loop.ImproveTurn(world, st, a, packet, chosen, selected);
            && turn.result.Success?
            && AfterStage1(results, loop.settings, loop.compare, outcome, a, packet, st.record.content, chosen, selected)
               == Some(turn.state.record.content)
  {
    CritiqueDelivers(loop, world, st, selected, packet, results, outcome);
    CritiqueTouches(loop, world, st, selected, packet);
    var critiqued := loop.CritiqueTurn(world, st, selected, packet);
    match outcome
    case Refused(error) =>
      RefusalChooses(loop, critiqued.state, error, results, a, packet, chosen, selected);
      hide Loop.CritiqueTurn, Loop.Refusal, Delivers, AfterStage1;
    case FromDirectory =>
      hide Loop.CritiqueTurn, Delivers, AfterCritique, CritiqueBelongs, WithCritique;
      var made := critiqued.state.WithContent(WithCritique(critiqued.state.record.content, critiqued.result.value)).Saved();
      RepairDelivers(loop, world, made, a, packet, chosen, selected, results, outcome);
      hide Loop.RepairTurn;
  }

  lemma SecondDelivers(loop: Loop, world: World, st: LoopState, a: Summary, packet: Option<string>,
                       results: map<Stage, Directory>, outcome: CritiqueOutcome)
    requires Typed(st.directories) && st.directories[B].Absent? && st.directories[Critique].Absent? && st.directories[Repair].Absent?
    requires Delivers(world, results, outcome)
    requires AfterA(results, loop.settings, loop.compare, outcome, a, packet, st.record.content).Some?
    ensures var turn := loop.SecondTurn(world, st, a, packet);
            && turn.result.Success?
            && AfterA(results, loop.settings, loop.compare, outcome, a, packet, st.record.content) == Some(turn.state.record.content)
  {
    var lineage := LineageFrom(loop.settings, a, packet);
    SampleDelivers(loop, world, st, B, lineage, None, results, outcome);
    SampleTouches(loop, world, st, B, lineage, None);
    var b := loop.SampleTurn(world, st, B, lineage, None);
    var chosen := if loop.compare(a, b.result.value).firstWins then A else B;
    var selected := if loop.compare(a, b.result.value).firstWins then a else b.result.value;
    hide Loop.SampleTurn, LineageFrom, Candidate, Delivers, AfterStage1, Added, Identity;
    if selected.artifactsPresent {
      ImproveDelivers(loop, world, loop.Stage1Recorded(b.state, a, b.result.value), a, packet, chosen, selected, results, outcome);
    }
    hide Loop.ImproveTurn;
  }

  /** In a new directory, a delivering world makes the choice of the uninterrupted loop over its results. */
  lemma AttemptDelivers(loop: Loop, world: World, st: LoopState, results: map<Stage, Directory>, outcome: CritiqueOutcome)
    requires Typed(st.directories) && (forall s: Stage :: st.directories[s].Absent?) && st.record.content == BLANK
    requires Delivers(world, results, outcome) && Uninterrupted(results, loop.settings, loop.compare, outcome).Some?
    ensures var turn := loop.AttemptTurn(world, st);
            && turn.result.Success?
            && Uninterrupted(results, loop.settings, loop.compare, outcome) == Some(turn.state.record.content)
  {
    SampleDelivers(loop, world, st.Saved(), A, None, None, results, outcome);
    SampleTouches(loop, world, st.Saved(), A, None, None);
    var a := loop.SampleTurn(world, st.Saved(), A, None, None);
    var packet := if loop.settings.research then a.state.directories[A].result.packet else None;
    hide Loop.SampleTurn, Candidate, Delivers, AfterA, Added;
    if !(loop.settings.research && packet.None?) {
      SecondDelivers(loop, world, AfterFirst(loop, a.state, packet), a.result.value, packet, results, outcome);
    }
    hide Loop.SecondTurn;
  }
}
