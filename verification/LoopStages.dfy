/** What one invocation does stage by stage: what it starts, what stops it from starting more, and what it lists. */
module LoopStages {
  import opened Wrappers
  import opened LoopSpec
  import opened LoopRuns
  import opened LoopHistory

  function Rank(stage: Stage): nat {
    match stage
    case A => 0
    case B => 1
    case Critique => 2
    case Repair => 3
  }

  /** Every start of the invocation is of this world, was seen before any interrupt, and follows finished starts only. */
  ghost predicate StartsFit(world: World, from: LoopState, starts: seq<Start>) {
    && Typed(from.directories) && from.starts <= starts
    && (forall k :: |from.starts| <= k < |starts| ==>
          && starts[k].run == world.run(starts[k].stage) && !world.interruptedBefore(starts[k].stage)
          && from.directories[starts[k].stage].Absent?)
    && (forall j, k :: |from.starts| <= j < k < |starts| ==>
          && starts[j].run.Finishes? && !world.interruptedAfter(starts[j].stage)
          && Rank(starts[j].stage) < Rank(starts[k].stage))
  }

  /** Every stage listed is finished, in order, and marked as reused exactly if it had finished before. */
  ghost predicate EntriesFit(from: LoopState, st: LoopState) {
    && Typed(from.directories) && Typed(st.directories)
    && (forall i :: 0 <= i < |st.record.stages| ==>
          var entry := st.record.stages[i];
          && st.directories[entry.stage].Done? && (entry.reused <==> from.directories[entry.stage].Done?)
          && (!entry.reused ==> exists k :: |from.starts| <= k < |st.starts| && st.starts[k].stage == entry.stage && st.starts[k].run.Finishes?))
    && (forall i, j :: 0 <= i < j < |st.record.stages| ==> Rank(st.record.stages[i].stage) < Rank(st.record.stages[j].stage))
  }

  ghost predicate InvocationFits(world: World, from: LoopState, st: LoopState) {
    StartsFit(world, from, st.starts) && EntriesFit(from, st)
  }

  /** The invocation may go on with `next`: all it started has finished uninterrupted, and nothing later was touched. */
  ghost predicate GoesOnWith(world: World, from: LoopState, st: LoopState, next: nat) {
    && (forall k :: |from.starts| <= k < |st.starts| ==>
          st.starts[k].run.Finishes? && !world.interruptedAfter(st.starts[k].stage) && Rank(st.starts[k].stage) < next)
    && (forall i :: 0 <= i < |st.record.stages| ==> Rank(st.record.stages[i].stage) < next)
    && (forall s: Stage :: s in st.directories && s in from.directories && Rank(s) >= next ==> st.directories[s] == from.directories[s])
  }

  lemma StageFits(loop: Loop, world: World, from: LoopState, st: LoopState, name: Stage)
    requires InvocationFits(world, from, st) && GoesOnWith(world, from, st, Rank(name))
    ensures var turn := loop.StageTurn(world, st, name);
            && InvocationFits(world, from, turn.state)
            && (turn.result.Success? ==> GoesOnWith(world, from, turn.state, Rank(name) + 1))
  {
    var turn := loop.StageTurn(world, st, name);
    var run := world.run(name);
    if st.directories[name].Done? {
      ReusedFits(world, from, st, name);
    } else if st.directories[name].Absent? && !world.interruptedBefore(name) {
      var start := Start(name, st.directories, st.saved, run);
      var started := st.(starts := st.starts + [start], directories := st.directories[name := LeftBy(run)]);
      assert RunFits(name, run);
      StartedFits(world, from, st, name, started);
      if run.Finishes? {
        FinishedFits(world, from, st, name, started);
      }
    }
  }

  lemma ReusedFits(world: World, from: LoopState, st: LoopState, name: Stage)
    requires InvocationFits(world, from, st) && GoesOnWith(world, from, st, Rank(name)) && st.directories[name].Done?
    ensures var next := st.WithEntry(StageEntry(name, true));
            InvocationFits(world, from, next) && GoesOnWith(world, from, next, Rank(name) + 1)
  {
    var next := st.WithEntry(StageEntry(name, true));
    assert forall i :: 0 <= i < |st.record.stages| ==> next.record.stages[i] == st.record.stages[i];
  }

  lemma StartedFits(world: World, from: LoopState, st: LoopState, name: Stage, started: LoopState)
    requires InvocationFits(world, from, st) && GoesOnWith(world, from, st, Rank(name))
    requires st.directories[name].Absent? && !world.interruptedBefore(name) && RunFits(name, world.run(name))
    requires started == st.(starts := st.starts + [Start(name, st.directories, st.saved, world.run(name))],
                            directories := st.directories[name := LeftBy(world.run(name))])
    ensures InvocationFits(world, from, started)
  {
    assert forall k :: 0 <= k < |st.starts| ==> started.starts[k] == st.starts[k];
    forall i | 0 <= i < |started.record.stages|
      ensures var entry := started.record.stages[i];
              && started.directories[entry.stage].Done? && (entry.reused <==> from.directories[entry.stage].Done?)
              && (!entry.reused ==>
                    exists k :: |from.starts| <= k < |started.starts| && started.starts[k].stage == entry.stage && started.starts[k].run.Finishes?)
    {
      var entry := st.record.stages[i];
      assert Rank(entry.stage) < Rank(name);
      if !entry.reused {
        var k :| |from.starts| <= k < |st.starts| && st.starts[k].stage == entry.stage && st.starts[k].run.Finishes?;
        assert started.starts[k] == st.starts[k];
      }
    }
  }

  lemma FinishedFits(world: World, from: LoopState, st: LoopState, name: Stage, started: LoopState)
    requires InvocationFits(world, from, st) && InvocationFits(world, from, started) && GoesOnWith(world, from, st, Rank(name))
    requires st.directories[name].Absent? && world.run(name).Finishes?
    requires started == st.(starts := st.starts + [Start(name, st.directories, st.saved, world.run(name))],
                            directories := st.directories[name := LeftBy(world.run(name))])
    ensures var next := started.WithEntry(StageEntry(name, false));
            && InvocationFits(world, from, next)
            && (!world.interruptedAfter(name) ==> GoesOnWith(world, from, next, Rank(name) + 1))
  {
    var next := started.WithEntry(StageEntry(name, false));
    assert started.starts[|st.starts|].stage == name && started.starts[|st.starts|].run.Finishes?;
    EntryAdded(from, started, name);
    if !world.interruptedAfter(name) {
      FinishedGoesOn(world, from, st, name, next);
    }
  }

  /** A finished start is listed as started. */
  lemma EntryAdded(from: LoopState, started: LoopState, name: Stage)
    requires EntriesFit(from, started) && started.directories[name].Done? && !from.directories[name].Done?
    requires forall i :: 0 <= i < |started.record.stages| ==> Rank(started.record.stages[i].stage) < Rank(name)
    requires exists k :: |from.starts| <= k < |started.starts| && started.starts[k].stage == name && started.starts[k].run.Finishes?
    ensures EntriesFit(from, started.WithEntry(StageEntry(name, false)))
  {
    var next := started.WithEntry(StageEntry(name, false));
    hide Rank;
    assert forall i :: 0 <= i < |started.record.stages| ==> next.record.stages[i] == started.record.stages[i];
  }

  lemma FinishedGoesOn(world: World, from: LoopState, st: LoopState, name: Stage, next: LoopState)
    requires GoesOnWith(world, from, st, Rank(name)) && world.run(name).Finishes? && !world.interruptedAfter(name)
    requires next.starts == st.starts + [Start(name, st.directories, st.saved, world.run(name))]
    requires next.directories == st.directories[name := LeftBy(world.run(name))]
    requires next.record.stages == st.record.stages + [StageEntry(name, false)]
    ensures GoesOnWith(world, from, next, Rank(name) + 1)
  {
    RanksDiffer();
    hide Rank;
  }

  lemma RanksDiffer()
    ensures forall s: Stage, t: Stage :: Rank(s) == Rank(t) ==> s == t
  {
  }

  /** Only the record's content and what is saved differ. */
  ghost predicate SameStages(st: LoopState, next: LoopState) {
    next.starts == st.starts && next.directories == st.directories && next.record.stages == st.record.stages
  }

  lemma StillFits(world: World, from: LoopState, st: LoopState, next: LoopState, rank: nat)
    requires SameStages(st, next)
    ensures InvocationFits(world, from, st) ==> InvocationFits(world, from, next)
    ensures GoesOnWith(world, from, st, rank) ==> GoesOnWith(world, from, next, rank)
  {
    hide StartsFit;
  }

  lemma GoesFurther(world: World, from: LoopState, st: LoopState, few: nat, many: nat)
    requires GoesOnWith(world, from, st, few) && few <= many
    ensures GoesOnWith(world, from, st, many)
  {
  }

  lemma SummaryKeepsStages(loop: Loop, st: LoopState, name: Stage, lineage: Option<Lineage>, repairOf: Option<Origin>)
    requires Typed(st.directories) && !name.Critique? && st.directories[name].Done?
    ensures SameStages(st, loop.Summarised(st, name, lineage, repairOf).state)
  {
    hide Belongs, Added;
  }

  lemma SampleFits(loop: Loop, world: World, from: LoopState, st: LoopState, name: Stage, lineage: Option<Lineage>, repairOf: Option<Origin>)
    requires InvocationFits(world, from, st) && GoesOnWith(world, from, st, Rank(name)) && !name.Critique? && Typed(st.directories)
    ensures var turn := loop.SampleTurn(world, st, name, lineage, repairOf);
            && InvocationFits(world, from, turn.state)
            && (turn.result.Success? ==> GoesOnWith(world, from, turn.state, Rank(name) + 1))
  {
    hide Loop.StageTurn, Loop.Summarised, InvocationFits, GoesOnWith, Rank;
    StageFits(loop, world, from, st, name);
    var ran := loop.StageTurn(world, st, name);
    if ran.result.Success? {
      SummaryKeepsStages(loop, ran.state, name, lineage, repairOf);
      StillFits(world, from, ran.state, loop.Summarised(ran.state, name, lineage, repairOf).state, Rank(name) + 1);
    }
  }

  lemma CritiqueFits(loop: Loop, world: World, from: LoopState, st: LoopState, selected: Summary, packet: Option<string>)
    requires InvocationFits(world, from, st) && GoesOnWith(world, from, st, 2) && Typed(st.directories)
    ensures var turn := loop.CritiqueTurn(world, st, selected, packet);
            && InvocationFits(world, from, turn.state)
            && (turn.result.Success? ==> GoesOnWith(world, from, turn.state, 3))
  {
    StageFits(loop, world, from, st, Critique);
    hide Loop.StageTurn, InvocationFits, GoesOnWith, CritiqueBelongs;
  }

  lemma RepairFits(loop: Loop, world: World, from: LoopState, st: LoopState, a: Summary, packet: Option<string>, chosen: Stage,
                   selected: Summary)
    requires InvocationFits(world, from, st) && GoesOnWith(world, from, st, 3) && Typed(st.directories)
    ensures InvocationFits(world, from, loop.RepairTurn(world, st, a, packet, chosen, selected).state)
  {
    hide Loop.SampleTurn, InvocationFits, GoesOnWith, LineageFrom;
    var seeded := st.WithContent(st.record.content.(seededRepair := loop.settings.research));
    StillFits(world, from, st, seeded, 3);
    SampleFits(loop, world, from, seeded, Repair, LineageFrom(loop.settings, a, packet), Some(selected.origin));
    var repair := loop.SampleTurn(world, seeded, Repair, LineageFrom(loop.settings, a, packet), Some(selected.origin));
    StillFits(world, from, repair.state, loop.RepairTurn(world, st, a, packet, chosen, selected).state, 4);
  }

  lemma ImproveFits(loop: Loop, world: World, from: LoopState, st: LoopState, a: Summary, packet: Option<string>, chosen: Stage,
                    selected: Summary)
    requires InvocationFits(world, from, st) && GoesOnWith(world, from, st, 2) && Typed(st.directories)
    ensures InvocationFits(world, from, loop.ImproveTurn(world, st, a, packet, chosen, selected).state)
  {
    hide Loop.CritiqueTurn, Loop.RepairTurn, InvocationFits, GoesOnWith, Totals.PlusCritique;
    CritiqueFits(loop, world, from, st, selected, packet);
    var critiqued := loop.CritiqueTurn(world, st, selected, packet);
    if critiqued.result.Success? {
      var made := critiqued.state.WithContent(WithCritique(critiqued.state.record.content, critiqued.result.value)).Saved();
      StillFits(world, from, critiqued.state, made, 3);
      RepairFits(loop, world, from, made, a, packet, chosen, selected);
    } else {
      StillFits(world, from, critiqued.state, loop.ImproveTurn(world, st, a, packet, chosen, selected).state, 3);
    }
  }

  lemma SecondFits(loop: Loop, world: World, from: LoopState, st: LoopState, a: Summary, packet: Option<string>)
    requires InvocationFits(world, from, st) && GoesOnWith(world, from, st, 1) && Typed(st.directories)
    ensures InvocationFits(world, from, loop.SecondTurn(world, st, a, packet).state)
  {
    hide Loop.SampleTurn, Loop.ImproveTurn, InvocationFits, GoesOnWith, LineageFrom, Identity;
    SampleFits(loop, world, from, st, B, LineageFrom(loop.settings, a, packet), None);
    var b := loop.SampleTurn(world, st, B, LineageFrom(loop.settings, a, packet), None);
    if b.result.Success? {
      var recorded := loop.Stage1Recorded(b.state, a, b.result.value);
      StillFits(world, from, b.state, recorded, 2);
      var first := loop.compare(a, b.result.value);
      ImproveFits(loop, world, from, recorded, a, packet, if first.firstWins then A else B, if first.firstWins then a else b.result.value);
      StillFits(world, from, recorded, recorded.WithFinal(Choice(if first.firstWins then A else B, NoDraft)), 2);
    }
  }

  lemma AttemptFits(loop: Loop, world: World, from: LoopState, st: LoopState)
    requires InvocationFits(world, from, st) && GoesOnWith(world, from, st, 0) && Typed(st.directories)
    ensures InvocationFits(world, from, loop.AttemptTurn(world, st).state)
  {
    hide Loop.SampleTurn, Loop.SecondTurn, InvocationFits, GoesOnWith;
    StillFits(world, from, st, st.Saved(), 0);
    SampleFits(loop, world, from, st.Saved(), A, None, None);
    var a := loop.SampleTurn(world, st.Saved(), A, None, None);
    if a.result.Success? {
      var packet := if loop.settings.research then a.state.directories[A].result.packet else None;
      var middle := AfterFirst(loop, a.state, packet);
      StillFits(world, from, a.state, middle, 1);
      SecondFits(loop, world, from, middle, a.result.value, packet);
      StillFits(world, from, a.state, a.state.WithFinal(Choice(A, StageFailed)), 1);
    }
  }

  /**
   * One invocation starts stages in order, each only before an interrupt and only after everything it started before has
   * finished and no interrupt followed; it starts no stage that left anything behind; and it lists only stages that are
   * finished, in order, marked as reused if they had finished before and as started otherwise.
   */
  lemma InvocationsFit(loop: Loop, world: World, st: LoopState)
    requires Typed(st.directories) && !HasFinal(st.saved)
    ensures InvocationFits(world, st, loop.RunTurn(world, st).state)
  {
    var blank := st.(record := LoopRecord(BLANK, [], None));
    AttemptFits(loop, world, st, blank);
    hide Loop.AttemptTurn, InvocationFits;
    StillFits(world, st, loop.AttemptTurn(world, blank).state, loop.RunTurn(world, st).state, 4);
  }

  lemma FirstStartFits(world: World, from: LoopState, st: LoopState)
    requires StartsFit(world, from, st.starts) && |st.starts| > |from.starts|
    ensures !world.interruptedBefore(st.starts[|from.starts|].stage)
  {
  }

  /** A world interrupted from the start starts nothing at all. */
  lemma InterruptedStartsNothing(loop: Loop, world: World, st: LoopState)
    requires Typed(st.directories) && forall s: Stage :: world.interruptedBefore(s)
    ensures loop.RunTurn(world, st).state.starts == st.starts
  {
    hide Loop.AttemptTurn;
    if !HasFinal(st.saved) {
      InvocationsFit(loop, world, st);
      var next := loop.RunTurn(world, st).state;
      hide Loop.RunTurn, EntriesFit;
      if |next.starts| > |st.starts| {
        FirstStartFits(world, st, next);
      }
    }
  }

  /**
   * How an invocation ends: with a refusal that changes nothing if a choice is on record; with its choice saved; with its
   * error code saved and no choice; or dead, with no choice either.
   */
  lemma InvocationsEnd(loop: Loop, world: World, st: LoopState)
    requires Typed(st.directories)
    ensures var turn := loop.RunTurn(world, st);
            if HasFinal(st.saved) then turn.state == st && turn.result == Failure(Threw(CritiqueError(LoopTerminal, None, None, None)))
            else
              match turn.result
              case Success(record) => HasFinal(turn.state.saved) && turn.state.saved == Some(record) && record.failure.None?
              case Failure(Threw(error)) =>
                && turn.state.saved.Some? && turn.state.saved.value.failure == Some(error.code) && !HasFinal(turn.state.saved)
              case Failure(Died) => !HasFinal(turn.state.saved)
  {
    if !HasFinal(st.saved) {
      var blank := st.(record := LoopRecord(BLANK, [], None));
      AttemptTouches(loop, world, blank);
      AttemptKeepsFailure(loop, world, blank);
    }
    hide Loop.AttemptTurn;
  }

  lemma AttemptKeepsFailure(loop: Loop, world: World, st: LoopState)
    requires Typed(st.directories)
    ensures loop.AttemptTurn(world, st).state.record.failure == st.record.failure
  {
    SampleKeepsFailure(loop, world, st.Saved(), A, None, None);
    var a := loop.SampleTurn(world, st.Saved(), A, None, None);
    hide Loop.SampleTurn, Loop.SecondTurn;
    if a.result.Success? {
      var packet := if loop.settings.research then a.state.directories[A].result.packet else None;
      SecondKeepsFailure(loop, world, AfterFirst(loop, a.state, packet), a.result.value, packet);
    }
  }

  lemma SampleKeepsFailure(loop: Loop, world: World, st: LoopState, name: Stage, lineage: Option<Lineage>, repairOf: Option<Origin>)
    requires Typed(st.directories) && !name.Critique?
    ensures loop.SampleTurn(world, st, name, lineage, repairOf).state.record.failure == st.record.failure
  {
    hide Belongs;
  }

  lemma SecondKeepsFailure(loop: Loop, world: World, st: LoopState, a: Summary, packet: Option<string>)
    requires Typed(st.directories)
    ensures loop.SecondTurn(world, st, a, packet).state.record.failure == st.record.failure
  {
    SampleKeepsFailure(loop, world, st, B, LineageFrom(loop.settings, a, packet), None);
    var b := loop.SampleTurn(world, st, B, LineageFrom(loop.settings, a, packet), None);
    hide Loop.SampleTurn, Loop.ImproveTurn, LineageFrom, Identity;
    if b.result.Success? {
      var recorded := loop.Stage1Recorded(b.state, a, b.result.value);
      var first := loop.compare(a, b.result.value);
      ImproveKeepsFailure(loop, world, recorded, a, packet, if first.firstWins then A else B, if first.firstWins then a else b.result.value);
    }
  }

  lemma ImproveKeepsFailure(loop: Loop, world: World, st: LoopState, a: Summary, packet: Option<string>, chosen: Stage, selected: Summary)
    requires Typed(st.directories)
    ensures loop.ImproveTurn(world, st, a, packet, chosen, selected).state.record.failure == st.record.failure
  {
    var critiqued := loop.CritiqueTurn(world, st, selected, packet);
    CritiqueKeepsFailure(loop, world, st, selected, packet);
    hide Loop.CritiqueTurn, Loop.SampleTurn, LineageFrom, Totals.PlusCritique;
    if critiqued.result.Success? {
      var made := critiqued.state.WithContent(WithCritique(critiqued.state.record.content, critiqued.result.value)).Saved();
      var seeded := made.WithContent(made.record.content.(seededRepair := loop.settings.research));
      SampleKeepsFailure(loop, world, seeded, Repair, LineageFrom(loop.settings, a, packet), Some(selected.origin));
    }
  }

  lemma CritiqueKeepsFailure(loop: Loop, world: World, st: LoopState, selected: Summary, packet: Option<string>)
    requires Typed(st.directories)
    ensures loop.CritiqueTurn(world, st, selected, packet).state.record.failure == st.record.failure
  {
    hide CritiqueBelongs;
  }
}
