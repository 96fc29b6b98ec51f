/** The resumable loop as the object it is: one mutable record, and stage directories that outlive a run. */
module SelectionLoops {
  import opened Wrappers
  import opened LoopSpec
  import opened LoopRuns

  class SelectionLoop {
    const settings: Settings
    const compare: Compare
    var directories: map<Stage, Directory>
    var saved: Option<LoopRecord>
    var record: LoopRecord
    ghost var starts: seq<Start>

    constructor (settings: Settings, compare: Compare)
      ensures this.settings == settings && this.compare == compare && State() == CREATED && Typed(directories)
    {
      this.settings := settings;
      this.compare := compare;
      directories := NOTHING_DONE;
      saved := None;
      record := LoopRecord(BLANK, [], None);
      starts := [];
      new;
      EveryStageIsAbsent();
    }

    ghost function State(): LoopState
      reads this
    {
      LoopState(directories, saved, record, starts)
    }

    ghost function Spec(): Loop {
      Loop(settings, compare)
    }

    method Save()
      modifies this`saved
      ensures State() == old(State()).Saved()
    {
      saved := Some(record);
    }

    /** A stage runs once: a finished stage is reused, an unfinished one is refused, and nothing starts after an interrupt. */
    method RunStage(world: World, name: Stage) returns (result: Result<StageResult, Stop>)
      requires Typed(directories)
      modifies this`directories, this`record, this`starts
      ensures Turn(State(), result) == Spec().StageTurn(world, old(State()), name)
    {
      if directories[name].Done? {
        record := record.(stages := record.stages + [StageEntry(name, true)]);
        return Success(directories[name].result);
      }
      if directories[name].Incomplete? {
        return Failure(Plain(StageIncomplete));
      }
      if world.interruptedBefore(name) {
        return Failure(Plain(LoopInterrupted));
      }
      var run := world.run(name);
      starts := starts + [Start(name, directories, saved, run)];
      directories := directories[name := LeftBy(run)];
      match run {
        case Finishes(_) =>
        case Throws(error, _) => return Failure(Threw(error));
        case Dies(_) => return Failure(Died);
      }
      record := record.(stages := record.stages + [StageEntry(name, false)]);
      if world.interruptedAfter(name) {
        return Failure(Plain(LoopInterrupted));
      }
      result := Success(run.result);
    }

    /** Every candidate, fresh or reused, must be this loop's; one with uncertain or failed dispatches ends the invocation. */
    method Summarise(name: Stage, lineage: Option<Lineage>, repairOf: Option<Origin>) returns (result: Result<Summary, Stop>)
      requires Typed(directories) && !name.Critique? && directories[name].Done?
      modifies this`record
      ensures Turn(State(), result) == Spec().Summarised(old(State()), name, lineage, repairOf)
    {
      hide Belongs;
      var summary := directories[name].result.summary;
      if !Belongs(settings, summary, lineage, repairOf) {
        return Failure(Plain(StageMismatch));
      }
      record := record.(content := Added(record.content, name, summary));
      if summary.counts.unknownDispatches != 0 {
        return Failure(Plain(UnresolvedDispatch));
      }
      if summary.counts.failedDispatches != 0 {
        return Failure(Plain(FailedDispatch));
      }
      result := Success(summary);
    }

    /** Runs or reuses a sample and summarises it. */
    method Sample(world: World, name: Stage, lineage: Option<Lineage>, repairOf: Option<Origin>) returns (result: Result<Summary, Stop>)
      requires Typed(directories) && !name.Critique?
      modifies this`directories, this`record, this`starts
      ensures Typed(directories) && Turn(State(), result) == Spec().SampleTurn(world, old(State()), name, lineage, repairOf)
    {
      hide Loop.StageTurn, Loop.Summarised;
      var _ :- RunStage(world, name);
      result := Summarise(name, lineage, repairOf);
    }

    /** Runs or reuses the critique and reads its record back. */
    method MakeCritique(world: World, selected: Summary, packet: Option<string>) returns (result: Result<CritiqueRecord, Stop>)
      requires Typed(directories)
      modifies this`directories, this`record, this`starts
      ensures Typed(directories) && Turn(State(), result) == Spec().CritiqueTurn(world, old(State()), selected, packet)
    {
      hide Loop.StageTurn;
      var ran :- RunStage(world, Critique);
      var critiqued := ran.critique;
      if critiqued.source.Some? && critiqued.source.value != selected.origin {
        return Failure(Plain(StageMismatch));
      }
      if critiqued.snapshotSha256 != packet {
        return Failure(Plain(StageMismatch));
      }
      result := Success(critiqued);
    }

    /** The repair from the chosen draft, and the final selection. */
    method RepairDraft(world: World, a: Summary, packet: Option<string>, chosen: Stage, selected: Summary)
      returns (result: Result<Choice, Stop>)
      requires Typed(directories)
      modifies this`directories, this`record, this`starts
      ensures Typed(directories) && Turn(State(), result) == Spec().RepairTurn(world, old(State()), a, packet, chosen, selected)
    {
      hide Loop.SampleTurn, LineageFrom;
      record := record.(content := record.content.(seededRepair := settings.research));
      var repair :- Sample(world, Repair, LineageFrom(settings, a, packet), Some(selected.origin));
      var second := compare(repair, selected);
      var choice := Choice(if second.firstWins then Repair else chosen, Compared(second.step, second.rates));
      record := record.(content := record.content.(final := Some(choice)));
      result := Success(choice);
    }

    /** A refused critique ends the loop with the draft it was to improve; a refusal that reached the model is still a call. */
    method Refuse(error: CritiqueError, chosen: Stage)
      modifies this`record
      ensures State() == Spec().Refusal(old(State()), error, chosen)
    {
      hide Totals.PlusCritique;
      record := record.(content := record.content.(critique := Some(RefusedEntry(error))));
      if error.usage.Some? {
        record := record.(content := record.content.(
          totals := record.content.totals.PlusCritique(error.usage, error.fee.GetOr(0), error.finishReason)));
      }
      record := record.(content := record.content.(final := Some(Choice(chosen, CritiqueFailed))));
    }

    /** The part after the first selection: a critique, a repair and the final selection, or a refused critique. */
    method Improve(world: World, a: Summary, packet: Option<string>, chosen: Stage, selected: Summary)
      returns (result: Result<Choice, Stop>)
      requires Typed(directories)
      modifies this
      ensures Typed(directories) && Turn(State(), result) == Spec().ImproveTurn(world, old(State()), a, packet, chosen, selected)
    {
      hide Loop.CritiqueTurn, Loop.RepairTurn, Loop.Refusal, WithCritique;
      var critiqued := MakeCritique(world, selected, packet);
      if critiqued.Failure? {
        if critiqued.error.Died? || !critiqued.error.error.code.Tool? {
          return Failure(critiqued.error);
        }
        Refuse(critiqued.error.error, chosen);
        return Success(Choice(chosen, CritiqueFailed));
      }
      record := record.(content := WithCritique(record.content, critiqued.value));
      Save();
      result := RepairDraft(world, a, packet, chosen, selected);
    }

    /** Which sample is improved, on record before anything else starts. */
    method RecordStage1(a: Summary, b: Summary) returns (chosen: Stage, selected: Summary)
      modifies this`record, this`saved
      ensures State() == Spec().Stage1Recorded(old(State()), a, b) && saved == Some(record)
      ensures chosen == (if compare(a, b).firstWins then A else B) && selected == (if compare(a, b).firstWins then a else b)
    {
      hide Identity;
      record := record.(content := record.content.(writeIdentityEqual := Identity(a, b)));
      var first := compare(a, b);
      chosen := if first.firstWins then A else B;
      record := record.(content := record.content.(stage1 := Some(Choice(chosen, Compared(first.step, first.rates)))));
      Save();
      selected := if first.firstWins then a else b;
    }

    /** The first selection, and on from the chosen draft. */
    method Select(world: World, a: Summary, b: Summary, packet: Option<string>) returns (result: Result<Choice, Stop>)
      requires Typed(directories)
      modifies this
      ensures Typed(directories) && Turn(State(), result) == Spec().SelectTurn(world, old(State()), a, b, packet)
    {
      hide Loop.ImproveTurn, Loop.Stage1Recorded;
      Stage1KeepsDirectories(Spec(), State(), a, b);
      var chosen, selected := RecordStage1(a, b);
      if !selected.artifactsPresent {
        var choice := Choice(chosen, NoDraft);
        record := record.(content := record.content.(final := Some(choice)));
        return Success(choice);
      }
      result := Improve(world, a, packet, chosen, selected);
    }

    /** Sample b, and on from the first selection. */
    method TakeSecond(world: World, a: Summary, packet: Option<string>) returns (result: Result<Choice, Stop>)
      requires Typed(directories)
      modifies this
      ensures Typed(directories) && Turn(State(), result) == Spec().SecondTurn(world, old(State()), a, packet)
    {
      hide Loop.SampleTurn, Loop.SelectTurn, LineageFrom;
      var b :- Sample(world, B, LineageFrom(settings, a, packet), None);
      result := Select(world, a, b, packet);
    }

    /** The body of an invocation: sample a, and on from its packet if the task is research. */
    method Attempt(world: World) returns (result: Result<Choice, Stop>)
      requires Typed(directories)
      modifies this
      ensures Typed(directories) && Turn(State(), result) == Spec().AttemptTurn(world, old(State()))
    {
      hide Loop.SampleTurn, Loop.SecondTurn;
      Save();
      var a :- Sample(world, A, None, None);
      var packet := if settings.research then directories[A].result.packet else None;
      if settings.research && packet.None? {
        var choice := Choice(A, StageFailed);
        record := record.(content := record.content.(final := Some(choice)));
        return Success(choice);
      }
      record := record.(content := record.content.(seededB := settings.research, snapshot := packet));
      result := TakeSecond(world, a, packet);
    }

    /** `runSelectionLoop`: one invocation, on whatever earlier invocations left behind. */
    method Run(world: World) returns (result: Result<LoopRecord, Stop>)
      requires Typed(directories)
      modifies this
      ensures Typed(directories) && Turn(State(), result) == Spec().RunTurn(world, old(State()))
    {
      hide Loop.AttemptTurn;
      if HasFinal(saved) {
        return Failure(Plain(LoopTerminal));
      }
      record := LoopRecord(BLANK, [], None);
      var chosen := Attempt(world);
      if chosen.Failure? {
        if chosen.error.Died? {
          return Failure(Died);
        }
        record := record.(failure := Some(chosen.error.error.code));
        Save();
        return Failure(chosen.error);
      }
      Save();
      return Success(record);
    }

    /** The operator moves an unfinished stage directory aside. */
    method MoveAside(stage: Stage)
      requires Typed(directories) && directories[stage].Incomplete?
      modifies this`directories
      ensures State() == Spec().After(old(State()), MovedAside(stage))
    {
      directories := directories[stage := Absent];
    }
  }

  lemma Stage1KeepsDirectories(loop: Loop, st: LoopState, a: Summary, b: Summary)
    ensures loop.Stage1Recorded(st, a, b).directories == st.directories
  {
  }
}
