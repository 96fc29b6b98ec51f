/** One invocation of the resumable loop, and the whole life of a loop directory, as functions. */
module LoopRuns {
  import opened Wrappers
  import opened LoopSpec

  // ----- What an invocation meets

  /** How a started stage ends: with its marker, with an error, or with the death of the process. */
  datatype StageRun = Finishes(result: StageResult) | Throws(error: CritiqueError, leaves: Directory) | Dies(leaves: Directory)

  predicate RunFits(stage: Stage, run: StageRun) {
    match run
    case Finishes(result) => Fits(stage, result)
    case Throws(error, leaves) => error.code.Tool? && (leaves.Done? ==> Fits(stage, leaves.result))
    case Dies(leaves) => leaves.Done? ==> Fits(stage, leaves.result)
  }

  /** The directory a run leaves behind. */
  function LeftBy(run: StageRun): Directory {
    match run
    case Finishes(result) => Done(result)
    case Throws(_, leaves) => leaves
    case Dies(leaves) => leaves
  }

  datatype Encounter = Encounter(run: Stage -> StageRun, interruptedBefore: Stage -> bool, interruptedAfter: Stage -> bool)

  const DEATH := Encounter((s: Stage) => Dies(Incomplete), (s: Stage) => false, (s: Stage) => false)

  /** The stages' runs, and when the interrupt signal is seen. */
  type World = w: Encounter | forall s: Stage :: RunFits(s, w.run(s)) witness DEATH

  const NOTHING_DONE: map<Stage, Directory> := map[A := Absent, B := Absent, Critique := Absent, Repair := Absent]

  lemma EveryStageIsAbsent()
    ensures Typed(NOTHING_DONE) && forall s: Stage :: NOTHING_DONE[s] == Absent
  {
    forall s: Stage ensures s in NOTHING_DONE && NOTHING_DONE[s] == Absent {
      match s
      case A =>
      case B =>
      case Critique =>
      case Repair =>
    }
  }

  // ----- The state

  datatype StageEntry = StageEntry(stage: Stage, reused: bool)

  datatype LoopRecord = LoopRecord(content: Content, stages: seq<StageEntry>, failure: Option<Code>)

  /** The moment a stage was started, and how its run ended. */
  datatype Start = Start(stage: Stage, directories: map<Stage, Directory>, saved: Option<LoopRecord>, run: StageRun)

  /** Why an invocation ended without a choice. */
  datatype Stop = Threw(error: CritiqueError) | Died

  function Plain(code: Code): Stop {
    Threw(CritiqueError(code, None, None, None))
  }

  /** The stage directories and the saved record, which outlive an invocation, and the record it fills. */
  datatype LoopState = LoopState(
    directories: map<Stage, Directory>, saved: Option<LoopRecord>, record: LoopRecord, starts: seq<Start>)
  {
    function Saved(): LoopState {
      this.(saved := Some(record))
    }

    function WithContent(content: Content): LoopState {
      this.(record := record.(content := content))
    }

    function WithEntry(entry: StageEntry): LoopState {
      this.(record := record.(stages := record.stages + [entry]))
    }

    function WithFinal(choice: Choice): LoopState {
      WithContent(record.content.(final := Some(choice)))
    }
  }

  const CREATED := LoopState(NOTHING_DONE, None, LoopRecord(BLANK, [], None), [])

  /** The state a step leads to, and what it returns or throws. */
  datatype Turn<T> = Turn(state: LoopState, result: Result<T, Stop>)

  predicate HasFinal(saved: Option<LoopRecord>) {
    saved.Some? && saved.value.content.final.Some?
  }

  // ----- The invocation

  datatype Loop = Loop(settings: Settings, compare: Compare) {

    /** A stage runs once: a finished stage is reused, an unfinished one refused, and nothing starts after an interrupt. */
    function StageTurn(world: World, st: LoopState, name: Stage): (turn: Turn<StageResult>)
      requires Typed(st.directories)
      ensures Typed(turn.state.directories)
      ensures turn.result.Success? ==>
                turn.state.directories[name] == Done(turn.result.value) && turn.state.record.content == st.record.content
    {
      if st.directories[name].Done? then Turn(st.WithEntry(StageEntry(name, true)), Success(st.directories[name].result))
      else if st.directories[name].Incomplete? then Turn(st, Failure(Plain(StageIncomplete)))
      else if world.interruptedBefore(name) then Turn(st, Failure(Plain(LoopInterrupted)))
      else
        var run := world.run(name);
        var started := st.(starts := st.starts + [Start(name, st.directories, st.saved, run)],
                           directories := st.directories[name := LeftBy(run)]);
        match run
        case Finishes(result) =>
          Turn(started.WithEntry(StageEntry(name, false)),
               if world.interruptedAfter(name) then Failure(Plain(LoopInterrupted)) else Success(result))
        case Throws(error, _) => Turn(started, Failure(Threw(error)))
        case Dies(_) => Turn(started, Failure(Died))
    }

    /** A candidate, fresh or reused, must be this loop's; its counts stay on record even where uncertain dispatches end the invocation. */
    function Summarised(st: LoopState, name: Stage, lineage: Option<Lineage>, repairOf: Option<Origin>): Turn<Summary>
      requires Typed(st.directories) && !name.Critique? && st.directories[name].Done?
    {
      var summary := st.directories[name].result.summary;
      if !Belongs(settings, summary, lineage, repairOf) then Turn(st, Failure(Plain(StageMismatch)))
      else
        var next := st.WithContent(Added(st.record.content, name, summary));
        if summary.counts.unknownDispatches != 0 then Turn(next, Failure(Plain(UnresolvedDispatch)))
        else if summary.counts.failedDispatches != 0 then Turn(next, Failure(Plain(FailedDispatch)))
        else Turn(next, Success(summary))
    }

    function SampleTurn(world: World, st: LoopState, name: Stage, lineage: Option<Lineage>, repairOf: Option<Origin>): (turn: Turn<Summary>)
      requires Typed(st.directories) && !name.Critique?
      ensures Typed(turn.state.directories)
      ensures turn.result.Success? ==> turn.state.directories[name].Done?
    {
      var ran := StageTurn(world, st, name);
      if ran.result.Failure? then Turn(ran.state, Failure(ran.result.error))
      else Summarised(ran.state, name, lineage, repairOf)
    }

    function CritiqueTurn(world: World, st: LoopState, selected: Summary, packet: Option<string>): (turn: Turn<CritiqueRecord>)
      requires Typed(st.directories)
      ensures Typed(turn.state.directories)
    {
      var ran := StageTurn(world, st, Critique);
      if ran.result.Failure? then Turn(ran.state, Failure(ran.result.error))
      else if !CritiqueBelongs(ran.result.value.critique, selected, packet) then Turn(ran.state, Failure(Plain(StageMismatch)))
      else Turn(ran.state, Success(ran.result.value.critique))
    }

    /** The repair from the chosen draft, and the final selection. */
    function RepairTurn(world: World, st: LoopState, a: Summary, packet: Option<string>, chosen: Stage, selected: Summary)
      : (turn: Turn<Choice>)
      requires Typed(st.directories)
      ensures Typed(turn.state.directories)
    {
      var seeded := st.WithContent(st.record.content.(seededRepair := settings.research));
      var repair := SampleTurn(world, seeded, Repair, LineageFrom(settings, a, packet), Some(selected.origin));
      if repair.result.Failure? then Turn(repair.state, Failure(repair.result.error))
      else
        var second := compare(repair.result.value, selected);
        var choice := Choice(if second.firstWins then Repair else chosen, Compared(second.step, second.rates));
        Turn(repair.state.WithFinal(choice), Success(choice))
    }

    /** A refused critique ends the loop with the draft it was to improve; a refusal that reached the model is still a call. */
    function Refusal(st: LoopState, error: CritiqueError, chosen: Stage): LoopState {
      var content := st.record.content.(critique := Some(RefusedEntry(error)));
      var counted := if error.usage.None? then content
                     else content.(totals := content.totals.PlusCritique(error.usage, error.fee.GetOr(0), error.finishReason));
      st.WithContent(counted).WithFinal(Choice(chosen, CritiqueFailed))
    }

    /** Whether a critique's error ends the loop with its draft; any other ends the invocation. */
    predicate IsRefusal(stop: Stop) {
      stop.Threw? && stop.error.code.Tool?
    }

    /** After the first selection: a critique, a repair and the final selection, or a refused critique. */
    function ImproveTurn(world: World, st: LoopState, a: Summary, packet: Option<string>, chosen: Stage, selected: Summary)
      : (turn: Turn<Choice>)
      requires Typed(st.directories)
      ensures Typed(turn.state.directories)
    {
      var critiqued := CritiqueTurn(world, st, selected, packet);
      if critiqued.result.Failure? then
        if IsRefusal(critiqued.result.error)
        then Turn(Refusal(critiqued.state, critiqued.result.error.error, chosen), Success(Choice(chosen, CritiqueFailed)))
        else Turn(critiqued.state, Failure(critiqued.result.error))
      else
        var made := critiqued.state.WithContent(WithCritique(critiqued.state.record.content, critiqued.result.value));
        RepairTurn(world, made.Saved(), a, packet, chosen, selected)
    }

    /** The first selection, on record before anything else starts. */
    function Stage1Recorded(st: LoopState, a: Summary, b: Summary): LoopState {
      var first := compare(a, b);
      st.WithContent(st.record.content.(
        writeIdentityEqual := Identity(a, b),
        stage1 := Some(Choice(if first.firstWins then A else B, Compared(first.step, first.rates))))).Saved()
    }

    function SelectTurn(world: World, st: LoopState, a: Summary, b: Summary, packet: Option<string>): (turn: Turn<Choice>)
      requires Typed(st.directories)
      ensures Typed(turn.state.directories)
    {
      var chosen := if compare(a, b).firstWins then A else B;
      var selected := if compare(a, b).firstWins then a else b;
      var recorded := Stage1Recorded(st, a, b);
      if !selected.artifactsPresent then Turn(recorded.WithFinal(Choice(chosen, NoDraft)), Success(Choice(chosen, NoDraft)))
      else ImproveTurn(world, recorded, a, packet, chosen, selected)
    }

    /** Sample b, and on from the first selection. */
    function SecondTurn(world: World, st: LoopState, a: Summary, packet: Option<string>): (turn: Turn<Choice>)
      requires Typed(st.directories)
      ensures Typed(turn.state.directories)
    {
      var b := SampleTurn(world, st, B, LineageFrom(settings, a, packet), None);
      if b.result.Failure? then Turn(b.state, Failure(b.result.error))
      else SelectTurn(world, b.state, a, b.result.value, packet)
    }

    /** Sample a, and on from its packet if the job is research. */
    function AttemptTurn(world: World, st: LoopState): (turn: Turn<Choice>)
      requires Typed(st.directories)
      ensures Typed(turn.state.directories)
    {
      var a := SampleTurn(world, st.Saved(), A, None, None);
      if a.result.Failure? then Turn(a.state, Failure(a.result.error))
      else
        var packet := if settings.research then a.state.directories[A].result.packet else None;
        if settings.research && packet.None? then Turn(a.state.WithFinal(Choice(A, StageFailed)), Success(Choice(A, StageFailed)))
        else
          var content := a.state.record.content.(seededB := settings.research, snapshot := packet);
          SecondTurn(world, a.state.WithContent(content), a.result.value, packet)
    }

    /** `runSelectionLoop`: one invocation, on whatever earlier invocations left behind. */
    function RunTurn(world: World, st: LoopState): (turn: Turn<LoopRecord>)
      requires Typed(st.directories)
      ensures Typed(turn.state.directories)
    {
      if HasFinal(st.saved) then Turn(st, Failure(Plain(LoopTerminal)))
      else
        var chosen := AttemptTurn(world, st.(record := LoopRecord(BLANK, [], None)));
        var ended := chosen.state;
        if chosen.result.Success? then Turn(ended.Saved(), Success(ended.record))
        else if chosen.result.error.Died? then Turn(ended, Failure(Died))
        else
          Turn(ended.(record := ended.record.(failure := Some(chosen.result.error.error.code))).Saved(),
               Failure(chosen.result.error))
    }

    // ----- The life of a loop directory

    /** One happening; only an unfinished stage directory can be moved aside. */
    function After(st: LoopState, happening: Happening): (next: LoopState)
      requires Typed(st.directories)
      ensures Typed(next.directories)
    {
      match happening
      case Invoked(world) => RunTurn(world, st).state
      case MovedAside(stage) =>
        if st.directories[stage].Incomplete? then st.(directories := st.directories[stage := Absent]) else st
    }

    /** The state after a whole life, from the creation of the directory. */
    function LifeOf(happenings: seq<Happening>): (st: LoopState)
      ensures Typed(st.directories)
    {
      if happenings == [] then
        EveryStageIsAbsent();
        CREATED
      else After(LifeOf(happenings[..|happenings| - 1]), happenings[|happenings| - 1])
    }
  }

  /** An invocation, or an operator who moves an unfinished stage directory aside. */
  datatype Happening = Invoked(world: World) | MovedAside(stage: Stage)
}
