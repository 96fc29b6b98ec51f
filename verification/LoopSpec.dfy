/** The select-and-repair loop as a function of what its stages produced. */
module LoopSpec {
  import opened Wrappers

  datatype Stage = A | B | Critique | Repair

  datatype Totals = Totals(
    modelCalls: nat, toolCalls: nat, inputTokens: nat, outputTokens: nat, cachedTokens: nat, cacheWriteTokens: nat,
    lengthStops: nat, feeMicrousd: nat, unknownDispatches: nat, retriedDispatches: nat, failedDispatches: nat)
  {
    function Plus(other: Totals): Totals {
      Totals(modelCalls + other.modelCalls, toolCalls + other.toolCalls, inputTokens + other.inputTokens,
             outputTokens + other.outputTokens, cachedTokens + other.cachedTokens, cacheWriteTokens + other.cacheWriteTokens,
             lengthStops + other.lengthStops, feeMicrousd + other.feeMicrousd, unknownDispatches + other.unknownDispatches,
             retriedDispatches + other.retriedDispatches, failedDispatches + other.failedDispatches)
    }

    /** One call of the critique tool. */
    function PlusCritique(usage: Option<Usage>, fee: nat, finishReason: Option<string>): Totals {
      var used := usage.GetOr(Usage(None, None, None, None));
      this.(modelCalls := modelCalls + 1, feeMicrousd := feeMicrousd + fee,
            lengthStops := lengthStops + (if finishReason == Some("length") then 1 else 0),
            inputTokens := inputTokens + used.input.GetOr(0), outputTokens := outputTokens + used.output.GetOr(0),
            cachedTokens := cachedTokens + used.cacheRead.GetOr(0), cacheWriteTokens := cacheWriteTokens + used.cacheWrite.GetOr(0))
    }
  }

  const ZERO := Totals(0, 0, 0, 0, 0, 0, 0, 0, 0, 0, 0)

  datatype Usage = Usage(input: Option<nat>, output: Option<nat>, cacheRead: Option<nat>, cacheWrite: Option<nat>)

  /** The identity of one finished run. */
  datatype Origin = Origin(resultSha256: string, freezeSha256: string)

  datatype Lineage = Lineage(sourceJobId: string, snapshotSha256: string)

  datatype Summary = Summary(
    jobId: string, taskJob: string, taskBrief: string, runtime: string, origin: Origin, researchFrom: Option<Lineage>,
    repairSource: Option<Origin>, writeIdentity: Option<string>, artifactsPresent: bool, submitted: bool, counts: Totals)

  datatype CritiqueRecord = CritiqueRecord(
    packetSha256: string, critiqueSha256: string, fee: nat, finishReason: Option<string>, usage: Option<Usage>,
    source: Option<Origin>, snapshotSha256: Option<string>)

  /** What a stage's marker file stands for: a summarised run with the packet it transfers, or a critique. */
  datatype StageResult = Sampled(summary: Summary, packet: Option<string>) | Critiqued(critique: CritiqueRecord)

  datatype Directory = Absent | Incomplete | Done(result: StageResult)

  datatype Code =
    | LoopTerminal | StageIncomplete | LoopInterrupted | StageMismatch | UnresolvedDispatch | FailedDispatch | Tool(code: string)

  /** What a thrown critique error carries. */
  datatype CritiqueError = CritiqueError(code: Code, usage: Option<Usage>, fee: Option<nat>, finishReason: Option<string>)

  datatype Settings = Settings(taskJob: string, taskBrief: string, runtime: string, research: bool)

  datatype Comparison = Comparison(firstWins: bool, step: string, rates: (Option<real>, Option<real>))

  type Compare = (Summary, Summary) -> Comparison

  datatype CritiqueEntry =
    | CritiqueMade(packetSha256: string, critiqueSha256: string, fee: nat, finishReason: Option<string>, usage: Option<Usage>)
    | CritiqueRefused(failure: Code, fee: nat, finishReason: Option<string>, usage: Option<Usage>, modelCalls: nat)

  datatype Step = Compared(step: string, rates: (Option<real>, Option<real>)) | StageFailed | NoDraft | CritiqueFailed

  datatype Choice = Choice(candidate: Stage, step: Step)

  /** The part of the loop's record that its stages decide. */
  datatype Content = Content(
    candidates: map<Stage, Summary>, seededB: bool, seededRepair: bool, snapshot: Option<string>,
    writeIdentityEqual: Option<bool>, critique: Option<CritiqueEntry>, totals: Totals, stage1: Option<Choice>, final: Option<Choice>)

  const BLANK := Content(map[], false, false, None, None, None, ZERO, None, None)

  predicate Fits(stage: Stage, result: StageResult) {
    if stage.Critique? then result.Critiqued? else result.Sampled?
  }

  predicate Typed(directories: map<Stage, Directory>) {
    && (forall s: Stage :: s in directories)
    && (forall s: Stage :: s in directories && directories[s].Done? ==> Fits(s, directories[s].result))
  }

  predicate Clean(s: Summary) {
    s.counts.unknownDispatches == 0 && s.counts.failedDispatches == 0
  }

  /** The candidate is this loop's: its task, its runtime and the lineage the stage order implies. */
  predicate Belongs(settings: Settings, s: Summary, lineage: Option<Lineage>, repairOf: Option<Origin>) {
    s.taskJob == settings.taskJob && s.taskBrief == settings.taskBrief && s.runtime == settings.runtime
    && s.researchFrom == lineage && s.repairSource == repairOf
  }

  function Added(content: Content, stage: Stage, s: Summary): Content {
    content.(candidates := content.candidates[stage := s], totals := content.totals.Plus(s.counts))
  }

  // ----- The uninterrupted loop on given stage results

  /** A finished candidate that may be carried on from, or why not. */
  function Candidate(directories: map<Stage, Directory>, settings: Settings, stage: Stage, lineage: Option<Lineage>, repairOf: Option<Origin>)
    : Option<Summary>
    requires Typed(directories) && !stage.Critique?
  {
    if !directories[stage].Done? then None
    else
      var s := directories[stage].result.summary;
      if Belongs(settings, s, lineage, repairOf) && Clean(s) then Some(s) else None
  }

  /** Whether the critique that ran is one of the chosen draft, on this loop's packet. */
  predicate CritiqueBelongs(record: CritiqueRecord, selected: Summary, packet: Option<string>) {
    (record.source.Some? ==> record.source.value == selected.origin) && record.snapshotSha256 == packet
  }

  function Identity(a: Summary, b: Summary): Option<bool> {
    if a.writeIdentity.Some? && b.writeIdentity.Some? then Some(a.writeIdentity == b.writeIdentity) else None
  }

  /** The critique's outcome: the record in its directory, or the error its tool threw. */
  datatype CritiqueOutcome = FromDirectory | Refused(error: CritiqueError)

  /** The content of one uninterrupted loop over these stage results; None where it would stop without a choice. */
  function Uninterrupted(directories: map<Stage, Directory>, settings: Settings, compare: Compare, outcome: CritiqueOutcome)
    : Option<Content>
    requires Typed(directories)
  {
    var a := Candidate(directories, settings, A, None, None);
    if a.None? then None
    else
      var packet := if settings.research then directories[A].result.packet else None;
      var content := Added(BLANK, A, a.value);
      if settings.research && packet.None? then Some(content.(final := Some(Choice(A, StageFailed))))
      else AfterA(directories, settings, compare, outcome, a.value, packet,
                  content.(seededB := settings.research, snapshot := packet))
  }

  function LineageFrom(settings: Settings, a: Summary, packet: Option<string>): Option<Lineage> {
    if settings.research && packet.Some? then Some(Lineage(a.jobId, packet.value)) else None
  }

  function AfterA(directories: map<Stage, Directory>, settings: Settings, compare: Compare, outcome: CritiqueOutcome,
                  a: Summary, packet: Option<string>, content: Content): Option<Content>
    requires Typed(directories)
  {
    var b := Candidate(directories, settings, B, LineageFrom(settings, a, packet), None);
    if b.None? then None
    else AfterB(directories, settings, compare, outcome, a, b.value, packet, Added(content, B, b.value))
  }

  function AfterB(directories: map<Stage, Directory>, settings: Settings, compare: Compare, outcome: CritiqueOutcome,
                  a: Summary, b: Summary, packet: Option<string>, content: Content): Option<Content>
    requires Typed(directories)
  {
    var first := compare(a, b);
    var chosen := if first.firstWins then A else B;
    var selected := if first.firstWins then a else b;
    var chosenContent := content.(
      writeIdentityEqual := Identity(a, b), stage1 := Some(Choice(chosen, Compared(first.step, first.rates))));
    if !selected.artifactsPresent then Some(chosenContent.(final := Some(Choice(chosen, NoDraft))))
    else AfterStage1(directories, settings, compare, outcome, a, packet, chosenContent, chosen, selected)
  }

  function RefusedEntry(error: CritiqueError): CritiqueEntry {
    CritiqueRefused(error.code, error.fee.GetOr(0), error.finishReason, error.usage, if error.usage.Some? then 1 else 0)
  }

  function AfterStage1(directories: map<Stage, Directory>, settings: Settings, compare: Compare, outcome: CritiqueOutcome,
                       a: Summary, packet: Option<string>, content: Content, chosen: Stage, selected: Summary): Option<Content>
    requires Typed(directories)
  {
    match outcome
    case Refused(error) =>
      Some(content.(
        critique := Some(RefusedEntry(error)),
        totals := if error.usage.Some? then content.totals.PlusCritique(error.usage, error.fee.GetOr(0), error.finishReason)
                  else content.totals,
        final := Some(Choice(chosen, CritiqueFailed))))
    case FromDirectory =>
      if !directories[Critique].Done? then None
      else
        var made := directories[Critique].result.critique;
        if !CritiqueBelongs(made, selected, packet) then None
        else AfterCritique(directories, settings, compare, a, packet, WithCritique(content, made), chosen, selected)
  }

  function WithCritique(content: Content, made: CritiqueRecord): Content {
    content.(critique := Some(CritiqueMade(made.packetSha256, made.critiqueSha256, made.fee, made.finishReason, made.usage)),
             totals := content.totals.PlusCritique(made.usage, made.fee, made.finishReason))
  }

  function AfterCritique(directories: map<Stage, Directory>, settings: Settings, compare: Compare, a: Summary,
                         packet: Option<string>, content: Content, chosen: Stage, selected: Summary): Option<Content>
    requires Typed(directories)
  {
    var repair := Candidate(directories, settings, Repair, LineageFrom(settings, a, packet), Some(selected.origin));
    if repair.None? then None
    else
      var second := compare(repair.value, selected);
      Some(Added(content.(seededRepair := settings.research), Repair, repair.value).(
             final := Some(Choice(if second.firstWins then Repair else chosen, Compared(second.step, second.rates)))))
  }
}
