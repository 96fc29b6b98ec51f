/** What a saved record says, told from the record and the stage directories alone, whatever the life behind it. */
module LoopAudit {
  import opened Wrappers
  import opened LoopSpec
  import opened LoopRuns
  import opened LoopHistory
  import opened LoopTheorems

  // ----- What each line of a record means

  function Draft(c: Content): Option<Summary> {
    if c.stage1.Some? && c.stage1.value.candidate in c.candidates then Some(c.candidates[c.stage1.value.candidate]) else None
  }

  predicate Settled(s: Summary) {
    s.counts.unknownDispatches == 0 && s.counts.failedDispatches == 0
  }

  /** Every candidate is what its stage produced, for this task and runtime, in stage order and after settled ones only. */
  ghost predicate CandidatesHold(settings: Settings, d: map<Stage, Directory>, c: Content)
    requires Typed(d)
  {
    && (forall s: Stage :: s in c.candidates ==>
          && !s.Critique? && d[s].Done? && d[s].result.summary == c.candidates[s]
          && c.candidates[s].taskJob == settings.taskJob && c.candidates[s].taskBrief == settings.taskBrief
          && c.candidates[s].runtime == settings.runtime)
    && (B in c.candidates ==> A in c.candidates && Settled(c.candidates[A]))
    && (Repair in c.candidates ==> B in c.candidates && Settled(c.candidates[B]))
  }

  /** A candidate of a research loop was written from sample a's packet; of any other loop from none. */
  predicate WrittenFromPacket(settings: Settings, c: Content, s: Summary) {
    if settings.research
    then c.snapshot.Some? && A in c.candidates && s.researchFrom == Some(Lineage(c.candidates[A].jobId, c.snapshot.value))
    else s.researchFrom.None?
  }

  ghost predicate LineagesHold(settings: Settings, d: map<Stage, Directory>, c: Content)
    requires Typed(d)
  {
    && (c.snapshot.Some? ==> settings.research && d[A].Done? && d[A].result.Sampled? && d[A].result.packet == c.snapshot)
    && (A in c.candidates ==> c.candidates[A].researchFrom.None? && c.candidates[A].repairSource.None?)
    && (B in c.candidates ==> WrittenFromPacket(settings, c, c.candidates[B]) && c.candidates[B].repairSource.None?)
    && (Repair in c.candidates ==>
          && WrittenFromPacket(settings, c, c.candidates[Repair])
          && Draft(c).Some? && c.candidates[Repair].repairSource == Some(Draft(c).value.origin))
    && (c.seededB ==> settings.research) && (B in c.candidates ==> c.seededB == settings.research)
    && (c.seededRepair ==> settings.research) && (Repair in c.candidates ==> c.seededRepair == settings.research)
  }

  /** The first selection compares the two samples. */
  ghost predicate FirstChoiceHolds(compare: Compare, c: Content) {
    c.stage1.Some? ==>
      && A in c.candidates && B in c.candidates && Settled(c.candidates[A]) && Settled(c.candidates[B])
      && var first := compare(c.candidates[A], c.candidates[B]);
         && c.stage1 == Some(Choice(if first.firstWins then A else B, Compared(first.step, first.rates)))
         && c.writeIdentityEqual
            == (match (c.candidates[A].writeIdentity, c.candidates[B].writeIdentity)
                case (Some(x), Some(y)) => Some(x == y)
                case _ => None)
  }

  /** The final choice: why the loop ended, and with which candidate. */
  ghost predicate FinalChoiceHolds(settings: Settings, compare: Compare, d: map<Stage, Directory>, c: Content)
    requires Typed(d)
  {
    c.final.Some? ==>
      var choice := c.final.value;
      match choice.step
      case StageFailed =>
        && settings.research && choice.candidate == A && A in c.candidates && Settled(c.candidates[A])
        && d[A].Done? && d[A].result.Sampled? && d[A].result.packet.None?
      case NoDraft => Draft(c).Some? && choice.candidate == c.stage1.value.candidate && !Draft(c).value.artifactsPresent
      case CritiqueFailed =>
        && Draft(c).Some? && choice.candidate == c.stage1.value.candidate && Draft(c).value.artifactsPresent
        && c.critique.Some? && c.critique.value.CritiqueRefused?
      case Compared(step, rates) =>
        && Draft(c).Some? && Draft(c).value.artifactsPresent && Repair in c.candidates && Settled(c.candidates[Repair])
        && c.critique.Some? && c.critique.value.CritiqueMade?
        && var second := compare(c.candidates[Repair], Draft(c).value);
           && choice.candidate == (if second.firstWins then Repair else c.stage1.value.candidate)
           && step == second.step && rates == second.rates
  }

  /** A critique on record is the one in its directory, of the draft and the packet chosen; a refused one has a tool's code. */
  ghost predicate CritiqueHolds(d: map<Stage, Directory>, c: Content)
    requires Typed(d)
  {
    && (Repair in c.candidates ==> c.critique.Some? && c.critique.value.CritiqueMade?)
    && (c.critique.Some? ==> Draft(c).Some?)
    && match c.critique
       case None => true
       case Some(CritiqueMade(packetSha256, critiqueSha256, fee, finishReason, usage)) =>
         && d[Critique].Done?
         && var made := d[Critique].result.critique;
            && made.packetSha256 == packetSha256 && made.critiqueSha256 == critiqueSha256 && made.fee == fee
            && made.finishReason == finishReason && made.usage == usage && made.snapshotSha256 == c.snapshot
            && (made.source.Some? ==> made.source.value == Draft(c).value.origin)
       case Some(CritiqueRefused(failure, _, _, usage, modelCalls)) =>
         failure.Tool? && modelCalls == if usage.Some? then 1 else 0
  }

  // ----- What each total adds up

  function CountsFor(c: Content, s: Stage): Totals {
    if s in c.candidates then c.candidates[s].counts else Totals(0, 0, 0, 0, 0, 0, 0, 0, 0, 0, 0)
  }

  /** The calls, fee, length stops and tokens of the critique; one that never reached the model has none. */
  datatype CritiqueCost = CritiqueCost(calls: nat, fee: nat, stops: nat, input: nat, output: nat, cacheRead: nat, cacheWrite: nat)

  const NO_COST := CritiqueCost(0, 0, 0, 0, 0, 0, 0)

  function TokensIn(tokens: Option<nat>): nat {
    if tokens.Some? then tokens.value else 0
  }

  function CallCost(fee: nat, finishReason: Option<string>, usage: Option<Usage>): CritiqueCost {
    var stops := if finishReason == Some("length") then 1 else 0;
    if usage.None? then CritiqueCost(1, fee, stops, 0, 0, 0, 0)
    else
      var u := usage.value;
      CritiqueCost(1, fee, stops, TokensIn(u.input), TokensIn(u.output), TokensIn(u.cacheRead), TokensIn(u.cacheWrite))
  }

  function CostOfCritique(critique: Option<CritiqueEntry>): CritiqueCost {
    match critique
    case None => NO_COST
    case Some(CritiqueMade(_, _, fee, finishReason, usage)) => CallCost(fee, finishReason, usage)
    case Some(CritiqueRefused(_, fee, finishReason, usage, _)) => if usage.None? then NO_COST else CallCost(fee, finishReason, usage)
  }

  /** Every total is the sum of that number over the three candidates and the critique. */
  ghost predicate TotalsHold(c: Content) {
    var a, b, r, call := CountsFor(c, A), CountsFor(c, B), CountsFor(c, Repair), CostOfCritique(c.critique);
    && c.totals.modelCalls == a.modelCalls + b.modelCalls + r.modelCalls + call.calls
    && c.totals.toolCalls == a.toolCalls + b.toolCalls + r.toolCalls
    && c.totals.inputTokens == a.inputTokens + b.inputTokens + r.inputTokens + call.input
    && c.totals.outputTokens == a.outputTokens + b.outputTokens + r.outputTokens + call.output
    && c.totals.cachedTokens == a.cachedTokens + b.cachedTokens + r.cachedTokens + call.cacheRead
    && c.totals.cacheWriteTokens == a.cacheWriteTokens + b.cacheWriteTokens + r.cacheWriteTokens + call.cacheWrite
    && c.totals.lengthStops == a.lengthStops + b.lengthStops + r.lengthStops + call.stops
    && c.totals.feeMicrousd == a.feeMicrousd + b.feeMicrousd + r.feeMicrousd + call.fee
    && c.totals.unknownDispatches == a.unknownDispatches + b.unknownDispatches + r.unknownDispatches
    && c.totals.retriedDispatches == a.retriedDispatches + b.retriedDispatches + r.retriedDispatches
    && c.totals.failedDispatches == a.failedDispatches + b.failedDispatches + r.failedDispatches
  }

  /** Every line of a record holds. */
  ghost predicate Holds(loop: Loop, d: map<Stage, Directory>, c: Content) {
    && Typed(d) && CandidatesHold(loop.settings, d, c) && LineagesHold(loop.settings, d, c)
    && FirstChoiceHolds(loop.compare, c) && FinalChoiceHolds(loop.settings, loop.compare, d, c)
    && CritiqueHolds(d, c) && TotalsHold(c)
  }

  /** Both the record that an invocation fills and the one it saved hold. */
  ghost predicate Audited(loop: Loop, st: LoopState) {
    Holds(loop, st.directories, st.record.content) && (st.saved.Some? ==> Holds(loop, st.directories, st.saved.value.content))
  }

  // ----- What the steps of an invocation add to a record

  /** A record says nothing that a later state of the directories takes back. */
  lemma StillHolds(loop: Loop, d: map<Stage, Directory>, e: map<Stage, Directory>, c: Content)
    requires Holds(loop, d, c) && KeepsFinished(d, e)
    ensures Holds(loop, e, c)
  {
    hide TotalsHold, FirstChoiceHolds, Settled;
  }

  lemma StillAudited(loop: Loop, st: LoopState, next: LoopState)
    requires Audited(loop, st) && KeepsFinished(st.directories, next.directories)
    requires next.record.content == st.record.content && next.saved == st.saved
    ensures Audited(loop, next)
  {
    hide Holds, KeepsFinished;
    StillHolds(loop, st.directories, next.directories, st.record.content);
    if st.saved.Some? {
      StillHolds(loop, st.directories, next.directories, st.saved.value.content);
    }
  }

  lemma StageKeeps(loop: Loop, world: World, st: LoopState, name: Stage)
    requires Typed(st.directories)
    ensures KeepsFinished(st.directories, loop.StageTurn(world, st, name).state.directories)
  {
    StageTouches(loop, world, st, name);
    hide Loop.StageTurn;
  }

  /** What a sample does to the record: nothing, or it adds the summary its stage produced, if that is this loop's. */
  lemma SampleAdds(loop: Loop, world: World, st: LoopState, name: Stage, lineage: Option<Lineage>, repairOf: Option<Origin>)
    requires Typed(st.directories) && !name.Critique?
    ensures var turn := loop.SampleTurn(world, st, name, lineage, repairOf);
            && KeepsFinished(st.directories, turn.state.directories) && turn.state.saved == st.saved
            && (turn.state.record.content == st.record.content
                || (&& turn.state.directories[name].Done?
                    && var s := turn.state.directories[name].result.summary;
                       Belongs(loop.settings, s, lineage, repairOf) && turn.state.record.content == Added(st.record.content, name, s)))
            && (turn.result.Success? ==>
                  && turn.state.directories[name].Done? && turn.state.directories[name].result.summary == turn.result.value
                  && Belongs(loop.settings, turn.result.value, lineage, repairOf) && Settled(turn.result.value)
                  && turn.state.record.content == Added(st.record.content, name, turn.result.value))
  {
    hide Loop.StageTurn, Belongs, Added, KeepsFinished;
    StageKeeps(loop, world, st, name);
    StageTouches(loop, world, st, name);
  }

  lemma AAddedHolds(loop: Loop, d: map<Stage, Directory>, s: Summary)
    requires Typed(d) && d[A].Done? && d[A].result.summary == s && Belongs(loop.settings, s, None, None)
    ensures Holds(loop, d, Added(BLANK, A, s))
  {
  }

  lemma BAddedHolds(loop: Loop, d: map<Stage, Directory>, c: Content, a: Summary, s: Summary)
    requires Holds(loop, d, c) && c.candidates == map[A := a] && Settled(a) && c.stage1.None? && c.critique.None? && c.final.None?
    requires c.seededB == loop.settings.research && (loop.settings.research ==> c.snapshot.Some?)
    requires d[B].Done? && d[B].result.summary == s && Belongs(loop.settings, s, LineageFrom(loop.settings, a, c.snapshot), None)
    ensures Holds(loop, d, Added(c, B, s))
  {
  }

  lemma FirstChoiceRecorded(loop: Loop, st: LoopState, a: Summary, b: Summary)
    requires Audited(loop, st) && st.record.content.candidates == map[A := a, B := b] && Settled(a) && Settled(b)
    requires st.record.content.critique.None? && st.record.content.final.None?
    ensures Audited(loop, loop.Stage1Recorded(st, a, b))
  {
    hide TotalsHold;
    var c := loop.Stage1Recorded(st, a, b).record.content;
    assert TotalsHold(c) by {
      SameCounts(st.record.content, c);
    }
  }

  lemma SameCounts(c: Content, c': Content)
    requires TotalsHold(c) && c'.candidates == c.candidates && c'.totals == c.totals
    requires CostOfCritique(c'.critique) == CostOfCritique(c.critique)
    ensures TotalsHold(c')
  {
    hide CostOfCritique;
  }

  lemma RefusalHolds(loop: Loop, d: map<Stage, Directory>, st: LoopState, error: CritiqueError, chosen: Stage)
    requires Holds(loop, d, st.record.content) && st.record.content.critique.None? && st.record.content.final.None?
    requires error.code.Tool? && Draft(st.record.content).Some? && Draft(st.record.content).value.artifactsPresent
    requires st.record.content.stage1.value.candidate == chosen && Repair !in st.record.content.candidates
    ensures Holds(loop, d, loop.Refusal(st, error, chosen).record.content)
  {
    RefusalAddsUp(loop, st, error, chosen);
    RefusalSays(loop, st, error, chosen);
    hide Settled, Loop.Refusal, TotalsHold;
    var c, next := st.record.content, loop.Refusal(st, error, chosen).record.content;
    assert Draft(next) == Draft(c);
  }

  lemma RefusalAddsUp(loop: Loop, st: LoopState, error: CritiqueError, chosen: Stage)
    requires TotalsHold(st.record.content) && st.record.content.critique.None?
    ensures TotalsHold(loop.Refusal(st, error, chosen).record.content)
  {
    var c, next, entry := st.record.content, loop.Refusal(st, error, chosen).record.content, RefusedEntry(error);
    if error.usage.Some? {
      CallAddsUp(c, entry, error.fee.GetOr(0), error.finishReason, error.usage);
      SameCounts(c.(critique := Some(entry),
                    totals := c.totals.PlusCritique(error.usage, error.fee.GetOr(0), error.finishReason)), next);
    } else {
      hide TotalsHold;
      SameCounts(c, next);
    }
  }

  /** A critique's call adds its own numbers. */
  lemma CallAddsUp(c: Content, entry: CritiqueEntry, fee: nat, finishReason: Option<string>, usage: Option<Usage>)
    requires TotalsHold(c) && c.critique.None? && CostOfCritique(Some(entry)) == CallCost(fee, finishReason, usage)
    ensures TotalsHold(c.(critique := Some(entry), totals := c.totals.PlusCritique(usage, fee, finishReason)))
  {
  }

  lemma RefusalSays(loop: Loop, st: LoopState, error: CritiqueError, chosen: Stage)
    ensures var c, next := st.record.content, loop.Refusal(st, error, chosen).record.content;
            && next == c.(critique := next.critique, totals := next.totals, final := Some(Choice(chosen, CritiqueFailed)))
            && next.critique.Some? && next.critique.value.CritiqueRefused? && next.critique.value.failure == error.code
            && next.critique.value.usage == error.usage && next.critique.value.modelCalls == (if error.usage.Some? then 1 else 0)
  {
    hide Totals.PlusCritique;
  }

  lemma CritiqueRecorded(loop: Loop, d: map<Stage, Directory>, c: Content, made: CritiqueRecord)
    requires Holds(loop, d, c) && c.critique.None? && c.final.None? && Repair !in c.candidates
    requires Draft(c).Some? && d[Critique] == Done(Critiqued(made)) && CritiqueBelongs(made, Draft(c).value, c.snapshot)
    ensures Holds(loop, d, WithCritique(c, made))
  {
    hide Settled;
  }

  /** The point at which a repair starts. */
  ghost predicate Repairable(loop: Loop, c: Content, a: Summary, b: Summary, packet: Option<string>, chosen: Stage, selected: Summary) {
    && c.candidates == map[A := a, B := b] && Settled(a) && Settled(b) && c.stage1.Some? && c.stage1.value.candidate == chosen
    && Draft(c) == Some(selected) && selected.artifactsPresent && c.final.None? && c.snapshot == packet
    && (loop.settings.research ==> packet.Some?)
  }

  lemma RepairAddedHolds(loop: Loop, d: map<Stage, Directory>, c: Content, a: Summary, b: Summary, packet: Option<string>,
                         chosen: Stage, selected: Summary, s: Summary)
    requires Holds(loop, d, c) && Repairable(loop, c, a, b, packet, chosen, selected)
    requires c.critique.Some? && c.critique.value.CritiqueMade? && c.seededRepair == loop.settings.research
    requires d[Repair].Done? && d[Repair].result.summary == s
    requires Belongs(loop.settings, s, LineageFrom(loop.settings, a, packet), Some(selected.origin))
    ensures Holds(loop, d, Added(c, Repair, s))
  {
    var next := Added(c, Repair, s);
    assert Draft(next) == Draft(c);
  }

  // ----- Every invocation and every life

  lemma RepairAudited(loop: Loop, world: World, st: LoopState, a: Summary, b: Summary, packet: Option<string>, chosen: Stage,
                      selected: Summary)
    requires Audited(loop, st) && Repairable(loop, st.record.content, a, b, packet, chosen, selected)
    requires st.record.content.critique.Some? && st.record.content.critique.value.CritiqueMade?
    ensures Audited(loop, loop.RepairTurn(world, st, a, packet, chosen, selected).state)
  {
    var seeded := st.WithContent(st.record.content.(seededRepair := loop.settings.research));
    var lineage, repairOf := LineageFrom(loop.settings, a, packet), Some(selected.origin);
    SeededIsRepairable(loop, st.record.content, a, b, packet, chosen, selected);
    SeedingHolds(loop, st);
    SampleAdds(loop, world, seeded, Repair, lineage, repairOf);
    var repair := loop.SampleTurn(world, seeded, Repair, lineage, repairOf);
    hide Loop.SampleTurn, LineageFrom, Belongs, KeepsFinished, Holds, Added, Repairable;
    var e, c := repair.state.directories, seeded.record.content;
    StillAudited(loop, seeded, repair.state.WithContent(c));
    if repair.state.record.content != c {
      RepairAddedHolds(loop, e, c, a, b, packet, chosen, selected, e[Repair].result.summary);
    }
    if repair.result.Success? {
      FinalHolds(loop, e, c, a, b, packet, chosen, selected, repair.result.value);
    }
  }

  lemma SeededIsRepairable(loop: Loop, c: Content, a: Summary, b: Summary, packet: Option<string>, chosen: Stage, selected: Summary)
    requires Repairable(loop, c, a, b, packet, chosen, selected)
    ensures Repairable(loop, c.(seededRepair := loop.settings.research), a, b, packet, chosen, selected)
    ensures Repair !in c.candidates
  {
  }

  lemma SeedingHolds(loop: Loop, st: LoopState)
    requires Audited(loop, st) && Repair !in st.record.content.candidates
    ensures Audited(loop, st.WithContent(st.record.content.(seededRepair := loop.settings.research)))
  {
    hide TotalsHold, Settled;
    SameCounts(st.record.content, st.record.content.(seededRepair := loop.settings.research));
  }

  lemma FinalHolds(loop: Loop, d: map<Stage, Directory>, c: Content, a: Summary, b: Summary, packet: Option<string>,
                   chosen: Stage, selected: Summary, s: Summary)
    requires Holds(loop, d, Added(c, Repair, s)) && Repairable(loop, c, a, b, packet, chosen, selected) && Settled(s)
    requires c.critique.Some? && c.critique.value.CritiqueMade?
    ensures var second := loop.compare(s, selected);
            Holds(loop, d, Added(c, Repair, s).(
              final := Some(Choice(if second.firstWins then Repair else chosen, Compared(second.step, second.rates)))))
  {
    hide TotalsHold, Settled, Totals.Plus;
    var second := loop.compare(s, selected);
    var last := Added(c, Repair, s);
    var next := last.(final := Some(Choice(if second.firstWins then Repair else chosen, Compared(second.step, second.rates))));
    assert Draft(next) == Draft(last) == Draft(c);
    SameCounts(last, next);
  }

  lemma ImproveAudited(loop: Loop, world: World, st: LoopState, a: Summary, b: Summary, packet: Option<string>, chosen: Stage,
                       selected: Summary)
    requires Audited(loop, st) && Repairable(loop, st.record.content, a, b, packet, chosen, selected)
    requires st.record.content.critique.None?
    ensures Audited(loop, loop.ImproveTurn(world, st, a, packet, chosen, selected).state)
  {
    CritiqueTouches(loop, world, st, selected, packet);
    StageKeeps(loop, world, st, Critique);
    var critiqued := loop.CritiqueTurn(world, st, selected, packet);
    assert KeepsFinished(st.directories, critiqued.state.directories) by { hide KeepsFinished, Loop.StageTurn; }
    hide Loop.CritiqueTurn, Loop.RepairTurn, Loop.Refusal, Holds, KeepsFinished, CritiqueBelongs, WithCritique, Settled;
    StillAudited(loop, st, critiqued.state);
    if critiqued.result.Success? {
      CritiqueRecorded(loop, critiqued.state.directories, st.record.content, critiqued.result.value);
      var made := critiqued.state.WithContent(WithCritique(st.record.content, critiqued.result.value)).Saved();
      StillRepairable(loop, st.record.content, critiqued.result.value, a, b, packet, chosen, selected);
      RepairAudited(loop, world, made, a, b, packet, chosen, selected);
    } else if loop.IsRefusal(critiqued.result.error) {
      RefusalHolds(loop, critiqued.state.directories, critiqued.state, critiqued.result.error.error, chosen);
      RefusalKeepsRest(loop, critiqued.state, critiqued.result.error.error, chosen);
    }
  }

  lemma RefusalKeepsRest(loop: Loop, st: LoopState, error: CritiqueError, chosen: Stage)
    ensures var next := loop.Refusal(st, error, chosen); next.directories == st.directories && next.saved == st.saved
  {
  }

  lemma StillRepairable(loop: Loop, c: Content, made: CritiqueRecord, a: Summary, b: Summary, packet: Option<string>,
                        chosen: Stage, selected: Summary)
    requires Repairable(loop, c, a, b, packet, chosen, selected)
    ensures Repairable(loop, WithCritique(c, made), a, b, packet, chosen, selected)
    ensures WithCritique(c, made).critique.Some? && WithCritique(c, made).critique.value.CritiqueMade?
  {
    hide Totals.PlusCritique, Settled;
  }

  lemma SelectAudited(loop: Loop, world: World, st: LoopState, a: Summary, b: Summary, packet: Option<string>)
    requires Audited(loop, st) && st.record.content.candidates == map[A := a, B := b] && Settled(a) && Settled(b)
    requires st.record.content.critique.None? && st.record.content.final.None? && st.record.content.snapshot == packet
    requires loop.settings.research ==> packet.Some?
    ensures Audited(loop, loop.SelectTurn(world, st, a, b, packet).state)
  {
    FirstChoiceRecorded(loop, st, a, b);
    var recorded := loop.Stage1Recorded(st, a, b);
    var first := loop.compare(a, b);
    var chosen, selected := if first.firstWins then A else B, if first.firstWins then a else b;
    var c := recorded.record.content;
    assert c == st.record.content.(writeIdentityEqual := c.writeIdentityEqual,
                                   stage1 := Some(Choice(chosen, Compared(first.step, first.rates))));
    assert Draft(c) == Some(selected);
    hide Loop.Stage1Recorded, Loop.ImproveTurn, Settled;
    if selected.artifactsPresent {
      hide Holds;
      ImproveAudited(loop, world, recorded, a, b, packet, chosen, selected);
    } else {
      hide TotalsHold, FirstChoiceHolds, CandidatesHold;
      EndsWithoutDraft(loop, recorded, chosen);
    }
  }

  lemma EndsWithoutDraft(loop: Loop, st: LoopState, chosen: Stage)
    requires Audited(loop, st) && st.record.content.final.None?
    requires Draft(st.record.content).Some? && !Draft(st.record.content).value.artifactsPresent
    requires st.record.content.stage1.value.candidate == chosen
    ensures Audited(loop, st.WithFinal(Choice(chosen, NoDraft)))
  {
    hide TotalsHold, Settled;
    var c, next := st.record.content, st.WithFinal(Choice(chosen, NoDraft)).record.content;
    assert Draft(next) == Draft(c);
    SameCounts(c, next);
  }

  lemma SecondAudited(loop: Loop, world: World, st: LoopState, a: Summary, packet: Option<string>)
    requires Audited(loop, st) && st.record.content.candidates == map[A := a] && Settled(a)
    requires st.record.content.stage1.None? && st.record.content.critique.None? && st.record.content.final.None?
    requires st.record.content.seededB == loop.settings.research && st.record.content.snapshot == packet
    requires loop.settings.research ==> packet.Some?
    ensures Audited(loop, loop.SecondTurn(world, st, a, packet).state)
  {
    var lineage := LineageFrom(loop.settings, a, packet);
    SampleAdds(loop, world, st, B, lineage, None);
    var b := loop.SampleTurn(world, st, B, lineage, None);
    hide Loop.SampleTurn, Loop.SelectTurn, LineageFrom, Belongs, KeepsFinished, Holds, Settled, Totals.Plus;
    var e, c := b.state.directories, st.record.content;
    StillHolds(loop, st.directories, e, c);
    if st.saved.Some? {
      StillHolds(loop, st.directories, e, st.saved.value.content);
    }
    if b.state.record.content != c {
      BAddedHolds(loop, e, c, a, e[B].result.summary);
    }
    if b.result.Success? {
      BAddedHolds(loop, e, c, a, b.result.value);
      SelectAudited(loop, world, b.state, a, b.result.value, packet);
    }
  }

  lemma AttemptAudited(loop: Loop, world: World, st: LoopState)
    requires Audited(loop, st) && st.record.content == BLANK
    ensures Audited(loop, loop.AttemptTurn(world, st).state)
  {
    SampleAdds(loop, world, st.Saved(), A, None, None);
    var a := loop.SampleTurn(world, st.Saved(), A, None, None);
    hide Loop.SampleTurn, Loop.SecondTurn, Belongs, KeepsFinished, Holds, Settled, Totals.Plus;
    var e := a.state.directories;
    StillHolds(loop, st.directories, e, BLANK);
    if a.state.record.content != BLANK {
      AAddedHolds(loop, e, e[A].result.summary);
    }
    if a.result.Success? {
      AAddedHolds(loop, e, a.result.value);
      var packet := if loop.settings.research then e[A].result.packet else None;
      PacketHolds(loop, a.state, a.result.value);
      if !(loop.settings.research && packet.None?) {
        SecondAudited(loop, world, AfterFirst(loop, a.state, packet), a.result.value, packet);
      }
    }
  }

  /** After a settled sample a: no packet ends a research loop, and the packet goes on record otherwise. */
  lemma PacketHolds(loop: Loop, st: LoopState, a: Summary)
    requires Audited(loop, st) && st.record.content == Added(BLANK, A, a) && Settled(a) && st.directories[A].Done?
    ensures var packet := if loop.settings.research then st.directories[A].result.packet else None;
            if loop.settings.research && packet.None? then Audited(loop, st.WithFinal(Choice(A, StageFailed)))
            else Audited(loop, AfterFirst(loop, st, packet))
  {
    hide TotalsHold, Settled;
    var packet := if loop.settings.research then st.directories[A].result.packet else None;
    var c := st.record.content;
    SameCounts(c, st.WithFinal(Choice(A, StageFailed)).record.content);
    SameCounts(c, AfterFirst(loop, st, packet).record.content);
  }

  lemma BlankHolds(loop: Loop, d: map<Stage, Directory>)
    requires Typed(d)
    ensures Holds(loop, d, BLANK)
  {
  }

  lemma RunAudited(loop: Loop, world: World, st: LoopState)
    requires Audited(loop, st)
    ensures Audited(loop, loop.RunTurn(world, st).state)
  {
    hide Loop.AttemptTurn, CandidatesHold, LineagesHold, FirstChoiceHolds, FinalChoiceHolds, CritiqueHolds, TotalsHold;
    if !HasFinal(st.saved) {
      BlankHolds(loop, st.directories);
      AttemptAudited(loop, world, st.(record := LoopRecord(BLANK, [], None)));
    }
  }

  /** After any life, whatever was interrupted, reused or moved aside, every line of the saved record holds. */
  lemma {:induction false} LivesAreAudited(loop: Loop, happenings: seq<Happening>)
    ensures Audited(loop, loop.LifeOf(happenings))
  {
    if happenings == [] {
      EveryStageIsAbsent();
      BlankHolds(loop, NOTHING_DONE);
    } else {
      var before, last := loop.LifeOf(happenings[..|happenings| - 1]), happenings[|happenings| - 1];
      LivesAreAudited(loop, happenings[..|happenings| - 1]);
      hide Holds, Loop.RunTurn;
      match last
      case Invoked(world) => RunAudited(loop, world, before);
      case MovedAside(stage) =>
        if before.directories[stage].Incomplete? {
          StillAudited(loop, before, loop.After(before, last));
        }
    }
  }

  /** A refused critique is on record with what its error carried. */
  lemma RefusalsAreOnRecord(loop: Loop, happenings: seq<Happening>)
    requires var saved := loop.LifeOf(happenings).saved;
             HasFinal(saved) && saved.value.content.critique.Some? && saved.value.content.critique.value.CritiqueRefused?
    ensures var st := loop.LifeOf(happenings);
            var entry := st.saved.value.content.critique.value;
            && st.starts != [] && st.starts[|st.starts| - 1].run.Throws?
            && var error := st.starts[|st.starts| - 1].run.error;
               entry.failure == error.code && entry.fee == (if error.fee.Some? then error.fee.value else 0)
               && entry.finishReason == error.finishReason && entry.usage == error.usage
  {
    LivesAgree(loop, happenings);
    hide Loop.LifeOf, Candidate, Totals.Plus, Totals.PlusCritique, Identity, LineageFrom;
  }

  // ----- A finished stage that belongs is always taken

  predicate OfThisLoop(settings: Settings, s: Summary) {
    s.taskJob == settings.taskJob && s.taskBrief == settings.taskBrief && s.runtime == settings.runtime
  }

  /** A candidate of this loop, written from the given packet of the given job, repairing the given draft. */
  predicate IsDue(settings: Settings, s: Summary, lineage: Option<Lineage>, repairOf: Option<Origin>) {
    OfThisLoop(settings, s) && s.researchFrom == lineage && s.repairSource == repairOf
  }

  /** What a finished stage is taken for: its summary goes on record exactly if it is due, and the loop goes on from a settled one. */
  lemma ReusedSample(loop: Loop, world: World, st: LoopState, name: Stage, lineage: Option<Lineage>, repairOf: Option<Origin>)
    requires Typed(st.directories) && !name.Critique? && st.directories[name].Done?
    ensures var turn, s := loop.SampleTurn(world, st, name, lineage, repairOf), st.directories[name].result.summary;
            && turn.state.directories == st.directories && turn.state.saved == st.saved
            && turn.state.record.content
               == (if IsDue(loop.settings, s, lineage, repairOf) then Added(st.record.content, name, s) else st.record.content)
            && turn.result
               == (if !IsDue(loop.settings, s, lineage, repairOf) then Failure(Plain(StageMismatch))
                   else if s.counts.unknownDispatches != 0 then Failure(Plain(UnresolvedDispatch))
                   else if s.counts.failedDispatches != 0 then Failure(Plain(FailedDispatch))
                   else Success(s))
  {
    hide Added;
  }

  /** Both samples and the first selection stay on record through the critique and the repair. */
  ghost predicate HasSamples(content: Content, a: Summary, b: Summary, first: Choice) {
    && A in content.candidates && content.candidates[A] == a && B in content.candidates && content.candidates[B] == b
    && content.stage1 == Some(first)
  }

  lemma ImproveKeepsSamples(loop: Loop, world: World, st: LoopState, a: Summary, b: Summary, packet: Option<string>,
                            chosen: Stage, selected: Summary, first: Choice)
    requires Typed(st.directories) && HasSamples(st.record.content, a, b, first)
    requires st.saved.Some? && HasSamples(st.saved.value.content, a, b, first)
    ensures var next := loop.ImproveTurn(world, st, a, packet, chosen, selected).state;
            HasSamples(next.record.content, a, b, first) && next.saved.Some? && HasSamples(next.saved.value.content, a, b, first)
  {
    CritiqueTouches(loop, world, st, selected, packet);
    var critiqued := loop.CritiqueTurn(world, st, selected, packet);
    hide Loop.CritiqueTurn, CritiqueBelongs;
    if critiqued.result.Success? {
      var made := critiqued.state.WithContent(WithCritique(st.record.content, critiqued.result.value)).Saved();
      RepairKeepsSamples(loop, world, made, a, b, packet, chosen, selected, first);
    } else if loop.IsRefusal(critiqued.result.error) {
      RefusalSays(loop, critiqued.state, critiqued.result.error.error, chosen);
      RefusalKeepsRest(loop, critiqued.state, critiqued.result.error.error, chosen);
      hide Loop.Refusal;
    }
    hide Loop.RepairTurn, Totals.PlusCritique;
  }

  lemma RepairKeepsSamples(loop: Loop, world: World, st: LoopState, a: Summary, b: Summary, packet: Option<string>,
                           chosen: Stage, selected: Summary, first: Choice)
    requires Typed(st.directories) && HasSamples(st.record.content, a, b, first)
    ensures var next := loop.RepairTurn(world, st, a, packet, chosen, selected).state;
            HasSamples(next.record.content, a, b, first) && next.saved == st.saved
  {
    var seeded := st.WithContent(st.record.content.(seededRepair := loop.settings.research));
    SampleAdds(loop, world, seeded, Repair, LineageFrom(loop.settings, a, packet), Some(selected.origin));
    hide Loop.SampleTurn, LineageFrom, Belongs, KeepsFinished, Settled, Totals.Plus;
  }

  /** A sample a that the loop goes on from, and the packet it transfers. */
  predicate FirstIsTaken(settings: Settings, d: map<Stage, Directory>)
    requires Typed(d)
  {
    && d[A].Done? && IsDue(settings, d[A].result.summary, None, None) && Settled(d[A].result.summary)
    && (settings.research ==> d[A].result.packet.Some?)
  }

  /** The lineage of what is written from sample a's packet. */
  function PacketLineage(settings: Settings, d: map<Stage, Directory>): Option<Lineage>
    requires Typed(d) && FirstIsTaken(settings, d)
  {
    if settings.research then Some(Lineage(d[A].result.summary.jobId, d[A].result.packet.value)) else None
  }

  lemma FirstIsReused(loop: Loop, world: World, st: LoopState)
    requires Typed(st.directories) && FirstIsTaken(loop.settings, st.directories) && st.record.content == BLANK
    ensures var a := st.directories[A].result.summary;
            var packet := if loop.settings.research then st.directories[A].result.packet else None;
            var middle := AfterFirst(loop, loop.SampleTurn(world, st.Saved(), A, None, None).state, packet);
            && loop.AttemptTurn(world, st) == loop.SecondTurn(world, middle, a, packet)
            && middle.directories == st.directories && middle.record.content.candidates == map[A := a]
            && middle.saved == Some(st.record) && middle.record.content.stage1.None?
            && LineageFrom(loop.settings, a, packet) == PacketLineage(loop.settings, st.directories)
  {
    ReusedSample(loop, world, st.Saved(), A, None, None);
    hide Loop.SampleTurn, Loop.SecondTurn, Totals.Plus;
  }

  lemma SecondIsReused(loop: Loop, world: World, st: LoopState, a: Summary, packet: Option<string>)
    requires Typed(st.directories) && st.directories[B].Done? && st.record.content.candidates == map[A := a]
    requires st.record.content.stage1.None?
    ensures var turn, b := loop.SecondTurn(world, st, a, packet), st.directories[B].result.summary;
            var due := IsDue(loop.settings, b, LineageFrom(loop.settings, a, packet), None);
            var first := loop.compare(a, b);
            && (if due && Settled(b) then
                  && turn.state.saved.Some?
                  && HasSamples(turn.state.saved.value.content, a, b, Choice(if first.firstWins then A else B, Compared(first.step, first.rates)))
                  && HasSamples(turn.state.record.content, a, b, Choice(if first.firstWins then A else B, Compared(first.step, first.rates)))
                else
                  && turn.result.Failure? && turn.result.error.Threw? && turn.state.record.content.stage1.None?
                  && turn.state.record.content.candidates == (if due then map[A := a, B := b] else map[A := a])
                  && (!due ==> turn.result.error == Plain(StageMismatch)))
  {
    var lineage := LineageFrom(loop.settings, a, packet);
    ReusedSample(loop, world, st, B, lineage, None);
    var turn := loop.SampleTurn(world, st, B, lineage, None);
    var b := st.directories[B].result.summary;
    hide Loop.SampleTurn, LineageFrom, Totals.Plus, Identity;
    if turn.result.Success? {
      var first := loop.compare(a, b);
      var chosen, selected := if first.firstWins then A else B, if first.firstWins then a else b;
      var recorded := loop.Stage1Recorded(turn.state, a, b);
      if selected.artifactsPresent {
        ImproveKeepsSamples(loop, world, recorded, a, b, packet, chosen, selected, recorded.record.content.stage1.value);
      }
    }
    hide Loop.ImproveTurn;
  }

  /**
   * However a life went before, an invocation that finds sample a settled and sample b finished takes b, whatever else it
   * meets, exactly if b is of this task and runtime, repairs nothing, and was written from a's packet in a research loop
   * and from none otherwise; and it selects between them exactly if b's dispatches are settled.
   */
  lemma FinishedSamplesAreTaken(loop: Loop, world: World, st: LoopState)
    requires Typed(st.directories) && !HasFinal(st.saved)
    requires FirstIsTaken(loop.settings, st.directories) && st.directories[B].Done?
    ensures var a, b := st.directories[A].result.summary, st.directories[B].result.summary;
            var next := loop.RunTurn(world, st).state;
            var due := IsDue(loop.settings, b, PacketLineage(loop.settings, st.directories), None);
            && next.saved.Some? && A in next.saved.value.content.candidates && next.saved.value.content.candidates[A] == a
            && (B in next.saved.value.content.candidates <==> due)
            && (due ==> next.saved.value.content.candidates[B] == b)
            && (next.saved.value.content.stage1.Some? <==> due && Settled(b))
            && (!due ==> next.saved.value.failure == Some(StageMismatch))
  {
    hide Loop.SampleTurn, Loop.SecondTurn, Loop.AttemptTurn, LineageFrom, PacketLineage, IsDue, Settled;
    assert st.directories[A].Done?;
    hide FirstIsTaken;
    var blank := st.(record := LoopRecord(BLANK, [], None));
    var packet := if loop.settings.research then st.directories[A].result.packet else None;
    FirstIsReused(loop, world, blank);
    var middle := AfterFirst(loop, loop.SampleTurn(world, blank.Saved(), A, None, None).state, packet);
    SecondIsReused(loop, world, middle, st.directories[A].result.summary, packet);
  }

  /** A finished critique of this draft, on this packet. */
  predicate CritiqueIsDue(d: map<Stage, Directory>, selected: Summary, packet: Option<string>)
    requires Typed(d)
  {
    && d[Critique].Done? && d[Critique].result.critique.snapshotSha256 == packet
    && (d[Critique].result.critique.source.Some? ==> d[Critique].result.critique.source.value == selected.origin)
  }

  lemma RepairIsReused(loop: Loop, world: World, st: LoopState, a: Summary, packet: Option<string>, chosen: Stage, selected: Summary)
    requires Typed(st.directories) && st.directories[Repair].Done?
    ensures var turn, r := loop.RepairTurn(world, st, a, packet, chosen, selected), st.directories[Repair].result.summary;
            var due := IsDue(loop.settings, r, LineageFrom(loop.settings, a, packet), Some(selected.origin));
            && (turn.result.Success? <==> due && Settled(r))
            && (turn.result.Failure? ==> turn.result.error.Threw? && turn.state.record.content.final == st.record.content.final)
            && turn.state.record.content.candidates
               == (if due then st.record.content.candidates[Repair := r] else st.record.content.candidates)
            && (turn.result.Success? ==> turn.state.record.content.final == Some(turn.result.value))
  {
    var seeded := st.WithContent(st.record.content.(seededRepair := loop.settings.research));
    ReusedSample(loop, world, seeded, Repair, LineageFrom(loop.settings, a, packet), Some(selected.origin));
    hide Loop.SampleTurn, LineageFrom, Totals.Plus;
  }

  lemma ImproveIsReused(loop: Loop, world: World, st: LoopState, a: Summary, packet: Option<string>, chosen: Stage, selected: Summary)
    requires Typed(st.directories) && st.directories[Critique].Done? && st.directories[Repair].Done?
    requires Repair !in st.record.content.candidates && st.record.content.final.None?
    ensures var turn, r := loop.ImproveTurn(world, st, a, packet, chosen, selected), st.directories[Repair].result.summary;
            var due := CritiqueIsDue(st.directories, selected, packet)
                       && IsDue(loop.settings, r, LineageFrom(loop.settings, a, packet), Some(selected.origin));
            && (turn.result.Success? <==> due && Settled(r))
            && (turn.result.Failure? ==> turn.result.error.Threw?)
            && (turn.state.record.content.final.Some? <==> due && Settled(r))
            && (Repair in turn.state.record.content.candidates <==> due)
            && (due ==> turn.state.record.content.candidates[Repair] == r)
  {
    var critiqued := loop.CritiqueTurn(world, st, selected, packet);
    assert critiqued.state.directories == st.directories && critiqued.state.record.content == st.record.content;
    if critiqued.result.Success? {
      var made := critiqued.state.WithContent(WithCritique(st.record.content, critiqued.result.value)).Saved();
      RepairIsReused(loop, world, made, a, packet, chosen, selected);
    }
    hide Loop.RepairTurn, IsDue, LineageFrom, Totals.PlusCritique, Settled;
  }

  /**
   * And an invocation that finds the critique and the repair finished too, behind a first selection with a draft, chooses
   * exactly if the critique is of that draft and packet and the repair is due for it and settled.
   */
  lemma FinishedRepairsAreTaken(loop: Loop, world: World, st: LoopState, selected: Summary)
    requires Typed(st.directories) && !HasFinal(st.saved)
    requires FirstIsTaken(loop.settings, st.directories) && st.directories[B].Done?
    requires var b := st.directories[B].result.summary;
             && IsDue(loop.settings, b, PacketLineage(loop.settings, st.directories), None) && Settled(b)
             && selected == (if loop.compare(st.directories[A].result.summary, b).firstWins then st.directories[A].result.summary else b)
    requires selected.artifactsPresent && st.directories[Critique].Done? && st.directories[Repair].Done?
    ensures var r := st.directories[Repair].result.summary;
            var next := loop.RunTurn(world, st).state;
            var packet := if loop.settings.research then st.directories[A].result.packet else None;
            var due := CritiqueIsDue(st.directories, selected, packet)
                       && IsDue(loop.settings, r, PacketLineage(loop.settings, st.directories), Some(selected.origin));
            && next.saved.Some? && (HasFinal(next.saved) <==> due && Settled(r))
            && (Repair in next.saved.value.content.candidates <==> due)
            && (due ==> next.saved.value.content.candidates[Repair] == r)
  {
    var blank := st.(record := LoopRecord(BLANK, [], None));
    var a, b := st.directories[A].result.summary, st.directories[B].result.summary;
    var packet := if loop.settings.research then st.directories[A].result.packet else None;
    FirstIsReused(loop, world, blank);
    var middle := AfterFirst(loop, loop.SampleTurn(world, blank.Saved(), A, None, None).state, packet);
    FirstEndsNothing(loop, world, blank, packet);
    SecondReachesRepair(loop, world, middle, a, packet, selected);
    hide Loop.SampleTurn, Loop.SecondTurn, Loop.AttemptTurn, LineageFrom, PacketLineage, IsDue, FirstIsTaken, CritiqueIsDue, Settled;
  }

  lemma FirstEndsNothing(loop: Loop, world: World, st: LoopState, packet: Option<string>)
    requires Typed(st.directories) && st.record.content == BLANK
    ensures AfterFirst(loop, loop.SampleTurn(world, st.Saved(), A, None, None).state, packet).record.content.final.None?
  {
    SampleTouches(loop, world, st.Saved(), A, None, None);
    hide Loop.SampleTurn;
  }

  lemma SecondReachesRepair(loop: Loop, world: World, st: LoopState, a: Summary, packet: Option<string>, selected: Summary)
    requires Typed(st.directories) && st.directories[B].Done? && st.record.content.candidates == map[A := a]
    requires st.record.content.final.None? && st.directories[Critique].Done? && st.directories[Repair].Done?
    requires var b := st.directories[B].result.summary;
             && IsDue(loop.settings, b, LineageFrom(loop.settings, a, packet), None) && Settled(b)
             && selected == (if loop.compare(a, b).firstWins then a else b) && selected.artifactsPresent
    ensures var turn, r := loop.SecondTurn(world, st, a, packet), st.directories[Repair].result.summary;
            var due := CritiqueIsDue(st.directories, selected, packet)
                       && IsDue(loop.settings, r, LineageFrom(loop.settings, a, packet), Some(selected.origin));
            && (turn.result.Failure? ==> turn.result.error.Threw?)
            && (turn.state.record.content.final.Some? <==> due && Settled(r))
            && (Repair in turn.state.record.content.candidates <==> due)
            && (due ==> turn.state.record.content.candidates[Repair] == r)
  {
    var b := st.directories[B].result.summary;
    ReusedSample(loop, world, st, B, LineageFrom(loop.settings, a, packet), None);
    var turn := loop.SampleTurn(world, st, B, LineageFrom(loop.settings, a, packet), None);
    var chosen := if loop.compare(a, b).firstWins then A else B;
    hide Loop.SampleTurn, LineageFrom, Totals.Plus, Identity, IsDue, CritiqueIsDue;
    ImproveIsReused(loop, world, loop.Stage1Recorded(turn.state, a, b), a, packet, chosen, selected);
    hide Loop.ImproveTurn;
  }
}
